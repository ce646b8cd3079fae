/** The receiving side of a connection: bytes arrive in pieces of any size until it ends. */
module Sockets {
  import opened Text

  predicate OccursAt(s: string, d: string, p: nat) {
    p + |d| <= |s| && s[p..p + |d|] == d
  }

  /** The first position from `from` on at which `d` occurs, or -1. */
  function FirstAt(s: string, d: string, from: nat): (p: int)
    ensures p == -1 || (from <= p && OccursAt(s, d, p) && forall k | from <= k < p :: !OccursAt(s, d, k))
    ensures p == -1 ==> forall k | from <= k :: !OccursAt(s, d, k)
    decreases |s| - from
  {
    if from + |d| > |s| then -1 else if OccursAt(s, d, from) then from else FirstAt(s, d, from + 1)
  }

  /** The end of the first occurrence of `d`, or -1. */
  function EndOf(s: string, d: string): (e: int)
    ensures e == -1 || |d| <= e <= |s|
  {
    var p := FirstAt(s, d, 0);
    if p < 0 then -1 else p + |d|
  }

  lemma EndIs(s: string, d: string, p: nat)
    requires OccursAt(s, d, p) && forall k | 0 <= k < p :: !OccursAt(s, d, k)
    ensures EndOf(s, d) == p + |d|
  {
    var q := FirstAt(s, d, 0);
    assert q >= 0;
  }

  /** An occurrence that has arrived is the first occurrence of the whole stream. */
  lemma EndOfPrefix(s: string, t: string, d: string)
    requires EndOf(s, d) >= 0
    ensures EndOf(s + t, d) == EndOf(s, d)
  {
    var p := FirstAt(s, d, 0);
    assert (s + t)[p..p + |d|] == s[p..p + |d|];
    forall k | 0 <= k < p
      ensures !OccursAt(s + t, d, k)
    {
      assert !OccursAt(s, d, k);
      assert (s + t)[k..k + |d|] == s[k..k + |d|];
    }
    EndIs(s + t, d, p);
  }

  class Socket {
    /** The bytes still to arrive before the connection ends or fails. */
    var stream: string
    /** Whether it ends, at the end of the peer's stream, or fails otherwise. */
    const eof: bool

    constructor (stream: string, eof: bool)
      ensures this.stream == stream && this.eof == eof
    {
      this.stream, this.eof := stream, eof;
    }

    /** async_read_until: reads pieces of any size until the buffer holds the delimiter; it may read
        past it. Fails iff the delimiter never arrives. */
    method ReadUntil(buffer: string, delim: string) returns (ok: bool, filled: string, end: nat)
      modifies this
      ensures ok <==> EndOf(buffer + old(stream), delim) >= 0
      ensures filled + stream == buffer + old(stream) && |buffer| <= |filled|
      ensures ok ==> end == EndOf(filled, delim) == EndOf(buffer + old(stream), delim) <= |filled|
    {
      filled := buffer;
      var e := EndOf(filled, delim);
      while e < 0 && stream != ""
        invariant filled + stream == buffer + old(stream) && |buffer| <= |filled|
        invariant e == EndOf(filled, delim)
        decreases |stream|
      {
        var n :| 1 <= n <= |stream|;
        assert stream == stream[..n] + stream[n..];
        filled := filled + stream[..n];
        stream := stream[n..];
        e := EndOf(filled, delim);
      }
      ok := e >= 0;
      end := if ok then e else 0;
      if ok {
        EndOfPrefix(filled, stream, delim);
      } else {
        assert filled == filled + stream;
      }
    }

    /** async_read with transfer_exactly(n). */
    method ReadExactly(buffer: string, n: nat) returns (ok: bool, filled: string)
      modifies this
      ensures ok <==> n <= |old(stream)|
      ensures filled + stream == buffer + old(stream)
      ensures ok ==> |filled| == |buffer| + n
    {
      ok := n <= |stream|;
      var k := if ok then n else |stream|;
      filled := buffer + stream[..k];
      assert stream == stream[..k] + stream[k..];
      stream := stream[k..];
    }

    /** async_read without a bound: takes everything; reports success iff it met the end of the stream. */
    method ReadToEnd(buffer: string) returns (ok: bool, filled: string)
      modifies this
      ensures ok == eof && filled == buffer + old(stream) && stream == ""
    {
      ok, filled := eof, buffer + stream;
      stream := "";
    }
  }
}
