/** The chunked decoder of the client, against the encoding of section 4.1 of RFC 7230. */
module Chunked {
  import opened Wrappers
  import opened Text
  import opened Sockets

  // ---- Encoding ----

  /** A chunk as it may be written: its size in hexadecimal digits of either case, with or without
      leading zeros, an optional extension, and its data. */
  datatype Chunk = Chunk(size: string, ext: string, data: string)

  predicate ValidHead(size: string, ext: string, length: nat) {
    && size != "" && IsHex(size) && ReadHex(size, 0) == length
    && (ext != "" ==> ext[0] == ';') && '\r' !in ext && '\n' !in ext
  }

  predicate ValidChunk(c: Chunk) {
    ValidHead(c.size, c.ext, |c.data|) && 0 < |c.data| <= LONG_MAX - 2
  }

  /** A chunked body without trailers: its chunks and its last chunk, of size 0. */
  datatype Body = Body(chunks: seq<Chunk>, zero: string, ext: string)

  predicate ValidBody(b: Body) {
    (forall i | 0 <= i < |b.chunks| :: ValidChunk(b.chunks[i])) && ValidHead(b.zero, b.ext, 0)
  }

  function EncodeChunk(c: Chunk): string { c.size + c.ext + CRLF + c.data + CRLF }

  function Encode(b: Body): string
    decreases |b.chunks|
  {
    if b.chunks == [] then b.zero + b.ext + CRLF + CRLF
    else EncodeChunk(b.chunks[0]) + Encode(b.(chunks := b.chunks[1..]))
  }

  function DataOf(chunks: seq<Chunk>): string {
    if chunks == [] then "" else chunks[0].data + DataOf(chunks[1..])
  }

  // ---- Decoding ----

  /** How a read ended: the content buffer on success, an I/O error, or a number that throws. */
  datatype Reply = Done(content: string) | IoError | Throws

  /** One transfer_exactly request: `have` bytes of the `need` the chunk and its CRLF take were
      already there. */
  datatype Ask = Ask(bytes: int, have: int, need: int)

  function Drop(s: string, n: nat): string { if n <= |s| then s[n..] else "" }

  /** A size line at the front of a buffer: the length it announces, and what follows. */
  lemma SizeLine(size: string, ext: string, length: nat, rest: string)
    requires ValidHead(size, ext, length) && length <= LONG_MAX
    ensures var s := size + ext + CRLF + rest;
            && EndOf(s, CRLF) == |size + ext| + 2
            && Getline(s) == (size + ext + "\r", rest)
            && Stol16(size + ext) == Some(length)
  {
    hide EndOf, Getline, Stol16, ReadHex;
    var line := size + ext;
    var s := line + CRLF + rest;
    forall i | 0 <= i < |line|
      ensures line[i] != '\r' && line[i] != '\n'
    {
      if i < |size| {
        assert HexDigit(size[i]) >= 0;
      } else {
        assert line[i] == ext[i - |size|];
      }
    }
    assert s[|line|..|line| + 2] == CRLF;
    forall k | 0 <= k < |line|
      ensures !OccursAt(s, CRLF, k)
    {
      assert s[k] == line[k];
      assert k + 2 <= |s| ==> s[k..k + 2][0] == s[k];
      assert CRLF[0] == '\r';
    }
    EndIs(s, CRLF, |line|);
    assert s == (line + "\r") + "\n" + rest;
    GetlineIs(line + "\r", rest);
    Stol16Hex(size, ext);
  }

  /** What a stream of bytes decodes to: the data and the bytes after the body, an end that comes too
      early, or a size that throws. */
  datatype Decoded = Decoded(data: string, rest: string) | Broken | Threw

  /** The decoder on all the bytes that will ever arrive; `tmp` is the data so far. The size line ends at
      its first newline, although the CRLF searched for may come later; the bytes of the chunk are
      counted from that CRLF. Negative sizes end the body like 0. A size whose sum with 2 overflows is
      taken to throw, and so is an empty size line. */
  function Decode(input: string, tmp: string): Decoded
    decreases |input|
  {
    var e := EndOf(input, CRLF);
    var (line, after) := Getline(input);
    if e < 0 then Broken
    else if line == "" then Threw
    else
      match Stol16(line[..|line| - 1])
      case None => Threw
      case Some(length) =>
        if length > LONG_MAX - 2 then Threw
        else if 2 + length > |input| - e then Broken
        else if length <= 0 then Decoded(tmp, Drop(after, 2))
        else
          LineLength(input);
          Decode(after[length + 2..], tmp + after[..length])
  }

  /** A reply to what the bytes decode to. Of the bytes after the body, those already read stay in the
      content buffer, in front of the data. */
  ghost predicate Replies(d: Decoded, r: Reply) {
    match d
    case Decoded(data, rest) => exists j | 0 <= j <= |rest| :: r == Done(rest[..j] + data)
    case Broken => r == IoError
    case Threw => r == Throws
  }

  /** A body that is still owed starts with a size line. */
  lemma BodyLine(b: Body, tail: string, input: string, length: int)
    requires ValidBody(b) && input == Encode(b) + tail
    ensures EndOf(input, CRLF) >= 2
    ensures var (line, rest) := Getline(input);
            && line != "" && EndOf(input, CRLF) == |line| + 1
            && (if b.chunks == [] then Stol16(line[..|line| - 1]) == Some(0) && rest == CRLF + tail
                else
                  var c, b' := b.chunks[0], b.(chunks := b.chunks[1..]);
                  && Stol16(line[..|line| - 1]) == Some(|c.data|) && 0 < |c.data| <= LONG_MAX - 2
                  && rest == c.data + CRLF + (Encode(b') + tail) && ValidBody(b'))
  {
    hide EndOf, Getline, Stol16, ValidHead, ReadHex;
    if b.chunks == [] {
      SizeLine(b.zero, b.ext, 0, CRLF + tail);
      assert input == b.zero + b.ext + CRLF + (CRLF + tail);
      LineOf(b.zero + b.ext);
    } else {
      var c, b' := b.chunks[0], b.(chunks := b.chunks[1..]);
      assert ValidChunk(c);
      var rest := c.data + CRLF + (Encode(b') + tail);
      SizeLine(c.size, c.ext, |c.data|, rest);
      assert input == c.size + c.ext + CRLF + rest by { ChunkFirst(c, Encode(b'), tail); }
      LineOf(c.size + c.ext);
    }
  }

  lemma LineOf(line: string)
    ensures var l := line + "\r"; l != "" && l[..|l| - 1] == line
  {}

  lemma ChunkFirst(c: Chunk, more: string, tail: string)
    ensures EncodeChunk(c) + more + tail == c.size + c.ext + CRLF + (c.data + CRLF + (more + tail))
  {
    var head := c.size + c.ext + CRLF;
    assert head + c.data + CRLF + more + tail == head + (c.data + CRLF + (more + tail));
  }

  /** Decoding undoes encoding, for any bytes that follow. */
  lemma {:induction false} DecodeEncode(b: Body, tail: string, tmp: string)
    requires ValidBody(b)
    ensures Decode(Encode(b) + tail, tmp) == Decoded(tmp + DataOf(b.chunks), tail)
    decreases |b.chunks|
  {
    hide EndOf, Getline, Stol16, ValidBody;
    var input := Encode(b) + tail;
    BodyLine(b, tail, input, 0);
    LineLength(input);
    if b.chunks == [] {
      assert (CRLF + tail)[2..] == tail && tmp + "" == tmp;
    } else {
      var data, b' := b.chunks[0].data, b.(chunks := b.chunks[1..]);
      var after := data + CRLF + (Encode(b') + tail);
      assert after[..|data|] == data && after[|data| + 2..] == Encode(b') + tail;
      DecodeEncode(b', tail, tmp + data);
      assert tmp + data + DataOf(b'.chunks) == tmp + (data + DataOf(b'.chunks));
    }
  }

  /** No proper prefix of an encoded body decodes. */
  lemma {:induction false} CutBreaks(b: Body, n: nat, tmp: string)
    requires ValidBody(b) && n < |Encode(b)|
    ensures Decode(Encode(b)[..n], tmp) == Broken
    decreases |b.chunks|
  {
    hide EndOf, Getline, Stol16, ValidBody;
    var whole, part := Encode(b), Encode(b)[..n];
    assert whole + "" == whole;
    BodyLine(b, "", whole, 0);
    if EndOf(part, CRLF) >= 0 {
      CutLine(whole, n);
      var after := Getline(part).1;
      if b.chunks != [] && |b.chunks[0].data| + 2 <= |after| {
        var data, b' := b.chunks[0].data, b.(chunks := b.chunks[1..]);
        assert Encode(b') + "" == Encode(b');
        assert after[|data| + 2..] == Encode(b')[..|after| - |data| - 2];
        LineLength(part);
        CutBreaks(b', |after| - |data| - 2, tmp + after[..|data|]);
      }
    }
  }

  /** A size line that starts with no number throws. */
  lemma GarbageThrows(line: string, more: string, tmp: string)
    requires '\r' !in line && '\n' !in line
    requires line != "" ==> HexDigit(line[0]) < 0 && !IsSpace(line[0]) && line[0] != '+' && line[0] != '-'
    ensures Decode(line + CRLF + more, tmp) == Threw
  {
    hide EndOf, Getline, HexDigit, IsSpace, Stol16;
    NoNumber(line);
    var s := line + CRLF + more;
    assert s[|line|..|line| + 2] == CRLF;
    forall k | 0 <= k < |line| ensures !OccursAt(s, CRLF, k) {
      assert s[k] == line[k] && s[k..k + 2][0] == s[k];
    }
    EndIs(s, CRLF, |line|);
    assert s == (line + "\r") + "\n" + more;
    GetlineIs(line + "\r", more);
    LineOf(line);
  }

  /** The first line of a prefix that holds its end. */
  lemma CutLine(whole: string, n: nat)
    requires n <= |whole| && EndOf(whole[..n], CRLF) >= 0
    ensures EndOf(whole[..n], CRLF) == EndOf(whole, CRLF) <= n
    ensures var (line, after) := Getline(whole);
            |whole| == |line| + 1 + |after| && |line| < n && Getline(whole[..n]) == (line, after[..n - |line| - 1])
  {
    hide EndOf, Getline;
    assert whole[..n] + whole[n..] == whole;
    EndOfPrefix(whole[..n], whole[n..], CRLF);
    GetlinePrefix(whole[..n], whole[n..]);
  }

  lemma LineLength(s: string)
    requires EndOf(s, CRLF) >= 0
    ensures var (line, rest) := Getline(s); |s| == |line| + 1 + |rest| && |line| + 1 <= EndOf(s, CRLF)
  {
    hide Getline;
    GetlinePrefix(s, "");
  }

  // ---- The loop ----

  /** Every size line ends at the CRLF searched for. */
  predicate Regular(input: string)
    decreases |input|
  {
    var e := EndOf(input, CRLF);
    var (line, after) := Getline(input);
    e < 0 || line == "" ||
    (e == |line| + 1 &&
     match Stol16(line[..|line| - 1])
     case None => true
     case Some(length) => 0 < length && length + 2 <= |after| ==> Regular(after[length + 2..]))
  }

  lemma {:induction false} EncodedIsRegular(b: Body, tail: string)
    requires ValidBody(b)
    ensures Regular(Encode(b) + tail)
    decreases |b.chunks|
  {
    hide EndOf, Getline, Stol16, ValidBody;
    BodyLine(b, tail, Encode(b) + tail, 0);
    if b.chunks != [] {
      var data, b' := b.chunks[0].data, b.(chunks := b.chunks[1..]);
      var after := data + CRLF + (Encode(b') + tail);
      assert after[|data| + 2..] == Encode(b') + tail;
      EncodedIsRegular(b', tail);
    }
  }

  /** Every exact read asked for the bytes the chunk still missed, and no more. */
  predicate Frugal(asks: seq<Ask>) {
    forall i | 0 <= i < |asks| :: asks[i].bytes + asks[i].have == asks[i].need
  }

  lemma FrugalMore(asks: seq<Ask>, bytes: int, have: int, need: int)
    ensures Frugal(asks) && bytes + have == need ==> Frugal(asks + [Ask(bytes, have, need)])
  {}

  lemma GetlinePrefix(filled: string, stream: string)
    requires EndOf(filled, CRLF) >= 0
    ensures var (line, rest) := Getline(filled);
            && filled == line + "\n" + rest
            && Getline(filled + stream) == (line, rest + stream)
            && |line| + 1 <= EndOf(filled, CRLF)
  {
    var p := FirstAt(filled, CRLF, 0);
    assert filled[p..p + 2][1] == '\n';
    assert filled[p + 1] == '\n';
    var i := Find(filled, '\n');
    assert 0 <= i <= p + 1;
    var (line, rest) := Getline(filled);
    assert filled == line + "\n" + rest;
    assert filled + stream == line + "\n" + (rest + stream);
    GetlineIs(line, rest + stream);
  }

  lemma DoneReplies(tmp: string, after: string, chunk: string, left: string)
    requires chunk + left == after
    ensures Replies(Decoded(tmp, Drop(after, 2)), Done(Drop(chunk, 2) + tmp))
  {
    var rest := Drop(after, 2);
    var j := if |chunk| < 2 then 0 else |chunk| - 2;
    assert Drop(chunk, 2) == rest[..j];
  }

  /** One turn of the decoder. */
  lemma DecodeLine(input: string, tmp: string, line: string, after: string, length: int)
    requires EndOf(input, CRLF) >= 0 && line != "" && Getline(input) == (line, after)
    requires Stol16(line[..|line| - 1]) == Some(length) && length <= LONG_MAX - 2
    ensures 2 + length > |input| - EndOf(input, CRLF) ==> Decode(input, tmp) == Broken
    ensures length <= 0 && 2 + length <= |input| - EndOf(input, CRLF) ==>
              Decode(input, tmp) == Decoded(tmp, Drop(after, 2))
    ensures 0 < length && 2 + length <= |input| - EndOf(input, CRLF) ==>
              2 + length <= |after| && Decode(input, tmp) == Decode(after[length + 2..], tmp + after[..length])
  {
    hide EndOf, Getline, Stol16, Drop;
    LineLength(input);
  }

  lemma RegularLine(input: string, line: string, after: string, length: int)
    requires EndOf(input, CRLF) >= 0 && line != "" && Getline(input) == (line, after) && Regular(input)
    requires Stol16(line[..|line| - 1]) == Some(length)
    ensures EndOf(input, CRLF) == |line| + 1
    ensures 0 < length && length + 2 <= |after| ==> Regular(after[length + 2..])
  {
    hide EndOf, Getline, Stol16;
  }

  lemma BadLine(input: string, tmp: string)
    ensures EndOf(input, CRLF) < 0 ==> Decode(input, tmp) == Broken
    ensures EndOf(input, CRLF) >= 0 && Getline(input).0 == "" ==> Decode(input, tmp) == Threw
    ensures EndOf(input, CRLF) >= 0 && Getline(input).0 != "" ==>
              match Stol16(Getline(input).0[..|Getline(input).0| - 1])
              case None => Decode(input, tmp) == Threw
              case Some(length) => length > LONG_MAX - 2 ==> Decode(input, tmp) == Threw
  {
    hide EndOf, Getline, Stol16, Drop;
  }

  lemma Pieces(chunk: string, left: string, after: string, length: nat)
    requires chunk + left == after && length + 2 <= |chunk|
    ensures chunk[length..][2..] + left == after[length + 2..] && chunk[..length] == after[..length]
  {}

  /** `read_chunked`: `buffer` holds what arrived with the header. Whatever arrives and wherever the reads
      stop, the reply is what the bytes decode to; and when every size line is regular, as in every
      well-formed body, no read asks for more than the chunk still misses. */
  method ReadChunked(socket: Socket, buffer: string) returns (r: Reply, ghost asks: seq<Ask>)
    modifies socket
    ensures Replies(Decode(buffer + old(socket.stream), ""), r)
    ensures Regular(buffer + old(socket.stream)) ==> Frugal(asks)
  {
    hide Decode, Regular, EndOf, Getline, Stol16, Drop, Frugal;
    ghost var input := buffer + socket.stream;
    var content, tmp := buffer, "";
    asks := [];
    NoneAsked();
    while true
      invariant Decode(content + socket.stream, tmp) == Decode(input, "")
      invariant Regular(input) ==> Regular(content + socket.stream) && Frugal(asks)
      decreases |content| + |socket.stream|
    {
      ghost var owed := content + socket.stream;
      BadLine(owed, tmp);
      var ok, filled, transferred := socket.ReadUntil(content, CRLF);
      if !ok { return IoError, asks; }
      GetlinePrefix(filled, socket.stream);
      var line, rest := Getline(filled).0, Getline(filled).1;
      ghost var after := rest + socket.stream;
      transferred := transferred - (|line| + 1);
      if line == "" { return Throws, asks; }
      var size := Stol16(line[..|line| - 1]);
      if size.None? || size.value > LONG_MAX - 2 { return Throws, asks; }
      var length := size.value;
      DecodeLine(owed, tmp, line, after, length);
      if Regular(owed) { RegularLine(owed, line, after, length); }
      var additional := |rest| - transferred;
      var chunk := rest;
      if 2 + length > additional {
        FrugalMore(asks, 2 + length - additional, |rest|, 2 + length);
        asks := asks + [Ask(2 + length - additional, |rest|, 2 + length)];
        ok, chunk := socket.ReadExactly(rest, 2 + length - additional);
        if !ok { return IoError, asks; }
      }
      if length > 0 {
        Pieces(chunk, socket.stream, after, length);
        tmp := tmp + chunk[..length];
        content := chunk[length..][2..];
      } else {
        DoneReplies(tmp, after, chunk, socket.stream);
        return Done(Drop(chunk, 2) + tmp), asks;
      }
    }
  }

  lemma NoneAsked()
    ensures Frugal([])
  {}
}
