/** Messages that end too early: none passes for a whole one, unless only its end delimits it. */
module Truncation {
  import opened Wrappers
  import opened Text
  import opened Sockets
  import opened HttpHeaders
  import opened HttpRequest
  import opened HttpResponse
  import C = Chunked

  lemma NotYet(s: string, d: string, n: nat)
    requires n < EndOf(s, d)
    ensures EndOf(s[..n], d) < 0
  {
    assert s[..n] + s[n..] == s;
    if EndOf(s[..n], d) >= 0 { EndOfPrefix(s[..n], s[n..], d); }
  }

  // ---- Requests ----

  /** Any proper prefix of a written request ends in an I/O error at the server. */
  lemma RequestCut(verb: string, target: string, host: string, header: Headers, content: string, n: nat, r: Outcome)
    requires Sendable(verb, target, host, header, content) && n < |RequestText(verb, target, host, header, content)|
    requires ServerSees(RequestText(verb, target, host, header, content)[..n], r)
    ensures r == IoError
  {
    hide Getline, Fields, EndOf, ParseStart, FieldLines, IsLength, StartLine, ParseRequest, Stoull, SeesAfter,
        RequestFields, Sendable, Legible;
    SendableLengths(verb, target, host, header, content);
    var head := StartLine(verb, target) + CRLF + FieldLines(RequestFields(host, header, content)) + CRLF;
    var whole := RequestText(verb, target, host, header, content);
    assert whole == head + content;
    HeadReads(verb, target, host, header, content, content);
    if n < |head| {
      NotYet(whole, BLANK, n);
    } else {
      var part := content[..n - |head|];
      assert whole[..n] == head + part;
      HeadReads(verb, target, host, header, content, part);
      var k :| |head| <= k <= n && SeesAfter(whole[..n], |head|, k, r);
      assert whole[..n][..k] == head + content[..k - |head|];
      HeadReads(verb, target, host, header, content, content[..k - |head|]);
      LengthsSay(host, header, content);
      BodyShort(whole[..n], |head|, k, Head(verb, target, "1.1", RequestFields(host, header, content)),
          content[..k - |head|], |content|, r);
    }
  }

  lemma BodyShort(stream: string, e: nat, k: nat, h: Head, rest: string, length: nat, r: Outcome)
    requires e <= k <= |stream| < e + length && SeesAfter(stream, e, k, r)
    requires ParseRequest(stream[..k]) == (Some(h), rest)
    requires forall i | 0 <= i < |h.header| && IsLength(h.header, i) :: Stoull(h.header[i].1) == Some(length)
    requires exists i | 0 <= i < |h.header| :: IsLength(h.header, i)
    ensures r == IoError
  {
    hide ParseRequest, Stoull, IsLength;
    assert WithLength(stream, e, k, h, rest, Some(length)) == IoError;
  }

  // ---- Responses ----

  /** Any proper prefix of a response with a length fails at the client, as does any proper prefix of a
      bare one. */
  lemma ResponseCut(status: string, header: Headers, content: string, n: nat, eof: bool, r: Result)
    requires Plain(status) && ValidFields(header) && n < |ResponseText(status, header, content)|
    requires Measured(header, content) || (content == "" && Bare(header))
    requires ClientSees(ResponseText(status, header, content)[..n], eof, r)
    ensures r == Failed
  {
    hide Frames, ParseReply, EndOf, StatusLine, FieldLines, Measured, Bare, AddedLength, ValidFields;
    var fields := header + AddedLength(header, |content|);
    var head, whole := StatusLine(status) + CRLF + FieldLines(fields) + CRLF, ResponseText(status, header, content);
    assert whole == head + content;
    ResponseRoundTrip(status, header, content, content);
    if n < |head| {
      NotYet(whole, BLANK, n);
    } else {
      assert whole[..n] == head + content[..n - |head|];
      ResponseRoundTrip(status, header, content, content[..n - |head|]);
      var k, f :| |head| <= k <= n && SeenAfter(whole[..n], eof, |head|, k, f, r);
      assert whole[..n][..k] == head + content[..k - |head|];
      ResponseRoundTrip(status, header, content, content[..k - |head|]);
      MeasuredFrame(header, content, ReplyHead("1.1", status, fields), f);
    }
  }

  /** Any proper prefix of a response in chunks fails. */
  lemma ChunkedCut(status: string, header: Headers, b: C.Body, n: nat, eof: bool, r: Result)
    requires Plain(status) && ValidFields(header) && C.ValidBody(b) && Chunks(header)
    requires n < |ResponseText(status, header, "") + C.Encode(b)|
    requires ClientSees((ResponseText(status, header, "") + C.Encode(b))[..n], eof, r)
    ensures r == Failed
  {
    hide EndOf, ValidFields, Plain, Chunks, C.Encode, C.ValidBody, C.Decode, ResponseText, ParseReply, StatusLine,
        FieldLines, AddedLength;
    var head, body := ResponseText(status, header, ""), C.Encode(b);
    ResponseRoundTrip(status, header, "", body);
    BareText(status, header);
    if n < |head| {
      NotYet(head + body, BLANK, n);
    } else {
      assert (head + body)[..n] == head + body[..n - |head|];
      C.CutBreaks(b, n - |head|, "");
      var reply := ChunkedSees(status, header, body[..n - |head|], eof, r);
    }
  }

  lemma BareText(status: string, header: Headers)
    ensures ResponseText(status, header, "")
         == StatusLine(status) + CRLF + FieldLines(header + AddedLength(header, 0)) + CRLF
  {}

  /** Only the end of the connection delimits the body: there is no length, nothing is chunked, and the
      version is 1.0 or a Session field says close. */
  predicate OnlyEnd(version: string, header: Headers) {
    && !HasName(header, "Content-Length")
    && (forall i | 0 <= i < |header| && SameName(header[i].0, "Transfer-Encoding") :: header[i].1 != "chunked")
    && (version == "1.0" || (HasName(header, "Session") &&
          forall i | 0 <= i < |header| && SameName(header[i].0, "Session") :: header[i].1 == "close"))
  }

  /** The client has such a body whole if the connection ended in order, and fails if it did not. */
  lemma EndDelimits(version: string, status: string, header: Headers, content: string, eof: bool, r: Result)
    requires Plain(version) && ' ' !in version && Plain(status) && ValidFields(header)
    requires OnlyEnd(version, header)
    requires ClientSees("HTTP/" + version + " " + status + CRLF + FieldLines(header) + CRLF + content, eof, r)
    ensures r == if eof then Received(ReplyHead(version, status, header), content) else Failed
  {
    hide Frames, ParseReply, EndOf, FieldLines, OnlyEnd, ValidFields, Plain;
    var head := "HTTP/" + version + " " + status + CRLF + FieldLines(header) + CRLF;
    var stream := head + content;
    ReplyReads(version, status, header, content);
    var k, f :| |head| <= k <= |stream| && SeenAfter(stream, eof, |head|, k, f, r);
    Halves(head, content, k);
    ReplyReads(version, status, header, content[..k - |head|]);
    EndFrame(ReplyHead(version, status, header), f);
  }

  lemma EndFrame(head: ReplyHead, f: Framing)
    requires OnlyEnd(head.version, head.header) && Frames(head, f)
    ensures f == ByEnd
  {
    hide SameName, Stoull, Less;
    OldVersion();
  }

  lemma OldVersion()
    ensures Less("1.0", "1.1")
  {
    assert "1.0"[..2] == "1.1"[..2];
    LessIff("1.0", "1.1");
  }

  // ---- Numbers that do not parse ----

  /** A response whose length fields are no numbers makes the client throw. */
  lemma LengthThrows(status: string, header: Headers, content: string, eof: bool, r: Result)
    requires Plain(status) && ValidFields(header) && HasName(header, "Content-Length")
    requires forall i | 0 <= i < |header| && SameName(header[i].0, "Content-Length") :: Stoull(header[i].1).None?
    requires ClientSees(ResponseText(status, header, content), eof, r)
    ensures r == Thrown
  {
    hide Frames, ParseReply, EndOf, StatusLine, FieldLines, HasName, ValidFields, SameName, Plain, Stoull, AddedLength;
    var head := StatusLine(status) + CRLF + FieldLines(header) + CRLF;
    LengthAdded(header, |content|);
    var stream := ResponseText(status, header, content);
    assert header + [] == header && stream == head + content;
    ResponseRoundTrip(status, header, content, content);
    var k, f :| |head| <= k <= |stream| && SeenAfter(stream, eof, |head|, k, f, r);
    Halves(head, content, k);
    ResponseRoundTrip(status, header, content, content[..k - |head|]);
    ThrowingFrame(ReplyHead("1.1", status, header), f);
  }

  lemma ThrowingFrame(head: ReplyHead, f: Framing)
    requires HasName(head.header, "Content-Length") && Frames(head, f)
    requires forall i | 0 <= i < |head.header| && SameName(head.header[i].0, "Content-Length") ::
               Stoull(head.header[i].1).None?
    ensures f == ByLength(None)
  {
    hide SameName, Stoull, Less;
  }

  /** A chunk whose size line starts with no number makes it throw. */
  lemma SizeThrows(status: string, header: Headers, line: string, more: string, eof: bool, r: Result)
    requires Plain(status) && ValidFields(header) && Plain(line) && Chunks(header)
    requires line != "" ==> HexDigit(line[0]) < 0 && !IsSpace(line[0]) && line[0] != '+' && line[0] != '-'
    requires ClientSees(ResponseText(status, header, "") + (line + CRLF + more), eof, r)
    ensures r == Thrown
  {
    C.GarbageThrows(line, more, "");
    var reply := ChunkedSees(status, header, line + CRLF + more, eof, r);
  }

  /** The server refuses a request whose length fields are no numbers. */
  lemma RequestLengthBad(verb: string, target: string, host: string, header: Headers, tail: string, r: Outcome)
    requires Legible(verb, target, host, header, "") && HasName(header, "Content-Length")
    requires forall i | 0 <= i < |header| && IsLength(header, i) :: Stoull(header[i].1).None?
    requires ServerSees(RequestText(verb, target, host, header, "") + tail, r)
    ensures r == BadLength
  {
    hide Getline, Fields, EndOf, ParseStart, FieldLines, IsLength, StartLine, ParseRequest, Stoull, SeesAfter,
        RequestFields, Legible;
    var head := StartLine(verb, target) + CRLF + FieldLines(RequestFields(host, header, "")) + CRLF;
    var stream := RequestText(verb, target, host, header, "") + tail;
    assert stream == head + tail;
    HeadReads(verb, target, host, header, "", tail);
    var k :| |head| <= k <= |stream| && SeesAfter(stream, |head|, k, r);
    Halves(head, tail, k);
    HeadReads(verb, target, host, header, "", tail[..k - |head|]);
    BadLengths(host, header);
    SeenBad(stream, |head|, k, Head(verb, target, "1.1", RequestFields(host, header, "")), tail[..k - |head|], r);
  }

  lemma BadLengths(host: string, header: Headers)
    requires HasName(header, "Content-Length")
    requires forall i | 0 <= i < |header| && IsLength(header, i) :: Stoull(header[i].1).None?
    ensures var fields := RequestFields(host, header, "");
            && (forall i | 0 <= i < |fields| && IsLength(fields, i) :: Stoull(fields[i].1).None?)
            && exists i | 0 <= i < |fields| :: IsLength(fields, i)
  {
    hide Stoull;
    var fields := RequestFields(host, header, "");
    forall i | 0 <= i < |fields| && IsLength(fields, i) ensures Stoull(fields[i].1).None? {
      assert i > 0 && fields[i] == header[i - 1] && IsLength(header, i - 1);
    }
    var i :| 0 <= i < |header| && SameName(header[i].0, "Content-Length");
    assert fields[i + 1] == header[i] && IsLength(fields, i + 1);
  }

  lemma SeenBad(stream: string, e: nat, k: nat, h: Head, rest: string, r: Outcome)
    requires e <= k <= |stream| && SeesAfter(stream, e, k, r) && ParseRequest(stream[..k]) == (Some(h), rest)
    requires forall i | 0 <= i < |h.header| && IsLength(h.header, i) :: Stoull(h.header[i].1).None?
    requires exists i | 0 <= i < |h.header| :: IsLength(h.header, i)
    ensures r == BadLength
  {
    hide ParseRequest, Stoull, IsLength;
  }
}
