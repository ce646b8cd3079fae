/** Responses: what the server writes, and what the client makes of it. */
module HttpResponse {
  import opened Wrappers
  import opened Text
  import opened Sockets
  import opened HttpHeaders
  import opened HttpRequest
  import C = Chunked

  // ---- The server's side ----

  predicate HasName(h: Headers, name: string) { exists i | 0 <= i < |h| :: SameName(h[i].0, name) }

  /** The length field the server adds: for a non-empty body whose header has none. */
  function AddedLength(header: Headers, size: nat): Headers {
    if size > 0 && !HasName(header, "content-length") then [("Content-Length", Decimal(size))] else []
  }

  /** `write_header`: appends the fields, a length if none was written, and the blank line. */
  method WriteHeader(stream: string, header: Headers, size: nat) returns (text: string)
    ensures text == stream + FieldLines(header + AddedLength(header, size)) + CRLF
  {
    hide FieldLines, SameName;
    text := stream;
    var contentLengthWritten := false;
    NoFieldLines();
    assert header[..0] == [];
    for i := 0 to |header|
      invariant text == stream + FieldLines(header[..i])
      invariant contentLengthWritten <==> size > 0 && HasName(header[..i], "content-length")
    {
      var field := header[i];
      NameStep(header, i, "content-length");
      if size > 0 && !contentLengthWritten && SameName(field.0, "content-length") {
        contentLengthWritten := true;
      }
      FieldLinesOne(field);
      FieldLinesAppend(header[..i], [field]);
      assert header[..i + 1] == header[..i] + [field];
      text := text + (field.0 + ": " + field.1 + CRLF);
    }
    assert header[..|header|] == header;
    FieldLinesAppend(header, AddedLength(header, size));
    if size > 0 && !contentLengthWritten {
      FieldLinesOne(("Content-Length", Decimal(size)));
      text := text + ("Content-Length: " + Decimal(size) + "\r\n\r\n");
    } else {
      text := text + CRLF;
    }
  }

  lemma NameStep(h: Headers, i: nat, name: string)
    requires i < |h|
    ensures HasName(h[..i + 1], name) <==> HasName(h[..i], name) || SameName(h[i].0, name)
  {
    hide SameName;
    if j :| 0 <= j < i && SameName(h[j].0, name) {
      assert h[..i][j] == h[j] && h[..i + 1][j] == h[j];
    }
    if SameName(h[i].0, name) {
      assert h[..i + 1][i] == h[i];
    }
    assert forall j | 0 <= j < i :: h[..i][j] == h[j] == h[..i + 1][j];
  }

  function StatusLine(status: string): string { "HTTP/1.1 " + status }

  function ResponseText(status: string, header: Headers, content: string): string {
    StatusLine(status) + CRLF + FieldLines(header + AddedLength(header, |content|)) + CRLF + content
  }

  /** `write(status, content, header)` */
  method WriteResponse(status: string, content: string, header: Headers) returns (text: string)
    ensures text == ResponseText(status, header, content)
  {
    hide FieldLines;
    text := "HTTP/1.1 " + status + CRLF;
    text := WriteHeader(text, header, |content|);
    if content != "" {
      text := text + content;
    }
  }

  // ---- The client's side ----

  datatype ReplyHead = ReplyHead(version: string, status: string, header: Headers)

  /** Version and status of the status line; None if it has no space. The line still ends in its
      carriage return. Positions before 5 wrap around, and the copied text is then clipped at the
      end of the line. */
  function ParseStatus(line: string): Option<(string, string)> {
    var versionEnd := Find(line, ' ');
    if versionEnd < 0 then None
    else
      var version := if 5 < |line| then (if versionEnd >= 5 then line[5..versionEnd] else line[5..]) else "";
      var status := if versionEnd + 1 < |line| then line[versionEnd + 1..|line| - 1] else "";
      Some((version, status))
  }

  /** `parse_response_header`: the head, and the bytes left in the buffer. */
  function ParseReply(s: string): (ReplyHead, string) {
    var (line, rest) := Getline(s);
    match ParseStatus(line)
    case None => (ReplyHead("", "", []), rest)
    case Some((version, status)) =>
      var (header, rest') := Fields(rest);
      (ReplyHead(version, status, header), rest')
  }

  method ParseResponseHeader(content: string) returns (head: ReplyHead, rest: string)
    requires EndOf(content, BLANK) >= 0
    ensures (head, rest) == ParseReply(content)
  {
    hide *;
    EndOccurs(content, BLANK);
    BlankStops(content, EndOf(content, BLANK) - |BLANK|);
    var line, more := Getline(content).0, Getline(content).1;
    var start := ParseStatus(line);
    ReplyUnfold(content);
    if start.None? {
      head, rest := ReplyHead("", "", []), more;
    } else {
      var header, left := ReadFields(more);
      head, rest := ReplyHead(start.value.0, start.value.1, header), left;
    }
  }

  lemma ReplyUnfold(s: string)
    ensures var (line, more) := Getline(s);
            ParseReply(s) == match ParseStatus(line)
                             case None => (ReplyHead("", "", []), more)
                             case Some(v) => (ReplyHead(v.0, v.1, Fields(more).0), Fields(more).1)
  {}

  /** What a status line says: before its first space the version, behind five characters; after it the
      status, less its last character. A space among the first five characters is counted into the
      version, and so is what follows it. */
  lemma StatusForms(before: string, after: string)
    requires ' ' !in before
    ensures var line := before + " " + after;
            ParseStatus(line) == Some((if |before| >= 5 then before[5..] else if |line| > 5 then line[5..] else "",
                                       if after == "" then "" else after[..|after| - 1]))
    ensures ParseStatus(before) == None
  {
    hide Find;
    var line := before + " " + after;
    assert line[..|before|] == before && line[|before|] == ' ';
    FindIs(line, ' ', |before|);
    NotFound(before, ' ');
    assert |before| >= 5 ==> line[5..|before|] == before[5..];
    assert after != "" ==> line[|before| + 1..|line| - 1] == after[..|after| - 1];
  }

  lemma StatusReads(version: string, status: string)
    requires Plain(version) && ' ' !in version && Plain(status)
    ensures var line := "HTTP/" + version + " " + status + "\r";
            '\n' !in line && ParseStatus(line) == Some((version, status))
  {
    hide ParseStatus;
    assert "HTTP/" + version + " " + status + "\r" == "HTTP/" + version + " " + (status + "\r");
    StatusForms("HTTP/" + version, status + "\r");
  }

  /** Without a space in its first line a response says nothing, and the rest of the buffer is its body. */
  lemma NoStatus(line: string, rest: string)
    requires ' ' !in line && '\n' !in line
    ensures ParseReply(line + "\n" + rest) == (ReplyHead("", "", []), rest)
  {
    hide ParseStatus, Getline;
    GetlineIs(line, rest);
    StatusForms(line, "");
  }

  /** A status line of any version and fields read back as they were, whatever follows them. */
  lemma ReplyReads(version: string, status: string, fields: Headers, body: string)
    requires Plain(version) && ' ' !in version && Plain(status) && ValidFields(fields)
    ensures var head := "HTTP/" + version + " " + status + CRLF + FieldLines(fields) + CRLF;
            EndOf(head + body, BLANK) == |head| && ParseReply(head + body) == (ReplyHead(version, status, fields), body)
  {
    hide Getline, Fields, EndOf, ParseStatus, FieldLines, Dense;
    var first := "HTTP/" + version + " " + status;
    StatusReads(version, status);
    NoNewlines(first);
    HeadEnd(first, fields, body);
    var rest := FieldLines(fields) + CRLF + body;
    GetlineIs(first + "\r", rest);
    assert first + CRLF + FieldLines(fields) + CRLF + body == first + "\r" + "\n" + rest;
    FieldsRoundTrip(fields, body);
    ReplyUnfold(first + "\r" + "\n" + rest);
  }

  /** The status line and header the server writes read back as the same version, status and
      fields, whatever follows them in the buffer, and a non-empty body comes with a length. */
  lemma ResponseRoundTrip(status: string, header: Headers, content: string, body: string)
    requires Plain(status) && ValidFields(header)
    ensures var fields := header + AddedLength(header, |content|);
            var head := StatusLine(status) + CRLF + FieldLines(fields) + CRLF;
            && EndOf(head + body, BLANK) == |head|
            && ParseReply(head + body) == (ReplyHead("1.1", status, fields), body)
            && (content != "" ==> HasName(fields, "Content-Length"))
  {
    hide EndOf, FieldLines, SameName, HasName, ParseReply, AddedLength;
    ReplyFieldsValid(header, |content|);
    assert StatusLine(status) == "HTTP/" + "1.1" + " " + status;
    ReplyReads("1.1", status, header + AddedLength(header, |content|), body);
    LengthPresent(header, |content|);
  }

  lemma NoNewlines(s: string)
    ensures '\n' !in s + "\r" ==> Dense(s)
  {
    assert forall i | 0 <= i < |s| :: s[i] == (s + "\r")[i];
  }

  lemma ReplyFieldsValid(header: Headers, size: nat)
    requires ValidFields(header)
    ensures ValidFields(header + AddedLength(header, size))
  {
    DecimalDigits(size);
    assert forall i | 0 <= i < |Decimal(size)| :: IsDigit(Decimal(size)[i]);
  }

  lemma LengthPresent(header: Headers, size: nat)
    ensures size > 0 ==> HasName(header + AddedLength(header, size), "Content-Length")
  {
    var fields := header + AddedLength(header, size);
    if size > 0 {
      if i :| 0 <= i < |header| && SameName(header[i].0, "content-length") {
        assert SameName(fields[i].0, "Content-Length");
      } else {
        assert SameName(fields[|header|].0, "Content-Length");
      }
    }
  }

  /** A length is added iff there is a body and no field of that name, in whatever case. */
  lemma LengthAdded(header: Headers, size: nat)
    ensures AddedLength(header, size) ==
            if size == 0 || HasName(header, "Content-Length") then []
            else [("Content-Length", Decimal(size))]
  {
    forall i | 0 <= i < |header|
      ensures SameName(header[i].0, "Content-Length") == SameName(header[i].0, "content-length")
    {
      SameSpelling(header[i].0);
    }
    hide SameName;
  }

  lemma SameSpelling(name: string)
    ensures SameName(name, "Content-Length") == SameName(name, "content-length")
  {
    assert SameName("Content-Length", "content-length");
  }

  // ---- Reading a whole response ----

  datatype Result = Received(head: ReplyHead, content: string) | Failed | Thrown

  /** operator< of std::string. */
  predicate Less(a: string, b: string) {
    if b == "" then false
    else if a == "" then true
    else if a[0] != b[0] then a[0] < b[0]
    else Less(a[1..], b[1..])
  }

  /** The order of std::string: at the first difference, the smaller character or the end comes first. */
  lemma {:induction false} LessIff(a: string, b: string)
    ensures Less(a, b) <==> exists i | 0 <= i <= |a| && i < |b| :: a[..i] == b[..i] && (i == |a| || a[i] < b[i])
    decreases |a|
  {
    if a != "" && b != "" && a[0] == b[0] {
      LessIff(a[1..], b[1..]);
      if i :| 0 <= i <= |a| && i < |b| && a[..i] == b[..i] && (i == |a| || a[i] < b[i]) {
        assert i > 0;
        assert a[1..][..i - 1] == a[..i][1..] && b[1..][..i - 1] == b[..i][1..];
      }
      var x, y := a[1..], b[1..];
      if i :| 0 <= i <= |x| && i < |y| && x[..i] == y[..i] && (i == |x| || x[i] < y[i]) {
        assert a[..i + 1] == [a[0]] + x[..i] && b[..i + 1] == [b[0]] + y[..i];
      }
    } else if a != "" && b != "" {
      assert a[0] < b[0] ==> a[..0] == b[..0];
    } else {
      assert a == "" ==> a[..0] == "" && (b != "" ==> b[..0] == "");
    }
  }

  /** header.find: a field of that name if there is one; among several, any of them. */
  ghost predicate Lookup(h: Headers, name: string, v: Option<string>) {
    match v
    case None => !HasName(h, name)
    case Some(x) => exists i | 0 <= i < |h| :: SameName(h[i].0, name) && h[i].1 == x
  }

  method FindField(h: Headers, name: string) returns (v: Option<string>)
    ensures Lookup(h, name, v)
  {
    if i :| 0 <= i < |h| && SameName(h[i].0, name) {
      v := Some(h[i].1);
    } else {
      v := None;
    }
  }

  /** How the body is delimited. */
  datatype Framing = ByLength(length: Option<nat>) | ByChunks | ByEnd | NoBody

  function FrameOf(version: string, length: Option<string>, coding: Option<string>, session: Option<string>): Framing {
    if length.Some? then ByLength(Stoull(length.value))
    else if coding == Some("chunked") then ByChunks
    else if Less(version, "1.1") || session == Some("close") then ByEnd
    else NoBody
  }

  ghost predicate Frames(head: ReplyHead, f: Framing) {
    exists length, coding, session ::
      && Lookup(head.header, "Content-Length", length)
      && Lookup(head.header, "Transfer-Encoding", coding)
      && Lookup(head.header, "Session", session)
      && f == FrameOf(head.version, length, coding, session)
  }

  /** The result of a framing, when the header ends at `e` and the first read stopped at `k`. */
  ghost predicate Framed(stream: string, eof: bool, e: nat, k: nat, head: ReplyHead, rest: string, f: Framing,
          r: Result)
    requires e <= k <= |stream|
  {
    match f
    case ByLength(None) => r == Thrown
    case ByLength(Some(n)) =>
      if n <= k - e then r == Received(head, rest)
      else if k + (n - (k - e)) <= |stream| then r == Received(head, rest + stream[k..k + (n - (k - e))])
      else r == Failed
    case ByChunks => exists reply :: C.Replies(C.Decode(rest + stream[k..], ""), reply) && r == ResultOf(head, reply)
    case ByEnd => r == if eof then Received(head, rest + stream[k..]) else Failed
    case NoBody => r == Received(head, rest)
  }

  function ResultOf(head: ReplyHead, reply: C.Reply): Result {
    match reply
    case Done(content) => Received(head, content)
    case IoError => Failed
    case Throws => Thrown
  }

  /** What the client can make of a stream, wherever its reads stop. */
  ghost predicate ClientSees(stream: string, eof: bool, r: Result) {
    var e := EndOf(stream, BLANK);
    if e < 0 then r == Failed
    else exists k, f | e <= k <= |stream| :: SeenAfter(stream, eof, e, k, f, r)
  }

  ghost predicate SeenAfter(stream: string, eof: bool, e: nat, k: nat, f: Framing, r: Result)
    requires e <= k <= |stream|
  {
    var (head, rest) := ParseReply(stream[..k]);
    Frames(head, f) && Framed(stream, eof, e, k, head, rest, f, r)
  }

  /** `read`, after the request has been written. */
  method ReadResponse(socket: Socket) returns (r: Result)
    modifies socket
    ensures ClientSees(old(socket.stream), socket.eof, r)
  {
    hide *;
    ghost var stream := socket.stream;
    var ok, filled, e := socket.ReadUntil("", BLANK);
    assert "" + stream == stream;
    if !ok {
      r := Failed;
      NothingSeen(stream, socket.eof);
      return;
    }
    ghost var k := |filled|;
    Arrived(stream, filled, socket.stream);
    var additional := |filled| - e;
    var head, rest := ParseResponseHeader(filled);
    var length := FindField(head.header, "Content-Length");
    var coding := FindField(head.header, "Transfer-Encoding");
    var session := FindField(head.header, "Session");
    var f := FrameOf(head.version, length, coding, session);
    FramesIs(head, length, coding, session);
    match f {
      case ByLength(None) =>
        r := Thrown;
        FramedLength(stream, socket.eof, e, k, head, rest, f, r);
      case ByLength(Some(n)) =>
        if n > additional {
          var ok', content := socket.ReadExactly(rest, n - additional);
          ExactBytes(stream, k, n - additional, rest, content, socket.stream, ok');
          r := if ok' then Received(head, content) else Failed;
        } else {
          r := Received(head, rest);
        }
        FramedLength(stream, socket.eof, e, k, head, rest, f, r);
      case ByChunks =>
        var reply, _ := C.ReadChunked(socket, rest);
        r := ResultOf(head, reply);
        FramedChunks(stream, socket.eof, e, k, head, rest, reply, r);
      case ByEnd =>
        var ok', content := socket.ReadToEnd(rest);
        r := if ok' then Received(head, content) else Failed;
        FramedRest(stream, socket.eof, e, k, head, rest, f, r);
      case NoBody =>
        r := Received(head, rest);
        FramedRest(stream, socket.eof, e, k, head, rest, f, r);
    }
    Seen(stream, socket.eof, e, k, head, rest, f, r);
  }

  lemma NothingSeen(stream: string, eof: bool)
    requires EndOf(stream, BLANK) < 0
    ensures ClientSees(stream, eof, Failed)
  {}

  lemma FramesIs(head: ReplyHead, length: Option<string>, coding: Option<string>, session: Option<string>)
    requires Lookup(head.header, "Content-Length", length) && Lookup(head.header, "Transfer-Encoding", coding)
    requires Lookup(head.header, "Session", session)
    ensures Frames(head, FrameOf(head.version, length, coding, session))
  {}

  lemma FramedLength(stream: string, eof: bool, e: nat, k: nat, head: ReplyHead, rest: string, f: Framing, r: Result)
    requires e <= k <= |stream| && f.ByLength?
    requires match f.length
             case None => r == Thrown
             case Some(n) =>
               if n <= k - e then r == Received(head, rest)
               else if k + (n - (k - e)) <= |stream| then r == Received(head, rest + stream[k..k + (n - (k - e))])
               else r == Failed
    ensures Framed(stream, eof, e, k, head, rest, f, r)
  {}

  lemma FramedChunks(stream: string, eof: bool, e: nat, k: nat, head: ReplyHead, rest: string, reply: C.Reply,
          r: Result)
    requires e <= k <= |stream| && C.Replies(C.Decode(rest + stream[k..], ""), reply) && r == ResultOf(head, reply)
    ensures Framed(stream, eof, e, k, head, rest, ByChunks, r)
  {}

  lemma FramedRest(stream: string, eof: bool, e: nat, k: nat, head: ReplyHead, rest: string, f: Framing, r: Result)
    requires e <= k <= |stream| && (f.ByEnd? || f.NoBody?)
    requires r == if f.NoBody? then Received(head, rest) else if eof then Received(head, rest + stream[k..]) else Failed
    ensures Framed(stream, eof, e, k, head, rest, f, r)
  {}

  lemma Seen(stream: string, eof: bool, e: nat, k: nat, head: ReplyHead, rest: string, f: Framing, r: Result)
    requires e == EndOf(stream, BLANK) <= k <= |stream| && ParseReply(stream[..k]) == (head, rest)
    requires Frames(head, f) && Framed(stream, eof, e, k, head, rest, f, r)
    ensures ClientSees(stream, eof, r)
  {
    hide ParseReply, Frames, Framed, EndOf;
    assert SeenAfter(stream, eof, e, k, f, r);
  }

  // ---- Round trip of a whole response ----

  /** No length field of the server's header contradicts the body, and there is one. */
  predicate Measured(header: Headers, content: string) {
    && |content| < WORD && (content != "" || HasName(header, "Content-Length"))
    && forall i | 0 <= i < |header| && SameName(header[i].0, "Content-Length") :: Stoull(header[i].1) == Some(|content|)
  }

  lemma MeasuredFrame(header: Headers, content: string, head: ReplyHead, f: Framing)
    requires Measured(header, content) && head.header == header + AddedLength(header, |content|) && Frames(head, f)
    ensures f == ByLength(Some(|content|))
  {
    hide FrameOf, Less, SameName, Stoull;
    var fields := head.header;
    StoullDecimal(|content|);
    assert HasName(fields, "Content-Length") by {
      LengthPresent(header, |content|);
      if i :| 0 <= i < |header| && SameName(header[i].0, "Content-Length") {
        assert fields[i] == header[i];
      }
    }
    var length, coding, session :|
      Lookup(fields, "Content-Length", length) && f == FrameOf(head.version, length, coding, session);
    var i :| 0 <= i < |fields| && SameName(fields[i].0, "Content-Length") && fields[i].1 == length.value;
    assert i < |header| ==> fields[i] == header[i];
    FrameByLength(head.version, length, coding, session);
  }

  lemma FrameByLength(version: string, length: Option<string>, coding: Option<string>, session: Option<string>)
    requires length.Some?
    ensures FrameOf(version, length, coding, session) == ByLength(Stoull(length.value))
  {}

  /** No field of the header promises a body: what `write(status, header)` sends by default. */
  predicate Bare(header: Headers) {
    && !HasName(header, "Content-Length")
    && (forall i | 0 <= i < |header| && SameName(header[i].0, "Transfer-Encoding") :: header[i].1 != "chunked")
    && forall i | 0 <= i < |header| && SameName(header[i].0, "Session") :: header[i].1 != "close"
  }

  lemma BareFrame(head: ReplyHead, f: Framing)
    requires Bare(head.header) && head.version == "1.1" && Frames(head, f)
    ensures f == NoBody
  {
    hide SameName;
    assert !Less("1.1", "1.1");
  }

  /** Whatever the read boundaries, the client receives the server's head and body. An empty body
      needs no length field, as long as nothing else promises a body. */
  lemma BodyRoundTrip(status: string, header: Headers, content: string, tail: string, eof: bool, r: Result)
    requires Plain(status) && ValidFields(header)
    requires Measured(header, content) || (content == "" && Bare(header))
    requires ClientSees(ResponseText(status, header, content) + tail, eof, r)
    ensures exists j | 0 <= j <= |tail| ::
              r == Received(ReplyHead("1.1", status, header + AddedLength(header, |content|)), content + tail[..j])
  {
    hide Frames, ParseReply, EndOf, StatusLine, FieldLines, Measured, Bare, AddedLength, ValidFields;
    var fields := header + AddedLength(header, |content|);
    var head := StatusLine(status) + CRLF + FieldLines(fields) + CRLF;
    var stream := ResponseText(status, header, content) + tail;
    assert stream == head + (content + tail);
    ResponseRoundTrip(status, header, content, content + tail);
    var e := |head|;
    var k, f :| e <= k <= |stream| && SeenAfter(stream, eof, e, k, f, r);
    var arrived := (content + tail)[..k - e];
    assert stream[..k] == head + arrived;
    ResponseRoundTrip(status, header, content, arrived);
    hide Framed;
    if Measured(header, content) {
      MeasuredFrame(header, content, ReplyHead("1.1", status, fields), f);
      BodyReads(head, content, tail, k);
      LengthSettled(stream, eof, e, k, ReplyHead("1.1", status, fields), arrived, content, tail, r);
    } else {
      NothingAdded(header);
      BareFrame(ReplyHead("1.1", status, fields), f);
      BareSettled(stream, eof, e, k, ReplyHead("1.1", status, fields), arrived, tail, r);
    }
  }

  lemma LengthSettled(stream: string, eof: bool, e: nat, k: nat, h: ReplyHead, arrived: string, content: string,
          tail: string, r: Result)
    requires e <= k <= |stream| && Framed(stream, eof, e, k, h, arrived, ByLength(Some(|content|)), r)
    requires k - e <= |content| + |tail|
    requires var have := k - e;
             if have < |content| then
               k + (|content| - have) <= |stream| && arrived + stream[k..k + (|content| - have)] == content + tail[..0]
             else arrived == content + tail[..have - |content|]
    ensures exists j | 0 <= j <= |tail| :: r == Received(h, content + tail[..j])
  {
    if k - e <= |content| {
      assert k - e == |content| ==> r == Received(h, content + tail[..0]);
    } else {
      assert r == Received(h, content + tail[..k - e - |content|]);
    }
  }

  lemma BareSettled(stream: string, eof: bool, e: nat, k: nat, h: ReplyHead, arrived: string, tail: string, r: Result)
    requires e <= k <= |stream| && Framed(stream, eof, e, k, h, arrived, NoBody, r)
    requires k - e <= |tail| && arrived == tail[..k - e]
    ensures exists j | 0 <= j <= |tail| :: r == Received(h, "" + tail[..j])
  {
    assert "" + tail[..k - e] == arrived;
  }

  /** The header says that the body comes in chunks. */
  predicate Chunks(header: Headers) {
    && !HasName(header, "Content-Length") && HasName(header, "Transfer-Encoding")
    && forall i | 0 <= i < |header| && SameName(header[i].0, "Transfer-Encoding") :: header[i].1 == "chunked"
  }

  /** Whatever follows such a head and wherever the reads stop, the client makes of it what it decodes to. */
  lemma ChunkedSees(status: string, header: Headers, body: string, eof: bool, r: Result) returns (reply: C.Reply)
    requires Plain(status) && ValidFields(header) && Chunks(header)
    requires ClientSees(ResponseText(status, header, "") + body, eof, r)
    ensures C.Replies(C.Decode(body, ""), reply) && r == ResultOf(ReplyHead("1.1", status, header), reply)
  {
    hide Frames, ParseReply, EndOf, StatusLine, FieldLines, ValidFields, Chunks, Plain, AddedLength;
    hide C.Decode, C.Replies, ResultOf;
    var head := StatusLine(status) + CRLF + FieldLines(header) + CRLF;
    var stream := ResponseText(status, header, "") + body;
    NothingAdded(header);
    assert stream == head + body;
    ResponseRoundTrip(status, header, "", body);
    var k, f :| |head| <= k <= |stream| && SeenAfter(stream, eof, |head|, k, f, r);
    Halves(head, body, k);
    ResponseRoundTrip(status, header, "", body[..k - |head|]);
    ChunkedFrame(ReplyHead("1.1", status, header), f);
    reply :| C.Replies(C.Decode(body, ""), reply) && r == ResultOf(ReplyHead("1.1", status, header), reply);
  }

  /** A response in chunks: whatever the read and chunk boundaries, the client receives the head and
      the concatenated data; bytes read past the last chunk precede the data. */
  lemma ChunkedRoundTrip(status: string, header: Headers, b: C.Body, tail: string, eof: bool, r: Result)
    requires Plain(status) && ValidFields(header) && C.ValidBody(b) && Chunks(header)
    requires ClientSees(ResponseText(status, header, "") + C.Encode(b) + tail, eof, r)
    ensures exists j | 0 <= j <= |tail| ::
              r == Received(ReplyHead("1.1", status, header), tail[..j] + C.DataOf(b.chunks))
  {
    hide Plain, ValidFields, Chunks, ClientSees, ResponseText, C.Encode, C.Decode, C.ValidBody, C.DataOf;
    assert ResponseText(status, header, "") + C.Encode(b) + tail
        == ResponseText(status, header, "") + (C.Encode(b) + tail);
    var reply := ChunkedSees(status, header, C.Encode(b) + tail, eof, r);
    C.DecodeEncode(b, tail, "");
    assert "" + C.DataOf(b.chunks) == C.DataOf(b.chunks);
  }

  lemma NothingAdded(header: Headers)
    ensures header + AddedLength(header, 0) == header
  {}

  lemma Halves(head: string, rest: string, k: nat)
    requires |head| <= k <= |head + rest|
    ensures (head + rest)[..k] == head + rest[..k - |head|]
    ensures rest[..k - |head|] + (head + rest)[k..] == rest
  {}

  lemma ChunkedFrame(head: ReplyHead, f: Framing)
    requires Chunks(head.header) && Frames(head, f)
    ensures f == ByChunks
  {
    hide SameName, Less, Stoull;
  }
}
