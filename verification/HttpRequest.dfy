/** Requests: what the client writes, and what the server makes of it. */
module HttpRequest {
  import opened Wrappers
  import opened Text
  import opened Sockets
  import opened HttpHeaders

  // ---- The client's side ----

  /** An empty path becomes `/`; a plain-HTTP request through a proxy names the whole URL. */
  function TargetOf(path: string, proxied: bool, host: string, port: nat): string {
    var p := if path == "" then "/" else path;
    if proxied then "http://" + host + ":" + Decimal(port) + p else p
  }

  function LengthField(content: string): Headers {
    if content == "" then [] else [("Content-Length", Decimal(|content|))]
  }

  function RequestFields(host: string, header: Headers, content: string): Headers {
    [("Host", host)] + header + LengthField(content)
  }

  function StartLine(verb: string, target: string): string { verb + " " + target + " HTTP/1.1" }

  function RequestText(verb: string, target: string, host: string, header: Headers, content: string): string {
    StartLine(verb, target) + CRLF + FieldLines(RequestFields(host, header, content)) + CRLF + content
  }

  lemma {:induction false} FieldLinesAppend(a: Headers, b: Headers)
    ensures FieldLines(a + b) == FieldLines(a) + FieldLines(b)
  {
    if a == [] {
      assert a + b == b;
    } else {
      FieldLinesAppend(a[1..], b);
      assert (a + b)[1..] == a[1..] + b && (a + b)[0] == a[0];
      var first := a[0].0 + ": " + a[0].1 + CRLF;
      assert first + (FieldLines(a[1..]) + FieldLines(b)) == first + FieldLines(a[1..]) + FieldLines(b);
    }
  }

  lemma FieldLinesOne(f: (string, string))
    ensures FieldLines([f]) == f.0 + ": " + f.1 + CRLF
  {
    assert FieldLines([f][1..]) == "";
  }

  /** `create_request_header`, then the length and the body that `request` appends. */
  method WriteRequest(verb: string, path: string, proxied: bool, host: string, port: nat, header: Headers,
          content: string)
    returns (text: string)
    ensures text == RequestText(verb, TargetOf(path, proxied, host, port), host, header, content)
  {
    hide FieldLines;
    var corrected := path;
    if corrected == "" {
      corrected := "/";
    }
    if proxied {
      corrected := "http://" + host + ":" + Decimal(port) + corrected;
    }
    text := verb + " " + corrected + " HTTP/1.1\r\n";
    text := text + "Host: " + host + CRLF;
    ghost var start := StartLine(verb, corrected) + CRLF;
    FieldLinesOne(("Host", host));
    assert [("Host", host)] + header[..0] == [("Host", host)];
    assert text == start + FieldLines([("Host", host)]);
    for i := 0 to |header|
      invariant text == start + FieldLines([("Host", host)] + header[..i])
    {
      var h := header[i];
      FieldLinesOne(h);
      FieldLinesAppend([("Host", host)] + header[..i], [h]);
      assert [("Host", host)] + header[..i + 1] == [("Host", host)] + header[..i] + [h];
      text := text + (h.0 + ": " + h.1 + CRLF);
    }
    assert header[..|header|] == header;
    FieldLinesAppend([("Host", host)] + header, LengthField(content));
    if |content| > 0 {
      FieldLinesOne(("Content-Length", Decimal(|content|)));
      text := text + ("Content-Length: " + Decimal(|content|) + CRLF);
    } else {
      NoFieldLines();
    }
    assert text == start + FieldLines(RequestFields(host, header, content));
    text := text + CRLF + content;
  }

  lemma NoFieldLines()
    ensures FieldLines([]) == ""
  {}

  // ---- The server's side ----

  datatype Head = Head(verb: string, path: string, version: string, header: Headers)

  /** Method, path and version of the request line; None where `parse_request` returns false. The
      line still ends in its carriage return. */
  function ParseStart(line: string): Option<(string, string, string)> {
    var methodEnd := Find(line, ' ');
    if methodEnd < 0 then None
    else
      var pathEnd := FindFrom(line, ' ', methodEnd + 1);
      if pathEnd < 0 then None
      else
        var protocolEnd := FindFrom(line, '/', pathEnd + 1);
        if protocolEnd < 0 || line[pathEnd + 1..protocolEnd] != "HTTP" then None
        else
          var version := if protocolEnd + 1 < |line| then line[protocolEnd + 1..|line| - 1] else "";
          Some((line[..methodEnd], line[methodEnd + 1..pathEnd], version))
  }

  /** `parse_request`: the head, and the bytes left in the buffer. */
  function ParseRequest(s: string): (Option<Head>, string) {
    var (line, rest) := Getline(s);
    match ParseStart(line)
    case None => (None, rest)
    case Some((verb, path, version)) =>
      var (header, rest') := Fields(rest);
      (Some(Head(verb, path, version, header)), rest')
  }

  datatype Outcome = IoError | Rejected | BadLength | Complete(head: Head, content: string)

  predicate IsLength(h: Headers, i: nat) { i < |h| && SameName(h[i].0, "Content-Length") }

  /** What the server makes of a stream when its first read stopped after `k` bytes. Where several
      fields are called Content-Length, the lookup may find any of them. */
  ghost predicate SeesAfter(stream: string, e: nat, k: nat, r: Outcome)
    requires e <= k <= |stream|
  {
    var (head, rest) := ParseRequest(stream[..k]);
    if head.None? then r == Rejected
    else if forall i | 0 <= i < |head.value.header| :: !IsLength(head.value.header, i) then
      r == Complete(head.value, rest)
    else exists i | 0 <= i < |head.value.header| && IsLength(head.value.header, i) ::
           r == WithLength(stream, e, k, head.value, rest, Stoull(head.value.header[i].1))
  }

  function WithLength(stream: string, e: nat, k: nat, head: Head, rest: string, length: Option<nat>): Outcome
    requires e <= k <= |stream|
  {
    match length
    case None => BadLength
    case Some(n) =>
      if n <= k - e then Complete(head, rest)
      else if k + (n - (k - e)) <= |stream| then Complete(head, rest + stream[k..k + (n - (k - e))])
      else IoError
  }

  /** What the server can make of a stream, wherever its reads stop. */
  ghost predicate ServerSees(stream: string, r: Outcome) {
    var e := EndOf(stream, BLANK);
    if e < 0 then r == IoError else exists k | e <= k <= |stream| :: SeesAfter(stream, e, k, r)
  }

  /** `read_request_and_content` */
  method ReadRequestAndContent(socket: Socket) returns (r: Outcome)
    modifies socket
    ensures ServerSees(old(socket.stream), r)
  {
    hide *;
    ghost var stream := socket.stream;
    var ok, filled, e := socket.ReadUntil("", BLANK);
    assert "" + stream == stream;
    if !ok {
      r := IoError;
      NothingArrived(stream);
      return;
    }
    ghost var k, left := |filled|, socket.stream;
    Arrived(stream, filled, left);
    var additional := |filled| - e;
    var line, rest := Getline(filled).0, Getline(filled).1;
    var start := ParseStart(line);
    if start.None? {
      r := Rejected;
      SeenRejected(stream, e, k, filled);
      return;
    }
    EndOccurs(filled, BLANK);
    BlankStops(filled, e - |BLANK|);
    var header, body := ReadFields(rest);
    var head := Head(start.value.0, start.value.1, start.value.2, header);
    ParsedRequest(filled);
    if i :| 0 <= i < |header| && IsLength(header, i) {
      var length := Stoull(header[i].1);
      if length.None? {
        r := BadLength;
      } else if length.value > additional {
        var n := length.value - additional;
        var ok', content := socket.ReadExactly(body, n);
        ExactBytes(stream, k, n, body, content, socket.stream, ok');
        r := if ok' then Complete(head, content) else IoError;
      } else {
        r := Complete(head, body);
      }
      SeenLength(stream, e, k, head, body, i, r);
    } else {
      r := Complete(head, body);
      SeenPlain(stream, e, k, head, body);
    }
  }

  lemma NothingArrived(stream: string)
    requires EndOf(stream, BLANK) < 0
    ensures ServerSees(stream, IoError)
  {}

  lemma Arrived(stream: string, filled: string, left: string)
    requires filled + left == stream
    ensures |filled| <= |stream| && stream[..|filled|] == filled && stream[|filled|..] == left
  {}

  lemma SeenRejected(stream: string, e: nat, k: nat, filled: string)
    requires e == EndOf(stream, BLANK) <= k <= |stream| && stream[..k] == filled && ParseStart(Getline(filled).0).None?
    ensures ServerSees(stream, Rejected)
  {
    assert SeesAfter(stream, e, k, Rejected);
  }

  lemma ParsedRequest(s: string)
    ensures ParseStart(Getline(s).0).Some? ==>
            var v := ParseStart(Getline(s).0).value;
            var (header, rest) := Fields(Getline(s).1);
            ParseRequest(s) == (Some(Head(v.0, v.1, v.2, header)), rest)
  {}

  lemma SeenPlain(stream: string, e: nat, k: nat, head: Head, rest: string)
    requires e == EndOf(stream, BLANK) <= k <= |stream| && ParseRequest(stream[..k]) == (Some(head), rest)
    requires !exists i | 0 <= i < |head.header| :: IsLength(head.header, i)
    ensures ServerSees(stream, Complete(head, rest))
  {
    assert SeesAfter(stream, e, k, Complete(head, rest));
  }

  lemma SeenLength(stream: string, e: nat, k: nat, head: Head, rest: string, i: nat, r: Outcome)
    requires e == EndOf(stream, BLANK) <= k <= |stream| && ParseRequest(stream[..k]) == (Some(head), rest)
    requires i < |head.header| && IsLength(head.header, i)
    requires match Stoull(head.header[i].1)
             case None => r == BadLength
             case Some(n) =>
               if n <= k - e then r == Complete(head, rest)
               else if k + (n - (k - e)) <= |stream| then r == Complete(head, rest + stream[k..k + (n - (k - e))])
               else r == IoError
    ensures ServerSees(stream, r)
  {
    hide Stoull, ParseRequest, EndOf;
    assert SeesAfter(stream, e, k, r);
  }

  lemma EndOccurs(s: string, d: string)
    requires EndOf(s, d) >= 0
    ensures OccursAt(s, d, EndOf(s, d) - |d|)
  {}

  lemma ExactBytes(stream: string, k: nat, n: nat, body: string, content: string, left: string, ok: bool)
    requires k <= |stream| && content + left == body + stream[k..]
    requires ok <==> n <= |stream| - k
    requires ok ==> |content| == |body| + n
    ensures ok <==> k + n <= |stream|
    ensures ok ==> content == body + stream[k..k + n]
  {
    if ok {
      assert content == (body + stream[k..])[..|body| + n];
    }
  }

  // ---- Round trip ----

  predicate Plain(s: string) { '\r' !in s && '\n' !in s }

  /** No space or newline in the method and the target, and valid header fields. */
  predicate Legible(verb: string, target: string, host: string, header: Headers, content: string) {
    && ' ' !in verb && '\n' !in verb && ' ' !in target && '\n' !in target
    && Plain(host) && ValidFields(header) && |content| < WORD
  }

  /** No length field the caller adds contradicts the body. */
  predicate LengthsAgree(header: Headers, content: string) {
    forall i | 0 <= i < |header| && IsLength(header, i) :: Stoull(header[i].1) == Some(|content|)
  }

  /** What the client can write so that it reads back. */
  predicate Sendable(verb: string, target: string, host: string, header: Headers, content: string) {
    Legible(verb, target, host, header, content) && LengthsAgree(header, content)
  }

  lemma StartValue(line: string, m: nat, p: nat, q: nat)
    requires m < p < q < |line| && Find(line, ' ') == m && FindFrom(line, ' ', m + 1) == p
    requires FindFrom(line, '/', p + 1) == q && line[p + 1..q] == "HTTP"
    ensures ParseStart(line)
         == Some((line[..m], line[m + 1..p], if q + 1 < |line| then line[q + 1..|line| - 1] else ""))
  {
    hide Find, FindFrom;
  }

  /** A method, a target and `HTTP/`, and whatever follows: the version is that, less its last
      character. */
  lemma StartAccepted(verb: string, target: string, rest: string)
    requires ' ' !in verb && ' ' !in target
    ensures ParseStart(verb + " " + target + " HTTP/" + rest)
         == Some((verb, target, if rest == "" then "" else rest[..|rest| - 1]))
  {
    hide Find, FindFrom, ParseStart;
    var line, last := verb + " " + target + " HTTP/" + rest, " HTTP/" + rest;
    var m, p := |verb|, |verb| + 1 + |target|;
    Joins(verb + " " + target, " HTTP/", rest);
    Spaced(verb, target, last);
    StartEnd(line, p, rest);
    FoundAt(line, m, p);
    StartValue(line, m, p, p + 5);
  }

  lemma Joins(a: string, b: string, c: string)
    ensures a + b + c == a + (b + c)
  {}

  lemma FoundAt(line: string, m: nat, p: nat)
    requires m < p && p + 5 < |line| && line[m] == ' ' && line[p] == ' ' && line[p + 5] == '/'
    requires ' ' !in line[..m] && ' ' !in line[m + 1..p] && line[p + 1..p + 5] == "HTTP"
    ensures Find(line, ' ') == m && FindFrom(line, ' ', m + 1) == p && FindFrom(line, '/', p + 1) == p + 5
  {
    hide Find, FindFrom;
    FindIs(line, ' ', m);
    FindFromIs(line, ' ', m + 1, p);
    FindFromIs(line, '/', p + 1, p + 5);
  }

  lemma Spaced(a: string, b: string, c: string)
    ensures var s := a + " " + b + c;
            s[..|a|] == a && s[|a|] == ' ' && s[|a| + 1..|a| + 1 + |b|] == b && s[|a| + 1 + |b|..] == c
  {}

  lemma StartEnd(line: string, p: nat, rest: string)
    requires p < |line| && line[p..] == " HTTP/" + rest
    ensures |line| == p + 6 + |rest| && line[p] == ' ' && line[p + 1..p + 5] == "HTTP" && line[p + 5] == '/'
    ensures rest != "" ==> line[p + 6..|line| - 1] == rest[..|rest| - 1]
  {
    var last := line[p..];
    assert line[p] == last[0] && line[p + 1..p + 5] == last[1..5] && line[p + 5] == last[5];
    assert |line| == p + |last| && last[6..] == rest;
    if rest != "" {
      assert line[p..][6..|last| - 1] == line[p + 6..|line| - 1];
      assert last[6..|last| - 1] == last[6..][..|rest| - 1];
    }
  }

  /** Only such lines are accepted. */
  lemma StartShape(line: string) returns (rest: string)
    requires ParseStart(line).Some?
    ensures var (verb, target, version) := ParseStart(line).value;
            ' ' !in verb && ' ' !in target && line == verb + " " + target + " HTTP/" + rest
  {
    hide Find, FindFrom;
    var m := Find(line, ' ');
    var p := FindFrom(line, ' ', m + 1);
    var q := FindFrom(line, '/', p + 1);
    rest := line[q + 1..];
    StartValue(line, m, p, q);
    hide ParseStart;
    Rejoined(line, m, p, q);
  }

  lemma Rejoined(line: string, m: nat, p: nat, q: nat)
    requires m < p < q < |line| && line[m] == ' ' && line[p] == ' ' && line[q] == '/' && line[p + 1..q] == "HTTP"
    ensures line == line[..m] + " " + line[m + 1..p] + " HTTP/" + line[q + 1..]
  {
    assert line[p..] == " " + line[p + 1..q] + "/" + line[q + 1..];
    assert " " + "HTTP" + "/" == " HTTP/";
    assert line == line[..m] + " " + line[m + 1..p] + line[p..];
  }

  /** A request line: method, target and `HTTP/`, with one space between them. */
  predicate IsStart(line: string, verb: string, target: string, rest: string) {
    ' ' !in verb && ' ' !in target && line == verb + " " + target + " HTTP/" + rest
  }

  /** The server rejects what it receives iff a head has arrived whose first line is no request line. */
  lemma RejectedIff(stream: string)
    ensures ServerSees(stream, Rejected) <==>
            EndOf(stream, BLANK) >= 0 && !exists verb, target, rest :: IsStart(Getline(stream).0, verb, target, rest)
  {
    hide Getline, Fields, Find, FindFrom, EndOf, ParseStart;
    var e := EndOf(stream, BLANK);
    if e >= 0 {
      forall k | e <= k <= |stream| ensures Getline(stream[..k]).0 == Getline(stream).0 {
        FirstLine(stream, e, k);
      }
      var line := Getline(stream).0;
      if ParseStart(line).Some? {
        var rest := StartShape(line);
        assert IsStart(line, ParseStart(line).value.0, ParseStart(line).value.1, rest);
      } else {
        if verb, target, rest :| IsStart(line, verb, target, rest) { StartAccepted(verb, target, rest); }
        assert SeesAfter(stream, e, |stream|, Rejected);
      }
    }
  }

  /** The head's first line does not depend on how much has arrived behind it. */
  lemma FirstLine(stream: string, e: nat, k: nat)
    requires e == EndOf(stream, BLANK) <= k <= |stream|
    ensures Getline(stream[..k]).0 == Getline(stream).0
  {
    hide Getline;
    var line, rest := Getline(stream).0, Getline(stream).1;
    EndOccurs(stream, BLANK);
    NewlineIn(stream, e);
    assert stream[..k] == line + "\n" + rest[..k - |line| - 1];
    GetlineIs(line, rest[..k - |line| - 1]);
  }

  lemma NewlineIn(s: string, e: nat)
    requires e == EndOf(s, BLANK)
    ensures var (line, rest) := Getline(s); '\n' !in line && s == line + "\n" + rest && |line| < e
  {
    var p := e - 4;
    assert s[p + 1] == s[p..p + 4][1];
    var i := Find(s, '\n');
    assert 0 <= i <= p + 1;
  }

  lemma FindFromIs(s: string, c: char, from: nat, i: nat)
    requires from <= i < |s| && s[i] == c && c !in s[from..i]
    ensures FindFrom(s, c, from) == i
  {
    assert forall k | from <= k < i :: s[k] == s[from..i][k - from];
  }

  lemma StartReads(verb: string, target: string)
    requires ' ' !in verb && '\n' !in verb && ' ' !in target && '\n' !in target
    ensures var line := StartLine(verb, target) + "\r";
            '\n' !in line && ParseStart(line) == Some((verb, target, "1.1"))
  {
    hide ParseStart;
    var line := StartLine(verb, target) + "\r";
    StartAccepted(verb, target, "1.1\r");
    assert line == verb + " " + target + " HTTP/" + "1.1\r" && "1.1\r"[..3] == "1.1";
  }

  /** The head of a written request, whatever follows it in the buffer. */
  lemma HeadReads(verb: string, target: string, host: string, header: Headers, content: string, body: string)
    requires Legible(verb, target, host, header, content)
    ensures var fields := RequestFields(host, header, content);
            var head := StartLine(verb, target) + CRLF + FieldLines(fields) + CRLF;
            && EndOf(head + body, BLANK) == |head|
            && ParseRequest(head + body) == (Some(Head(verb, target, "1.1", fields)), body)
  {
    hide Getline, Fields, EndOf, ParseStart, FieldLines, IsLength, StartLine;
    var fields := RequestFields(host, header, content);
    var first := StartLine(verb, target);
    FieldsValid(host, header, content);
    StartReads(verb, target);
    assert forall i | 0 <= i < |first| :: first[i] == (first + "\r")[i];
    HeadEnd(first, fields, body);
    var rest := FieldLines(fields) + CRLF + body;
    GetlineIs(first + "\r", rest);
    assert first + CRLF + FieldLines(fields) + CRLF + body == first + "\r" + "\n" + rest;
    FieldsRoundTrip(fields, body);
  }

  lemma FieldsValid(host: string, header: Headers, content: string)
    requires Plain(host) && ValidFields(header)
    ensures ValidFields(RequestFields(host, header, content))
  {
    DecimalDigits(|content|);
    assert forall i | 0 <= i < |Decimal(|content|)| :: IsDigit(Decimal(|content|)[i]);
  }

  /** The server has the request as the client wrote it, with possibly some of the bytes that follow. */
  ghost predicate Recovered(verb: string, target: string, host: string, header: Headers, content: string, tail: string,
          r: Outcome) {
    exists j | 0 <= j <= |tail| ::
      r == Complete(Head(verb, target, "1.1", RequestFields(host, header, content)), content + tail[..j])
  }

  /** Whatever the read boundaries, the server recovers the method, the target, version 1.1, all
      header fields with Host and Content-Length added, and the body. Bytes that follow the request
      on the same connection may be read along; without any, the content is exactly the body. */
  lemma RequestRoundTrip(verb: string, target: string, host: string, header: Headers, content: string, tail: string,
          r: Outcome)
    requires Sendable(verb, target, host, header, content)
    requires ServerSees(RequestText(verb, target, host, header, content) + tail, r)
    ensures Recovered(verb, target, host, header, content, tail, r)
  {
    hide Getline, Fields, EndOf, ParseStart, FieldLines, IsLength, StartLine, ParseRequest, Stoull, SeesAfter,
        RequestFields, Sendable, Legible;
    SendableLengths(verb, target, host, header, content);
    var fields := RequestFields(host, header, content);
    var head := StartLine(verb, target) + CRLF + FieldLines(fields) + CRLF;
    var stream := RequestText(verb, target, host, header, content) + tail;
    assert stream == head + (content + tail);
    HeadReads(verb, target, host, header, content, content + tail);
    var e := |head|;
    var k :| e <= k <= |stream| && SeesAfter(stream, e, k, r);
    var arrived := (content + tail)[..k - e];
    assert stream[..k] == head + arrived;
    HeadReads(verb, target, host, header, content, arrived);
    LengthsSay(host, header, content);
    BodyReads(head, content, tail, k);
    Settled(stream, e, k, Head(verb, target, "1.1", fields), arrived, content, tail, r);
  }

  lemma SendableLengths(verb: string, target: string, host: string, header: Headers, content: string)
    requires Sendable(verb, target, host, header, content)
    ensures Legible(verb, target, host, header, content) && |content| < WORD
    ensures forall i | 0 <= i < |header| && IsLength(header, i) :: Stoull(header[i].1) == Some(|content|)
  {}

  /** The round trip holds for a legible request, whatever follows it and wherever the reads stop, iff
      no length field the caller adds contradicts the body. */
  lemma RecoveredIff(verb: string, target: string, host: string, header: Headers, content: string)
    requires Legible(verb, target, host, header, content)
    ensures (forall tail, r | ServerSees(RequestText(verb, target, host, header, content) + tail, r) ::
               Recovered(verb, target, host, header, content, tail, r))
       <==> LengthsAgree(header, content)
  {
    hide ServerSees, Recovered, RequestText, Legible;
    if LengthsAgree(header, content) {
      forall tail, r | ServerSees(RequestText(verb, target, host, header, content) + tail, r)
        ensures Recovered(verb, target, host, header, content, tail, r)
      {
        RequestRoundTrip(verb, target, host, header, content, tail, r);
      }
    } else {
      var i :| 0 <= i < |header| && IsLength(header, i) && Stoull(header[i].1) != Some(|content|);
      var r := WrongLength(verb, target, host, header, content, i);
    }
  }

  /** A first read that stops at the blank line, and a lookup that finds the contradicting field. */
  lemma WrongLength(verb: string, target: string, host: string, header: Headers, content: string, i: nat)
    returns (r: Outcome)
    requires Legible(verb, target, host, header, content)
    requires i < |header| && IsLength(header, i) && Stoull(header[i].1) != Some(|content|)
    ensures ServerSees(RequestText(verb, target, host, header, content) + "", r)
    ensures !Recovered(verb, target, host, header, content, "", r)
  {
    hide Getline, EndOf, FieldLines, StartLine, ParseRequest, Stoull, SameName, Legible;
    var fields := RequestFields(host, header, content);
    var head := StartLine(verb, target) + CRLF + FieldLines(fields) + CRLF;
    var stream := RequestText(verb, target, host, header, content) + "";
    var h := Head(verb, target, "1.1", fields);
    var e := |head|;
    assert stream == head + content && stream[..e] == head + "" && stream[e..] == content;
    HeadReads(verb, target, host, header, content, content);
    HeadReads(verb, target, host, header, content, "");
    assert fields[i + 1] == header[i] && IsLength(fields, i + 1);
    r := WithLength(stream, e, e, h, "", Stoull(fields[i + 1].1));
    assert SeesAfter(stream, e, e, r);
    assert r.Complete? ==> |r.content| != |content|;
    forall j | 0 <= j <= |""|
      ensures |content + ""[..j]| == |content|
    {}
  }

  /** Once the head is known, every way to read on ends with the whole body. */
  lemma Settled(stream: string, e: nat, k: nat, h: Head, arrived: string, content: string, tail: string, r: Outcome)
    requires e <= k <= |stream| && SeesAfter(stream, e, k, r)
    requires ParseRequest(stream[..k]) == (Some(h), arrived) && k - e <= |content| + |tail|
    requires forall i | 0 <= i < |h.header| && IsLength(h.header, i) :: Stoull(h.header[i].1) == Some(|content|)
    requires content != "" ==> exists i | 0 <= i < |h.header| :: IsLength(h.header, i)
    requires var have := k - e;
             if have < |content| then
               k + (|content| - have) <= |stream| && arrived + stream[k..k + (|content| - have)] == content + tail[..0]
             else arrived == content + tail[..have - |content|]
    ensures exists j | 0 <= j <= |tail| :: r == Complete(h, content + tail[..j])
  {
    hide ParseRequest, Stoull, IsLength;
    if i :| 0 <= i < |h.header| && IsLength(h.header, i) {
      assert r == WithLength(stream, e, k, h, arrived, Some(|content|));
    } else {
      assert r == Complete(h, arrived);
    }
  }

  lemma LengthsSay(host: string, header: Headers, content: string)
    requires |content| < WORD
    requires forall i | 0 <= i < |header| && IsLength(header, i) :: Stoull(header[i].1) == Some(|content|)
    ensures var fields := RequestFields(host, header, content);
            && (forall i | 0 <= i < |fields| && IsLength(fields, i) :: Stoull(fields[i].1) == Some(|content|))
            && (content != "" ==> exists i | 0 <= i < |fields| :: IsLength(fields, i))
  {
    var fields := RequestFields(host, header, content);
    StoullDecimal(|content|);
    forall i | 0 <= i < |fields| && IsLength(fields, i)
      ensures Stoull(fields[i].1) == Some(|content|)
    {
      if 1 <= i <= |header| {
        assert fields[i] == header[i - 1] && IsLength(header, i - 1);
      }
    }
    if content != "" {
      assert IsLength(fields, |header| + 1);
    }
  }

  /** Reading exactly the missing bytes completes the body. */
  lemma BodyReads(head: string, content: string, tail: string, k: nat)
    requires |head| <= k <= |head| + |content| + |tail|
    ensures var (stream, have) := (head + (content + tail), k - |head|);
            var arrived := (content + tail)[..have];
            if have < |content| then
              k + (|content| - have) <= |stream| && arrived + stream[k..k + (|content| - have)] == content + tail[..0]
            else arrived == content + tail[..have - |content|]
  {}

  // ---- The path ----

  lemma TargetLegible(path: string, proxied: bool, host: string, port: nat)
    requires ' ' !in path && '\n' !in path && (proxied ==> ' ' !in host && '\n' !in host)
    ensures ' ' !in TargetOf(path, proxied, host, port) && '\n' !in TargetOf(path, proxied, host, port)
  {
    DecimalDigits(port);
    assert forall c | c in Decimal(port) :: IsDigit(c);
  }

  /** What the client is asked to send reaches the server: the method, the path, or `/` for an empty
      one, and behind it the fields Host, the caller's and, for a body, its length. Through a
      plain-HTTP proxy the path comes with the host and the port in front. */
  lemma PathRoundTrip(verb: string, path: string, proxied: bool, host: string, port: nat, header: Headers,
          content: string, tail: string, r: Outcome)
    requires Sendable(verb, path, host, header, content) && (proxied ==> ' ' !in host)
    requires ServerSees(RequestText(verb, TargetOf(path, proxied, host, port), host, header, content) + tail, r)
    ensures r.Complete? && r.head.verb == verb && r.head.version == "1.1"
    ensures !proxied ==> r.head.path == if path == "" then "/" else path
    ensures proxied ==> r.head.path == "http://" + host + ":" + Decimal(port) + if path == "" then "/" else path
    ensures r.head.header
         == [("Host", host)] + header + if content == "" then [] else [("Content-Length", Decimal(|content|))]
    ensures exists j | 0 <= j <= |tail| :: r.content == content + tail[..j]
  {
    hide ServerSees, RequestText, LengthsAgree;
    var target := TargetOf(path, proxied, host, port);
    TargetLegible(path, proxied, host, port);
    RequestRoundTrip(verb, target, host, header, content, tail, r);
  }
}
