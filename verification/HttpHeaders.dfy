/** Header fields: how both sides write them, and the line loop both sides read them with. */
module HttpHeaders {
  import opened Text
  import opened Sockets

  /** A header multimap, in insertion order. */
  type Headers = seq<(string, string)>

  function Written(f: (string, string)): string { f.0 + ": " + f.1 }

  /** `name: value\r\n` for every field. */
  function FieldLines(h: Headers): string {
    if h == [] then "" else h[0].0 + ": " + h[0].1 + CRLF + FieldLines(h[1..])
  }

  /** The field a header line inserts, if any; the line still ends in its carriage return. */
  function FieldOf(line: string): Headers {
    var paramEnd := Find(line, ':');
    if paramEnd < 0 || paramEnd + 1 >= |line| then []
    else
      var valueStart := if line[paramEnd + 1] == ' ' then paramEnd + 2 else paramEnd + 1;
      if valueStart < |line| then [(line[..paramEnd], line[valueStart..|line| - 1])] else []
  }

  /** The fields up to the first line without a colon, and what follows that line. */
  function Fields(s: string): (r: (Headers, string))
    decreases |s|
  {
    var (line, rest) := Getline(s);
    if Find(line, ':') < 0 then ([], rest)
    else
      var (h, rest') := Fields(rest);
      (FieldOf(line) + h, rest')
  }

  /** A complete line without a colon lies ahead: what ends the line loop. */
  predicate Stops(s: string)
    decreases |s|
  {
    Find(s, '\n') >= 0 && (Find(Getline(s).0, ':') < 0 || Stops(Getline(s).1))
  }

  method ReadFields(content: string) returns (header: Headers, rest: string)
    requires Stops(content)
    ensures (header, rest) == Fields(content)
  {
    hide *;
    header := [];
    var (line, more) := Getline(content);
    rest := more;
    FieldsUnfold(content);
    while Find(line, ':') >= 0
      invariant Find(line, ':') >= 0 ==> Stops(rest) && header + FieldOf(line) + Fields(rest).0 == Fields(content).0
      invariant Find(line, ':') >= 0 ==> Fields(rest).1 == Fields(content).1
      invariant Find(line, ':') < 0 ==> (header, rest) == Fields(content)
      decreases |rest|, Find(line, ':') >= 0
    {
      header := header + FieldOf(line);
      FieldsUnfold(rest);
      Unfold2(header, rest);
      var (line', more') := Getline(rest);
      line, rest := line', more';
    }
  }

  lemma FieldsUnfold(s: string)
    requires Stops(s)
    ensures var (line, rest) := Getline(s);
            && |rest| < |s|
            && (if Find(line, ':') < 0 then Fields(s) == ([], rest)
                else Stops(rest) && Fields(s) == (FieldOf(line) + Fields(rest).0, Fields(rest).1))
  {
    hide FieldOf, Find;
  }

  lemma Unfold2(header: Headers, s: string)
    requires Stops(s)
    ensures var (line, rest) := Getline(s);
            header + Fields(s).0 == if Find(line, ':') < 0 then header else header + FieldOf(line) + Fields(rest).0
  {
    hide FieldOf, Find;
    FieldsUnfold(s);
  }

  const BLANK := "\r\n\r\n"

  /** A buffer that holds a blank line ends the line loop, also after the start line is read. */
  lemma {:induction false} BlankStops(s: string, p: nat)
    requires OccursAt(s, BLANK, p)
    ensures Stops(s) && Stops(Getline(s).1)
    decreases |s|
  {
    var (line, rest) := Getline(s);
    var q := Find(s, '\n');
    assert s[p] == s[p..p + 4][0] && s[p + 1] == s[p..p + 4][1];
    assert s[p + 2] == s[p..p + 4][2] && s[p + 3] == s[p..p + 4][3];
    assert 0 <= q <= p + 1 && q != p && line == s[..q] && rest == s[q + 1..];
    if q < p {
      assert rest[p - q - 1..p - q + 3] == s[p..p + 4];
      BlankStops(rest, p - q - 1);
    } else {
      BlankLine(rest);
    }
  }

  lemma BlankLine(s: string)
    requires |s| >= 2 && s[0] == '\r' && s[1] == '\n'
    ensures Stops(s) && Getline(s) == ("\r", s[2..]) && Fields(s) == ([], s[2..])
  {
    assert s == "\r" + "\n" + s[2..];
    GetlineIs("\r", s[2..]);
    assert Find("\r", ':') < 0;
    FindIs(s, '\n', 1);
  }

  // ---- Reading back what was written ----

  /** No colon, CR or LF in the name; no CR or LF in the value. */
  predicate ValidField(f: (string, string)) {
    ':' !in f.0 && '\r' !in f.0 && '\n' !in f.0 && '\r' !in f.1 && '\n' !in f.1
  }

  predicate ValidFields(h: Headers) { forall i | 0 <= i < |h| :: ValidField(h[i]) }

  /** What a line makes of the text after its first colon: one space is skipped, the last character is
      dropped, and a line that ends before its value has begun adds no field. */
  lemma FieldForms(name: string, text: string)
    requires ':' !in name
    ensures FieldOf(name + ":" + text) ==
            if text == "" || text == " " then []
            else if text[0] == ' ' then [(name, text[1..|text| - 1])]
            else [(name, text[..|text| - 1])]
    ensures FieldOf(name) == []
  {
    hide Find;
    var line := name + ":" + text;
    assert line[..|name|] == name && line[|name|] == ':' && line[|name| + 1..] == text;
    FindIs(line, ':', |name|);
    if text != "" {
      assert line[|name| + 1] == text[0] && line[|name| + 1..|line| - 1] == text[..|text| - 1];
      assert |text| > 1 ==> line[|name| + 2..|line| - 1] == text[1..|text| - 1];
    }
    NotFound(name, ':');
  }

  /** Line by line: the first line without a colon ends the header, blank or not. */
  lemma FieldsLine(line: string, rest: string)
    requires '\n' !in line
    ensures Fields(line + "\n" + rest) ==
            if ':' !in line then ([], rest) else (FieldOf(line) + Fields(rest).0, Fields(rest).1)
  {
    hide FieldOf;
    GetlineIs(line, rest);
    if ':' !in line { NotFound(line, ':'); }
  }

  lemma NotFound(s: string, c: char)
    requires c !in s
    ensures Find(s, c) == -1
  {}

  lemma FieldReads(f: (string, string))
    requires ValidField(f)
    ensures var line := f.0 + ": " + f.1 + "\r";
            '\n' !in line && Find(line, ':') == |f.0| && FieldOf(line) == [f]
  {
    var line := f.0 + ": " + f.1 + "\r";
    assert line[..|f.0|] == f.0 && line[|f.0|] == ':';
    FindIs(line, ':', |f.0|);
    assert line == f.0 + ":" + (" " + f.1 + "\r");
    FieldForms(f.0, " " + f.1 + "\r");
  }

  /** The written fields followed by a blank line read back as they were. */
  lemma {:induction false} FieldsRoundTrip(h: Headers, body: string)
    requires ValidFields(h)
    ensures Fields(FieldLines(h) + CRLF + body) == (h, body)
    decreases |h|
  {
    var s := FieldLines(h) + CRLF + body;
    if h == [] {
      assert s[2..] == body;
      BlankLine(s);
    } else {
      var line := h[0].0 + ": " + h[0].1 + "\r";
      var rest := FieldLines(h[1..]) + CRLF + body;
      assert s == line + "\n" + rest;
      FieldReads(h[0]);
      GetlineIs(line, rest);
      FieldsRoundTrip(h[1..], body);
      assert h == [h[0]] + h[1..];
    }
  }

  // ---- Where a written head ends ----

  /** Every newline is followed by something other than a carriage return. */
  predicate Dense(s: string) {
    forall i | 0 <= i < |s| && s[i] == '\n' :: i + 1 < |s| && s[i + 1] != '\r'
  }

  /** The head as lines separated, not ended, by CRLF. */
  function Joined(first: string, h: Headers): string
    decreases |h|
  {
    if h == [] then first else Joined(first + CRLF + Written(h[0]), h[1..])
  }

  lemma {:induction false} JoinedLines(first: string, h: Headers)
    ensures Joined(first, h) + CRLF == first + CRLF + FieldLines(h)
    decreases |h|
  {
    if h == [] {
      assert FieldLines(h) == "";
    } else {
      hide Written;
      var line, more := Written(h[0]), FieldLines(h[1..]);
      JoinedLines(first + CRLF + line, h[1..]);
      FieldLinesFirst(h);
      assert first + CRLF + (line + CRLF + more) == first + CRLF + line + CRLF + more;
    }
  }

  lemma FieldLinesFirst(h: Headers)
    requires h != []
    ensures FieldLines(h) == Written(h[0]) + CRLF + FieldLines(h[1..])
  {}

  lemma {:induction false} JoinedDense(first: string, h: Headers)
    requires Dense(first) && ValidFields(h)
    ensures Dense(Joined(first, h))
    decreases |h|
  {
    if h != [] {
      assert ValidField(h[0]);
      DenseMore(first, Written(h[0]));
      JoinedDense(first + CRLF + Written(h[0]), h[1..]);
    }
  }

  lemma DenseMore(a: string, b: string)
    requires Dense(a) && b != "" && b[0] != '\r' && '\n' !in b
    ensures Dense(a + CRLF + b)
  {
    var s := a + CRLF + b;
    forall i | 0 <= i < |s| && s[i] == '\n'
      ensures i + 1 < |s| && s[i + 1] != '\r'
    {
      if i < |a| {
        assert a[i] == '\n';
      } else {
        assert i == |a| + 1;
        assert s[i + 1] == b[0];
      }
    }
  }

  /** The first blank line of a dense head is the one after it. */
  lemma DenseEnd(a: string, body: string)
    requires Dense(a)
    ensures EndOf(a + BLANK + body, BLANK) == |a| + 4
  {
    var s := a + BLANK + body;
    assert s[|a|..|a| + 4] == BLANK;
    forall k | 0 <= k < |a|
      ensures !OccursAt(s, BLANK, k)
    {
      var w := s[k..k + 4];
      assert w[1] == s[k + 1] && w[2] == s[k + 2];
      assert k + 1 < |a| ==> s[k + 1] == a[k + 1];
      assert k + 2 < |a| ==> s[k + 2] == a[k + 2];
      assert BLANK[1] == '\n' && BLANK[2] == '\r';
    }
    EndIs(s, BLANK, |a|);
  }

  /** A written head followed by a body: the blank line found first is the one the writer put. */
  lemma HeadEnd(first: string, h: Headers, body: string)
    requires Dense(first) && ValidFields(h)
    ensures var head := first + CRLF + FieldLines(h) + CRLF;
            EndOf(head + body, BLANK) == |head|
  {
    JoinedLines(first, h);
    JoinedDense(first, h);
    DenseEnd(Joined(first, h), body);
    assert Joined(first, h) + BLANK + body == Joined(first, h) + CRLF + CRLF + body;
  }
}
