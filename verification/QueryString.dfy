/** Percent decoding and the one-pass query-string scan. */
module QueryString {
  import opened Wrappers
  import opened Text

  type Parameters = seq<(string, string)>

  // ---- Percent decoding ----

  /** static_cast<char>(strtol(hex, 0, 16)) of two characters; 0 where nothing is read. A NUL ends
      the C string. */
  function HexByte(a: char, b: char): char {
    var c := if a == '\0' then "" else if b == '\0' then [a] else [a, b];
    match Strtol16(c)
    case None => '\0'
    case Some(n) => (n % 256) as char
  }

  /** Percent::decode from position `i` on. */
  function DecodeFrom(s: string, i: nat): string
    requires i <= |s|
    decreases |s| - i
  {
    if i == |s| then ""
    else if s[i] == '%' && i + 2 < |s| then [HexByte(s[i + 1], s[i + 2])] + DecodeFrom(s, i + 3)
    else if s[i] == '+' then " " + DecodeFrom(s, i + 1)
    else [s[i]] + DecodeFrom(s, i + 1)
  }

  function Decode(s: string): string { DecodeFrom(s, 0) }

  /** One turn of the loop: the byte it appends, and where it goes on. */
  function Decoded(s: string, i: nat): char
    requires i < |s|
  {
    if s[i] == '%' && i + 2 < |s| then HexByte(s[i + 1], s[i + 2]) else if s[i] == '+' then ' ' else s[i]
  }

  function After(s: string, i: nat): nat
    requires i < |s|
  {
    if s[i] == '%' && i + 2 < |s| then i + 3 else i + 1
  }

  lemma DecodeTurn(s: string, i: nat)
    requires i < |s|
    ensures DecodeFrom(s, i) == [Decoded(s, i)] + DecodeFrom(s, After(s, i))
  {
    hide HexByte;
  }

  lemma DecodeStep(s: string, i: nat, result: string)
    requires i < |s|
    ensures result + DecodeFrom(s, i) == result + [Decoded(s, i)] + DecodeFrom(s, After(s, i))
  {
    hide *;
    DecodeTurn(s, i);
  }

  method PercentDecode(value: string) returns (result: string)
    ensures result == Decode(value)
  {
    hide HexByte, DecodeFrom;
    result := "";
    var i := 0;
    assert result + DecodeFrom(value, 0) == Decode(value);
    while i < |value|
      invariant 0 <= i <= |value|
      invariant result + DecodeFrom(value, i) == Decode(value)
    {
      var chr := value[i];
      DecodeStep(value, i, result);
      if chr == '%' && i + 2 < |value| {
        result := result + [HexByte(value[i + 1], value[i + 2])];
        i := i + 2;
      } else if chr == '+' {
        result := result + " ";
      } else {
        result := result + [chr];
      }
      i := i + 1;
    }
    DecodeEnd(value);
    assert result + "" == result;
  }

  lemma DecodeEnd(s: string)
    ensures DecodeFrom(s, |s|) == ""
  {}

  // ---- Encoders that decoding undoes ----

  /** A byte may stand for itself unless the decoder or the scan gives it a meaning. */
  predicate MustEscape(c: char) { c == '%' || c == '+' || c == '&' || c == '=' }

  /** One encoded byte: itself, `+` for a space, or an escape of two hexadecimal digits of either
      case. */
  predicate EncodesByte(code: string, c: char) {
    || (code == [c] && !MustEscape(c))
    || (code == "+" && c == ' ')
    || (|code| == 3 && code[0] == '%' && HexDigit(code[1]) >= 0 && HexDigit(code[2]) >= 0
        && c as int == 16 * HexDigit(code[1]) + HexDigit(code[2]))
  }

  ghost predicate Encodes(codes: seq<string>, plain: string) {
    |codes| == |plain| && forall i | 0 <= i < |plain| :: EncodesByte(codes[i], plain[i])
  }

  function Concat(parts: seq<string>): string {
    if parts == [] then "" else parts[0] + Concat(parts[1..])
  }

  lemma TwoHex(a: char, b: char)
    requires HexDigit(a) >= 0 && HexDigit(b) >= 0
    ensures Strtol16([a, b]) == Some(16 * HexDigit(a) + HexDigit(b))
  {
    var c := [a, b];
    assert c[1..] == [b] && [b][1..] == "";
    assert SkipSpaces(c) == c;
    hide SkipSpaces, HexDigit;
    assert ReadHex([b], HexDigit(a)) == 16 * HexDigit(a) + HexDigit(b);
    assert ReadHex(c, 0) == ReadHex(c[1..], HexDigit(a));
    HexIsDigit(a);
  }

  lemma HexIsDigit(c: char)
    requires HexDigit(c) >= 0
    ensures c != '-' && c != '+' && c != '\0'
  {}

  lemma HexByteIs(a: char, b: char)
    requires HexDigit(a) >= 0 && HexDigit(b) >= 0
    ensures HexByte(a, b) as int == 16 * HexDigit(a) + HexDigit(b)
  {
    TwoHex(a, b);
    HexIsDigit(a);
    HexIsDigit(b);
    hide Strtol16, HexDigit;
  }

  lemma OneHex(a: char)
    ensures Strtol16([a]) == if HexDigit(a) >= 0 then Some(HexDigit(a)) else None
  {
    assert [a][1..] == "" && [a] + "" == [a];
    SkipNone(a, "");
    HexNoSpace(a);
    hide HexDigit, SkipSpaces, IsSpace;
    assert HexDigit(a) >= 0 ==> ReadHex([a], 0) == HexDigit(a);
  }

  lemma SkipNone(a: char, rest: string)
    ensures SkipSpaces([a] + rest) == if IsSpace(a) then SkipSpaces(rest) else [a] + rest
    ensures SkipSpaces("") == ""
  {
    assert ([a] + rest)[1..] == rest;
  }

  /** One digit, or a blank or a sign and a digit, or no number. */
  lemma TwoChars(a: char, b: char)
    requires HexDigit(a) < 0 || HexDigit(b) < 0
    ensures Strtol16([a, b]) ==
            if HexDigit(a) >= 0 then Some(HexDigit(a))
            else if HexDigit(b) < 0 then None
            else if IsSpace(a) || a == '+' then Some(HexDigit(b))
            else if a == '-' then Some(-HexDigit(b))
            else None
  {
    assert [a, b] == [a] + [b] && [a, b][1..] == [b] && [b][1..] == "" && [b] == [b] + "";
    SkipNone(a, [b]);
    SkipNone(b, "");
    HexNoSpace(a);
    HexNoSpace(b);
    hide HexDigit, SkipSpaces, IsSpace;
    assert HexDigit(b) >= 0 ==> ReadHex([b], 0) == HexDigit(b);
    assert HexDigit(a) >= 0 && HexDigit(b) < 0 ==> ReadHex([a, b], 0) == HexDigit(a);
  }

  lemma HexNoSpace(c: char)
    ensures HexDigit(c) >= 0 ==> !IsSpace(c) && c != '-' && c != '+' && c != '\0'
    ensures IsSpace(c) ==> c != '-' && c != '+'
  {}

  /** Escapes of anything but two digits: strtol reads one digit, possibly behind a blank or a sign, or
      nothing. */
  lemma HexByteForms(a: char, b: char)
    requires HexDigit(a) < 0 || HexDigit(b) < 0
    ensures HexByte(a, b) as int ==
            if HexDigit(a) >= 0 then HexDigit(a)
            else if HexDigit(b) < 0 then 0
            else if IsSpace(a) || a == '+' then HexDigit(b)
            else if a == '-' then (256 - HexDigit(b)) % 256
            else 0
  {
    OneHex(a);
    TwoChars(a, b);
    HexNoSpace(a);
    HexNoSpace(b);
    assert HexDigit('\0') < 0 && !IsSpace('\0');
    hide HexDigit, IsSpace, Strtol16;
    assert Strtol16("") == None by { NoNumber(""); }
  }

  /** A percent sign with fewer than two characters behind it stands for itself. */
  lemma ShortEscape(c: char)
    ensures Decode("%") == "%" && Decode(['%', c]) == ['%', if c == '+' then ' ' else c]
  {
    DecodeTurn("%", 0);
    DecodeTurn(['%', c], 0);
    DecodeTurn(['%', c], 1);
    DecodeEnd("%");
    DecodeEnd(['%', c]);
  }

  lemma ShiftOne(p: string, s: string, i: nat)
    requires i < |s|
    ensures Decoded(p + s, |p| + i) == Decoded(s, i) && After(p + s, |p| + i) == |p| + After(s, i)
  {
    hide HexByte;
    assert forall k | 0 <= k < |s| :: (p + s)[|p| + k] == s[k];
  }

  lemma {:induction false} DecodeShift(p: string, s: string, i: nat)
    requires i <= |s|
    ensures DecodeFrom(p + s, |p| + i) == DecodeFrom(s, i)
    decreases |s| - i
  {
    hide DecodeFrom, Decoded;
    if i < |s| {
      ShiftOne(p, s, i);
      DecodeTurn(p + s, |p| + i);
      DecodeTurn(s, i);
      DecodeShift(p, s, After(s, i));
    } else {
      DecodeEnd(s);
      DecodeEnd(p + s);
    }
  }

  /** Decoding undoes every encoder that escapes what must be escaped. */
  lemma {:induction false} DecodeUndoesEncode(codes: seq<string>, plain: string)
    requires Encodes(codes, plain)
    ensures Decode(Concat(codes)) == plain
    decreases |codes|
  {
    if codes != [] {
      var code, rest := codes[0], Concat(codes[1..]);
      assert EncodesByte(code, plain[0]);
      DecodeUndoesEncode(codes[1..], plain[1..]);
      hide DecodeFrom, HexByte, Decoded, After, EncodesByte;
      CodeReads(code, rest, plain[0]);
      DecodeTurn(code + rest, 0);
      DecodeShift(code, rest, 0);
      assert plain == [plain[0]] + plain[1..];
    }
  }

  /** The decoder takes one turn for one encoded byte. */
  lemma CodeReads(code: string, rest: string, c: char)
    requires EncodesByte(code, c)
    ensures code + rest != "" && Decoded(code + rest, 0) == c && After(code + rest, 0) == |code|
  {
    hide HexByte;
    var s := code + rest;
    assert forall i | 0 <= i < |code| :: s[i] == code[i];
    if |code| == 3 {
      HexByteIs(code[1], code[2]);
    }
  }

  // ---- The scan ----

  const NPOS := WORD - 1

  /** Subtraction of size_t values. */
  function Minus(a: nat, b: nat): nat
    requires a < WORD && b < WORD
  {
    if a >= b then a - b else a - b + WORD
  }

  /** std::string::substr, which clips the length; `pos` must not exceed the size. */
  function Substr(s: string, pos: nat, len: nat): string
    requires pos <= |s|
  {
    if pos + len < |s| then s[pos..pos + len] else s[pos..]
  }

  // ---- The specification: split at '&', cut at the last '=' ----

  /** The last '=' of a piece, or -1. */
  function LastEquals(p: string): (i: int)
    ensures -1 <= i < |p| && (i >= 0 ==> p[i] == '=')
    ensures forall k | i < k < |p| :: p[k] != '='
  {
    if p == "" then -1 else if p[|p| - 1] == '=' then |p| - 1 else LastEquals(p[..|p| - 1])
  }

  /** The parameter of one piece, unless its name is empty. */
  function ParameterOf(p: string): Parameters {
    var i := LastEquals(p);
    var name := if i < 0 then p else p[..i];
    var value := if i < 0 then "" else p[i + 1..];
    if name == "" then [] else [(name, Decode(value))]
  }

  /** A piece without an equals sign is a name without a value; otherwise the name ends at the last one,
      and only the value is decoded. Without a name there is no parameter. */
  lemma PieceForms(name: string, value: string)
    requires '=' !in value
    ensures ParameterOf(name + "=" + value) == if name == "" then [] else [(name, Decode(value))]
    ensures ParameterOf(value) == if value == "" then [] else [(value, "")]
  {
    hide DecodeFrom;
    var p := name + "=" + value;
    LastEqualsIs(p, |name|, value);
    assert p[..|name|] == name && p[|name| + 1..] == value;
    DecodeEnd("");
  }

  function Split(s: string): (pieces: seq<string>)
    ensures pieces != []
  {
    var i := Find(s, '&');
    if i < 0 then [s] else [s[..i]] + Split(s[i + 1..])
  }

  function Joined(pieces: seq<string>): string
    requires pieces != []
  {
    if |pieces| == 1 then pieces[0] else pieces[0] + "&" + Joined(pieces[1..])
  }

  /** The pieces are what stands between the ampersands. */
  lemma {:induction false} SplitJoins(s: string)
    ensures Joined(Split(s)) == s && forall i | 0 <= i < |Split(s)| :: '&' !in Split(s)[i]
    decreases |s|
  {
    hide Find;
    var i := Find(s, '&');
    if i >= 0 {
      SplitJoins(s[i + 1..]);
      var rest := Split(s[i + 1..]);
      assert ([s[..i]] + rest)[1..] == rest;
      assert s == s[..i] + "&" + s[i + 1..];
    }
  }

  function ParametersOf(pieces: seq<string>): Parameters {
    if pieces == [] then [] else ParameterOf(pieces[0]) + ParametersOf(pieces[1..])
  }

  // ---- The scan refines it ----

  /** The pieces closed before position `c`, and where the open piece starts. */
  ghost predicate Scanned(s: string, c: nat, start: nat, result: Parameters) {
    && start <= c <= |s|
    && '&' !in s[start..c]
    && result + ParametersOf(Split(s[start..])) == ParametersOf(Split(s))
  }

  /** The sentinel positions describe the last '=' of the open piece. */
  ghost predicate Marks(s: string, c: nat, start: nat, end: nat, value: nat) {
    && start <= c <= |s|
    && var i := LastEquals(s[start..c]);
       if i < 0 then end == NPOS && value == NPOS else end == start + i && value == start + i + 1
  }

  lemma SplitAt(s: string, start: nat, c: nat)
    requires start <= c < |s| && s[c] == '&' && '&' !in s[start..c]
    ensures Split(s[start..]) == [s[start..c]] + Split(s[c + 1..])
  {
    hide Find, ParametersOf;
    var t := s[start..];
    assert t[..c - start] == s[start..c] && t[c - start + 1..] == s[c + 1..];
    FindIs(t, '&', c - start);
  }

  lemma SplitLast(p: string)
    requires '&' !in p
    ensures Split(p) == [p] && ParametersOf([p]) == ParameterOf(p)
  {
    assert ParametersOf([p][1..]) == [];
  }

  lemma EqualsStep(s: string, start: nat, c: nat)
    requires start <= c < |s|
    ensures LastEquals(s[start..c + 1]) == if s[c] == '=' then c - start else LastEquals(s[start..c])
  {
    assert s[start..c + 1][..c - start] == s[start..c];
  }

  lemma SubstrIs(s: string, pos: nat, end: nat)
    requires pos <= end <= |s| && |s| < NPOS
    ensures Substr(s, pos, Minus(end, pos)) == s[pos..end]
  {}

  lemma SliceParts(s: string, start: nat, c: nat, i: nat)
    requires start <= c <= |s| && i < c - start
    ensures s[start..c][..i] == s[start..start + i] && s[start..c][i + 1..] == s[start + i + 1..c]
  {}

  /** The substrings the scan takes are the name and the value of the piece. */
  lemma CutIs(s: string, c: nat, start: nat, end: nat, value: nat)
    requires |s| < NPOS && Marks(s, c, start, end, value)
    ensures var p := s[start..c];
            var i := LastEquals(p);
            && Substr(s, start, Minus(if end == NPOS then c else end, start)) == (if i < 0 then p else p[..i])
            && (value != NPOS ==> value <= c && Substr(s, value, Minus(c, value)) == p[i + 1..])
            && (value == NPOS <==> i < 0)
  {
    hide LastEquals, Substr;
    var i := LastEquals(s[start..c]);
    if i < 0 {
      SubstrIs(s, start, c);
      assert end == NPOS && value == NPOS;
    } else {
      SubstrIs(s, start, start + i);
      SubstrIs(s, value, c);
      SliceParts(s, start, c, i);
    }
  }

  lemma ScannedStep(s: string, c: nat, start: nat, result: Parameters)
    requires c < |s| && s[c] == '&' && Scanned(s, c, start, result)
    ensures Scanned(s, c + 1, c + 1, result + ParameterOf(s[start..c]))
  {
    hide Split, ParameterOf;
    SplitAt(s, start, c);
    var pieces := [s[start..c]] + Split(s[c + 1..]);
    assert pieces[1..] == Split(s[c + 1..]);
    var p, rest := ParameterOf(s[start..c]), ParametersOf(Split(s[c + 1..]));
    assert result + p + rest == result + (p + rest);
  }

  lemma OtherStep(s: string, c: nat, start: nat, end: nat, value: nat, result: Parameters)
    requires c < |s| && s[c] != '&' && Scanned(s, c, start, result) && Marks(s, c, start, end, value)
    ensures Scanned(s, c + 1, start, result)
    ensures if s[c] == '=' then Marks(s, c + 1, start, c, c + 1) else Marks(s, c + 1, start, end, value)
  {
    hide Split, ParametersOf, LastEquals;
    EqualsStep(s, start, c);
    assert s[start..c + 1] == s[start..c] + [s[c]];
  }

  method ParseQueryString(query: string) returns (result: Parameters)
    requires |query| < NPOS
    ensures result == if query == "" then [] else ParametersOf(Split(query))
  {
    hide *;
    result := [];
    if query == "" {
      return;
    }
    var parameterPos: nat, parameterEnd: nat, valuePos: nat := 0, NPOS, NPOS;
    ScanStart(query);
    var c := 0;
    while c < |query|
      invariant 0 <= parameterPos <= c <= |query| && parameterEnd < WORD && valuePos < WORD
      invariant Scanned(query, c, parameterPos, result)
      invariant Marks(query, c, parameterPos, parameterEnd, valuePos)
    {
      if query[c] == '&' {
        CutIs(query, c, parameterPos, parameterEnd, valuePos);
        ScannedStep(query, c, parameterPos, result);
        ghost var piece, before := query[parameterPos..c], result;
        var parameter := Substr(query, parameterPos,
                                Minus(if parameterEnd == NPOS then c else parameterEnd, parameterPos));
        if parameter != "" {
          var value := if valuePos == NPOS then "" else Substr(query, valuePos, Minus(c, valuePos));
          var decoded := PercentDecode(value);
          result := result + [(parameter, decoded)];
        }
        ParameterIs(piece);
        assert result == before + ParameterOf(piece);
        parameterPos, parameterEnd, valuePos := c + 1, NPOS, NPOS;
        MarksFresh(query, c + 1);
      } else {
        OtherStep(query, c, parameterPos, parameterEnd, valuePos, result);
        if query[c] == '=' {
          parameterEnd, valuePos := c, c + 1;
        }
      }
      c := c + 1;
    }
    ghost var piece, before := query[parameterPos..c], result;
    ScanEnd(query, parameterPos, result);
    LastCut(query, parameterPos, parameterEnd, valuePos);
    ParameterIs(piece);
    if parameterPos < |query| {
      var parameter := Substr(query, parameterPos, Minus(parameterEnd, parameterPos));
      if parameter != "" {
        var value := if valuePos >= |query| then "" else Substr(query, valuePos, NPOS);
        var decoded := PercentDecode(value);
        result := result + [(parameter, decoded)];
      }
    }
    assert result == before + ParameterOf(piece);
  }

  lemma ParameterIs(p: string)
    ensures var i := LastEquals(p);
            var name, value := if i < 0 then p else p[..i], if i < 0 then "" else p[i + 1..];
            ParameterOf(p) == if name == "" then [] else [(name, Decode(value))]
  {}

  lemma ScanStart(s: string)
    requires |s| < NPOS
    ensures Scanned(s, 0, 0, []) && Marks(s, 0, 0, NPOS, NPOS) && |s| < NPOS < WORD
  {
    assert s[0..] == s && s[0..0] == "";
  }

  lemma MarksFresh(s: string, c: nat)
    requires c <= |s|
    ensures Marks(s, c, c, NPOS, NPOS)
  {
    assert s[c..c] == "";
  }

  lemma ScanEnd(s: string, start: nat, result: Parameters)
    requires Scanned(s, |s|, start, result)
    ensures result + ParameterOf(s[start..|s|]) == ParametersOf(Split(s))
  {
    hide Split, ParametersOf, ParameterOf;
    assert s[start..|s|] == s[start..];
    SplitLast(s[start..]);
  }

  /** The code after the loop takes the same name and value, by clipping at the end. */
  lemma LastCut(s: string, start: nat, end: nat, value: nat)
    requires |s| < NPOS && Marks(s, |s|, start, end, value)
    ensures var p := s[start..|s|];
            var i := LastEquals(p);
            && (start < |s| ==> Substr(s, start, Minus(end, start)) == (if i < 0 then p else p[..i]))
            && (start == |s| ==> p == "")
            && (if value >= |s| then "" else Substr(s, value, NPOS)) == (if i < 0 then "" else p[i + 1..])
  {
    hide LastEquals;
  }

  // ---- Round trip of a whole query string ----

  /** A parameter, and one encoding of its value. */
  datatype Field = Field(name: string, plain: string, codes: seq<string>)

  ghost predicate Writable(f: Field) {
    f.name != "" && '&' !in f.name && Encodes(f.codes, f.plain)
  }

  function PieceOf(f: Field): string { f.name + "=" + Concat(f.codes) }

  function QueryOf(fs: seq<Field>): string
    requires fs != []
  {
    if |fs| == 1 then PieceOf(fs[0]) else PieceOf(fs[0]) + "&" + QueryOf(fs[1..])
  }

  function PlainOf(fs: seq<Field>): Parameters {
    if fs == [] then [] else [(fs[0].name, fs[0].plain)] + PlainOf(fs[1..])
  }

  lemma {:induction false} ConcatClean(codes: seq<string>, plain: string)
    requires Encodes(codes, plain)
    ensures '&' !in Concat(codes) && '=' !in Concat(codes)
    decreases |codes|
  {
    if codes != [] {
      assert EncodesByte(codes[0], plain[0]);
      ConcatClean(codes[1..], plain[1..]);
      forall i | 0 <= i < |codes[0]|
        ensures codes[0][i] != '&' && codes[0][i] != '='
      {
        if |codes[0]| == 3 {
          assert codes[0] == [codes[0][0], codes[0][1], codes[0][2]];
        }
      }
    }
  }

  lemma PieceReads(f: Field)
    requires Writable(f)
    ensures '&' !in PieceOf(f) && ParameterOf(PieceOf(f)) == [(f.name, f.plain)]
  {
    var p, v := PieceOf(f), Concat(f.codes);
    ConcatClean(f.codes, f.plain);
    DecodeUndoesEncode(f.codes, f.plain);
    LastEqualsIs(p, |f.name|, v);
    assert p[..|f.name|] == f.name && p[|f.name| + 1..] == v;
  }

  lemma {:induction false} LastEqualsIs(p: string, i: nat, v: string)
    requires i + 1 + |v| == |p| && p[i] == '=' && p[i + 1..] == v && '=' !in v
    ensures LastEquals(p) == i
    decreases |v|
  {
    if v != "" {
      assert p[|p| - 1] == v[|v| - 1];
      LastEqualsIs(p[..|p| - 1], i, v[..|v| - 1]);
    }
  }

  /** Parsing the query string written for any parameters, with any encoder, recovers them. */
  lemma {:induction false} QueryRoundTrip(fs: seq<Field>)
    requires fs != [] && forall i | 0 <= i < |fs| :: Writable(fs[i])
    ensures ParametersOf(Split(QueryOf(fs))) == PlainOf(fs)
    decreases |fs|
  {
    var p := PieceOf(fs[0]);
    PieceReads(fs[0]);
    if |fs| == 1 {
      SplitLast(p);
      assert PlainOf(fs[1..]) == [];
    } else {
      var q := QueryOf(fs);
      var rest := QueryOf(fs[1..]);
      assert q[..|p|] == p && q[|p|] == '&' && q[|p| + 1..] == rest;
      FindIs(q, '&', |p|);
      assert ([p] + Split(rest))[1..] == Split(rest);
      QueryRoundTrip(fs[1..]);
    }
  }
}
