/** Byte strings (a `char` stands for one byte of a std::string), the searches and the number
    conversions the HTTP layer uses. */
module Text {
  import opened Wrappers

  const CRLF := "\r\n"

  /** std::string::find of one character from `from` on; -1 stands for npos. */
  function FindFrom(s: string, c: char, from: nat): (i: int)
    ensures i == -1 || from <= i < |s|
    ensures i >= 0 ==> s[i] == c && forall k | from <= k < i :: s[k] != c
    ensures i == -1 ==> forall k | from <= k < |s| :: s[k] != c
    decreases |s| - from
  {
    if from >= |s| then -1 else if s[from] == c then from else FindFrom(s, c, from + 1)
  }

  function Find(s: string, c: char): (i: int)
    ensures i == -1 || 0 <= i < |s|
    ensures i >= 0 ==> s[i] == c && forall k | 0 <= k < i :: s[k] != c
    ensures i == -1 ==> c !in s
  {
    FindFrom(s, c, 0)
  }

  lemma FindIs(s: string, c: char, i: nat)
    requires i < |s| && s[i] == c && c !in s[..i]
    ensures Find(s, c) == i
  {
    assert forall k | 0 <= k < i :: s[..i][k] == s[k];
  }

  /** getline: the characters before the first newline, and what follows it. */
  function Getline(s: string): (r: (string, string))
    ensures '\n' !in r.0 && |r.0| + |r.1| <= |s|
    ensures s != "" ==> |r.1| < |s|
  {
    var i := Find(s, '\n');
    if i < 0 then (s, "") else (s[..i], s[i + 1..])
  }

  lemma GetlineIs(line: string, rest: string)
    requires '\n' !in line
    ensures Getline(line + "\n" + rest) == (line, rest) && Getline(line) == (line, "")
  {
    var s := line + "\n" + rest;
    assert s[..|line|] == line && s[|line|] == '\n' && s[|line| + 1..] == rest;
    FindIs(s, '\n', |line|);
  }

  // ---- Case-insensitive names ----

  function Lower(c: char): char {
    if 'A' <= c <= 'Z' then c - 'A' + 'a' else c
  }

  predicate SameName(a: string, b: string) {
    |a| == |b| && forall i | 0 <= i < |a| :: Lower(a[i]) == Lower(b[i])
  }

  /** Two names are the same iff they differ in nothing but the case of ASCII letters. */
  lemma SameNameIff(a: string, b: string)
    ensures SameName(a, b) <==> |a| == |b| && forall i | 0 <= i < |a| ::
              || a[i] == b[i]
              || ('A' <= a[i] <= 'Z' && b[i] as int == a[i] as int + 32)
              || ('A' <= b[i] <= 'Z' && a[i] as int == b[i] as int + 32)
  {
    if |a| == |b| {
      forall i | 0 <= i < |a|
        ensures Lower(a[i]) == Lower(b[i]) <==>
                || a[i] == b[i]
                || ('A' <= a[i] <= 'Z' && b[i] as int == a[i] as int + 32)
                || ('A' <= b[i] <= 'Z' && a[i] as int == b[i] as int + 32)
      {
        SameLetter(a[i], b[i]);
      }
    }
  }

  lemma SameLetter(c: char, d: char)
    ensures Lower(c) == Lower(d) <==>
            || c == d
            || ('A' <= c <= 'Z' && d as int == c as int + 32)
            || ('A' <= d <= 'Z' && c as int == d as int + 32)
  {}

  // ---- Decimal numbers ----

  function Digit(n: nat): char
    requires n < 10
  {
    '0' + n as char
  }

  /** operator<< of an unsigned number. */
  function Decimal(n: nat): (s: string)
    ensures s != ""
  {
    if n < 10 then [Digit(n)] else Decimal(n / 10) + [Digit(n % 10)]
  }

  predicate IsDigit(c: char) { '0' <= c <= '9' }

  predicate IsSpace(c: char) { c == ' ' || '\t' <= c <= '\r' }

  /** The digits strtoull reads from the front of `s`, on top of `acc`. */
  function ReadDigits(s: string, acc: nat): nat {
    if s == "" || !IsDigit(s[0]) then acc else ReadDigits(s[1..], 10 * acc + (s[0] - '0') as nat)
  }

  function SkipSpaces(s: string): string {
    if s != "" && IsSpace(s[0]) then SkipSpaces(s[1..]) else s
  }

  const WORD := 0x1_0000_0000_0000_0000

  /** stoull: leading white space, an optional sign, digits; None where it throws. A minus sign
      negates modulo 2^64. */
  function Stoull(s: string): Option<nat> {
    var t := SkipSpaces(s);
    var signed := t != "" && (t[0] == '-' || t[0] == '+');
    var u := if signed then t[1..] else t;
    if u == "" || !IsDigit(u[0]) then None
    else
      var n := ReadDigits(u, 0);
      if n >= WORD then None
      else if signed && t[0] == '-' && n > 0 then Some(WORD - n)
      else Some(n)
  }

  function Power10(k: nat): nat { if k == 0 then 1 else 10 * Power10(k - 1) }

  lemma {:induction false} DecimalDigits(n: nat)
    ensures forall i | 0 <= i < |Decimal(n)| :: IsDigit(Decimal(n)[i])
  {
    if n >= 10 {
      DecimalDigits(n / 10);
    }
  }

  lemma {:induction false} ReadPrefix(digits: string, rest: string, acc: nat)
    requires forall i | 0 <= i < |digits| :: IsDigit(digits[i])
    requires rest != "" ==> !IsDigit(rest[0])
    ensures ReadDigits(digits + rest, acc) == ReadDigits(digits, acc)
  {
    if digits == "" {
      assert digits + rest == rest;
    } else {
      assert (digits + rest)[1..] == digits[1..] + rest;
      ReadPrefix(digits[1..], rest, 10 * acc + (digits[0] - '0') as nat);
    }
  }

  lemma {:induction false} ReadLast(digits: string, c: char, acc: nat)
    requires IsDigit(c) && forall i | 0 <= i < |digits| :: IsDigit(digits[i])
    ensures ReadDigits(digits + [c], acc) == 10 * ReadDigits(digits, acc) + (c - '0') as nat
  {
    if digits == "" {
      assert ("" + [c])[1..] == "";
    } else {
      assert (digits + [c])[1..] == digits[1..] + [c];
      ReadLast(digits[1..], c, 10 * acc + (digits[0] - '0') as nat);
    }
  }

  lemma {:induction false} DecimalValue(n: nat, acc: nat)
    ensures ReadDigits(Decimal(n), acc) == acc * Power10(|Decimal(n)|) + n
    decreases n
  {
    if n < 10 {
      assert Decimal(n)[1..] == "";
      assert Power10(1) == 10 * Power10(0);
    } else {
      DecimalValue(n / 10, acc);
      DecimalDigits(n / 10);
      ReadLast(Decimal(n / 10), Digit(n % 10), acc);
      Shifted(acc, Power10(|Decimal(n / 10)|), n);
    }
  }

  lemma Shifted(acc: nat, p: nat, n: nat)
    ensures 10 * (acc * p + n / 10) + n % 10 == acc * (10 * p) + n
  {
    assert 10 * (acc * p) == acc * (10 * p);
  }

  /** Reading back a printed length. */
  lemma StoullDecimal(n: nat)
    requires n < WORD
    ensures Stoull(Decimal(n)) == Some(n)
  {
    DecimalDigits(n);
    assert IsDigit(Decimal(n)[0]);
    DecimalValue(n, 0);
  }

  /** What is printed: one digit for each power of ten up to the number, and no leading 0. */
  lemma {:induction false} DecimalIs(n: nat)
    ensures Decimal(n)[|Decimal(n)| - 1] == "0123456789"[n % 10]
    ensures if n < 10 then |Decimal(n)| == 1 else Decimal(n)[..|Decimal(n)| - 1] == Decimal(n / 10)
    ensures n > 0 ==> Decimal(n)[0] != '0'
  {
    if n >= 10 {
      DecimalIs(n / 10);
    }
  }

  lemma {:induction false} SkipsSpaces(blanks: string, s: string)
    requires forall i | 0 <= i < |blanks| :: blanks[i] == ' ' || '\t' <= blanks[i] <= '\r'
    ensures SkipSpaces(blanks + s) == SkipSpaces(s)
  {
    if blanks == "" {
      assert blanks + s == s;
    } else {
      assert (blanks + s)[1..] == blanks[1..] + s;
      SkipsSpaces(blanks[1..], s);
    }
  }

  lemma NumberReads(n: nat, rest: string)
    requires rest != "" ==> !IsDigit(rest[0])
    ensures ReadDigits(Decimal(n) + rest, 0) == n && IsDigit((Decimal(n) + rest)[0])
  {
    DecimalDigits(n);
    assert IsDigit(Decimal(n)[0]);
    ReadPrefix(Decimal(n), rest, 0);
    DecimalValue(n, 0);
  }

  /** What stoull makes of blanks, a sign, a printed number and anything after it. */
  lemma StoullReads(blanks: string, sign: string, n: nat, rest: string)
    requires forall i | 0 <= i < |blanks| :: blanks[i] == ' ' || '\t' <= blanks[i] <= '\r'
    requires sign == "" || sign == "+" || sign == "-"
    requires rest != "" ==> !('0' <= rest[0] <= '9')
    ensures Stoull(blanks + (sign + (Decimal(n) + rest))) ==
            if n >= 0x1_0000_0000_0000_0000 then None
            else Some(if sign == "-" && n > 0 then 0x1_0000_0000_0000_0000 - n else n)
  {
    hide Decimal, ReadDigits;
    var u := Decimal(n) + rest;
    NumberReads(n, rest);
    SkipsSpaces(blanks, sign + u);
    assert sign == "" ==> sign + u == u;
    assert sign != "" ==> (sign + u)[0] == sign[0] && (sign + u)[1..] == u;
  }

  // ---- Hexadecimal numbers ----

  function HexDigit(c: char): (v: int)
    ensures -1 <= v < 16
  {
    if '0' <= c <= '9' then (c - '0') as int
    else if 'a' <= c <= 'f' then (c - 'a') as int + 10
    else if 'A' <= c <= 'F' then (c - 'A') as int + 10
    else -1
  }

  predicate IsHex(s: string) { forall i | 0 <= i < |s| :: HexDigit(s[i]) >= 0 }

  /** The hexadecimal digits strtol reads from the front of `s`, on top of `acc`. */
  function ReadHex(s: string, acc: nat): nat {
    if s == "" || HexDigit(s[0]) < 0 then acc else ReadHex(s[1..], 16 * acc + HexDigit(s[0]))
  }

  /** strtol(s, 0, 16) before clamping: white space, an optional sign, an optional 0x, digits; None
      if no digit is read. */
  function Strtol16(s: string): Option<int> {
    var t := SkipSpaces(s);
    var signed := t != "" && (t[0] == '-' || t[0] == '+');
    var u := if signed then t[1..] else t;
    var x := if |u| > 2 && u[0] == '0' && (u[1] == 'x' || u[1] == 'X') && HexDigit(u[2]) >= 0 then u[2..] else u;
    if x == "" || HexDigit(x[0]) < 0 then None
    else
      var n: int := ReadHex(x, 0);
      Some(if signed && t[0] == '-' then -n else n)
  }

  const LONG_MAX := 0x7fff_ffff_ffff_ffff

  /** stol(s, 0, 16); None where it throws. */
  function Stol16(s: string): Option<int> {
    match Strtol16(s)
    case None => None
    case Some(n) => if -LONG_MAX - 1 <= n <= LONG_MAX then Some(n) else None
  }

  lemma {:induction false} ReadHexPrefix(digits: string, rest: string, acc: nat)
    requires IsHex(digits) && (rest != "" ==> HexDigit(rest[0]) < 0)
    ensures ReadHex(digits + rest, acc) == ReadHex(digits, acc)
  {
    if digits == "" {
      assert digits + rest == rest;
    } else {
      assert (digits + rest)[1..] == digits[1..] + rest;
      ReadHexPrefix(digits[1..], rest, 16 * acc + HexDigit(digits[0]));
    }
  }

  /** strtol takes a 0 followed by x and a hexadecimal digit as a prefix. */
  predicate IsPrefix(digits: string, rest: string) {
    digits == "0" && |rest| > 1 && (rest[0] == 'x' || rest[0] == 'X') && HexDigit(rest[1]) >= 0
  }

  /** Hexadecimal digits followed by nothing or by any other character: stol reads exactly the digits,
      or those after an 0x prefix, and throws iff the number is too large. */
  lemma Stol16Hex(digits: string, rest: string)
    requires digits != "" && IsHex(digits) && (rest != "" ==> HexDigit(rest[0]) < 0)
    ensures var n := if IsPrefix(digits, rest) then ReadHex(rest[1..], 0) else ReadHex(digits, 0);
            Stol16(digits + rest) == if n <= LONG_MAX then Some(n) else None
  {
    var s := digits + rest;
    assert s[0] == digits[0] && HexDigit(s[0]) >= 0 && !IsSpace(s[0]);
    assert |s| > 1 ==> s[1] == (if |digits| > 1 then digits[1] else rest[0]);
    if IsPrefix(digits, rest) {
      assert s[2..] == rest[1..] && s[2] == rest[1];
    } else {
      assert |digits| == 1 && |s| > 2 ==> s[2] == rest[1];
      assert digits[0] == '0' && |digits| == 1 ==> digits == "0";
      ReadHexPrefix(digits, rest, 0);
    }
  }

  /** Text that starts with no blank, sign or digit is no number. */
  lemma NoNumber(s: string)
    requires s != "" ==> HexDigit(s[0]) < 0 && !IsSpace(s[0]) && s[0] != '+' && s[0] != '-'
    ensures Stol16(s) == None && Stoull(s) == None
  {}

  /** operator<< with std::hex. */
  function Hex(n: nat): (s: string)
    ensures s != ""
  {
    if n < 16 then ["0123456789abcdef"[n]] else Hex(n / 16) + ["0123456789abcdef"[n % 16]]
  }

  lemma HexDigits(n: nat)
    requires n < 16
    ensures HexDigit("0123456789abcdef"[n]) == n && HexDigit("0123456789ABCDEF"[n]) == n
  {}

  lemma {:induction false} HexIsHex(n: nat)
    ensures IsHex(Hex(n))
  {
    HexDigits(n % 16);
    if n >= 16 { HexIsHex(n / 16); }
  }

  lemma {:induction false} ReadHexLast(digits: string, c: char, acc: nat)
    requires IsHex(digits) && HexDigit(c) >= 0
    ensures ReadHex(digits + [c], acc) == 16 * ReadHex(digits, acc) + HexDigit(c)
  {
    if digits == "" {
      assert ("" + [c])[1..] == "";
    } else {
      assert (digits + [c])[1..] == digits[1..] + [c];
      ReadHexLast(digits[1..], c, 16 * acc + HexDigit(digits[0]));
    }
  }

  lemma {:induction false} HexValue(n: nat)
    ensures ReadHex(Hex(n), 0) == n
  {
    HexDigits(n % 16);
    if n < 16 {
      assert Hex(n)[1..] == "";
    } else {
      HexIsHex(n / 16);
      HexValue(n / 16);
      ReadHexLast(Hex(n / 16), "0123456789abcdef"[n % 16], 0);
    }
  }

  /** Reading back a size printed in hexadecimal. */
  lemma HexRoundTrip(n: nat)
    requires n <= LONG_MAX
    ensures Stol16(Hex(n)) == Some(n)
  {
    HexIsHex(n);
    HexValue(n);
    Stol16Hex(Hex(n), "");
    assert Hex(n) + "" == Hex(n);
  }
}
