/**
 * The pieces of Go's string library that the parsers rest on: splitting, trimming, decimal
 * numbers. Strings are sequences of Unicode characters; integers have 64 bits.
 */
module Text {
  import opened Common

  const MIN_INT: int := -0x8000_0000_0000_0000
  const MAX_INT: int := 0x7FFF_FFFF_FFFF_FFFF

  // ----- splitting -----

  /** The parts between occurrences of c; there is always at least one. */
  function Split(s: string, c: char): (parts: seq<string>)
    ensures parts != []
  {
    if s == "" then [""] else InFront(s[0], c, Split(s[1..], c))
  }

  /** The parts of a text one character longer at the front. */
  function InFront(x: char, c: char, parts: seq<string>): (r: seq<string>)
    requires parts != []
    ensures r != []
  {
    if x == c then [""] + parts else [[x] + parts[0]] + parts[1..]
  }

  function Behind(parts: seq<string>, x: char): seq<string>
    requires parts != []
  {
    parts[..|parts| - 1] + [parts[|parts| - 1] + [x]]
  }

  lemma FrontAndBehind(y: char, c: char, parts: seq<string>, x: char)
    requires parts != []
    ensures Behind(parts, x) != [] && InFront(y, c, Behind(parts, x)) == Behind(InFront(y, c, parts), x)
  {
    var n := |parts| - 1;
    var a, b := InFront(y, c, Behind(parts, x)), Behind(InFront(y, c, parts), x);
    if y != c && n == 0 {
      assert [y] + (parts[0] + [x]) == [y] + parts[0] + [x];
    }
    assert |a| == |b|;
    assert forall i :: 0 <= i < |a| ==> a[i] == b[i];
  }

  function Join(parts: seq<string>, c: char): string {
    if parts == [] then ""
    else if |parts| == 1 then parts[0]
    else parts[0] + [c] + Join(parts[1..], c)
  }

  lemma {:induction false} SplitFree(s: string, c: char)
    requires c !in s
    ensures Split(s, c) == [s]
  {
    if s != "" {
      SplitFree(s[1..], c);
      assert s == [s[0]] + s[1..] && s[0] != c;
    }
  }

  lemma {:induction false} SplitAt(a: string, c: char, b: string)
    requires c !in a
    ensures Split(a + [c] + b, c) == [a] + Split(b, c)
  {
    if a == "" {
      assert ([c] + b)[1..] == b;
      assert a + [c] + b == [c] + b;
    } else {
      SplitAt(a[1..], c, b);
      assert (a + [c] + b)[1..] == a[1..] + [c] + b;
      assert a == [a[0]] + a[1..] && a[0] != c;
    }
  }

  /** Joining what was split gives the text back. */
  lemma {:induction false} JoinOfSplit(s: string, c: char)
    ensures Join(Split(s, c), c) == s
  {
    if s != "" {
      JoinOfSplit(s[1..], c);
      var rest := Split(s[1..], c);
      var parts := Split(s, c);
      if s[0] == c {
        assert parts[1..] == rest;
      } else {
        assert parts[1..] == rest[1..];
      }
      assert s == [s[0]] + s[1..];
    }
  }

  /** Splitting what was joined gives the parts back, if no part holds the separator. */
  lemma {:induction false} SplitOfJoin(parts: seq<string>, c: char)
    requires parts != [] && forall p :: p in parts ==> c !in p
    ensures Split(Join(parts, c), c) == parts
  {
    if |parts| == 1 {
      SplitFree(parts[0], c);
    } else {
      SplitOfJoin(parts[1..], c);
      SplitAt(parts[0], c, Join(parts[1..], c));
    }
  }

  lemma {:induction false} SplitPartsFree(s: string, c: char)
    ensures forall p :: p in Split(s, c) ==> c !in p
  {
    if s != "" {
      SplitPartsFree(s[1..], c);
    }
  }

  /** A character that does not separate belongs to the part it follows. */
  lemma {:induction false} SplitSnoc(s: string, c: char, x: char)
    requires x != c
    ensures Split(s + [x], c) == Behind(Split(s, c), x)
  {
    if s == "" {
      SplitFree([x], c);
      SplitFree("", c);
      assert "" + [x] == [x];
      assert Behind([""], x) == [[x]];
    } else {
      SplitSnoc(s[1..], c, x);
      assert (s + [x])[1..] == s[1..] + [x];
      FrontAndBehind(s[0], c, Split(s[1..], c), x);
    }
  }

  /** The text before and after the first c. */
  function CutAt(s: string, c: char): Option<(string, string)> {
    if s == "" then None
    else if s[0] == c then Some(("", s[1..]))
    else
      var rest := CutAt(s[1..], c);
      if rest.None? then None else Some(([s[0]] + rest.value.0, rest.value.1))
  }

  lemma {:induction false} CutIsFirst(s: string, c: char)
    ensures CutAt(s, c).None? <==> c !in s
    ensures CutAt(s, c).Some? ==>
              var (a, b) := CutAt(s, c).value;
              c !in a && s == a + [c] + b
  {
    if s != "" {
      CutIsFirst(s[1..], c);
      assert s == [s[0]] + s[1..];
    }
  }

  lemma {:induction false} CutOf(a: string, c: char, b: string)
    requires c !in a
    ensures CutAt(a + [c] + b, c) == Some((a, b))
  {
    var s := a + [c] + b;
    if a == "" {
      assert s[1..] == b;
    } else {
      CutOf(a[1..], c, b);
      assert s[1..] == a[1..] + [c] + b;
      assert a == [a[0]] + a[1..] && a[0] != c;
    }
  }

  // ----- trimming -----

  /** Unicode white space. */
  predicate IsSpace(c: char) {
    || '\t' <= c <= '\r' || c == ' ' || c == '\U{85}' || c == '\U{A0}' || c == '\U{1680}'
    || '\U{2000}' <= c <= '\U{200A}' || c == '\U{2028}' || c == '\U{2029}' || c == '\U{202F}'
    || c == '\U{205F}' || c == '\U{3000}'
  }

  /** All the characters of white space. */
  const WHITE_SPACE: string := "\t\n\U{B}\U{C}\r \U{85}\U{A0}\U{1680}\U{2000}\U{2001}\U{2002}\U{2003}\U{2004}\U{2005}\U{2006}\U{2007}\U{2008}\U{2009}\U{200A}\U{2028}\U{2029}\U{202F}\U{205F}\U{3000}"

  lemma SpaceIff(c: char)
    ensures IsSpace(c) <==> c in WHITE_SPACE
  {
  }

  predicate AllSpace(s: string) {
    forall i :: 0 <= i < |s| ==> IsSpace(s[i])
  }

  function TrimLeft(s: string): string {
    if s != "" && IsSpace(s[0]) then TrimLeft(s[1..]) else s
  }

  function TrimRight(s: string): string {
    if s != "" && IsSpace(s[|s| - 1]) then TrimRight(s[..|s| - 1]) else s
  }

  function TrimSpace(s: string): string {
    TrimRight(TrimLeft(s))
  }

  ghost predicate Trimmed(s: string) {
    s != "" ==> !IsSpace(s[0]) && !IsSpace(s[|s| - 1])
  }

  lemma {:induction false} TrimLeftOf(a: string, s: string)
    requires AllSpace(a) && (s != "" ==> !IsSpace(s[0]))
    ensures TrimLeft(a + s) == s
  {
    if a == "" {
      assert a + s == s;
    } else {
      TrimLeftOf(a[1..], s);
      assert (a + s)[1..] == a[1..] + s;
    }
  }

  lemma {:induction false} TrimRightOf(s: string, b: string)
    requires AllSpace(b) && (s != "" ==> !IsSpace(s[|s| - 1]))
    ensures TrimRight(s + b) == s
  {
    if b == "" {
      assert s + b == s;
    } else {
      TrimRightOf(s, b[..|b| - 1]);
      assert (s + b)[..|s + b| - 1] == s + b[..|b| - 1];
    }
  }

  /** Trimming removes exactly the white space around a text that neither starts nor ends with any. */
  lemma TrimOf(a: string, s: string, b: string)
    requires AllSpace(a) && AllSpace(b) && Trimmed(s) && s != ""
    ensures TrimSpace(a + s + b) == s
  {
    assert a + s + b == a + (s + b);
    TrimLeftOf(a, s + b);
    TrimRightOf(s, b);
  }

  lemma {:induction false} TrimLeftSnoc(s: string, c: char)
    requires IsSpace(c)
    ensures TrimLeft(s + [c]) == if TrimLeft(s) == "" then "" else TrimLeft(s) + [c]
  {
    if s == "" {
      assert "" + [c] == [c] && [c][1..] == "";
    } else if IsSpace(s[0]) {
      TrimLeftSnoc(s[1..], c);
      assert (s + [c])[1..] == s[1..] + [c];
    }
  }

  /** White space put before or after a text is trimmed away. */
  lemma TrimAbsorbs(s: string, c: char)
    requires IsSpace(c)
    ensures TrimSpace([c] + s) == TrimSpace(s) == TrimSpace(s + [c])
  {
    assert ([c] + s)[1..] == s;
    TrimLeftSnoc(s, c);
    var t := TrimLeft(s);
    assert (t + [c])[..|t|] == t;
  }

  // ----- numbers -----

  predicate IsDigit(c: char) { '0' <= c <= '9' }

  predicate AllDigits(s: string) {
    forall i :: 0 <= i < |s| ==> IsDigit(s[i])
  }

  function ValueOf(s: string): nat
    requires AllDigits(s)
  {
    if s == "" then 0 else ValueOf(s[..|s| - 1]) * 10 + (s[|s| - 1] as int - '0' as int)
  }

  predicate Signed(s: string) { s != "" && (s[0] == '-' || s[0] == '+') }

  /** Decimal digits with an optional sign, within 64 bits. */
  function Atoi(s: string): Option<int> {
    var digits := if Signed(s) then s[1..] else s;
    if digits == "" || !AllDigits(digits) then None
    else
      var magnitude: int := ValueOf(digits);
      var v := if s[0] == '-' then -magnitude else magnitude;
      if MIN_INT <= v <= MAX_INT then Some(v) else None
  }

  function DigitOf(n: nat): char
    requires n < 10
  {
    ('0' as int + n) as char
  }

  function DigitsOf(n: nat): string {
    if n < 10 then [DigitOf(n)] else DigitsOf(n / 10) + [DigitOf(n % 10)]
  }

  function Itoa(n: int): string {
    if n < 0 then "-" + DigitsOf(-n) else DigitsOf(n)
  }

  lemma {:induction false} DigitsRead(n: nat)
    ensures DigitsOf(n) != "" && AllDigits(DigitsOf(n)) && ValueOf(DigitsOf(n)) == n
  {
    var s := DigitsOf(n);
    if n < 10 {
      assert s[..|s| - 1] == "";
    } else {
      DigitsRead(n / 10);
      assert s[..|s| - 1] == DigitsOf(n / 10);
    }
  }

  /** Every 64-bit number is read back from its decimal form. */
  lemma AtoiOfItoa(n: int)
    requires MIN_INT <= n <= MAX_INT
    ensures Atoi(Itoa(n)) == Some(n)
  {
    DigitsRead(if n < 0 then -n else n);
    if n < 0 {
      assert Itoa(n)[1..] == DigitsOf(-n);
    } else {
      assert IsDigit(Itoa(n)[0]);
    }
  }

  function Zeros(n: nat): string { seq(n, i => '0') }

  lemma {:induction false} LeadingZeros(n: nat, t: string)
    requires AllDigits(t)
    ensures AllDigits(Zeros(n) + t) && ValueOf(Zeros(n) + t) == ValueOf(t)
  {
    var s := Zeros(n) + t;
    if t != "" {
      LeadingZeros(n, t[..|t| - 1]);
      assert s[..|s| - 1] == Zeros(n) + t[..|t| - 1];
    } else if n > 0 {
      LeadingZeros(n - 1, "");
      assert s[..|s| - 1] == Zeros(n - 1) + "";
    }
  }

  /** One more digit behind zeros and a decimal form. */
  lemma ShapeNext(z: nat, n: nat, d: nat) returns (zeros: nat)
    requires d < 10
    ensures Zeros(z) + DigitsOf(n) + [DigitOf(d)] == Zeros(zeros) + DigitsOf(n * 10 + d)
  {
    if n == 0 {
      zeros := z + 1;
      assert DigitsOf(0) == "0" && Zeros(z) + "0" == Zeros(z + 1);
    } else {
      zeros := z;
      assert (n * 10 + d) / 10 == n && (n * 10 + d) % 10 == d;
      assert Zeros(z) + DigitsOf(n) + [DigitOf(d)] == Zeros(z) + (DigitsOf(n) + [DigitOf(d)]);
    }
  }

  /** Digits are leading zeros and the decimal form of their value. */
  lemma {:induction false} DigitsShape(s: string) returns (zeros: nat)
    requires AllDigits(s) && s != ""
    ensures s == Zeros(zeros) + DigitsOf(ValueOf(s))
  {
    var t, last := s[..|s| - 1], s[|s| - 1];
    assert IsDigit(last) && s == t + [last];
    var d: nat := last as int - '0' as int;
    assert DigitOf(d) == last && ValueOf(s) == ValueOf(t) * 10 + d;
    if t == "" {
      zeros := 0;
      assert Zeros(0) == "" && s == [last];
    } else {
      var z := DigitsShape(t);
      zeros := ShapeNext(z, ValueOf(t), d);
    }
  }

  /** The text is the number in decimal, perhaps with a sign and zeros in front. */
  ghost predicate Decimal(s: string, v: int) {
    exists sign: string, zeros: nat :: DecimalAs(s, v, sign, zeros)
  }

  ghost predicate DecimalAs(s: string, v: int, sign: string, zeros: nat) {
    && (sign == "" || sign == "+" || sign == "-")
    && (if sign == "-" then v <= 0 else v >= 0)
    && s == sign + (Zeros(zeros) + DigitsOf(if v < 0 then -v else v))
  }

  /** Exactly the texts that are read as a number: its decimal forms, within 64 bits. */
  lemma AtoiIff(s: string, v: int)
    ensures Atoi(s) == Some(v) <==> -9223372036854775808 <= v <= 9223372036854775807 && Decimal(s, v)
  {
    if Atoi(s) == Some(v) {
      ReadIsDecimal(s, v);
    }
    if sign, zeros :| MIN_INT <= v <= MAX_INT && DecimalAs(s, v, sign, zeros) {
      DecimalIsRead(s, v, sign, zeros);
    }
  }

  lemma ReadIsDecimal(s: string, v: int)
    requires Atoi(s) == Some(v)
    ensures Decimal(s, v)
  {
    if Signed(s) {
      var zeros := DigitsShape(s[1..]);
      assert s == s[..1] + s[1..];
      ShapeIsDecimal(s, v, s[..1], zeros, s[1..]);
    } else {
      var zeros := DigitsShape(s);
      assert "" + s == s;
      ShapeIsDecimal(s, v, "", zeros, s);
    }
  }

  lemma ShapeIsDecimal(s: string, v: int, sign: string, zeros: nat, digits: string)
    requires (sign == "" || sign == "+" || sign == "-") && s == sign + digits && AllDigits(digits)
    requires v == (if sign == "-" then -(ValueOf(digits) as int) else ValueOf(digits)) && digits == Zeros(zeros) + DigitsOf(ValueOf(digits))
    ensures Decimal(s, v)
  {
    assert DecimalAs(s, v, sign, zeros);
  }

  lemma SignedRead(sign: string, digits: string)
    requires digits != "" && AllDigits(digits) && (sign == "+" || sign == "-")
    ensures var magnitude: int := ValueOf(digits);
            var v := if sign == "-" then -magnitude else magnitude;
            Atoi(sign + digits) == if MIN_INT <= v <= MAX_INT then Some(v) else None
  {
    assert (sign + digits)[1..] == digits && (sign + digits)[0] == sign[0];
  }

  lemma UnsignedRead(digits: string)
    requires digits != "" && AllDigits(digits)
    ensures Atoi(digits) == if ValueOf(digits) <= MAX_INT then Some(ValueOf(digits)) else None
  {
    assert IsDigit(digits[0]);
  }

  lemma DecimalIsRead(s: string, v: int, sign: string, zeros: nat)
    requires MIN_INT <= v <= MAX_INT && DecimalAs(s, v, sign, zeros)
    ensures Atoi(s) == Some(v)
  {
    var n: nat := if v < 0 then -v else v;
    var digits := Zeros(zeros) + DigitsOf(n);
    DigitsRead(n);
    LeadingZeros(zeros, DigitsOf(n));
    assert s == sign + digits && digits != "";
    if sign == "" {
      assert s == digits;
      UnsignedRead(digits);
    } else {
      SignedRead(sign, digits);
    }
  }

  // ----- trimming, once more -----

  lemma {:induction false} TrimLeftEmpty(s: string)
    ensures TrimLeft(s) == "" <==> AllSpace(s)
    ensures TrimLeft(s) != "" ==> !IsSpace(TrimLeft(s)[0])
  {
    if s != "" && IsSpace(s[0]) {
      TrimLeftEmpty(s[1..]);
      assert AllSpace(s[1..]) ==> AllSpace(s) by {
        assert forall i :: 0 < i < |s| ==> s[i] == s[1..][i - 1];
      }
      assert AllSpace(s) ==> AllSpace(s[1..]);
    }
  }

  lemma {:induction false} TrimRightStarts(s: string)
    requires s != "" && !IsSpace(s[0])
    ensures TrimRight(s) != "" && TrimRight(s)[0] == s[0] && !IsSpace(TrimRight(s)[|TrimRight(s)| - 1])
  {
    if IsSpace(s[|s| - 1]) {
      TrimRightStarts(s[..|s| - 1]);
    }
  }

  /** Nothing is left of white space alone, and a trimmed text has nothing left to trim. */
  lemma TrimTwice(s: string)
    ensures TrimSpace(s) == "" <==> AllSpace(s)
    ensures TrimSpace(TrimSpace(s)) == TrimSpace(s)
  {
    TrimLeftEmpty(s);
    if TrimLeft(s) != "" {
      TrimRightStarts(TrimLeft(s));
    }
  }
}
