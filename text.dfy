/**
 * The string primitives the routes lean on: `trim`, `split`, `startsWith`,
 * ASCII `toLowerCase`, and `Number(string)` for plain decimals.
 */
module Text {
  import opened Wrappers

  /** The characters `String.prototype.trim` removes: ECMAScript WhiteSpace and LineTerminator. */
  predicate IsSpace(c: char) {
    || c == ' ' || c == '\t' || c == '\n' || c == '\r' || c == '\U{B}' || c == '\U{C}'
    || c == '\U{A0}' || c == '\U{1680}' || ('\U{2000}' <= c <= '\U{200A}')
    || c == '\U{2028}' || c == '\U{2029}' || c == '\U{202F}' || c == '\U{205F}'
    || c == '\U{3000}' || c == '\U{FEFF}'
  }

  function TrimStart(s: string): (r: string)
    ensures |r| <= |s| && r == s[|s| - |r|..]
    ensures r == [] || !IsSpace(r[0])
  {
    if s != [] && IsSpace(s[0]) then TrimStart(s[1..]) else s
  }

  function TrimEnd(s: string): (r: string)
    ensures |r| <= |s| && r == s[..|r|]
    ensures r == [] || !IsSpace(r[|r| - 1])
  {
    if s != [] && IsSpace(s[|s| - 1]) then TrimEnd(s[..|s| - 1]) else s
  }

  /** How many white-space characters open `s`. */
  function Leading(s: string): (n: nat)
    ensures n <= |s|
  {
    |s| - |TrimStart(s)|
  }

  /** `s.trim()`: the slice of `s` left once white space is cut from both ends. */
  function Trim(s: string): (r: string)
    ensures Leading(s) + |r| <= |s| && r == s[Leading(s)..Leading(s) + |r|]
    ensures r == [] || (!IsSpace(r[0]) && !IsSpace(r[|r| - 1]))
  {
    var t := TrimStart(s);
    var r := TrimEnd(t);
    assert r == s[|s| - |t|..][..|r|];
    r
  }

  /** Trimming is idempotent. */
  lemma TrimTwice(s: string)
    ensures Trim(Trim(s)) == Trim(s)
  {
    var r := Trim(s);
    if r != [] {
      assert TrimStart(r) == r;
      assert TrimEnd(r) == r;
    }
  }

  /** What `trimStart` removes is white space. */
  lemma {:induction false} TrimStartCutsSpace(s: string)
    ensures forall i :: 0 <= i < |s| - |TrimStart(s)| ==> IsSpace(s[i])
  {
    if s != [] && IsSpace(s[0]) {
      TrimStartCutsSpace(s[1..]);
      forall i | 0 <= i < |s| - |TrimStart(s)| ensures IsSpace(s[i]) {
        if i > 0 {
          assert s[i] == s[1..][i - 1];
        }
      }
    }
  }

  /** What `trimEnd` removes is white space. */
  lemma {:induction false} TrimEndCutsSpace(s: string)
    ensures forall i :: |TrimEnd(s)| <= i < |s| ==> IsSpace(s[i])
  {
    if s != [] && IsSpace(s[|s| - 1]) {
      TrimEndCutsSpace(s[..|s| - 1]);
    }
  }

  /** What `trim` removes on either side is white space. */
  lemma TrimCutsSpace(s: string)
    ensures forall i :: 0 <= i < Leading(s) ==> IsSpace(s[i])
    ensures forall i :: Leading(s) + |Trim(s)| <= i < |s| ==> IsSpace(s[i])
  {
    TrimStartCutsSpace(s);
    var t := TrimStart(s);
    TrimEndCutsSpace(t);
    forall i | Leading(s) + |Trim(s)| <= i < |s| ensures IsSpace(s[i]) {
      assert s[i] == t[i - Leading(s)];
    }
  }

  /** `s.trim() === ''` exactly when `s` is all white space. */
  lemma {:induction false} TrimEmpty(s: string)
    ensures Trim(s) == [] <==> forall i :: 0 <= i < |s| ==> IsSpace(s[i])
  {
    var r := Trim(s);
    TrimCutsSpace(s);
    if r != [] {
      assert s[Leading(s)] == r[0];
    }
  }

  /** `s.split(sep)` for a one-character separator; never empty. */
  function Split(s: string, sep: char): (parts: seq<string>)
    ensures |parts| >= 1
    ensures forall i :: 0 <= i < |parts| ==> sep !in parts[i]
  {
    if s == [] then [[]]
    else
      var rest := Split(s[1..], sep);
      if s[0] == sep then [[]] + rest else [[s[0]] + rest[0]] + rest[1..]
  }

  /** `parts.join(sep)` */
  function Join(parts: seq<string>, sep: char): string {
    if |parts| == 0 then []
    else if |parts| == 1 then parts[0]
    else parts[0] + [sep] + Join(parts[1..], sep)
  }

  /** Joining the pieces of a split gives back the string. */
  lemma {:induction false} JoinSplit(s: string, sep: char)
    ensures Join(Split(s, sep), sep) == s
  {
    if s != [] {
      JoinSplit(s[1..], sep);
      var rest := Split(s[1..], sep);
      if s[0] != sep && |rest| > 1 {
        assert ([[s[0]] + rest[0]] + rest[1..])[1..] == rest[1..];
      }
    }
  }

  /** Splitting a join of separator-free pieces gives back the pieces. */
  lemma {:induction false} SplitJoin(parts: seq<string>, sep: char)
    requires |parts| >= 1
    requires forall i :: 0 <= i < |parts| ==> sep !in parts[i]
    ensures Split(Join(parts, sep), sep) == parts
  {
    if |parts| == 1 {
      SplitNoSep(parts[0], sep);
    } else {
      SplitJoin(parts[1..], sep);
      SplitPrefix(parts[0], Join(parts[1..], sep), sep);
      assert [parts[0]] + parts[1..] == parts;
    }
  }

  /** A string without the separator splits into itself. */
  lemma {:induction false} SplitNoSep(s: string, sep: char)
    requires sep !in s
    ensures Split(s, sep) == [s]
  {
    if s != [] {
      SplitNoSep(s[1..], sep);
      assert [s[0]] + s[1..] == s;
    }
  }

  /** A separator-free piece followed by the separator splits off as the first part. */
  lemma {:induction false} SplitPrefix(p: string, tail: string, sep: char)
    requires sep !in p
    ensures Split(p + [sep] + tail, sep) == [p] + Split(tail, sep)
  {
    if p == [] {
      assert [] + [sep] + tail == [sep] + tail;
      assert ([sep] + tail)[1..] == tail;
    } else {
      SplitPrefix(p[1..], tail, sep);
      assert (p + [sep] + tail)[1..] == p[1..] + [sep] + tail;
      assert [p[0]] + p[1..] == p;
    }
  }

  /** `s.startsWith(prefix)` */
  predicate StartsWith(s: string, prefix: string) {
    |prefix| <= |s| && s[..|prefix|] == prefix
  }

  /** `c.toLowerCase()` for ASCII letters; every other character is left as it is. */
  function LowerChar(c: char): (r: char)
    ensures 'A' <= c <= 'Z' ==> 'a' <= r <= 'z'
    ensures !('A' <= c <= 'Z') ==> r == c
  {
    if 'A' <= c <= 'Z' then (c as int + 32) as char else c
  }

  function Lower(s: string): (r: string)
    ensures |r| == |s|
  {
    if s == [] then [] else [LowerChar(s[0])] + Lower(s[1..])
  }

  /** `toLowerCase` works character by character. */
  lemma {:induction false} LowerAt(s: string)
    ensures forall i :: 0 <= i < |s| ==> Lower(s)[i] == LowerChar(s[i])
  {
    if s != [] {
      LowerAt(s[1..]);
      assert forall i :: 1 <= i < |s| ==> Lower(s)[i] == Lower(s[1..])[i - 1];
    }
  }

  predicate IsDigit(c: char) {
    '0' <= c <= '9'
  }

  predicate AllDigits(s: string) {
    forall i :: 0 <= i < |s| ==> IsDigit(s[i])
  }

  /** The value of a string of decimal digits ("" is 0). */
  function DigitsValue(ds: string): nat
    requires AllDigits(ds)
  {
    if ds == [] then 0 else DigitsValue(ds[..|ds| - 1]) * 10 + (ds[|ds| - 1] as int - '0' as int)
  }

  function Pow10(n: nat): (r: nat)
    ensures r >= 1
  {
    if n == 0 then 1 else 10 * Pow10(n - 1)
  }

  /** `digits [. digits]` with at least one digit in all: "12", "1.", ".5", "1.25". */
  function Decimal(body: string): Option<real> {
    var parts := Split(body, '.');
    if |parts| == 1 && parts[0] != [] && AllDigits(parts[0]) then
      Some(DigitsValue(parts[0]) as real)
    else if |parts| == 2 && AllDigits(parts[0]) && AllDigits(parts[1]) && |parts[0]| + |parts[1]| > 0 then
      Some(DigitsValue(parts[0]) as real + DigitsValue(parts[1]) as real / Pow10(|parts[1]|) as real)
    else
      None
  }

  /**
   * `Number(s)` for plain decimals: white space is trimmed, the empty string
   * is 0, and an optionally signed plain decimal is its value. `None` stands
   * for NaN and the infinities, and also for the finite forms this model does
   * not read: hexadecimal, binary and octal literals and exponent notation.
   */
  function JsNumber(s: string): (r: Option<real>)
    ensures (forall i :: 0 <= i < |s| ==> IsSpace(s[i])) ==> r == Some(0.0)
    ensures Trim(s) != [] && AllDigits(Trim(s)) ==> r == Some(DigitsValue(Trim(s)) as real)
  {
    var t := Trim(s);
    TrimEmpty(s);
    UnsignedDigits(t);
    if t == [] then Some(0.0)
    else if t[0] == '-' then
      match Decimal(t[1..])
      case Some(x) => Some(-x)
      case None => None
    else if t[0] == '+' then Decimal(t[1..])
    else Decimal(t)
  }

  /** The decimal text of a natural number, as `String(n)` writes it. */
  function NatText(n: nat): (r: string)
    ensures r != [] && AllDigits(r)
  {
    if n < 10 then [('0' as int + n) as char] else NatText(n / 10) + [('0' as int + n % 10) as char]
  }

  lemma {:induction false} NatTextValue(n: nat)
    ensures DigitsValue(NatText(n)) == n
  {
    if n >= 10 {
      NatTextValue(n / 10);
      var r := NatText(n);
      assert r[..|r| - 1] == NatText(n / 10);
    }
  }

  /** A non-empty run of digits has no white space to trim. */
  lemma TrimOfDigits(t: string)
    requires t != [] && AllDigits(t)
    ensures Trim(t) == t
  {
    assert !IsSpace(t[0]) by { assert IsDigit(t[0]); }
    assert TrimStart(t) == t;
    assert !IsSpace(t[|t| - 1]) by { assert IsDigit(t[|t| - 1]); }
    assert TrimEnd(t) == t;
  }

  /** A non-empty run of digits is a decimal worth its digits. */
  lemma DecimalOfDigits(t: string)
    requires t != [] && AllDigits(t)
    ensures Decimal(t) == Some(DigitsValue(t) as real)
  {
    assert '.' !in t by {
      forall i | 0 <= i < |t| ensures t[i] != '.' {
        assert IsDigit(t[i]);
      }
    }
    SplitNoSep(t, '.');
  }

  /** A non-empty run of digits carries no sign and is a decimal worth its digits. */
  lemma UnsignedDigits(t: string)
    ensures t != [] && AllDigits(t) ==> t[0] != '-' && t[0] != '+' && Decimal(t) == Some(DigitsValue(t) as real)
  {
    if t != [] && AllDigits(t) {
      assert IsDigit(t[0]);
      DecimalOfDigits(t);
    }
  }

  /** An unsigned text with nothing to trim is read as a plain decimal. */
  lemma JsNumberOfUnsigned(t: string)
    requires t != [] && Trim(t) == t && t[0] != '-' && t[0] != '+'
    ensures JsNumber(t) == Decimal(t)
  {
  }

  /** A non-empty run of digits reads as the number it spells. */
  lemma NumberOfDigits(t: string)
    requires t != [] && AllDigits(t)
    ensures JsNumber(t) == Some(DigitsValue(t) as real)
  {
    TrimOfDigits(t);
    assert t[0] != '-' && t[0] != '+' by { assert IsDigit(t[0]); }
    JsNumberOfUnsigned(t);
    DecimalOfDigits(t);
  }

  /** `Number(String(n)) === n` for every natural number. */
  lemma NumberOfNatText(n: nat)
    ensures JsNumber(NatText(n)) == Some(n as real)
  {
    NumberOfDigits(NatText(n));
    NatTextValue(n);
  }
}
