/**
 * The JavaScript string and number built-ins that the notepad and the page rely on:
 * `String.prototype.trim`, `split` on a one-character separator, `includes` on strings,
 * the integer-to-text conversion of a template literal, and `Number(text)`.
 */
module JsText {

  /** The characters `trim` removes: ECMAScript WhiteSpace and LineTerminator code points. */
  predicate IsWhite(c: char) {
    c == '\t' || c == '\n' || c == '\U{B}' || c == '\U{C}' || c == '\r' || c == ' '
    || c == '\U{A0}' || c == '\U{1680}' || ('\U{2000}' <= c <= '\U{200A}')
    || c == '\U{2028}' || c == '\U{2029}' || c == '\U{202F}' || c == '\U{205F}'
    || c == '\U{3000}' || c == '\U{FEFF}'
  }

  /** `trimStart`. */
  function TrimStart(s: string): string {
    if |s| > 0 && IsWhite(s[0]) then TrimStart(s[1..]) else s
  }

  /** `trimEnd`. */
  function TrimEnd(s: string): string {
    if |s| > 0 && IsWhite(s[|s| - 1]) then TrimEnd(s[..|s| - 1]) else s
  }

  /** `trim`. */
  function Trim(s: string): string {
    TrimEnd(TrimStart(s))
  }

  /** `trimStart` drops exactly the leading run of white space. */
  lemma {:induction false} TrimStartSpec(s: string)
    ensures var r := TrimStart(s);
      |r| <= |s| && r == s[|s| - |r|..]
      && (forall i :: 0 <= i < |s| - |r| ==> IsWhite(s[i]))
      && (r == [] || !IsWhite(r[0]))
  {
    if |s| > 0 && IsWhite(s[0]) {
      TrimStartSpec(s[1..]);
    }
  }

  /** `trimEnd` drops exactly the trailing run of white space. */
  lemma {:induction false} TrimEndSpec(s: string)
    ensures var r := TrimEnd(s);
      |r| <= |s| && r == s[..|r|]
      && (forall i :: |r| <= i < |s| ==> IsWhite(s[i]))
      && (r == [] || !IsWhite(r[|r| - 1]))
  {
    if |s| > 0 && IsWhite(s[|s| - 1]) {
      TrimEndSpec(s[..|s| - 1]);
    }
  }

  /**
   * `trim` keeps the slice `s[k..k + |r|]` and drops only white space around it; the
   * slice neither starts nor ends with white space, and it is empty only for all-white text.
   */
  lemma TrimSpec(s: string)
    ensures var r := Trim(s); var k := |s| - |TrimStart(s)|;
      0 <= k <= k + |r| <= |s| && r == s[k..k + |r|]
      && (forall i :: 0 <= i < k ==> IsWhite(s[i]))
      && (forall i :: k + |r| <= i < |s| ==> IsWhite(s[i]))
      && (r == [] || (!IsWhite(r[0]) && !IsWhite(r[|r| - 1])))
      && (r == [] <==> forall i :: 0 <= i < |s| ==> IsWhite(s[i]))
  {
    var t := TrimStart(s);
    var r := TrimEnd(t);
    var k := |s| - |t|;
    TrimStartSpec(s);
    TrimEndSpec(t);
    forall i | k + |r| <= i < |s| ensures IsWhite(s[i]) {
      assert s[i] == t[i - k];
    }
  }

  /** Text that neither starts nor ends with white space is left alone by `trim`. */
  lemma TrimKeeps(s: string)
    requires s == [] || (!IsWhite(s[0]) && !IsWhite(s[|s| - 1]))
    ensures Trim(s) == s
  {
    assert TrimStart(s) == s;
  }

  /** Trimming twice is trimming once. */
  lemma TrimIdempotent(s: string)
    ensures Trim(Trim(s)) == Trim(s)
  {
    TrimSpec(s);
    TrimKeeps(Trim(s));
  }

  lemma ConcatAssoc(a: string, b: string, c: string)
    ensures a + b + c == a + (b + c)
  {
  }

  /** `s.includes(t)`: `t` occurs in `s` as a contiguous piece. */
  predicate Contains(s: string, t: string) {
    exists i :: 0 <= i <= |s| - |t| && OccursAt(s, t, i)
  }

  /** `t` occurs in `s` starting at index `i`. */
  predicate OccursAt(s: string, t: string, i: int) {
    0 <= i <= |s| - |t| && s[i..i + |t|] == t
  }

  lemma ContainsMiddle(p: string, t: string, e: string)
    ensures Contains(p + t + e, t)
  {
    var s := p + t + e;
    assert OccursAt(s, t, |p|);
  }

  /** `s.split(sep)` for a one-character separator: the pieces between separators, at least one. */
  function Split(s: string, sep: char): (r: seq<string>)
    ensures |r| >= 1
  {
    if s == [] then [[]]
    else
      var rest := Split(s[1..], sep);
      if s[0] == sep then [[]] + rest
      else [[s[0]] + rest[0]] + rest[1..]
  }

  /** No piece of a split holds the separator. */
  lemma {:induction false} SplitPieces(s: string, sep: char)
    ensures forall p :: p in Split(s, sep) ==> sep !in p
  {
    if s != [] {
      SplitPieces(s[1..], sep);
      var rest := Split(s[1..], sep);
      assert forall p :: p in rest[1..] ==> p in rest;
    }
  }

  /** `pieces.join(sep)`. */
  function Join(ps: seq<string>, sep: char): string
    requires |ps| >= 1
  {
    if |ps| == 1 then ps[0] else ps[0] + [sep] + Join(ps[1..], sep)
  }

  /** Joining the pieces of a split gives the text back. */
  lemma {:induction false} JoinSplit(s: string, sep: char)
    ensures Join(Split(s, sep), sep) == s
  {
    if s != [] {
      var rest := Split(s[1..], sep);
      JoinSplit(s[1..], sep);
      if s[0] == sep {
        assert ([[]] + rest)[1..] == rest;
      } else if |rest| > 1 {
        var r := [[s[0]] + rest[0]] + rest[1..];
        assert r[1..] == rest[1..];
        assert Join(rest, sep) == rest[0] + [sep] + Join(rest[1..], sep);
      }
    }
  }

  lemma {:induction false} SplitNoSeparator(s: string, sep: char)
    requires sep !in s
    ensures Split(s, sep) == [s]
  {
    if s != [] {
      SplitNoSeparator(s[1..], sep);
      assert [s[0]] + s[1..] == s;
    }
  }

  lemma {:induction false} SplitFirst(a: string, sep: char, b: string)
    requires sep !in a
    ensures Split(a + [sep] + b, sep) == [a] + Split(b, sep)
  {
    var s := a + [sep] + b;
    if a == [] {
      assert s[1..] == b;
    } else {
      assert s[1..] == a[1..] + [sep] + b;
      SplitFirst(a[1..], sep, b);
      assert [a[0]] + a[1..] == a;
    }
  }

  /** Splitting pieces that hold no separator after joining them gives the pieces back. */
  lemma {:induction false} SplitJoin(ps: seq<string>, sep: char)
    requires |ps| >= 1
    requires forall p :: p in ps ==> sep !in p
    ensures Split(Join(ps, sep), sep) == ps
  {
    if |ps| == 1 {
      SplitNoSeparator(ps[0], sep);
    } else {
      assert ps[0] in ps;
      SplitFirst(ps[0], sep, Join(ps[1..], sep));
      assert forall p :: p in ps[1..] ==> p in ps;
      SplitJoin(ps[1..], sep);
    }
  }

  /** A join starts with the first piece. */
  lemma {:induction false} JoinStarts(ps: seq<string>, sep: char)
    requires |ps| >= 1
    ensures ps[0] <= Join(ps, sep)
  {
  }

  /** A join ends with the last piece. */
  lemma {:induction false} JoinEnds(ps: seq<string>, sep: char)
    requires |ps| >= 1
    ensures var j := Join(ps, sep); var l := ps[|ps| - 1];
      |l| <= |j| && j[|j| - |l|..] == l
  {
    if |ps| > 1 {
      JoinEnds(ps[1..], sep);
    }
  }

  // ----- numbers -----

  predicate IsDigit(c: char) { '0' <= c <= '9' }

  predicate AllDigits(s: string) { forall i :: 0 <= i < |s| ==> IsDigit(s[i]) }

  function DigitChar(d: nat): (c: char)
    requires d < 10
    ensures IsDigit(c)
  {
    ('0' as int + d) as char
  }

  function DigitValue(c: char): (d: nat)
    requires IsDigit(c)
    ensures d < 10 && DigitChar(d) == c
  {
    c as int - '0' as int
  }

  /** The decimal numeral of a natural number, without leading zeros. */
  function NatToString(n: nat): (r: string)
    ensures |r| >= 1 && AllDigits(r)
    ensures |r| > 1 ==> r[0] != '0'
  {
    if n < 10 then [DigitChar(n)] else NatToString(n / 10) + [DigitChar(n % 10)]
  }

  /** How a template literal writes an integer: its numeral, after a `-` when negative. */
  function IntToString(n: int): (r: string)
    ensures |r| >= 1 && (IsDigit(r[0]) || r[0] == '-') && IsDigit(r[|r| - 1])
    ensures r[0] == '-' <==> n < 0
  {
    if n < 0 then "-" + NatToString(-n) else NatToString(n)
  }

  /** The value of a string of decimal digits, leading zeros allowed. */
  function DigitsValue(s: string): nat
    requires AllDigits(s)
  {
    if s == [] then 0 else DigitsValue(s[..|s| - 1]) * 10 + DigitValue(s[|s| - 1])
  }

  /**
   * The text of an integer is exactly its canonical numeral: after the `-` of a negative
   * number come one or more digits, without a leading zero, whose value is the magnitude.
   */
  lemma IntToStringCanonical(n: int)
    ensures var r := IntToString(n); var d := if n < 0 then r[1..] else r;
      |d| >= 1 && AllDigits(d) && (|d| > 1 ==> d[0] != '0')
      && DigitsValue(d) == (if n < 0 then -n else n)
  {
    if n < 0 {
      assert IntToString(n)[1..] == NatToString(-n);
      DigitsOfNat(-n);
    } else {
      DigitsOfNat(n);
    }
  }

  lemma {:induction false} DigitsOfNat(n: nat)
    ensures DigitsValue(NatToString(n)) == n
  {
    if n >= 10 {
      var s := NatToString(n);
      assert s[..|s| - 1] == NatToString(n / 10);
      DigitsOfNat(n / 10);
    }
  }

  /**
   * What `Number(text)` gives, restricted to integers: the model recognises the empty
   * text (0) and optionally signed decimal digits, after trimming; every other text
   * (NaN, and spellings with a fraction, an exponent or a radix prefix) is OtherValue.
   */
  datatype NumVal = Num(n: int) | OtherValue

  function ToNumber(s: string): (v: NumVal)
    ensures Trim(s) == [] ==> v == Num(0)
  {
    IntegerValue(Trim(s))
  }

  /** The value of an already trimmed numeral. */
  function IntegerValue(t: string): (v: NumVal)
    ensures AllDigits(t) ==> v == Num(DigitsValue(t))
    ensures |t| > 1 && t[0] == '-' && AllDigits(t[1..]) ==> v == Num(0 - DigitsValue(t[1..]))
    ensures |t| > 1 && t[0] == '+' && AllDigits(t[1..]) ==> v == Num(DigitsValue(t[1..]))
    ensures v == OtherValue <==> !AllDigits(t) && !(|t| > 1 && (t[0] == '-' || t[0] == '+') && AllDigits(t[1..]))
  {
    if t == [] then Num(0)
    else if AllDigits(t) then Num(DigitsValue(t))
    else if |t| > 1 && t[0] == '-' && AllDigits(t[1..]) then Num(0 - DigitsValue(t[1..]))
    else if |t| > 1 && t[0] == '+' && AllDigits(t[1..]) then Num(DigitsValue(t[1..]))
    else OtherValue
  }

  /**
   * `Number(text)` on integers: the trimmed text read as unsigned or signed decimal digits
   * (blank text as 0); every other text is NaN.
   */
  lemma ToNumberCases(s: string)
    ensures var t := Trim(s);
      (AllDigits(t) ==> ToNumber(s) == Num(DigitsValue(t)))
      && (|t| > 1 && t[0] == '-' && AllDigits(t[1..]) ==> ToNumber(s) == Num(0 - DigitsValue(t[1..])))
      && (|t| > 1 && t[0] == '+' && AllDigits(t[1..]) ==> ToNumber(s) == Num(DigitsValue(t[1..])))
      && (ToNumber(s) == OtherValue <==> !AllDigits(t) && !(|t| > 1 && (t[0] == '-' || t[0] == '+') && AllDigits(t[1..])))
  {
  }

  /** `Number(String(n)) === n` for every integer. */
  lemma NumberOfIntToString(n: int)
    ensures ToNumber(IntToString(n)) == Num(n)
  {
    var s := IntToString(n);
    TrimKeeps(s);
    if n < 0 {
      var m := NatToString(-n);
      assert s == "-" + m;
      assert s[1..] == m;
      assert !IsDigit(s[0]);
      DigitsOfNat(-n);
      assert IntegerValue(s) == Num(n);
    } else {
      DigitsOfNat(n);
    }
  }

  /** The text of an integer never contains a character other than a digit or `-`. */
  lemma IntToStringAvoids(n: int, c: char)
    requires !IsDigit(c) && c != '-'
    ensures c !in IntToString(n)
  {
    if n < 0 {
      assert IntToString(n) == "-" + NatToString(-n);
    }
  }
}
