/** Signed decimals as strconv prints and parses them, and splitting at a colon. */
module Text {
  import opened Wrappers

  const MIN_INT64: int := -0x8000_0000_0000_0000
  const MAX_INT64: int := 0x7fff_ffff_ffff_ffff

  predicate HasPrefix(s: string, prefix: string) {
    |prefix| <= |s| && s[..|prefix|] == prefix
  }

  predicate ColonFree(s: string) {
    ':' !in s
  }

  /** A string is cut at its first colon in only one way. */
  lemma {:induction false} SplitAtColon(a: string, x: string, b: string, y: string)
    requires ColonFree(a) && ColonFree(b)
    requires a + ":" + x == b + ":" + y
    ensures a == b && x == y
  {
    var s, t := a + ":" + x, b + ":" + y;
    assert s[|a|] == ':' && t[|b|] == ':';
    assert forall i :: 0 <= i < |a| ==> s[i] == a[i];
    assert forall i :: 0 <= i < |b| ==> t[i] == b[i];
    assert |a| == |b|;
    assert s[..|a|] == a && t[..|b|] == b;
    assert s[|a| + 1..] == x && t[|b| + 1..] == y;
  }

  predicate IsDigit(c: char) {
    '0' <= c <= '9'
  }

  function Digit(d: nat): (c: char)
    requires d < 10
    ensures IsDigit(c) && (c as int) - ('0' as int) == d
  {
    '0' + (d as char)
  }

  function FormatNat(n: nat): string {
    if n < 10 then [Digit(n)] else FormatNat(n / 10) + [Digit(n % 10)]
  }

  /** strconv.FormatInt(n, 10). */
  function FormatInt(n: int): string {
    if n < 0 then "-" + FormatNat(-n) else FormatNat(n)
  }

  /** The number a digit string denotes; None when it is empty or holds a non-digit. */
  function ParseNat(s: string): Option<nat> {
    if s == [] || !IsDigit(s[|s| - 1]) then None
    else
      var d := (s[|s| - 1] as int) - ('0' as int);
      if |s| == 1 then Some(d)
      else match ParseNat(s[..|s| - 1])
        case None => None
        case Some(n) => Some(10 * n + d)
  }

  /** strconv.ParseInt(s, 10, 64): an optional sign, then digits, within the int64 range. */
  function ParseInt(s: string): Option<int> {
    var signed := s != [] && (s[0] == '-' || s[0] == '+');
    match ParseNat(if signed then s[1..] else s)
    case None => None
    case Some(n) =>
      var v: int := if s[0] == '-' then -(n as int) else n;
      if MIN_INT64 <= v <= MAX_INT64 then Some(v) else None
  }

  lemma {:induction false} NatRoundTrip(n: nat)
    ensures ParseNat(FormatNat(n)) == Some(n)
    ensures FormatNat(n) != [] && forall c :: c in FormatNat(n) ==> IsDigit(c)
  {
    if n >= 10 {
      NatRoundTrip(n / 10);
      var s := FormatNat(n);
      assert s[..|s| - 1] == FormatNat(n / 10);
    }
  }

  /** Printing then parsing is the identity on int64. */
  lemma {:induction false} IntRoundTrip(n: int)
    requires MIN_INT64 <= n <= MAX_INT64
    ensures ParseInt(FormatInt(n)) == Some(n)
  {
    NatRoundTrip(if n < 0 then -n else n);
    var s := FormatInt(n);
    if n < 0 {
      assert s[1..] == FormatNat(-n);
    } else {
      assert s[0] in FormatNat(n);
    }
  }

  /** Distinct integers print differently, and no print holds a colon. */
  lemma {:induction false} FormatIntInjective(m: int, n: int)
    ensures FormatInt(m) == FormatInt(n) ==> m == n
    ensures ColonFree(FormatInt(m))
  {
    NatRoundTrip(if m < 0 then -m else m);
    NatRoundTrip(if n < 0 then -n else n);
    var s, t := FormatInt(m), FormatInt(n);
    assert m < 0 ==> s[0] == '-' && s[1..] == FormatNat(-m);
    assert n < 0 ==> t[0] == '-' && t[1..] == FormatNat(-n);
    assert m >= 0 ==> s[0] in FormatNat(m);
    assert n >= 0 ==> t[0] in FormatNat(n);
  }

  // ------------------------------------------------------------------ which strings are numbers

  function Unsigned(s: string): string {
    if s != [] && (s[0] == '-' || s[0] == '+') then s[1..] else s
  }

  /** One digit or more, and nothing else. */
  predicate Digits(s: string) {
    s != [] && forall c :: c in s ==> IsDigit(c)
  }

  /** The value of a digit string, read from the left. */
  function Value(s: string, seen: nat): nat {
    if s == [] then seen else Value(s[1..], 10 * seen + DigitValue(s[0]))
  }

  function DigitValue(c: char): nat {
    if IsDigit(c) then (c as int) - ('0' as int) else 0
  }

  lemma {:induction false} ValueSnoc(s: string, c: char, seen: nat)
    ensures Value(s + [c], seen) == 10 * Value(s, seen) + DigitValue(c)
    decreases |s|
  {
    if s == [] {
      assert s + [c] == [c] && [c][1..] == [];
    } else {
      assert (s + [c])[1..] == s[1..] + [c];
      ValueSnoc(s[1..], c, 10 * seen + DigitValue(s[0]));
    }
  }

  lemma {:induction false} ParseNatIff(s: string)
    ensures ParseNat(s) == if Digits(s) then Some(Value(s, 0)) else None
  {
    if s != [] {
      var front, last := s[..|s| - 1], s[|s| - 1];
      DigitsSnoc(s);
      assert s == front + [last];
      ParseNatIff(front);
      ValueSnoc(front, last, 0);
      if front == [] {
        assert Value(front, 0) == 0;
      }
    }
  }

  lemma {:induction false} DigitsSnoc(s: string)
    requires s != []
    ensures Digits(s) <==> IsDigit(s[|s| - 1]) && (|s| == 1 || Digits(s[..|s| - 1]))
  {
    assert forall c :: c in s <==> c in s[..|s| - 1] || c == s[|s| - 1];
  }

  /** A string reads as a number exactly when it is an optional sign and digits whose value is an int64. */
  lemma {:induction false} ParseIntIff(s: string)
    ensures !Digits(Unsigned(s)) ==> ParseInt(s) == None
    ensures Digits(Unsigned(s)) ==>
              var n: int := Value(Unsigned(s), 0);
              var v := if s[0] == '-' then -n else n;
              ParseInt(s) == if -0x8000_0000_0000_0000 <= v <= 0x7fff_ffff_ffff_ffff then Some(v) else None
  {
    ParseNatIff(Unsigned(s));
  }

  /** Printed numbers have no superfluous zero and no plus sign. */
  lemma {:induction false} PrintedIsCanonical(n: int)
    ensures FormatInt(n)[0] == '-' <==> n < 0
    ensures Digits(Unsigned(FormatInt(n))) && (n != 0 ==> Unsigned(FormatInt(n))[0] != '0')
  {
    NatRoundTrip(if n < 0 then -n else n);
    FirstDigit(if n < 0 then -n else n);
    var digits := FormatNat(if n < 0 then -n else n);
    assert digits[0] in digits && ("-" + digits)[1..] == digits;
  }

  lemma {:induction false} FirstDigit(n: nat)
    ensures FormatNat(n) != [] && (n != 0 ==> FormatNat(n)[0] != '0')
  {
    if n >= 10 {
      FirstDigit(n / 10);
    }
  }
}
