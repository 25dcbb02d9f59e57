/** Offsets as text: strconv.FormatInt for non-negative numbers and strconv.ParseInt(s, 10, 64). */
module Decimal {
  import opened SeqLaws
  import opened Utf8
  import opened Options

  const MAX_INT64: int := 0x7FFF_FFFF_FFFF_FFFF

  predicate IsDigit(b: byte) {
    48 <= b <= 57
  }

  predicate AllDigits(s: seq<byte>) {
    forall i :: 0 <= i < |s| ==> IsDigit(s[i])
  }

  function FormatInt(n: nat): (s: seq<byte>)
    ensures s != [] && AllDigits(s)
  {
    var digit: byte := 48 + n % 10;
    if n < 10 then [digit] else FormatInt(n / 10) + [digit]
  }

  /** The value of a digit string. */
  function Value(s: seq<byte>): (n: int)
    requires AllDigits(s)
    ensures n >= 0
  {
    if s == [] then 0 else 10 * Value(s[..|s| - 1]) + (s[|s| - 1] - 48)
  }

  /** An optional sign, at least one digit, and a value that fits an int64. */
  function ParseInt(s: seq<byte>): (r: Option<int>) {
    var negative := s != [] && s[0] == 45;
    var digits := if s != [] && (s[0] == 43 || s[0] == 45) then s[1..] else s;
    if digits == [] || !AllDigits(digits) then None
    else if negative then (if Value(digits) <= MAX_INT64 + 1 then Some(-Value(digits)) else None)
    else if Value(digits) <= MAX_INT64 then Some(Value(digits)) else None
  }

  lemma {:induction false} ValueOfFormat(n: nat)
    ensures Value(FormatInt(n)) == n
  {
    var s := FormatInt(n);
    if n < 10 {
      assert s[..|s| - 1] == [];
    } else {
      ValueOfFormat(n / 10);
      assert s[..|s| - 1] == FormatInt(n / 10);
    }
  }

  lemma ParseUndoesFormat(n: nat)
    requires n <= MAX_INT64
    ensures ParseInt(FormatInt(n)) == Some(n)
  {
    ValueOfFormat(n);
    assert IsDigit(FormatInt(n)[0]);
  }

  function Zeros(k: nat): (s: seq<byte>)
    ensures |s| == k && AllDigits(s)
  {
    seq(k, _ => 48)
  }

  lemma {:induction false} LeadingZeros(k: nat, s: seq<byte>)
    requires AllDigits(s)
    ensures AllDigits(Zeros(k) + s) && Value(Zeros(k) + s) == Value(s)
  {
    var all := Zeros(k) + s;
    assert AllDigits(all);
    if s != [] {
      LeadingZeros(k, s[..|s| - 1]);
      assert all[..|all| - 1] == Zeros(k) + s[..|s| - 1];
    } else if k > 0 {
      LeadingZeros(k - 1, s);
      assert all[..|all| - 1] == Zeros(k - 1) + s;
    }
  }

  lemma OneMoreDigit(front: nat, last: byte)
    requires IsDigit(last)
    ensures FormatInt(10 * front + (last - 48)) == if front == 0 then [last] else FormatInt(front) + [last]
    ensures FormatInt(0) == Zeros(1)
  {
    var n: nat := 10 * front + (last - 48);
    assert n / 10 == front && n % 10 == last - 48;
  }

  /** A string of digits is its value as FormatInt writes it, behind some zeros. */
  lemma {:induction false} DigitsOf(s: seq<byte>) returns (k: nat)
    requires s != [] && AllDigits(s)
    ensures s == Zeros(k) + FormatInt(Value(s))
  {
    hide FormatInt;
    var n, last := |s| - 1, s[|s| - 1];
    assert s == s[..n] + [last] && IsDigit(last);
    OneMoreDigit(Value(s[..n]), last);
    if n == 0 {
      k := 0;
    } else {
      k := DigitsOf(s[..n]);
      if Value(s[..n]) == 0 {
        k := k + 1;
        assert s[..n] == Zeros(k);
      }
    }
  }
}
