/** Decimal parsing of a signed 64-bit integer, as `strconv.Atoi` does it:
    an optional `+` or `-`, then one or more decimal digits, whose value must
    lie in the range of a 64-bit `int`. Anything else is an error. */
module Strconv {
  import opened GoTypes

  const ZERO: byte := 48
  const PLUS: byte := 43
  const MINUS: byte := 45

  predicate IsDigit(b: byte) {
    ZERO <= b <= ZERO + 9
  }

  predicate AllDigits(s: seq<byte>) {
    forall i :: 0 <= i < |s| ==> IsDigit(s[i])
  }

  predicate IsSign(b: byte) {
    b == PLUS || b == MINUS
  }

  /** The number a string of decimal digits denotes, most significant first. */
  function DigitsValue(s: seq<byte>): nat
    requires AllDigits(s)
  {
    if |s| == 0 then 0 else 10 * DigitsValue(s[..|s| - 1]) + (s[|s| - 1] - ZERO)
  }

  /** The digits of a string after the sign, if it has one. */
  function Unsigned(s: seq<byte>): (u: seq<byte>)
    requires |s| > 0
    ensures IsSign(s[0]) ==> u == s[1..]
    ensures !IsSign(s[0]) ==> u == s
  {
    if IsSign(s[0]) then s[1..] else s
  }

  /** `strconv.Atoi(s)` in base 10. The syntax and range errors Go tells
      apart are one `ParseFailed` here. */
  function Atoi(s: seq<byte>): (r: Result<int64>)
    ensures r.Err? ==> r.cause == ParseFailed
    ensures r.Ok? ==> |s| > 0 && |Unsigned(s)| > 0 && AllDigits(Unsigned(s))
    ensures r.Ok? && s[0] == MINUS ==> r.value <= 0
    ensures r.Ok? && s[0] != MINUS ==> r.value >= 0
  {
    if |s| == 0 then Err(ParseFailed)
    else
      var digits := Unsigned(s);
      if |digits| == 0 || !AllDigits(digits) then Err(ParseFailed)
      else
        var magnitude: int := DigitsValue(digits);
        var v: int := if s[0] == MINUS then -magnitude else magnitude;
        if InInt64(v) then Ok(v) else Err(ParseFailed)
  }

  /** The shortest decimal digits of `n`. */
  function Format(n: nat): (s: seq<byte>)
    ensures |s| > 0 && AllDigits(s)
    ensures |s| > 1 ==> s[0] != ZERO
  {
    if n < 10 then [ZERO + n] else Format(n / 10) + [ZERO + n % 10]
  }

  /** The decimal text of any integer: a `-` before negative ones. */
  function Decimal(v: int): (s: seq<byte>)
    ensures |s| > 0
  {
    if v < 0 then [MINUS] + Format(-v) else Format(v)
  }

  /** Reading back the digits of `n` gives `n`. */
  lemma {:induction false} DigitsValueOfFormat(n: nat)
    ensures DigitsValue(Format(n)) == n
  {
    if n >= 10 {
      var s := Format(n);
      assert s[..|s| - 1] == Format(n / 10);
      DigitsValueOfFormat(n / 10);
    }
  }

  /** Round trip: `Atoi` reads back the decimal text of every integer that
      fits in 64 bits, and rejects the decimal text of every other one. */
  lemma AtoiOfDecimal(v: int)
    ensures Atoi(Decimal(v)) == if InInt64(v) then Ok(v) else Err(ParseFailed)
  {
    var s := Decimal(v);
    if v < 0 {
      DigitsValueOfFormat(-v);
      assert Unsigned(s) == Format(-v);
    } else {
      DigitsValueOfFormat(v);
      assert !IsSign(s[0]);
    }
  }

  /** Leading zeros change nothing, with no sign, an explicit `+` or a `-`
      before them: the value is read back when it fits in 64 bits and
      rejected when it does not. */
  lemma {:induction false} AtoiOfZeroPadded(zeros: nat, n: nat)
    ensures InInt64(n) ==> Atoi(Zeros(zeros) + Format(n)) == Ok(n)
    ensures InInt64(n) ==> Atoi([PLUS] + Zeros(zeros) + Format(n)) == Ok(n)
    ensures InInt64(-(n as int)) ==> Atoi([MINUS] + Zeros(zeros) + Format(n)) == Ok(-(n as int))
    ensures !InInt64(n) ==> Atoi(Zeros(zeros) + Format(n)) == Err(ParseFailed)
    ensures !InInt64(n) ==> Atoi([PLUS] + Zeros(zeros) + Format(n)) == Err(ParseFailed)
    ensures !InInt64(-(n as int)) ==> Atoi([MINUS] + Zeros(zeros) + Format(n)) == Err(ParseFailed)
  {
    DigitsValueOfFormat(n);
    DigitsValueOfZeros(zeros, Format(n));
    var digits := Zeros(zeros) + Format(n);
    assert !IsSign(digits[0]);
    assert Unsigned([PLUS] + Zeros(zeros) + Format(n)) == digits;
    assert Unsigned([MINUS] + Zeros(zeros) + Format(n)) == digits;
  }

  function Zeros(k: nat): (z: seq<byte>)
    ensures |z| == k && AllDigits(z)
  {
    if k == 0 then [] else [ZERO] + Zeros(k - 1)
  }

  lemma {:induction false} DigitsValueOfZeros(k: nat, s: seq<byte>)
    requires AllDigits(s)
    ensures AllDigits(Zeros(k) + s)
    ensures DigitsValue(Zeros(k) + s) == DigitsValue(s)
  {
    if |s| == 0 {
      assert Zeros(k) + s == Zeros(k);
      ZerosValue(k);
    } else {
      var t := s[..|s| - 1];
      assert (Zeros(k) + s)[..|Zeros(k) + s| - 1] == Zeros(k) + t;
      DigitsValueOfZeros(k, t);
    }
  }

  lemma {:induction false} ZerosValue(k: nat)
    ensures DigitsValue(Zeros(k)) == 0
  {
    if k > 0 {
      assert Zeros(k)[..k - 1] == Zeros(k - 1) by {
        ZerosAllZero(k);
        ZerosAllZero(k - 1);
      }
      ZerosValue(k - 1);
    }
  }

  lemma {:induction false} ZerosAllZero(k: nat)
    ensures forall i :: 0 <= i < k ==> Zeros(k)[i] == ZERO
  {
    if k > 0 {
      ZerosAllZero(k - 1);
    }
  }

  /** A string with a byte that is neither a digit nor a leading sign does
      not parse; nor does a sign with nothing after it. */
  lemma AtoiRejects(s: seq<byte>, i: nat)
    requires i < |s|
    requires !IsDigit(s[i]) && (i > 0 || !IsSign(s[i]))
    ensures Atoi(s).Err?
  {
    if IsSign(s[0]) {
      assert Unsigned(s)[i - 1] == s[i];
    }
  }

  lemma AtoiRejectsBareSign(b: byte)
    requires IsSign(b)
    ensures Atoi([b]) == Err(ParseFailed) && Atoi([]) == Err(ParseFailed)
  {
  }
}
