/** Decoding of the single integer action into one scaling directive per service
    (`_decimal_to_base3`): the action is written in base 3, most significant digit
    first, left-padded with zeros to one digit per service, and every digit is
    shifted by -1, so 0, 1, 2 become scale down, keep, scale up. */
module ActionDecoder {

  function Pow3(n: nat): (p: nat)
    ensures p >= 1
  {
    if n == 0 then 1 else 3 * Pow3(n - 1)
  }

  predicate IsDigit3(d: int) {
    0 <= d <= 2
  }

  predicate AllDigits3(ds: seq<int>) {
    forall i :: 0 <= i < |ds| ==> IsDigit3(ds[i])
  }

  /** A scaling directive: -1 scale down, 0 keep, +1 scale up. */
  predicate IsDirective(x: int) {
    -1 <= x <= 1
  }

  predicate AllDirectives(dirs: seq<int>) {
    forall i :: 0 <= i < |dirs| ==> IsDirective(dirs[i])
  }

  /** The base-3 digits the first loop of `_decimal_to_base3` produces: most
      significant first, no leading zero, and none at all when `a <= 0`. */
  function Base3Digits(a: int): (ds: seq<int>)
    ensures AllDigits3(ds)
    ensures a > 0 ==> |ds| >= 1 && ds[0] != 0
    decreases if a > 0 then a else 0
  {
    if a <= 0 then [] else Base3Digits(a / 3) + [a % 3]
  }

  /** The second loop: prepend zeros until there are `n` digits. */
  function PadLeft(ds: seq<int>, n: nat): (r: seq<int>)
    ensures |r| == if |ds| >= n then |ds| else n
    decreases n - |ds|
  {
    if |ds| >= n then ds else PadLeft([0] + ds, n)
  }

  /** Padding adds only zero digits. */
  lemma {:induction false} PadLeftDigits(ds: seq<int>, n: nat)
    requires AllDigits3(ds)
    ensures AllDigits3(PadLeft(ds, n))
    decreases n - |ds|
  {
    if |ds| < n {
      assert AllDigits3([0] + ds) by {
        forall i | 0 <= i < |ds| + 1 ensures IsDigit3(([0] + ds)[i]) {
          if i > 0 {
            assert ([0] + ds)[i] == ds[i - 1];
          }
        }
      }
      PadLeftDigits([0] + ds, n);
    }
  }

  function ShiftDown(ds: seq<int>): (r: seq<int>) {
    seq(|ds|, i requires 0 <= i < |ds| => ds[i] - 1)
  }

  function ShiftUp(dirs: seq<int>): (r: seq<int>) {
    seq(|dirs|, i requires 0 <= i < |dirs| => dirs[i] + 1)
  }

  /** The directives `_decimal_to_base3(a, n)` returns. */
  function Decode(a: int, n: nat): (dirs: seq<int>)
    ensures |dirs| >= n
    ensures AllDirectives(dirs)
  {
    PadLeftDigits(Base3Digits(a), n);
    ShiftDown(PadLeft(Base3Digits(a), n))
  }

  /** Positional value of a digit sequence, first digit most significant:
      the sum of `ds[i] * 3^(|ds|-1-i)`. */
  function DigitsValue(ds: seq<int>): int {
    if ds == [] then 0 else ds[0] * Pow3(|ds| - 1) + DigitsValue(ds[1..])
  }

  /** Re-encoding of directives: `dirs[i] + 1` read as the base-3 digits of an action. */
  function Encode(dirs: seq<int>): int {
    DigitsValue(ShiftUp(dirs))
  }

  /** The method the environment calls; its two loops build the digits by
      prepending to a list. */
  method DecimalToBase3(decimalNumber: int, numberOfServices: nat) returns (directives: seq<int>)
    ensures directives == Decode(decimalNumber, numberOfServices)
  {
    var result: seq<int> := [];
    var x := decimalNumber;
    while x > 0
      invariant Base3Digits(decimalNumber) == Base3Digits(x) + result
      decreases x
    {
      var remainder := x % 3;
      assert Base3Digits(x) + result == Base3Digits(x / 3) + ([remainder] + result);
      result := [remainder] + result;
      x := x / 3;
    }
    assert Base3Digits(x) == [];
    assert Base3Digits(decimalNumber) == result;
    while |result| < numberOfServices
      invariant PadLeft(Base3Digits(decimalNumber), numberOfServices) == PadLeft(result, numberOfServices)
      decreases numberOfServices - |result|
    {
      assert PadLeft(result, numberOfServices) == PadLeft([0] + result, numberOfServices);
      result := [0] + result;
    }
    directives := ShiftDown(result);
  }

  lemma ShiftUpDown(ds: seq<int>)
    ensures ShiftUp(ShiftDown(ds)) == ds
  {
    var r := ShiftUp(ShiftDown(ds));
    assert |r| == |ds|;
    forall i | 0 <= i < |ds| ensures r[i] == ds[i] {
    }
  }

  lemma ShiftDownUp(dirs: seq<int>)
    ensures ShiftDown(ShiftUp(dirs)) == dirs
  {
    var r := ShiftDown(ShiftUp(dirs));
    assert |r| == |dirs|;
    forall i | 0 <= i < |dirs| ensures r[i] == dirs[i] {
    }
  }

  lemma {:induction false} DigitsValueSnoc(ds: seq<int>, d: int)
    ensures DigitsValue(ds + [d]) == 3 * DigitsValue(ds) + d
  {
    if ds != [] {
      var s := ds + [d];
      assert s[1..] == ds[1..] + [d];
      DigitsValueSnoc(ds[1..], d);
      var p := Pow3(|ds| - 1);
      assert Pow3(|s| - 1) == 3 * p;
      assert ds[0] * (3 * p) == 3 * (ds[0] * p);
    }
  }

  lemma {:induction false} DigitsValueOfBase3(a: int)
    requires a >= 0
    ensures DigitsValue(Base3Digits(a)) == a
    decreases a
  {
    if a > 0 {
      DigitsValueOfBase3(a / 3);
      DigitsValueSnoc(Base3Digits(a / 3), a % 3);
    }
  }

  lemma {:induction false} DigitsValuePadLeft(ds: seq<int>, n: nat)
    ensures DigitsValue(PadLeft(ds, n)) == DigitsValue(ds)
    decreases n - |ds|
  {
    if |ds| < n {
      DigitsValuePadLeft([0] + ds, n);
      assert ([0] + ds)[1..] == ds;
    }
  }

  /** The first loop yields at most `n` digits exactly when `a < 3^n`. */
  lemma {:induction false} Base3DigitsLength(a: int, n: nat)
    ensures |Base3Digits(a)| <= n <==> a < Pow3(n)
    decreases if a > 0 then a else 0
  {
    if a > 0 && n > 0 {
      Base3DigitsLength(a / 3, n - 1);
    }
  }

  /** Every positional value of `k` digits lies in `[0, 3^k)`. */
  lemma {:induction false} DigitsValueBound(ds: seq<int>)
    requires AllDigits3(ds)
    ensures 0 <= DigitsValue(ds) < Pow3(|ds|)
  {
    if ds != [] {
      DigitsValueBound(ds[1..]);
      var p := Pow3(|ds| - 1);
      assert 0 <= ds[0] * p <= 2 * p by {
        if ds[0] == 0 {} else if ds[0] == 1 {} else {}
      }
    }
  }

  /** Two digit sequences of the same length with the same value are equal. */
  lemma {:induction false} DigitsValueInjective(x: seq<int>, y: seq<int>)
    requires |x| == |y| && AllDigits3(x) && AllDigits3(y)
    requires DigitsValue(x) == DigitsValue(y)
    ensures x == y
  {
    if x != [] {
      var k := |x| - 1;
      assert x == x[..k] + [x[k]];
      assert y == y[..k] + [y[k]];
      DigitsValueSnoc(x[..k], x[k]);
      DigitsValueSnoc(y[..k], y[k]);
      assert x[k] == y[k];
      DigitsValueInjective(x[..k], y[..k]);
    }
  }

  /** The decoded tuple has exactly one directive per service exactly when the
      action is below `3^n`; a larger action yields more directives than services. */
  lemma DecodeLength(a: int, n: nat)
    ensures |Decode(a, n)| == n <==> a < Pow3(n)
    ensures a >= Pow3(n) ==> |Decode(a, n)| > n
  {
    Base3DigitsLength(a, n);
  }

  /** Round trip: re-encoding the decoded directives gives back every action in `[0, 3^n)`. */
  lemma DecodeEncodeRoundTrip(a: int, n: nat)
    requires 0 <= a < Pow3(n)
    ensures Encode(Decode(a, n)) == a
  {
    var p := PadLeft(Base3Digits(a), n);
    ShiftUpDown(p);
    DigitsValuePadLeft(Base3Digits(a), n);
    DigitsValueOfBase3(a);
  }

  /** Round trip the other way: every tuple of `n` directives is the decoding of
      its encoding, and that encoding is a valid action in `[0, 3^n)`. */
  lemma EncodeDecodeRoundTrip(dirs: seq<int>)
    requires AllDirectives(dirs)
    ensures 0 <= Encode(dirs) < Pow3(|dirs|)
    ensures Decode(Encode(dirs), |dirs|) == dirs
  {
    var n := |dirs|;
    var ds := ShiftUp(dirs);
    DigitsValueBound(ds);
    var v := DigitsValue(ds);
    var p := PadLeft(Base3Digits(v), n);
    Base3DigitsLength(v, n);
    DigitsValuePadLeft(Base3Digits(v), n);
    DigitsValueOfBase3(v);
    PadLeftDigits(Base3Digits(v), n);
    DigitsValueInjective(p, ds);
    ShiftDownUp(dirs);
  }

  /** Padding prepends exactly the missing zeros. */
  lemma {:induction false} PadLeftZeros(ds: seq<int>, n: nat)
    ensures PadLeft(ds, n) == seq(if |ds| >= n then 0 else n - |ds|, _ => 0) + ds
    decreases n - |ds|
  {
    if |ds| >= n {
      assert seq(0, _ => 0) + ds == ds;
    } else {
      var k := n - |ds|;
      PadLeftZeros([0] + ds, n);
      assert seq(k - 1, _ => 0) + ([0] + ds) == seq(k, _ => 0) + ds;
    }
  }

  /** A non-positive action is treated like 0: the first loop never runs, so
      every service scales down. */
  lemma DecodeNonPositive(a: int, n: nat)
    requires a <= 0
    ensures Decode(a, n) == seq(n, _ => -1)
  {
    PadLeftZeros([], n);
    assert seq(n, _ => 0) + [] == seq(n, _ => 0);
  }

  /** Action 0 for three services: every service scales down. */
  lemma DecodeAllDown()
    ensures Decode(0, 3) == [-1, -1, -1]
  {
    assert Encode([-1, -1, -1]) == 0;
    EncodeDecodeRoundTrip([-1, -1, -1]);
  }

  /** Action 13 for three services: every service keeps its replicas. */
  lemma DecodeNoOp()
    ensures Decode(13, 3) == [0, 0, 0]
  {
    assert Encode([0, 0, 0]) == 13;
    EncodeDecodeRoundTrip([0, 0, 0]);
  }

  /** Action 26 for three services: every service scales up. */
  lemma DecodeAllUp()
    ensures Decode(26, 3) == [1, 1, 1]
  {
    assert Encode([1, 1, 1]) == 26;
    EncodeDecodeRoundTrip([1, 1, 1]);
  }
}
