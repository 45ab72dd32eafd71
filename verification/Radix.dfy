/** Positional numbers: the value of a big-endian digit sequence, and the
    fixed-width sequence of a value, in the bases the wire formats use.  Every
    conversion between text, bytes, hex and integers is an instance of these.
    Powers are never multiplied out: Shift appends zeros, Drop removes digits. */
module Radix {

  datatype Base = B4 | B16 | B64 | B256

  function Size(b: Base): nat {
    match b case B4 => 4 case B16 => 16 case B64 => 64 case B256 => 256
  }

  /** x followed by the digit d. */
  function Up(b: Base, x: nat, d: nat): nat {
    match b case B4 => x * 4 + d case B16 => x * 16 + d case B64 => x * 64 + d case B256 => x * 256 + d
  }

  /** v without its last digit. */
  function High(b: Base, v: nat): (h: nat)
    ensures h <= v && (Size(b) <= v ==> 0 < h < v)
  {
    match b case B4 => v / 4 case B16 => v / 16 case B64 => v / 64 case B256 => v / 256
  }

  /** The last digit of v. */
  function Low(b: Base, v: nat): (d: nat)
    ensures d < Size(b) && v == Up(b, High(b, v), d)
  {
    match b case B4 => v % 4 case B16 => v % 16 case B64 => v % 64 case B256 => v % 256
  }

  /** x followed by n zeros, that is x times the n-th power of the base. */
  function Shift(b: Base, x: nat, n: nat): nat {
    if n == 0 then x else Up(b, Shift(b, x, n - 1), 0)
  }

  function Pow(b: Base, n: nat): nat { Shift(b, 1, n) }

  /** v without its last n digits, that is v divided by the n-th power. */
  function Drop(b: Base, v: nat, n: nat): nat {
    if n == 0 then v else Drop(b, High(b, v), n - 1)
  }

  /** The integer denoted by s, most significant digit first. */
  function Val(b: Base, s: seq<nat>): nat {
    if s == [] then 0 else Up(b, Val(b, s[..|s| - 1]), s[|s| - 1])
  }

  ghost predicate AllBelow(m: nat, s: seq<nat>) {
    forall i | 0 <= i < |s| :: s[i] < m
  }

  /** The n least significant digits of v, most significant first. */
  function Digits(b: Base, v: nat, n: nat): (s: seq<nat>)
    ensures |s| == n && AllBelow(Size(b), s)
  {
    if n == 0 then [] else Digits(b, High(b, v), n - 1) + [Low(b, v)]
  }

  function Zeros(n: nat): (s: seq<nat>)
    ensures |s| == n && forall i | 0 <= i < n :: s[i] == 0
  {
    seq(n, i => 0)
  }

  /** The least number of digits that writes v, at least one. */
  function Width(b: Base, v: nat): (w: nat)
    ensures 1 <= w
  {
    if v < Size(b) then 1 else 1 + Width(b, High(b, v))
  }

  function Max(x: nat, y: nat): nat { if x < y then y else x }

  /** At least l digits, more if v needs them: Python's "{:0lx}". */
  function Written(b: Base, v: nat, l: nat): (s: seq<nat>)
    ensures AllBelow(Size(b), s) && l <= |s|
  {
    Digits(b, v, Max(l, Width(b, v)))
  }

  lemma {:induction false} ShiftMonotone(b: Base, x: nat, y: nat, n: nat)
    requires x <= y
    ensures Shift(b, x, n) <= Shift(b, y, n)
  {
    if n == 0 {
    } else {
      ShiftMonotone(b, x, y, n - 1);
    }
  }

  lemma {:induction false} ShiftAdd(b: Base, x: nat, m: nat, n: nat)
    ensures Shift(b, x, m + n) == Shift(b, Shift(b, x, m), n)
  {
    if n == 0 {
    } else {
      ShiftAdd(b, x, m, n - 1);
    }
  }

  lemma {:induction false} ShiftSum(b: Base, x: nat, y: nat, n: nat)
    ensures Shift(b, x + y, n) == Shift(b, x, n) + Shift(b, y, n)
  {
    if n == 0 {
    } else {
      ShiftSum(b, x, y, n - 1);
    }
  }

  lemma {:induction false} ValBound(b: Base, s: seq<nat>)
    requires AllBelow(Size(b), s)
    ensures Val(b, s) < Pow(b, |s|)
  {
    if s == [] {
    } else {
      ValBound(b, s[..|s| - 1]);
    }
  }

  /** Concatenation shifts the left part by the width of the right one. */
  lemma {:induction false} ValConcat(b: Base, s: seq<nat>, t: seq<nat>)
    ensures Val(b, s + t) == Shift(b, Val(b, s), |t|) + Val(b, t)
  {
    if t == [] {
      assert s + t == s;
    } else {
      var n := |t| - 1;
      assert (s + t)[..|s + t| - 1] == s + t[..n];
      ValConcat(b, s, t[..n]);
    }
  }

  lemma {:induction false} ValZeros(b: Base, n: nat)
    ensures Val(b, Zeros(n)) == 0
  {
    if n == 0 {
    } else {
      assert Zeros(n)[..n - 1] == Zeros(n - 1);
      ValZeros(b, n - 1);
    }
  }

  /** Fixed-width digits of the value of s give s back. */
  lemma {:induction false} DigitsVal(b: Base, s: seq<nat>)
    requires AllBelow(Size(b), s)
    ensures Digits(b, Val(b, s), |s|) == s
  {
    if s == [] {
    } else {
      var fore, d := s[..|s| - 1], s[|s| - 1];
      DigitsVal(b, fore);
      MoreDigits(b, Val(b, fore), d, |fore|);
      hide Digits;
      assert fore + [d] == s;
    }
  }

  lemma MoreDigits(b: Base, x: nat, d: nat, n: nat)
    requires d < Size(b)
    ensures Digits(b, Up(b, x, d), n + 1) == Digits(b, x, n) + [d]
  {
    LastDigit(b, x, d);
    hide Up;
    hide High;
    hide Low;
  }

  lemma LastDigit(b: Base, x: nat, d: nat)
    requires d < Size(b)
    ensures High(b, Up(b, x, d)) == x && Low(b, Up(b, x, d)) == d
  {
  }

  /** The value of the fixed-width digits of v is v, when v fits. */
  lemma {:induction false} ValDigits(b: Base, v: nat, n: nat)
    requires v < Pow(b, n)
    ensures Val(b, Digits(b, v, n)) == v
  {
    if n == 0 {
    } else {
      HighLess(b, v, Pow(b, n - 1));
      hide High;
      hide Low;
      hide Up;
      ValDigits(b, High(b, v), n - 1);
      var s := Digits(b, High(b, v), n - 1);
      assert (s + [Low(b, v)])[..n - 1] == s;
    }
  }

  /** Equal-length digit sequences with equal values are equal. */
  lemma ValInjective(b: Base, s: seq<nat>, t: seq<nat>)
    requires |s| == |t| && AllBelow(Size(b), s) && AllBelow(Size(b), t)
    requires Val(b, s) == Val(b, t)
    ensures s == t
  {
    DigitsVal(b, s);
    DigitsVal(b, t);
  }

  /** v is written by exactly Width(b, v) digits, and by no fewer. */
  lemma {:induction false} WidthFits(b: Base, v: nat, n: nat)
    requires 1 <= n
    ensures v < Pow(b, n) <==> Width(b, v) <= n
  {
    if n == 1 {
      assert Pow(b, 1) == Up(b, Shift(b, 1, 0), 0);
    } else {
      WidthFits(b, High(b, v), n - 1);
      if v < Size(b) {
        ShiftMonotone(b, 1, Shift(b, 1, n - 1), 1);
        PowPositive(b, n - 1);
      }
    }
  }

  lemma {:induction false} PowPositive(b: Base, n: nat)
    ensures 1 <= Pow(b, n)
  {
    if n == 0 {
    } else {
      PowPositive(b, n - 1);
    }
  }

  /** The digit that one more place adds in front. */
  lemma {:induction false} DigitsFront(b: Base, v: nat, n: nat)
    ensures Digits(b, v, n + 1) == [Low(b, Drop(b, v, n))] + Digits(b, v, n)
  {
    if n == 0 {
      assert Digits(b, High(b, v), 0) == [];
    } else {
      hide High;
      hide Low;
      DigitsFront(b, High(b, v), n - 1);
    }
  }

  lemma {:induction false} DropSucc(b: Base, v: nat, n: nat)
    ensures Drop(b, v, n + 1) == High(b, Drop(b, v, n))
  {
    if n == 0 {
    } else {
      hide High;
      DropSucc(b, High(b, v), n - 1);
    }
  }

  /** Dropping n digits undoes appending n digits. */
  lemma {:induction false} DropShift(b: Base, x: nat, low: nat, n: nat)
    requires low < Pow(b, n)
    ensures Drop(b, Shift(b, x, n) + low, n) == x
  {
    if n == 0 {
    } else {
      HighSum(b, Shift(b, x, n - 1), low);
      HighLess(b, low, Pow(b, n - 1));
      hide High;
      hide Up;
      DropShift(b, x, High(b, low), n - 1);
    }
  }

  lemma HighSum(b: Base, x: nat, low: nat)
    ensures High(b, Up(b, x, 0) + low) == x + High(b, low)
  {
  }

  lemma HighLess(b: Base, v: nat, p: nat)
    ensures v < Up(b, p, 0) <==> High(b, v) < p
  {
  }

  lemma {:induction false} DropFits(b: Base, v: nat, n: nat)
    requires v < Pow(b, n)
    ensures Drop(b, v, n) == 0
  {
    if n == 0 {
    } else {
      HighLess(b, v, Pow(b, n - 1));
      hide High;
      hide Up;
      DropFits(b, High(b, v), n - 1);
    }
  }

  /** Reading a written number, of whatever width, gives the number. */
  lemma WrittenVal(b: Base, v: nat, l: nat)
    ensures Val(b, Written(b, v, l)) == v
  {
    WidthFits(b, v, Max(l, Width(b, v)));
    ValDigits(b, v, Max(l, Width(b, v)));
  }

  /** A digit sequence is what is written of its value at its own width. */
  lemma {:induction false} WrittenOfVal(b: Base, s: seq<nat>)
    requires s != [] && AllBelow(Size(b), s)
    ensures Written(b, Val(b, s), |s|) == s
  {
    ValBound(b, s);
    WidthFits(b, Val(b, s), |s|);
    DigitsVal(b, s);
  }

  /** Split a number at k digits. */
  lemma ValSplit(b: Base, s: seq<nat>, k: nat) returns (high: nat, low: nat)
    requires AllBelow(Size(b), s) && k <= |s|
    ensures high == Val(b, s[..k]) && low == Val(b, s[k..])
    ensures Val(b, s) == Shift(b, high, |s| - k) + low && low < Pow(b, |s| - k)
  {
    high, low := Val(b, s[..k]), Val(b, s[k..]);
    assert s == s[..k] + s[k..];
    ValConcat(b, s[..k], s[k..]);
    ValBound(b, s[k..]);
  }

  lemma {:induction false} DropLess(b: Base, v: nat, p: nat, n: nat)
    ensures v < Shift(b, p, n) <==> Drop(b, v, n) < p
  {
    if n == 0 {
    } else {
      HighLess(b, v, Shift(b, p, n - 1));
      hide High;
      hide Up;
      DropLess(b, High(b, v), p, n - 1);
    }
  }

  lemma {:induction false} ShiftStrict(b: Base, x: nat, y: nat, n: nat)
    requires x < y
    ensures Shift(b, x, n) < Shift(b, y, n)
  {
    if n == 0 {
    } else {
      ShiftStrict(b, x, y, n - 1);
    }
  }
}
