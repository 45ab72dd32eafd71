/** Base64 of RFC 4648 section 5 on the values of its characters, and the
    helpers of help/helping.py.  A text is the sequence of its sextets: 'A' is
    0, 'a' is 26, '0' is 52, '-' is 62 and '_' is 63. */
module Base64 {
  import opened Radix
  import opened Results

  type sextet = d: nat | d < 64
  type byte = d: nat | d < 256

  const DASH: sextet := 62 // '-'
  const UNDERSCORE: sextet := 63 // '_'

  /** One quadlet of text is one triplet of bytes (section 4 of RFC 4648). */
  function DecodeQuad(q: seq<sextet>): (b: seq<byte>)
    requires |q| == 4
    ensures |b| == 3
  {
    var q0: nat, q1: nat, q2: nat, q3: nat := q[0], q[1], q[2], q[3];
    [q0 * 4 + q1 / 16, q1 % 16 * 16 + q2 / 4, q2 % 4 * 64 + q3]
  }

  function EncodeTriplet(b: seq<byte>): (q: seq<sextet>)
    requires |b| == 3
    ensures |q| == 4
  {
    var b0: nat, b1: nat, b2: nat := b[0], b[1], b[2];
    [b0 / 4, b0 % 4 * 16 + b1 / 16, b1 % 16 * 4 + b2 / 64, b2 % 64]
  }

  /** A text of whole quadlets. */
  predicate Aligned(t: seq<sextet>) { |t| % 4 == 0 }

  function Decode(t: seq<sextet>): (b: seq<byte>)
    requires Aligned(t)
    ensures 4 * |b| == 3 * |t|
  {
    if t == [] then [] else DecodeQuad(t[..4]) + Decode(t[4..])
  }

  function Encode(b: seq<byte>): (t: seq<sextet>)
    requires |b| % 3 == 0
    ensures 3 * |t| == 4 * |b|
  {
    if b == [] then [] else EncodeTriplet(b[..3]) + Encode(b[3..])
  }

  lemma TripletRoundTrip(b: seq<byte>)
    requires |b| == 3
    ensures DecodeQuad(EncodeTriplet(b)) == b
  {
    SplitBytes(b[0], b[1], b[2]);
  }

  lemma SplitBytes(b0: nat, b1: nat, b2: nat)
    requires b0 < 256 && b1 < 256 && b2 < 256
    ensures var q0, q1, q2, q3 := b0 / 4, b0 % 4 * 16 + b1 / 16, b1 % 16 * 4 + b2 / 64, b2 % 64;
      q0 * 4 + q1 / 16 == b0 && q1 % 16 * 16 + q2 / 4 == b1 && q2 % 4 * 64 + q3 == b2
  {
  }

  lemma QuadRoundTrip(q: seq<sextet>)
    requires |q| == 4
    ensures EncodeTriplet(DecodeQuad(q)) == q
  {
    SplitSextets(q[0], q[1], q[2], q[3]);
  }

  lemma SplitSextets(q0: nat, q1: nat, q2: nat, q3: nat)
    requires q0 < 64 && q1 < 64 && q2 < 64 && q3 < 64
    ensures var b0, b1, b2 := q0 * 4 + q1 / 16, q1 % 16 * 16 + q2 / 4, q2 % 4 * 64 + q3;
      b0 / 4 == q0 && b0 % 4 * 16 + b1 / 16 == q1 && b1 % 16 * 4 + b2 / 64 == q2 && b2 % 64 == q3
  {
  }

  lemma {:induction false} DecodeEncode(b: seq<byte>)
    requires |b| % 3 == 0
    ensures Decode(Encode(b)) == b
  {
    if b == [] {
    } else {
      DecodeEncode(b[3..]);
      var q := EncodeTriplet(b[..3]);
      assert Encode(b)[..4] == q && Encode(b)[4..] == Encode(b[3..]);
      TripletRoundTrip(b[..3]);
    }
  }

  lemma {:induction false} EncodeDecode(t: seq<sextet>)
    requires |t| % 4 == 0
    ensures Encode(Decode(t)) == t
  {
    if t == [] {
    } else {
      EncodeDecode(t[4..]);
      var q := DecodeQuad(t[..4]);
      assert Decode(t)[..3] == q && Decode(t)[3..] == Decode(t[4..]);
      QuadRoundTrip(t[..4]);
    }
  }

  lemma Associate<T>(a: seq<T>, b: seq<T>, c: seq<T>)
    ensures a + b + c == a + (b + c)
  {
  }

  lemma Unjoin<T>(a: seq<T>, b: seq<T>)
    ensures (a + b)[..|a|] == a && (a + b)[|a|..] == b
  {
  }

  lemma Rejoin<T>(s: seq<T>, k: nat)
    requires k <= |s|
    ensures s == s[..k] + s[k..]
  {
  }

  lemma AlignedJoin(s: seq<sextet>, t: seq<sextet>)
    requires Aligned(s) && Aligned(t)
    ensures Aligned(s + t)
  {
  }

  lemma {:induction false} DecodeConcat(s: seq<sextet>, t: seq<sextet>)
    requires Aligned(s) && Aligned(t)
    ensures Aligned(s + t) && Decode(s + t) == Decode(s) + Decode(t)
  {
    if s == [] {
      assert s + t == t;
    } else {
      hide Decode;
      var q, r := s[..4], s[4..];
      assert Aligned(q) && Aligned(r);
      hide Aligned;
      AlignedJoin(s, t);
      AlignedJoin(r, t);
      AlignedJoin(q, r + t);
      Rejoin(s, 4);
      DecodeConcat(r, t);
      Associate(q, r, t);
      DecodeCons(q, r);
      DecodeCons(q, r + t);
      Associate(DecodeQuad(q), Decode(r), Decode(t));
    }
  }

  lemma DecodeCons(q: seq<sextet>, r: seq<sextet>)
    requires |q| == 4 && Aligned(r)
    ensures Aligned(q + r) && Decode(q + r) == DecodeQuad(q) + Decode(r)
  {
    Unjoin(q, r);
    assert q + r != [];
  }

  /** Text and its decoding denote the same integer. */
  lemma {:induction false} DecodeVal(t: seq<sextet>)
    requires |t| % 4 == 0
    ensures Val(B256, Decode(t)) == Val(B64, t)
  {
    if t == [] {
    } else {
      DecodeVal(t[4..]);
      DecodeCons(t[..4], t[4..]);
      Rejoin(t, 4);
      DecodeValStep(t[..4], t[4..]);
    }
  }

  lemma DecodeValStep(q: seq<sextet>, r: seq<sextet>)
    requires |q| == 4 && |r| % 4 == 0 && Val(B256, Decode(r)) == Val(B64, r)
    ensures Val(B256, DecodeQuad(q) + Decode(r)) == Val(B64, q + r)
  {
    hide Decode;
    hide DecodeQuad;
    hide Val;
    hide Shift;
    QuadVal(q);
    ValConcat(B64, q, r);
    ValConcat(B256, DecodeQuad(q), Decode(r));
    ShiftQuads(Val(B64, q), |r| / 4);
  }

  lemma QuadVal(q: seq<sextet>)
    requires |q| == 4
    ensures Val(B256, DecodeQuad(q)) == Val(B64, q)
  {
    var d := DecodeQuad(q);
    assert q[..3][..2] == q[..2] && q[..2][..1] == q[..1] && q[..1][..0] == [];
    assert d[..2][..1] == d[..1] && d[..1][..0] == [];
    var q0: nat, q1: nat, q2: nat, d0: nat, d1: nat := q[0], q[1], q[2], d[0], d[1];
    assert Val(B64, q[..1]) == q0 && Val(B256, d[..1]) == d0;
    assert Val(B64, q[..2]) == q0 * 64 + q1;
    assert Val(B64, q[..3]) == (q0 * 64 + q1) * 64 + q2;
    assert Val(B256, d[..2]) == d0 * 256 + d1;
  }

  /** Four sextets are as wide as three bytes. */
  lemma {:induction false} ShiftQuads(x: nat, k: nat)
    ensures Shift(B64, x, 4 * k) == Shift(B256, x, 3 * k)
  {
    if k == 0 {
    } else {
      ShiftQuads(x, k - 1);
      ShiftAdd(B64, x, 4 * (k - 1), 4);
      ShiftAdd(B256, x, 3 * (k - 1), 3);
      ShiftQuad(Shift(B64, x, 4 * (k - 1)));
    }
  }

  lemma ShiftQuad(x: nat)
    ensures Shift(B64, x, 4) == Shift(B256, x, 3) == x * 0x100_0000
  {
    SmallShifts(x);
  }

  /** Bytes that hold l sextets: sceil(l * 3 / 4). */
  function ByteLen(l: nat): nat { (3 * l + 3) / 4 }

  /** intToB64: i in base 64, left padded to l characters; "" when l is 0. */
  function IntToB64(i: nat, l: nat): (t: seq<sextet>)
    ensures l <= |t|
  {
    if l == 0 then [] else Written(B64, i, l)
  }

  function B64ToInt(t: seq<sextet>): nat { Val(B64, t) }

  /** codeB64ToB2: sextets left aligned in the fewest bytes, two pad bits for each odd sextet. */
  function CodeB64ToB2(t: seq<sextet>): (b: seq<byte>)
    ensures |b| == ByteLen(|t|)
  {
    Digits(B256, Shift(B4, B64ToInt(t), |t| % 4), ByteLen(|t|))
  }

  /** codeB2ToB64: the first l sextets of b, as characters. */
  function CodeB2ToB64(b: seq<byte>, l: nat): (t: seq<sextet>)
    requires ByteLen(l) <= |b|
    ensures |t| == l
  {
    CodeWidth(b, l);
    IntToB64(Drop(B4, Val(B256, b[..ByteLen(l)]), l % 4), l)
  }

  /** nabSextets: the first l sextets of b, as left-aligned bytes. */
  function NabSextets(b: seq<byte>, l: nat): (s: seq<byte>)
    requires ByteLen(l) <= |b|
  {
    Digits(B256, Shift(B4, Drop(B4, Val(B256, b[..ByteLen(l)]), l % 4), l % 4), ByteLen(l))
  }

  /** l sextets and their pad bits fill ByteLen(l) bytes exactly. */
  lemma PowCode(l: nat)
    ensures Shift(B4, Pow(B64, l), l % 4) == Pow(B256, ByteLen(l))
  {
    var k, r := l / 4, l % 4;
    ShiftAdd(B64, 1, 4 * k, r);
    ShiftAdd(B256, 1, 3 * k, r);
    ShiftQuads(1, k);
    MixedShift(Pow(B64, 4 * k), r);
    assert ByteLen(l) == 3 * k + r;
  }

  lemma MixedShift(x: nat, r: nat)
    requires r < 4
    ensures Shift(B4, Shift(B64, x, r), r) == Shift(B256, x, r)
  {
    SmallShifts(x);
    SmallShifts(x * 64);
    SmallShifts(x * 4096);
    SmallShifts(x * 262144);
    assert Shift(B256, x, 3) == Up(B256, Shift(B256, x, 2), 0);
  }

  lemma {:induction false} CodeWidth(b: seq<byte>, l: nat)
    requires ByteLen(l) <= |b|
    ensures Drop(B4, Val(B256, b[..ByteLen(l)]), l % 4) < Pow(B64, l)
    ensures |IntToB64(Drop(B4, Val(B256, b[..ByteLen(l)]), l % 4), l)| == l
  {
    var v := Val(B256, b[..ByteLen(l)]);
    ValBound(B256, b[..ByteLen(l)]);
    PowCode(l);
    DropLess(B4, v, Pow(B64, l), l % 4);
    if l > 0 {
      WidthFits(B64, Drop(B4, v, l % 4), l);
    }
  }

  /** The integer held by the bytes of a code. */
  lemma {:induction false} CodeVal(t: seq<sextet>)
    ensures Val(B256, CodeB64ToB2(t)) == Shift(B4, Val(B64, t), |t| % 4)
  {
    ValBound(B64, t);
    PowCode(|t|);
    ShiftStrict(B4, Val(B64, t), Pow(B64, |t|), |t| % 4);
    ValDigits(B256, Shift(B4, Val(B64, t), |t| % 4), ByteLen(|t|));
  }

  /** Converting a code to bytes and back, whatever follows it, gives the code. */
  lemma CodeRoundTrip(t: seq<sextet>, rest: seq<byte>)
    ensures CodeB2ToB64(CodeB64ToB2(t) + rest, |t|) == t
  {
    hide Val;
    hide Shift;
    hide Drop;
    hide CodeB64ToB2;
    hide IntToB64;
    var b := CodeB64ToB2(t);
    assert (b + rest)[..|b|] == b;
    CodeVal(t);
    PowPositive(B4, |t| % 4);
    DropShift(B4, Val(B64, t), 0, |t| % 4);
    B64RoundTrip(t);
  }

  /** The sextets nabbed as bytes are the bytes of the sextets read as a code: the
      binary code tables, keyed by such bytes, answer as the text tables do. */
  lemma NabIsCode(b: seq<byte>, l: nat)
    requires ByteLen(l) <= |b|
    ensures NabSextets(b, l) == CodeB64ToB2(CodeB2ToB64(b, l))
  {
    CodeWidth(b, l);
    if l > 0 {
      WrittenVal(B64, Drop(B4, Val(B256, b[..ByteLen(l)]), l % 4), l);
    }
  }

  /** The integer of bytes whose pad bits are zero is that of their code. */
  lemma CodeOfPadded(b: seq<byte>, l: nat)
    requires |b| == ByteLen(l)
    requires Val(B256, b) == Shift(B4, Drop(B4, Val(B256, b), l % 4), l % 4)
    ensures CodeB64ToB2(CodeB2ToB64(b, l)) == b
  {
    assert b[..ByteLen(l)] == b;
    NabIsCode(b, l);
    DigitsVal(B256, b);
  }

  /** The loop of intToB64 peels digits off the low end, then pads. */
  method WriteB64(i: nat, l: nat) returns (d: seq<sextet>)
    ensures d == IntToB64(i, l)
  {
    hide Val;
    hide Shift;
    hide Pow;
    d := [];
    var v := i;
    while l != 0
      invariant l == 0 ==> d == []
      invariant |d| < Width(B64, i) && Width(B64, v) == Width(B64, i) - |d|
      invariant d == Digits(B64, i, |d|) && v == Drop(B64, i, |d|)
      decreases Width(B64, v)
    {
      DigitsFront(B64, i, |d|);
      DropSucc(B64, i, |d|);
      d := [v % 64] + d;
      v := v / 64;
      if v == 0 {
        break;
      }
    }
    var n := |d|;
    while |d| < l
      invariant |d| <= Max(l, n) && (l == 0 ==> d == [])
      invariant l != 0 ==> n == Width(B64, i) && n <= |d|
      invariant d == Digits(B64, i, |d|)
    {
      WidthFits(B64, i, |d|);
      DropFits(B64, i, |d|);
      DigitsFront(B64, i, |d|);
      d := [0] + d;
    }
    assert l != 0 ==> |d| == Max(l, Width(B64, i));
  }

  /** The loop of b64ToInt adds digits from the low end up. */
  method ReadB64(t: seq<sextet>) returns (r: Result<nat>)
    ensures r == if t == [] then Err(ValueError) else Ok(B64ToInt(t))
  {
    if t == [] { return Err(ValueError); }
    var i: nat := 0;
    var e := 0;
    while e < |t|
      invariant e <= |t| && i == Val(B64, t[|t| - e..])
    {
      var k := |t| - 1 - e;
      assert t[k..] == [t[k]] + t[k + 1..];
      ValConcat(B64, [t[k]], t[k + 1..]);
      assert Val(B64, [t[k]]) == t[k] by { assert [t[k]][..0] == []; }
      i := i + Shift(B64, t[k], e);
      e := e + 1;
    }
    assert t[0..] == t;
    return Ok(i);
  }

  /** Printing at its own width what was read gives the text back. */
  lemma B64RoundTrip(t: seq<sextet>)
    ensures IntToB64(B64ToInt(t), |t|) == t
  {
    if t != [] {
      WrittenOfVal(B64, t);
    }
  }

  /** Only the bytes that hold the first l sextets matter, and they give exactly those sextets. */
  lemma SextetsOfDecoded(t: seq<sextet>, l: nat, b: seq<byte>)
    requires |t| % 4 == 0 && l <= |t|
    requires ByteLen(l) <= |b| && b[..ByteLen(l)] == Decode(t)[..ByteLen(l)]
    ensures CodeB2ToB64(b, l) == t[..l]
  {
    hide Decode;
    hide Val;
    hide Drop;
    hide IntToB64;
    var c, n := QuadEnd(l, |t|), ByteLen(l);
    var u := t[..c];
    assert b[..n] == Decode(u)[..n] by {
      DecodePrefix(t, c);
    }
    HighBits(u, l);
    assert u[..l] == t[..l];
    B64RoundTrip(t[..l]);
  }

  lemma WholeQuads(c: nat, n: nat)
    requires c % 4 == 0 && 4 * n == 3 * c
    ensures n == c / 4 * 3
  {
  }

  lemma DecodePrefix(t: seq<sextet>, c: nat)
    requires |t| % 4 == 0 && c % 4 == 0 && c <= |t|
    ensures c / 4 * 3 <= |Decode(t)| && (|t| - c) % 4 == 0
    ensures Decode(t)[..c / 4 * 3] == Decode(t[..c])
    ensures Decode(t)[c / 4 * 3..] == Decode(t[c..])
  {
    hide Decode;
    var u, v := t[..c], t[c..];
    Rejoin(t, c);
    DecodeConcat(u, v);
    Unjoin(Decode(u), Decode(v));
    WholeQuads(c, |Decode(u)|);
  }

  /** The end of the quadlet that holds the l-th character of a text of length n. */
  function QuadEnd(l: nat, n: nat): (c: nat)
    requires n % 4 == 0 && l <= n
    ensures c % 4 == 0 && l <= c < l + 4 && c <= n && ByteLen(l) <= c / 4 * 3
  {
    (l + 3) / 4 * 4
  }

  /** Splitting a number at l sextets and at ByteLen(l) bytes differs by 2 * (l % 4) bits. */
  lemma HighBits(u: seq<sextet>, l: nat)
    requires l <= |u| < l + 4 && |u| % 4 == 0 && ByteLen(l) <= |u| / 4 * 3
    ensures Drop(B4, Val(B256, Decode(u)[..ByteLen(l)]), l % 4) == Val(B64, u[..l])
  {
    hide Val;
    hide Shift;
    hide Drop;
    hide Decode;
    hide Pow;
    var n := ByteLen(l);
    DecodeVal(u);
    var x, lo := ValSplit(B256, Decode(u), n);
    var y, hi := ValSplit(B64, u, l);
    var j, k, r := Alignment(l, |u|);
    TopBits(x, lo, j, y, hi, k, r);
  }

  lemma Alignment(l: nat, c: nat) returns (j: nat, k: nat, r: nat)
    requires c % 4 == 0 && l <= c < l + 4
    ensures ByteLen(l) + j == c / 4 * 3 && l + k == c && r == l % 4
    ensures (r == 0 && j == k == 0) || (r == 1 && j == 2 && k == 3) || (r == 2 && j == 1 && k == 2)
         || (r == 3 && j == 0 && k == 1)
  {
    j, k, r := c / 4 * 3 - ByteLen(l), c - l, l % 4;
  }

  lemma TopBits(x: nat, lo: nat, j: nat, y: nat, hi: nat, k: nat, r: nat)
    requires (r == 0 && j == k == 0) || (r == 1 && j == 2 && k == 3) || (r == 2 && j == 1 && k == 2)
          || (r == 3 && j == 0 && k == 1)
    requires Shift(B256, x, j) + lo == Shift(B64, y, k) + hi
    requires lo < Pow(B256, j) && hi < Pow(B64, k)
    ensures Drop(B4, x, r) == y
  {
    SmallShifts(x);
    SmallShifts(y);
    SmallShifts(1);
    SmallDrops(x);
  }

  lemma SmallShifts(x: nat)
    ensures Shift(B4, x, 1) == x * 4 && Shift(B4, x, 2) == x * 16 && Shift(B4, x, 3) == x * 64
    ensures Shift(B64, x, 1) == x * 64 && Shift(B64, x, 2) == x * 4096 && Shift(B64, x, 3) == x * 262144
    ensures Shift(B256, x, 1) == x * 256 && Shift(B256, x, 2) == x * 65536
  {
    assert Shift(B4, x, 1) == x * 4 && Shift(B64, x, 1) == x * 64 && Shift(B256, x, 1) == x * 256;
    assert Shift(B4, x, 2) == x * 16 && Shift(B64, x, 2) == x * 4096;
  }

  lemma SmallDrops(x: nat)
    ensures Drop(B4, x, 1) == x / 4 && Drop(B4, x, 2) == x / 16 && Drop(B4, x, 3) == x / 64
  {
    assert Drop(B4, x / 4, 1) == Drop(B4, x / 16, 0);
  }
}
