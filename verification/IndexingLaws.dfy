/** What core/indexing.py promises: parsers undo printers, the two domains are
    images of each other, texts are canonical and streams frame themselves. */
module IndexingLaws {
  import opened Radix
  import opened Base64
  import opened Results
  import opened Indexing

  /** A primitive as Indexer.__init__ leaves it. */
  ghost predicate Valid(p: Prim) {
    && Sizes(p.code).Some?
    && var sz := Sizes(p.code).value;
    && Fits(p.index, sz.Ms())
    && (CurrentOnly(p.code) ==> p.ondex.None?)
    && (BothLists(p.code) ==> p.ondex.Some? && (sz.os == 0 ==> p.ondex.value == p.index))
    && (p.ondex.Some? && sz.os != 0 ==> Fits(p.ondex.value, sz.os))
    && |p.raw| == RawSize(sz, p.index)
  }

  /** The code has no lead bytes: every code but '1z' and '4z'. */
  ghost predicate Plain(code: Code) {
    Sizes(code).Some? && Sizes(code).value.ls == 0
  }

  /** The number of characters of p in the text domain. */
  function TextSize(p: Prim): nat
    requires Sizes(p.code).Some?
  {
    FullSize(Sizes(p.code).value, p.index)
  }

  lemma InitValid(raw: seq<byte>, code: Code, index: int, ondex: Option<int>)
    requires Init(raw, code, index, ondex).Ok?
    ensures Valid(Init(raw, code, index, ondex).value)
  {
  }

  lemma WrittenWidth(i: nat, n: nat)
    requires 0 < n && Fits(i, n)
    ensures |IntToB64(i, n)| == n && B64ToInt(IntToB64(i, n)) == i
  {
    WidthFits(B64, i, n);
    WrittenVal(B64, i, n);
  }

  /** The three parts of a printed code. */
  lemma BothParts(p: Prim)
    requires Valid(p)
    ensures var sz := Sizes(p.code).value; var both := Both(p, sz); var m := sz.hs + sz.Ms();
      && |both| == sz.Cs() && both[..sz.hs] == p.code
      && B64ToInt(both[sz.hs..m]) == p.index
      && |both[m..]| == sz.os
      && B64ToInt(both[m..]) == (if p.ondex.Some? && sz.os != 0 then p.ondex.value else 0)
  {
    var sz := Sizes(p.code).value;
    var both, m := Both(p, sz), sz.hs + sz.Ms();
    var o := if p.ondex.Some? && sz.os != 0 then p.ondex.value else 0;
    PowPositive(B64, sz.os);
    WrittenWidth(p.index, sz.Ms());
    if sz.os != 0 {
      WrittenWidth(o, sz.os);
    }
    assert both[sz.hs..m] == IntToB64(p.index, sz.Ms());
    assert both[m..] == IntToB64(o, sz.os);
  }

  /** The text of the material part: encoded raw without its ps leading "A"s. */
  function Material(raw: seq<byte>): (t: seq<sextet>) {
    Encode(Zeros(PadSize(raw)) + raw)[PadSize(raw)..]
  }

  /** Zero pre-padding encodes to that many leading zero sextets. */
  lemma PadsEncodeToZeros(raw: seq<byte>, ps: nat)
    requires ps < 3 && (ps + |raw|) % 3 == 0 && (0 < ps ==> raw != [])
    ensures var e := Encode(Zeros(ps) + raw); ps <= |e| && e[..ps] == Zeros(ps)
  {
    var b := Zeros(ps) + raw;
    if 0 < ps {
      var q := EncodeTriplet(b[..3]);
      assert Encode(b) == q + Encode(b[3..]);
      assert b[0] == 0 && (ps == 2 ==> b[1] == 0);
    }
  }

  lemma RowLayout(sz: Xizage, index: nat, n: nat, c: nat, q: nat, ps: nat)
    requires WellFormedRow(sz) && n == RawSize(sz, index)
    requires sz.Cs() == 4 * c + ps && ps < 4 && FullSize(sz, index) == 4 * (c + q)
    ensures n + ps == 3 * q && (ps == 0 || ps == 2)
    ensures (if n % 3 == 0 then 0 else 3 - n % 3) == ps
  {
    assert FullSize(sz, index) - sz.Cs() == 4 * q - ps;
    if ps == 0 {
      assert n == 3 * q;
    } else {
      assert n == 3 * q - 2;
    }
  }

  /** The printed text of a valid primitive with a plain code. */
  ghost function Text(p: Prim): (t: seq<sextet>)
    requires Valid(p) && Plain(p.code)
    ensures |t| == TextSize(p)
  {
    BothParts(p);
    var (_, _, _) := LayoutOf(p);
    Both(p, Sizes(p.code).value) + Material(p.raw)
  }

  ghost function LayoutOf(p: Prim): (l: (nat, nat, nat))
    requires Valid(p) && Plain(p.code)
    ensures l.2 == PadSize(p.raw) && (l.2 == 0 || l.2 == 2) && (l.2 == 2 ==> 1 <= l.1)
    ensures Sizes(p.code).value.Cs() == 4 * l.0 + l.2
    ensures TextSize(p) == 4 * (l.0 + l.1)
    ensures |p.raw| + l.2 == 3 * l.1
  {
    var sz := Sizes(p.code).value;
    var c, ps := sz.Cs() / 4, sz.Cs() % 4;
    var q := TextSize(p) / 4 - c;
    RowLayout(sz, p.index, |p.raw|, c, q, ps);
    (c, q, ps)
  }

  lemma {:induction false} InfilPrints(p: Prim)
    requires Valid(p) && Plain(p.code)
    ensures Infil(p) == Ok(Text(p))
  {
    hide Sizes;
    hide IntToB64;
    BothParts(p);
    var (c, q, ps) := LayoutOf(p);
  }

  /** Decoding printed material behind its code gives the raw bytes back. */
  lemma TextRawOfMaterial(code: Code, raw: seq<byte>, q: nat)
    requires |code| % 4 == PadSize(raw) && PadSize(raw) + |raw| == 3 * q && (raw == [] ==> q == 0)
    ensures |Material(raw)| == 4 * q - PadSize(raw)
    ensures TextRaw(code + Material(raw), |code|, 0) == Ok(raw)
  {
    hide Encode;
    hide Decode;
    hide Val;
    var ps := PadSize(raw);
    var b := Zeros(ps) + raw;
    var e := Encode(b);
    PadsEncodeToZeros(raw, ps);
    assert (code + Material(raw))[|code|..] == e[ps..];
    assert Zeros(ps) + e[ps..] == e;
    DecodeEncode(b);
    assert b[..ps] == Zeros(ps) && b[ps..] == raw;
    ValZeros(B256, ps);
    assert b[..0] == [];
  }

  /** What a parser reads as the other index of p. */
  function ReadOndex(p: Prim): Option<int>
    requires Sizes(p.code).Some?
  {
    if CurrentOnly(p.code) then None
    else if Sizes(p.code).value.os == 0 then Some(p.index)
    else Some(if p.ondex.Some? then p.ondex.value else 0)
  }

  lemma FieldsOfPrinted(p: Prim)
    requires Valid(p)
    ensures var sz := Sizes(p.code).value;
      |Both(p, sz)| == sz.Cs() && Fields(p.code, sz, Both(p, sz)) == Ok((p.index, ReadOndex(p)))
  {
    BothParts(p);
  }

  lemma ExfilSteps(t: seq<sextet>, hard: Code, index: nat, ondex: Option<int>, raw: seq<byte>)
    requires Sizes(hard).Some?
    requires var sz := Sizes(hard).value; var fs := FullSize(sz, index);
      && fs <= |t| && t[..sz.hs] == hard
      && Fields(hard, sz, t[..sz.Cs()]) == Ok((index, ondex))
      && TextRaw(t[..fs], sz.Cs(), sz.ls) == Ok(raw)
    ensures Exfil(t) == Ok(Prim(hard, index, ondex, raw))
  {
    assert t[0] == hard[0];
  }

  lemma PrintedSlices(p: Prim, rest: seq<sextet>)
    requires Valid(p) && Plain(p.code)
    ensures var sz := Sizes(p.code).value; var t := Text(p) + rest;
      |Both(p, sz)| == sz.Cs() && t[..sz.hs] == p.code && t[..sz.Cs()] == Both(p, sz) && t[..TextSize(p)] == Text(p)
  {
    hide Sizes;
    hide IntToB64;
    hide RawSize;
    hide Material;
    BothParts(p);
    assert Both(p, Sizes(p.code).value)[..Sizes(p.code).value.hs] == p.code;
  }

  /** Parsing a printed primitive, whatever follows it in the stream, gives the
      code, raw and index back, and the other index as far as the code holds it. */
  lemma {:induction false} TextRoundTrip(p: Prim, rest: seq<sextet>)
    requires Valid(p) && Plain(p.code)
    ensures Exfil(Text(p) + rest) == Ok(p.(ondex := ReadOndex(p)))
  {
    var (c, q, ps) := LayoutOf(p);
    PrintedSlices(p, rest);
    FieldsOfPrinted(p);
    TextRawOfMaterial(Both(p, Sizes(p.code).value), p.raw, q);
    ExfilSteps(Text(p) + rest, p.code, p.index, ReadOndex(p), p.raw);
  }

  /** Fields read from a code print back to that code. */
  lemma FieldsCanonical(hard: Code, sz: Xizage, both: Code, raw: seq<byte>)
    requires Sizes(hard) == Some(sz) && |both| == sz.Cs() && both[..sz.hs] == hard
    requires Fields(hard, sz, both).Ok?
    ensures var (index, ondex) := Fields(hard, sz, both).value;
      var p := Prim(hard, index, ondex, raw);
      && Fits(index, sz.Ms()) && (ondex.Some? && sz.os != 0 ==> Fits(ondex.value, sz.os))
      && ReadOndex(p) == ondex && Both(p, sz) == both
  {
    hide Sizes;
    hide IntToB64;
    hide B64ToInt;
    hide Pow;
    hide CurrentOnly;
    var m := sz.hs + sz.Ms();
    var other := both[m..];
    assert both == both[..sz.hs] + both[sz.hs..m] + other;
    B64RoundTrip(both[sz.hs..m]);
    B64RoundTrip(other);
    CodeFits(both[sz.hs..m]);
    CodeFits(other);
    NoChars(0);
    assert sz.os == 0 ==> other == [];
  }

  lemma CodeFits(t: seq<sextet>)
    ensures Fits(B64ToInt(t), |t|)
  {
    ValBound(B64, t);
  }

  lemma NoChars(i: nat)
    ensures IntToB64(i, 0) == []
  {
  }

  lemma TextRawCanonical(t: seq<sextet>, cs: nat, ls: nat)
    requires cs + 4 * ls <= |t| && |t| % 4 == 0 && (cs % 4 == 0 || (cs % 4 == 2 && ls == 0))
    requires TextRaw(t, cs, ls).Ok?
    ensures var raw := TextRaw(t, cs, ls).value;
      ls == 0 && |raw| == (|t| - cs) * 3 / 4 && PadSize(raw) == cs % 4 && t[cs..] == Material(raw)
  {
    if cs % 4 == 0 {
      WholeRawCanonical(t, cs, ls);
    } else {
      PaddedRawCanonical(t, cs);
    }
  }

  lemma WholeRawCanonical(t: seq<sextet>, cs: nat, ls: nat)
    requires cs + 4 * ls <= |t| && |t| % 4 == 0 && cs % 4 == 0 && TextRaw(t, cs, ls).Ok?
    ensures var raw := TextRaw(t, cs, ls).value;
      ls == 0 && |raw| == (|t| - cs) * 3 / 4 && PadSize(raw) == 0 && t[cs..] == Material(raw)
  {
    hide Decode;
    hide Encode;
    hide Val;
    var raw := TextRaw(t, cs, ls).value;
    EncodeDecode(t[cs..]);
    assert |Decode(t[cs..])| == (|t| - cs) / 4 * 3;
    assert Zeros(0) + raw == raw;
  }

  lemma PaddedRawCanonical(t: seq<sextet>, cs: nat)
    requires cs <= |t| && |t| % 4 == 0 && cs % 4 == 2 && TextRaw(t, cs, 0).Ok?
    ensures var raw := TextRaw(t, cs, 0).value;
      |raw| == (|t| - cs) * 3 / 4 && PadSize(raw) == 2 && t[cs..] == Material(raw)
  {
    hide Decode;
    hide Encode;
    hide Val;
    var raw := TextRaw(t, cs, 0).value;
    var base := Zeros(2) + t[cs..];
    EncodeDecode(base);
    TwoPadBytes(t[cs..]);
    var paw := Decode(base);
    assert paw == Zeros(2) + raw;
  }

  /** Two zero sextets in front leave a zero byte and half a zero byte. */
  lemma {:induction false} TwoPadBytes(t: seq<sextet>)
    requires |t| % 4 == 2
    ensures var paw := Decode(Zeros(2) + t); |paw| >= 3 && paw[0] == 0 && paw[1] < 16
    ensures var paw := Decode(Zeros(2) + t); Val(B256, paw[..2]) == paw[1]
  {
    var base := Zeros(2) + t;
    var paw := Decode(base);
    assert paw[..3] == DecodeQuad(base[..4]);
    assert paw[0] == 0 && paw[1] < 16;
    TwoBytes(paw[..2]);
  }

  lemma TwoBytes(b: seq<byte>)
    requires |b| == 2
    ensures Val(B256, b) == (b[0] as nat) * 256 + b[1]
  {
    assert b[..1][..0] == [] && Val(B256, b[..1]) == b[0];
  }

  lemma BothNotCurrent(code: Code)
    ensures BothLists(code) ==> !CurrentOnly(code)
  {
  }

  /** What an accepted text is made of. */
  lemma ExfilParts(t: seq<sextet>)
    requires Exfil(t).Ok?
    ensures var p := Exfil(t).value;
      && Sizes(p.code).Some?
      && var sz := Sizes(p.code).value; var fs := FullSize(sz, p.index);
      && sz.hs <= sz.Cs() <= fs <= |t| && t[..sz.hs] == p.code
      && Fields(p.code, sz, t[..sz.Cs()]) == Ok((p.index, p.ondex))
      && TextRaw(t[..fs], sz.Cs(), sz.ls) == Ok(p.raw)
  {
    hide Sizes;
    hide Fields;
    hide TextRaw;
    hide FullSize;
    var hs := Hards(t[0]).value;
    assert Sizes(t[..hs]).Some?;
    var sz := Sizes(t[..hs]).value;
    assert TextTail(t, t[..hs], sz) == Exfil(t);
    var p := Exfil(t).value;
    assert p.code == t[..hs];
    var f := Fields(p.code, sz, t[..sz.Cs()]).value;
    assert f == (p.index, p.ondex);
    assert TextRaw(t[..FullSize(sz, p.index)], sz.Cs(), sz.ls) == Ok(p.raw);
  }

  /** Text parsing is canonical: what it accepts is exactly what is printed of
      the result, so no code with lead bytes parses and no two texts parse alike. */
  lemma TextCanonical(t: seq<sextet>)
    requires Exfil(t).Ok?
    ensures var p := Exfil(t).value;
      Valid(p) && Plain(p.code) && ReadOndex(p) == p.ondex && TextSize(p) <= |t| && t[..TextSize(p)] == Text(p)
  {
    hide Exfil;
    hide Sizes;
    hide Fields;
    hide TextRaw;
    hide CurrentOnly;
    hide BothLists;
    hide FullSize;
    hide Fits;
    hide Both;
    hide Material;
    ExfilParts(t);
    var p := Exfil(t).value;
    var sz := Sizes(p.code).value;
    var cs, fs := sz.Cs(), TextSize(p);
    assert t[..cs][..sz.hs] == p.code;
    FieldsCanonical(p.code, sz, t[..cs], p.raw);
    TextRawCanonical(t[..fs], cs, sz.ls);
    BothNotCurrent(p.code);
    assert t[..fs] == t[..cs] + t[..fs][cs..];
  }
}
