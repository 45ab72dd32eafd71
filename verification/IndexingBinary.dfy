/** The binary domain of core/indexing.py is the Base64 decoding of its text
    domain: printers, parsers and errors. */
module IndexingBinary {
  import opened Radix
  import opened Base64
  import opened Results
  import opened Indexing
  import opened IndexingLaws

  /** Shifting a code left by its pad bits and appending raw bytes is decoding
      the code overlaid on encoded, zero pre-padded raw bytes. */
  lemma DecodeCodeAndMaterial(code: Code, raw: seq<byte>, q: nat)
    requires |code| % 4 == PadSize(raw) && PadSize(raw) + |raw| == 3 * q && (raw == [] ==> q == 0)
    ensures |Material(raw)| == 4 * q - PadSize(raw) && |code + Material(raw)| % 4 == 0
    ensures Decode(code + Material(raw)) == CodeB64ToB2(code) + raw
  {
    hide Val;
    hide Encode;
    hide Decode;
    hide Shift;
    hide CodeB64ToB2;
    hide TextRaw;
    var ps := PadSize(raw);
    var t := code + Material(raw);
    TextRawOfMaterial(code, raw, q);
    assert |t| % 4 == 0 by {
      MultipleOfFour(|code|, ps, q);
    }
    DecodeVal(t);
    ValConcat(B64, code, Material(raw));
    assert Val(B64, Material(raw)) == Val(B256, raw) by {
      MaterialVal(raw);
    }
    CodeVal(code);
    ValConcat(B256, CodeB64ToB2(code), raw);
    PaddedShift(Val(B64, code), ps, q);
    ByteLenOfParts(|code|, ps, q);
    ValInjective(B256, Decode(t), CodeB64ToB2(code) + raw);
  }

  lemma MultipleOfFour(n: nat, ps: nat, q: nat)
    requires n % 4 == ps && ps <= 4 * q
    ensures (n + (4 * q - ps)) % 4 == 0
  {
  }

  lemma ByteLenOfParts(n: nat, ps: nat, q: nat)
    requires n % 4 == ps && ps < 3 && ps <= 3 * q
    ensures 4 * (ByteLen(n) + (3 * q - ps)) == 3 * (n + (4 * q - ps))
  {
    hide ByteLen;
    ByteLenAt(n / 4, ps);
  }

  lemma ByteLenAt(c: nat, ps: nat)
    requires ps < 3
    ensures ByteLen(4 * c + ps) == 3 * c + ps
  {
  }

  lemma MaterialVal(raw: seq<byte>)
    ensures Val(B64, Material(raw)) == Val(B256, raw)
  {
    hide Val;
    hide Encode;
    hide Decode;
    var ps := PadSize(raw);
    var b := Zeros(ps) + raw;
    PadsEncodeToZeros(raw, ps);
    DecodeEncode(b);
    DecodeVal(Encode(b));
    assert Encode(b) == Zeros(ps) + Material(raw);
    LeadingZeros(B64, ps, Material(raw));
    LeadingZeros(B256, ps, raw);
  }

  lemma LeadingZeros(b: Base, n: nat, s: seq<nat>)
    ensures Val(b, Zeros(n) + s) == Val(b, s)
  {
    ValConcat(b, Zeros(n), s);
    ValZeros(b, n);
    ShiftZero(b, |s|);
  }

  lemma {:induction false} ShiftZero(b: Base, n: nat)
    ensures Shift(b, 0, n) == 0
  {
    if n == 0 {
    } else {
      ShiftZero(b, n - 1);
    }
  }

  /** Moving past 4q - ps sextets is moving past 2 * ps bits and 3q - ps bytes. */
  lemma PaddedShift(x: nat, ps: nat, q: nat)
    requires ps < 3 && (0 < ps ==> 0 < q)
    ensures Shift(B64, x, 4 * q - ps) == Shift(B256, Shift(B4, x, ps), 3 * q - ps)
  {
    if ps == 0 {
      ShiftQuads(x, q);
    } else {
      ShiftAdd(B64, x, 4 - ps, 4 * (q - 1));
      ShiftAdd(B256, Shift(B4, x, ps), 3 - ps, 3 * (q - 1));
      ShiftQuads(Shift(B64, x, 4 - ps), q - 1);
      SmallShifts(x);
      SmallShifts(x * 4);
      SmallShifts(x * 16);
    }
  }

  /** For every valid primitive the binary form is the decoding of the text form. */
  lemma {:induction false} BinaryIsDecodedText(p: Prim)
    requires Valid(p) && Plain(p.code)
    ensures |Text(p)| % 4 == 0 && Binfil(p) == Ok(Decode(Text(p)))
  {
    hide Sizes;
    hide IntToB64;
    hide RawSize;
    hide Material;
    hide CodeB64ToB2;
    hide Decode;
    hide Val;
    hide Both;
    hide ByteLen;
    var (c, q, ps) := LayoutOf(p);
    var sz := Sizes(p.code).value;
    BothParts(p);
    DecodeCodeAndMaterial(Both(p, sz), p.raw, q);
    IndexFitsSoft(sz, p.index);
    WholeTriplets(c, q, ps, |p.raw|);
    assert CodeB64ToB2(Both(p, sz)) + Zeros(0) == CodeB64ToB2(Both(p, sz));
  }

  lemma WholeTriplets(c: nat, q: nat, ps: nat, n: nat)
    requires ps < 3 && n + ps == 3 * q
    ensures ByteLen(4 * c + ps) + n == 3 * (c + q)
  {
    hide ByteLen;
    ByteLenAt(c, ps);
  }

  lemma IndexFitsSoft(sz: Xizage, index: nat)
    requires WellFormedRow(sz) && Fits(index, sz.Ms())
    ensures Fits(index, sz.ss)
  {
    ShiftAdd(B64, 1, sz.os, sz.Ms());
    PowPositive(B64, sz.os);
    ShiftMonotone(B64, 1, Pow(B64, sz.os), sz.Ms());
  }

  /** Pad bits and raw bytes are the same seen from either domain. */
  lemma {:induction false} RawAgree(u: seq<sextet>, cs: nat)
    requires |u| % 4 == 0 && 0 < cs <= |u| && (cs % 4 == 0 || cs % 4 == 2)
    ensures ByteLen(cs) <= |Decode(u)|
    ensures BinaryRaw(Decode(u), cs, 0) == TextRaw(u, cs, 0)
  {
    hide Val;
    hide Decode;
    if cs % 4 == 0 {
      NoPadsAgree(u, cs);
    } else {
      hide ByteLen;
      PadsAgree(u, cs);
    }
  }

  lemma NoPadsAgree(u: seq<sextet>, cs: nat)
    requires |u| % 4 == 0 && 0 < cs <= |u| && cs % 4 == 0
    ensures ByteLen(cs) <= |Decode(u)|
    ensures BinaryRaw(Decode(u), cs, 0) == TextRaw(u, cs, 0)
  {
    hide Val;
    hide Decode;
    DecodePrefix(u, cs);
    assert ByteLen(cs) == cs / 4 * 3;
    hide ByteLen;
    ValZeros(B256, 0);
    assert Decode(u)[ByteLen(cs)..ByteLen(cs)] == Zeros(0) && Decode(u[cs..])[..0] == Zeros(0);
  }

  /** Quadlets that differ in their first two sextets alone. */
  lemma QuadsAgree(q: seq<sextet>, q': seq<sextet>)
    requires |q| == |q'| == 4 && q'[0] == 0 && q'[1] == 0 && q'[2] == q[2] && q'[3] == q[3]
    ensures DecodeQuad(q)[1] % 16 == DecodeQuad(q')[1] % 16 && DecodeQuad(q)[2] == DecodeQuad(q')[2]
  {
  }

  lemma {:induction false} PadsAgree(u: seq<sextet>, cs: nat)
    requires |u| % 4 == 0 && cs <= |u| && cs % 4 == 2
    ensures var d := Decode(u); var base := Zeros(2) + u[cs..];
      && ByteLen(cs) <= |d| && 0 < ByteLen(cs) && |base| % 4 == 0
      && var paw := Decode(base);
      && 2 <= |paw| && d[ByteLen(cs) - 1] % 16 == Val(B256, paw[..2]) % 16 && d[ByteLen(cs)..] == paw[2..]
  {
    hide Val;
    hide Decode;
    hide DecodeQuad;
    var h := cs - 2;
    var v, base := u[h..], Zeros(2) + u[cs..];
    DecodePrefix(u, h);
    var q, q', w := v[..4], base[..4], v[4..];
    assert v == q + w && base == q' + w;
    DecodeCons(q, w);
    DecodeCons(q', w);
    QuadsAgree(q, q');
    PawAgree(Decode(u), h / 4 * 3, DecodeQuad(q), DecodeQuad(q'), Decode(w));
    assert ByteLen(cs) == h / 4 * 3 + 2;
  }

  /** Bytes n and on are d + rest; two of them are past the code. */
  lemma PawAgree(b: seq<byte>, n: nat, d: seq<byte>, d': seq<byte>, rest: seq<byte>)
    requires n <= |b| && b[n..] == d + rest && |d| == |d'| == 3 && d[1] % 16 == d'[1] % 16 && d[2] == d'[2]
    ensures n + 2 <= |b|
    ensures b[n + 1] % 16 == Val(B256, (d' + rest)[..2]) % 16 && b[n + 2..] == (d' + rest)[2..]
  {
    hide Val;
    TwoBytes((d' + rest)[..2]);
    assert b[n + 1] == b[n..][1] && b[n + 2..] == b[n..][2..];
  }

  /** The error a binary parse gives where the text parse gives e. */
  function BinaryError(e: Error): Error {
    if e == UnexpectedCountCodeError || e == UnexpectedOpCodeError then UnexpectedCodeError else e
  }

  /** t starts with '1z' or '4z'. */
  predicate LeadStart(t: seq<sextet>) {
    && t != [] && Hards(t[0]).Some? && Hards(t[0]).value <= |t|
    && Sizes(t[..Hards(t[0]).value]).Some? && Sizes(t[..Hards(t[0]).value]).value.ls != 0
  }

  lemma ByteLenOrder(n: nat, m: nat, l: nat)
    requires 4 * m == 3 * n
    ensures n < l <==> m < ByteLen(l)
  {
  }

  lemma CutAgrees(t: seq<sextet>, fs: nat)
    requires |t| % 4 == 0 && fs % 4 == 0 && fs <= |t|
    ensures ByteLen(fs) <= |Decode(t)| && Decode(t)[..ByteLen(fs)] == Decode(t[..fs])
  {
    DecodePrefix(t, fs);
  }

  /** Parsing the decoding of a text gives what parsing the text gives, errors
      included: the one difference is the name of the error for a count or op
      code start, and the lead-byte codes, which only the binary parser takes. */
  lemma {:induction false} BinaryParseIsTextParse(t: seq<sextet>)
    requires |t| % 4 == 0 && !LeadStart(t)
    ensures Bexfil(Decode(t)) == match Exfil(t) case Ok(p) => Ok(p) case Err(e) => Err(BinaryError(e))
  {
    hide Val;
    hide Decode;
    hide Fields;
    hide TextRaw;
    hide BinaryRaw;
    hide CodeB2ToB64;
    if t == [] {
    } else {
      var b := Decode(t);
      SextetsOfDecoded(t, 1, b);
      if Hards(t[0]).Some? {
        var hs := Hards(t[0]).value;
        SextetsOfDecoded(t, hs, b);
        if Sizes(t[..hs]).Some? {
          BinaryTailIsTextTail(t, t[..hs], Sizes(t[..hs]).value);
        }
      }
    }
  }

  lemma {:induction false} BinaryTailIsTextTail(t: seq<sextet>, hard: Code, sz: Xizage)
    requires |t| % 4 == 0 && WellFormedRow(sz) && sz.ls == 0
    ensures BinaryTail(Decode(t), hard, sz) == TextTail(t, hard, sz)
    ensures TextTail(t, hard, sz).Err? ==> BinaryError(TextTail(t, hard, sz).error) == TextTail(t, hard, sz).error
  {
    hide Val;
    hide Decode;
    hide TextRaw;
    hide BinaryRaw;
    hide CodeB2ToB64;
    var cs := sz.Cs();
    ByteLenOrder(|t|, |Decode(t)|, cs);
    if cs <= |t| {
      SextetsOfDecoded(t, cs, Decode(t));
      var r := Fields(hard, sz, t[..cs]);
      if r.Ok? {
        var fs := FullSize(sz, r.value.0);
        ByteLenOrder(|t|, |Decode(t)|, fs);
        if fs <= |t| {
          CutAgrees(t, fs);
          RawAgree(t[..fs], cs);
          TextRawErrors(t[..fs], cs);
        }
      }
    }
  }

  lemma TextRawErrors(t: seq<sextet>, cs: nat)
    requires cs <= |t| && |t| % 4 == 0
    ensures var r := TextRaw(t, cs, 0); r.Err? ==> r.error == ValueError || r.error == ConversionError
  {
  }
}
