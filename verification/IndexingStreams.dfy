/** Signatures in streams: what the two parsers of an indexed signature consume, what
    they ask more of, and that each undoes its printer. */
module IndexingStreams {
  import opened Radix
  import opened Base64
  import opened Results
  import opened Indexing
  import opened IndexingLaws
  import opened IndexingBinary

  /** Bytes of a code whose pad bits are zero are the bytes of the code read. */
  lemma CodeBytesCanonical(b: seq<byte>, cs: nat)
    requires 0 < |b| == ByteLen(cs) && (cs % 4 == 0 || (cs % 4 == 2 && b[|b| - 1] % 16 == 0))
    ensures CodeB64ToB2(CodeB2ToB64(b, cs)) == b
  {
    hide Val;
    var v := Val(B256, b);
    if cs % 4 == 2 {
      LowNibble(b);
      SmallDrops(v);
      SmallShifts(v / 16);
    }
    CodeOfPadded(b, cs);
  }

  lemma LowNibble(b: seq<byte>)
    requires b != []
    ensures Val(B256, b) % 16 == b[|b| - 1] % 16
  {
    var hi, d: nat := Val(B256, b[..|b| - 1]), b[|b| - 1];
    assert Val(B256, b) == hi * 256 + d;
  }

  /** Binary parsing is canonical for every code, those with lead bytes included. */
  lemma {:induction false} BinaryCanonical(b: seq<byte>)
    requires Bexfil(b).Ok?
    ensures Sizes(Bexfil(b).value.code).Some?
    ensures var p := Bexfil(b).value;
      ByteLen(TextSize(p)) <= |b| && Binfil(p) == Ok(b[..ByteLen(TextSize(p))])
  {
    hide Sizes;
    hide CodeB2ToB64;
    hide CodeB64ToB2;
    hide Fields;
    hide BinaryRaw;
    hide BinfilRow;
    var p := Bexfil(b).value;
    var sz := Sizes(p.code).value;
    CodePrefix(b, sz.hs, sz.Cs());
    BinaryTailCanonical(b, p.code, sz);
  }

  /** Reading more sextets extends what reading fewer gave. */
  lemma CodePrefix(b: seq<byte>, k: nat, l: nat)
    requires k <= l && ByteLen(l) <= |b|
    ensures ByteLen(k) <= ByteLen(l) && CodeB2ToB64(b, l)[..k] == CodeB2ToB64(b, k)
  {
    hide CodeB2ToB64;
    hide Decode;
    hide Encode;
    var n := QuadBytes(l);
    var c := b[..Min(|b|, n)] + Zeros(n - Min(|b|, n));
    DecodeEncode(c);
    var t := Encode(c);
    SextetsOfDecoded(t, l, b);
    SextetsOfDecoded(t, k, b);
  }

  function Min(x: nat, y: nat): nat { if x < y then x else y }

  /** Whole triplets that hold l sextets. */
  function QuadBytes(l: nat): (n: nat)
    ensures n % 3 == 0 && ByteLen(l) <= n && 3 * l <= 4 * n
  {
    (l + 3) / 4 * 3
  }

  lemma OwnBytes(b: seq<byte>, l: nat)
    requires ByteLen(l) <= |b|
    ensures CodeB2ToB64(b[..ByteLen(l)], l) == CodeB2ToB64(b, l)
  {
    assert b[..ByteLen(l)][..ByteLen(l)] == b[..ByteLen(l)];
  }

  lemma ZeroLead(s: seq<byte>)
    requires |s| == 1 && Val(B256, s) == 0
    ensures s == Zeros(1)
  {
    assert s[..0] == [];
  }

  lemma BinarySizes(cs: nat, ls: nat, fs: nat, m: nat)
    requires fs % 4 == 0 && (cs % 4 == 0 || (cs % 4 == 2 && ls == 0)) && ls <= 1
    requires m == ByteLen(fs) - ByteLen(cs) - ls
    ensures (if m % 3 == 0 then 0 else 3 - m % 3) - ls == cs % 4
    ensures ByteLen(fs) % 3 == 0 && ByteLen(fs) * 4 / 3 == fs
  {
    var f, c, r := fs / 4, cs / 4, cs % 4;
    assert ByteLen(fs) == 3 * f;
    assert ByteLen(cs) == 3 * c + r;
    PadOf(m, f - c, r + ls);
  }

  /** The pad of n bytes, so many short of whole triplets. */
  lemma PadOf(n: nat, q: int, short: nat)
    requires n == 3 * q - short && short < 3
    ensures (if n % 3 == 0 then 0 else 3 - n % 3) == short
  {
  }

  /** What an accepted binary form is made of. */
  lemma BinaryTailParts(b: seq<byte>, hard: Code, sz: Xizage)
    requires WellFormedRow(sz) && BinaryTail(b, hard, sz).Ok?
    ensures var p := BinaryTail(b, hard, sz).value;
      var bcs, n := ByteLen(sz.Cs()), ByteLen(FullSize(sz, p.index));
      && bcs + sz.ls <= n <= |b| && |p.raw| == n - bcs - sz.ls
      && b[..n] == CodeB64ToB2(CodeB2ToB64(b, sz.Cs())) + Zeros(sz.ls) + p.raw
      && var r := Fields(hard, sz, CodeB2ToB64(b, sz.Cs()));
        r.Ok? && r.value.0 == p.index && r.value.1 == p.ondex && p.code == hard
  {
    hide CodeB2ToB64;
    hide CodeB64ToB2;
    hide Val;
    hide Fields;
    var p := BinaryTail(b, hard, sz).value;
    var cs, n := sz.Cs(), ByteLen(FullSize(sz, p.index));
    var bcs, u := ByteLen(cs), b[..n];
    OwnBytes(b, cs);
    CodeBytesCanonical(b[..bcs], cs);
    if sz.ls != 0 {
      ZeroLead(u[bcs..bcs + sz.ls]);
    }
    assert u[bcs..bcs + sz.ls] == Zeros(sz.ls);
    assert u[..bcs] == b[..bcs];
    assert u == u[..bcs] + u[bcs..bcs + sz.ls] + p.raw;
  }

  lemma BinaryTailCanonical(b: seq<byte>, hard: Code, sz: Xizage)
    requires Sizes(hard) == Some(sz)
    requires BinaryTail(b, hard, sz).Ok? && CodeB2ToB64(b, sz.Cs())[..sz.hs] == hard
    ensures var p := BinaryTail(b, hard, sz).value; var n := ByteLen(FullSize(sz, p.index));
      n <= |b| && BinfilRow(p, sz) == Ok(b[..n])
  {
    hide Sizes;
    hide IntToB64;
    hide CodeB2ToB64;
    hide CodeB64ToB2;
    hide Val;
    hide BinaryTail;
    hide ByteLen;
    BinaryTailParts(b, hard, sz);
    var p := BinaryTail(b, hard, sz).value;
    FieldsCanonical(hard, sz, CodeB2ToB64(b, sz.Cs()), p.raw);
    hide Fields;
    IndexFitsSoft(sz, p.index);
    BinarySizes(sz.Cs(), sz.ls, FullSize(sz, p.index), |p.raw|);
  }

  /** More bytes behind an accepted binary form change nothing. */
  lemma {:induction false} BinaryExtends(b: seq<byte>, rest: seq<byte>)
    requires Bexfil(b).Ok?
    ensures Bexfil(b + rest) == Bexfil(b)
  {
    hide Sizes;
    hide CodeB2ToB64;
    hide Fields;
    hide BinaryRaw;
    var p := Bexfil(b).value;
    var sz := Sizes(p.code).value;
    CodeExtends(b, rest, 1);
    CodeExtends(b, rest, sz.hs);
    CodeExtends(b, rest, sz.Cs());
    assert (b + rest)[..ByteLen(FullSize(sz, p.index))] == b[..ByteLen(FullSize(sz, p.index))];
  }

  lemma CodeExtends(b: seq<byte>, rest: seq<byte>, l: nat)
    requires ByteLen(l) <= |b|
    ensures CodeB2ToB64(b + rest, l) == CodeB2ToB64(b, l)
  {
    assert (b + rest)[..ByteLen(l)] == b[..ByteLen(l)];
  }

  lemma PlainStart(p: Prim)
    requires Valid(p) && Plain(p.code)
    ensures |Text(p)| % 4 == 0 && Text(p) != [] && Text(p)[0] == p.code[0] && !LeadStart(Text(p))
  {
    hide Sizes;
    hide RawSize;
    var (c, q, ps) := LayoutOf(p);
    PrintedSlices(p, []);
    assert Text(p) + [] == Text(p);
    assert Text(p)[..|p.code|][0] == Text(p)[0];
  }

  lemma AlignedText(t: seq<sextet>)
    requires |t| % 4 == 0
    ensures Aligned(t)
  {
  }

  /** The binary parser undoes the binary printer, whatever follows in the stream. */
  lemma BinaryRoundTrip(p: Prim, rest: seq<byte>)
    requires Valid(p) && Plain(p.code)
    ensures Binfil(p).Ok? && Bexfil(Binfil(p).value + rest) == Ok(p.(ondex := ReadOndex(p)))
  {
    BinaryIsDecodedText(p);
    AlignedText(Text(p));
    hide *;
    PlainStart(p);
    TextRoundTrip(p, []);
    assert Text(p) + [] == Text(p);
    BinaryParseIsTextParse(Text(p));
    BinaryExtends(Decode(Text(p)), rest);
  }

  /** Every proper prefix of one printed text asks for more, and nothing else. */
  lemma {:induction false} TextPrefixIsShort(p: Prim, n: nat)
    requires Valid(p) && Plain(p.code) && n < TextSize(p)
    ensures Exfil(Text(p)[..n]) == Err(ShortageError)
  {
    hide IntToB64;
    hide B64ToInt;
    hide RawSize;
    hide Material;
    hide TextRaw;
    hide Fields;
    var t, sz := Text(p)[..n], Sizes(p.code).value;
    PlainStart(p);
    PrintedSlices(p, []);
    assert Text(p) + [] == Text(p);
    FieldsOfPrinted(p);
    if sz.hs <= n {
      assert t[..sz.hs] == Text(p)[..sz.hs];
      if sz.Cs() <= n {
        assert t[..sz.Cs()] == Text(p)[..sz.Cs()];
      }
    }
  }

  /** So does every proper prefix of one printed binary form. */
  lemma {:induction false} BinaryPrefixIsShort(p: Prim, n: nat)
    requires Valid(p) && Plain(p.code) && |Text(p)| % 4 == 0 && n < |Decode(Text(p))|
    ensures Bexfil(Decode(Text(p))[..n]) == Err(ShortageError)
  {
    hide IntToB64;
    hide B64ToInt;
    hide RawSize;
    hide Material;
    hide BinaryRaw;
    hide Fields;
    hide CodeB2ToB64;
    hide Decode;
    hide Sizes;
    hide Hards;
    hide LeadStart;
    var t, sz := Text(p), Sizes(p.code).value;
    var b := Decode(t)[..n];
    PlainStart(p);
    ByteLenOrder(|t|, |Decode(t)|, |t|);
    assert ByteLen(1) == 1;
    hide ByteLen;
    PrintedSlices(p, []);
    assert t + [] == t;
    FieldsOfPrinted(p);
    if 1 <= n {
      PrefixCode(t, n, 1);
      if ByteLen(sz.hs) <= n {
        PrefixCode(t, n, sz.hs);
        if ByteLen(sz.Cs()) <= n {
          PrefixCode(t, n, sz.Cs());
        }
      }
    }
  }

  lemma PrefixCode(t: seq<sextet>, n: nat, l: nat)
    requires |t| % 4 == 0 && n <= |Decode(t)| && l <= |t| && ByteLen(l) <= n
    ensures CodeB2ToB64(Decode(t)[..n], l) == t[..l]
  {
    assert Decode(t)[..n][..ByteLen(l)] == Decode(t)[..ByteLen(l)];
    SextetsOfDecoded(t, l, Decode(t)[..n]);
  }

  /** The parser returns exactly the primitive printed when it is a signature
      code, and for the one other printable code when its other index is the index. */
  lemma ReadsBackIff(p: Prim)
    requires Valid(p) && Plain(p.code)
    ensures ReadOndex(p) == p.ondex <==> SigCode(p.code) || p.ondex == Some(p.index)
  {
  }
}
