/** What core/counting.py promises of counters. */
module CountingLaws {
  import opened Radix
  import opened Base64
  import opened Results
  import opened Counting

  /** A counter as Counter.__init__ leaves it. */
  ghost predicate Valid(major: int, c: Ctr) {
    Sizes(major, c.code).Some? && Fits(c.count, Sizes(major, c.code).value.ss)
  }

  ghost function Text(major: int, c: Ctr): (t: seq<sextet>)
    requires Valid(major, c)
    ensures |t| == Sizes(major, c.code).value.fs && |t| % 4 == 0
    ensures t[..|c.code|] == c.code && B64ToInt(t[|c.code|..]) == c.count
  {
    var ss := Sizes(major, c.code).value.ss;
    WidthFits(B64, c.count, ss);
    WrittenVal(B64, c.count, ss);
    c.code + IntToB64(c.count, ss)
  }

  lemma InitValid(v: Version, code: Code, count: int)
    requires Init(v, code, count).Ok?
    ensures Valid(v.major, Init(v, code, count).value)
  {
  }

  /** Both printers succeed, and the binary form is the decoding of the text form. */
  lemma Prints(major: int, c: Ctr)
    requires Valid(major, c)
    ensures Infil(major, c) == Ok(Text(major, c))
    ensures Binfil(major, c) == Ok(Decode(Text(major, c)))
  {
    CodeIsDecode(Text(major, c));
  }

  lemma {:induction false} CodeIsDecode(t: seq<sextet>)
    requires |t| % 4 == 0
    ensures CodeB64ToB2(t) == Decode(t)
  {
    hide Val;
    hide Decode;
    hide CodeB64ToB2;
    CodeVal(t);
    DecodeVal(t);
    assert 4 * ByteLen(|t|) == 3 * |t|;
    ValInjective(B256, CodeB64ToB2(t), Decode(t));
  }

  /** The parser undoes the printer, whatever follows in the stream. */
  lemma TextRoundTrip(major: int, c: Ctr, rest: seq<sextet>)
    requires Valid(major, c)
    ensures Exfil(major, Text(major, c) + rest) == Ok(c)
  {
    hide B64ToInt;
    hide IntToB64;
    var t := Text(major, c) + rest;
    var hs, fs := |c.code|, |Text(major, c)|;
    assert t[..hs] == Text(major, c)[..hs] && t[hs..fs] == Text(major, c)[hs..];
    assert t[0] == t[..hs][0] && t[1] == t[..hs][1];
  }

  /** Counter parsing is canonical. */
  lemma TextCanonical(major: int, t: seq<sextet>)
    requires Exfil(major, t).Ok?
    ensures var c := Exfil(major, t).value;
      Valid(major, c) && |Text(major, c)| <= |t| && t[..|Text(major, c)|] == Text(major, c)
  {
    var c := Exfil(major, t).value;
    var hs, fs := |c.code|, Sizes(major, c.code).value.fs;
    ValBound(B64, t[hs..fs]);
    B64RoundTrip(t[hs..fs]);
    assert t[..fs] == t[..hs] + t[hs..fs];
  }

  /** The error a binary parse gives where the text parse gives e. */
  function BinaryError(e: Error): Error {
    if e == UnexpectedOpCodeError then UnexpectedCodeError else e
  }

  /** Parsing the decoding of a text gives what parsing the text gives, errors included. */
  lemma {:induction false} BinaryParseIsTextParse(major: int, t: seq<sextet>)
    requires |t| % 4 == 0
    ensures Bexfil(major, Decode(t)) ==
      match Exfil(major, t) case Ok(c) => Ok(c) case Err(e) => Err(BinaryError(e))
  {
    hide Decode;
    hide CodeB2ToB64;
    hide B64ToInt;
    hide Sizes;
    var b := Decode(t);
    if t != [] {
      SextetsOfDecoded(t, 2, b);
      assert t[..2][0] == t[0] && t[..2][1] == t[1];
      if Hards(t[0], t[1]).Some? {
        var hs := Hards(t[0], t[1]).value;
        if hs <= |t| {
          SextetsOfDecoded(t, hs, b);
          if Sizes(major, t[..hs]).Some? && Sizes(major, t[..hs]).value.fs <= |t| {
            var fs := Sizes(major, t[..hs]).value.fs;
            SextetsOfDecoded(t, fs, b);
            assert t[..fs][hs..fs] == t[hs..fs];
          }
        }
      }
    }
  }

  /** The binary parser undoes the binary printer, whatever follows in the stream. */
  lemma BinaryRoundTrip(major: int, c: Ctr, rest: seq<byte>)
    requires Valid(major, c)
    ensures Bexfil(major, Decode(Text(major, c)) + rest) == Ok(c)
  {
    hide Text;
    hide Decode;
    hide CodeB2ToB64;
    hide B64ToInt;
    var t := Text(major, c);
    var b := Decode(t) + rest;
    PrefixOfDecoded(t, rest, 2);
    PrefixOfDecoded(t, rest, |c.code|);
    PrefixOfDecoded(t, rest, |t|);
    assert t[..2] == t[..|c.code|][..2];
    assert t[..|t|] == t;
  }

  lemma {:induction false} PrefixOfDecoded(t: seq<sextet>, rest: seq<byte>, l: nat)
    requires |t| % 4 == 0 && l <= |t|
    ensures ByteLen(l) <= |Decode(t)| && CodeB2ToB64(Decode(t) + rest, l) == t[..l]
  {
    var b := Decode(t) + rest;
    assert b[..ByteLen(l)] == Decode(t)[..ByteLen(l)];
    SextetsOfDecoded(t, l, b);
  }

  /** Binary counter parsing is canonical too. */
  lemma BinaryCanonical(major: int, b: seq<byte>)
    requires Bexfil(major, b).Ok?
    ensures var c := Bexfil(major, b).value;
      && Valid(major, c) && ByteSize(major, c, Bny) == |Decode(Text(major, c))| <= |b|
      && b[..ByteSize(major, c, Bny)] == Decode(Text(major, c))
  {
    hide Decode;
    hide Encode;
    hide B64ToInt;
    hide CodeB2ToB64;
    var c := Bexfil(major, b).value;
    var fs := Sizes(major, c.code).value.fs;
    var d := b[..ByteLen(fs)];
    DecodeEncode(d);
    var t := Encode(d);
    SextetsOfDecoded(t, 2, b);
    SextetsOfDecoded(t, |c.code|, b);
    SextetsOfDecoded(t, fs, b);
    assert t[..fs] == t && t[..2][0] == t[0] && t[..2][1] == t[1];
    TextCanonical(major, t);
  }

  /** Bytes of any length are accepted just when the text of their whole triplets is,
      and give the same counter. */
  lemma BinaryAccepts(major: int, b: seq<byte>, c: Ctr)
    ensures var whole := b[..|b| - |b| % 3]; Bexfil(major, b) == Ok(c) <==> Exfil(major, Encode(whole)) == Ok(c)
  {
    hide Bexfil;
    hide Exfil;
    hide Text;
    hide Decode;
    hide Encode;
    var whole := b[..|b| - |b| % 3];
    DecodeEncode(whole);
    BinaryParseIsTextParse(major, Encode(whole));
    if Bexfil(major, b) == Ok(c) {
      BinaryCanonical(major, b);
      var n := ByteSize(major, c, Bny);
      WholeTriplets(|Text(major, c)|, n, |b|);
      assert whole == Decode(Text(major, c)) + whole[n..];
      BinaryRoundTrip(major, c, whole[n..]);
    }
    if Bexfil(major, whole) == Ok(c) {
      BinaryCanonical(major, whole);
      var n := ByteSize(major, c, Bny);
      assert b == Decode(Text(major, c)) + b[n..];
      BinaryRoundTrip(major, c, b[n..]);
    }
  }

  lemma WholeTriplets(l: nat, n: nat, size: nat)
    requires l % 4 == 0 && 4 * n == 3 * l && n <= size
    ensures n <= size - size % 3
  {
  }

  /** A V2 count code takes every count below 64 ** 5, and is elevated to its
      big form exactly when the count is above 4095. */
  lemma V2Construction(c: sextet, count: int)
    requires HasSmall(2, c)
    ensures Init(Version(2, 0), [DASH, c], count).Ok? <==> 0 <= count < 0x4000_0000
    ensures 0 <= count < 0x4000_0000 ==>
      Init(Version(2, 0), [DASH, c], count) == Ok(Ctr(if count <= 4095 then [DASH, c] else [DASH, DASH, c], count))
    ensures Init(Version(2, 0), [DASH, DASH, c], count) ==
      if 0 <= count < 0x4000_0000 then Ok(Ctr([DASH, DASH, c], count)) else Err(InvalidVarIndexError)
  {
    CountBounds();
  }

  lemma CountBounds()
    ensures Pow(B64, 2) == 4096 && Pow(B64, 3) == 0x4_0000 && Pow(B64, 5) == 0x4000_0000
  {
    SmallShifts(1);
    assert Pow(B64, 4) == Up(B64, Pow(B64, 3), 0);
  }

  /** The V1 table lacks most big codes: a small code above 4095 is then a
      KeyError, not a counter.  A small V1 code takes every count below 64 ** 5
      exactly when its big form is in the table, and otherwise counts to 4095. */
  lemma V1Construction(c: sextet, count: int)
    requires HasSmall(1, c)
    ensures Init(Version(1, 0), [DASH, c], count).Ok? <==>
      0 <= count <= 4095 || (4095 < count < 0x4000_0000 && HasBig(1, c))
    ensures 4095 < count < 0x4000_0000 && !HasBig(1, c) ==> Init(Version(1, 0), [DASH, c], count) == Err(KeyError)
  {
    CountBounds();
  }

  /** The genus version code counts to 64 ** 3 - 1 and is never elevated. */
  lemma GenusConstruction(v: Version, count: int)
    requires Supported(v)
    ensures var code := [DASH, UNDERSCORE, 0, 0, 0];
      Init(v, code, count) ==
        if 0 <= count < 0x4_0000 then Ok(Ctr(code, count)) else Err(InvalidVarIndexError)
  {
    CountBounds();
  }

  /** For one code given, different counts print differently, elevated or not. */
  lemma PrintedCountIsInjective(v: Version, code: Code, m: int, n: int)
    requires Init(v, code, m).Ok? && Init(v, code, n).Ok?
    requires Infil(v.major, Init(v, code, m).value) == Infil(v.major, Init(v, code, n).value)
    ensures m == n
  {
    InitCount(v, code, m);
    InitCount(v, code, n);
    hide *;
    InitValid(v, code, m);
    InitValid(v, code, n);
    Prints(v.major, Init(v, code, m).value);
    Prints(v.major, Init(v, code, n).value);
    TextRoundTrip(v.major, Init(v, code, m).value, []);
    TextRoundTrip(v.major, Init(v, code, n).value, []);
  }

  lemma InitCount(v: Version, code: Code, m: int)
    requires Init(v, code, m).Ok?
    ensures Init(v, code, m).value.count == m
  {
  }

  lemma WrittenSize(v: nat, l: nat)
    requires 1 <= l && v < Pow(B64, l)
    ensures |Written(B64, v, l)| == l
  {
    WidthFits(B64, v, l);
  }

  /** b64ToVer inverts verToB64 on every version it accepts, and verToB64
      inverts b64ToVer on every three characters. */
  lemma VersionRoundTrip(major: int, minor: int)
    ensures VerToB64(major, minor) ==
      if 0 <= major < 64 && 0 <= minor < 4096 then Ok(IntToB64(major, 1) + IntToB64(minor, 2)) else Err(ValueError)
    ensures VerToB64(major, minor).Ok? ==>
      |VerToB64(major, minor).value| == 3 && B64ToVer(VerToB64(major, minor).value) == Ok(Version(major, minor))
  {
    hide Val;
    hide Written;
    if VerToB64(major, minor).Ok? {
      SmallShifts(1);
      WrittenSize(major, 1);
      WrittenSize(minor, 2);
      WrittenVal(B64, major, 1);
      WrittenVal(B64, minor, 2);
      var t := VerToB64(major, minor).value;
      assert t[..1] == IntToB64(major, 1) && t[1..3] == IntToB64(minor, 2);
    }
  }

  lemma VersionCanonical(t: seq<sextet>)
    requires |t| == 3
    ensures B64ToVer(t).Ok? && VerToB64(B64ToVer(t).value.major, B64ToVer(t).value.minor) == Ok(t)
  {
    hide Val;
    hide Written;
    SmallShifts(1);
    ValBound(B64, t[..1]);
    ValBound(B64, t[1..3]);
    B64RoundTrip(t[..1]);
    B64RoundTrip(t[1..3]);
    assert t == t[..1] + t[1..3];
  }
}
