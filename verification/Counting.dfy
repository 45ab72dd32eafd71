/** core/counting.py: the count codes that frame groups, in both domains and in
    both versions of the code table. */
module Counting {
  import opened Radix
  import opened Base64
  import opened Results

  type Code = seq<sextet>

  datatype Version = Version(major: int, minor: int)

  /** hard size, soft size, full size. */
  datatype Cizage = Cizage(hs: nat, ss: nat, fs: nat)

  datatype Ctr = Ctr(code: Code, count: nat)

  /** '-c' is in the table: V1 has A-I, L, T-W and Z; V2 has A-Z and a-c. */
  predicate HasSmall(major: int, c: sextet) {
    if major == 1 then c <= 8 || c == 11 || 19 <= c <= 22 || c == 25 else c <= 28
  }

  /** '--c' is in the table: V1 has L, T-W and Z only. */
  predicate HasBig(major: int, c: sextet) {
    if major == 1 then c == 11 || 19 <= c <= 22 || c == 25 else c <= 28
  }

  /** '-_AAA', the genus version code of both tables. */
  predicate IsGenus(code: Code) {
    |code| == 5 && code[0] == DASH && code[1] == UNDERSCORE && code[2] == code[3] == code[4] == 0
  }

  function Sizes(major: int, code: Code): (sz: Option<Cizage>)
    ensures sz.Some? ==> sz.value.hs == |code| && sz.value.fs == sz.value.hs + sz.value.ss
    ensures sz.Some? ==> (sz.value.fs == 4 || sz.value.fs == 8) && 2 <= |code| && 2 <= sz.value.ss
    ensures sz.Some? ==> Hards(code[0], code[1]) == Some(|code|)
  {
    if |code| == 2 && code[0] == DASH && HasSmall(major, code[1]) then Some(Cizage(2, 2, 4))
    else if |code| == 3 && code[0] == code[1] == DASH && HasBig(major, code[2]) then Some(Cizage(3, 5, 8))
    else if IsGenus(code) then Some(Cizage(5, 3, 8))
    else None
  }

  /** Hard size by the first two characters: '-A'..'-Z', '-a'..'-z', '--', '-_'. */
  function Hards(c0: sextet, c1: sextet): Option<nat> {
    if c0 != DASH then None
    else if c1 < 52 then Some(2)
    else if c1 == DASH then Some(3)
    else if c1 == UNDERSCORE then Some(5)
    else None
  }

  predicate Supported(v: Version) { (v.major == 1 || v.major == 2) && v.minor <= 0 }

  /** "count > 64 ** ss - 1" fails. */
  predicate Fits(count: int, ss: nat) { 0 <= count < Pow(B64, ss) }

  /** The code to use for a count: a small code that cannot hold it is elevated. */
  function Promote(code: Code, count: int): Code
    requires 2 <= |code|
  {
    if code[1] < 52 && count > 64 * 64 - 1 then [DASH, DASH, code[1]] else code
  }

  /** Counter.__init__ from a code and a count.  The elevated code is looked up
      among the names of its version last of all. */
  function Init(v: Version, code: Code, count: int): Result<Ctr> {
    if !Supported(v) then Err(InvalidVersionError) else
    if Sizes(v.major, code).None? then Err(InvalidCodeError) else
    var code' := Promote(code, count);
    var ss := if code' == code then Sizes(v.major, code).value.ss else 5;
    if !Fits(count, ss) then Err(InvalidVarIndexError) else
    if Sizes(v.major, code').None? then Err(KeyError) else
    Ok(Ctr(code', count))
  }

  /** Counter._infil */
  function Infil(major: int, c: Ctr): Result<seq<sextet>> {
    if Sizes(major, c.code).None? then Err(KeyError) else
    var ss := Sizes(major, c.code).value.ss;
    if !Fits(c.count, ss) then Err(InvalidVarIndexError) else
    var both := c.code + IntToB64(c.count, ss);
    if |both| % 4 != 0 then Err(InvalidCodeSizeError) else
    Ok(both)
  }

  /** Counter._binfil */
  function Binfil(major: int, c: Ctr): Result<seq<byte>> {
    if Sizes(major, c.code).None? then Err(KeyError) else
    var sz := Sizes(major, c.code).value;
    if !Fits(c.count, sz.ss) then Err(InvalidVarIndexError) else
    var both := c.code + IntToB64(c.count, sz.ss);
    if |both| != sz.fs then Err(InvalidCodeSizeError) else
    Ok(CodeB64ToB2(both))
  }

  /** Counter._exfil */
  function Exfil(major: int, t: seq<sextet>): Result<Ctr> {
    if |t| < 2 then Err(ShortageError) else
    if Hards(t[0], t[1]).None? then
      Err(if t[0] == UNDERSCORE then UnexpectedOpCodeError else UnexpectedCodeError)
    else
    var hs := Hards(t[0], t[1]).value;
    if |t| < hs then Err(ShortageError) else
    var hard := t[..hs];
    if Sizes(major, hard).None? then Err(UnexpectedCodeError) else
    var fs := Sizes(major, hard).value.fs;
    if |t| < fs then Err(ShortageError) else
    Ok(Ctr(hard, B64ToInt(t[hs..fs])))
  }

  /** Counter._bexfil.  Its test for an op code start compares a byte value with
      a byte string, so it never holds. */
  function Bexfil(major: int, b: seq<byte>): Result<Ctr> {
    if |b| < 2 then Err(ShortageError) else
    var first := CodeB2ToB64(b, 2);
    if Hards(first[0], first[1]).None? then Err(UnexpectedCodeError) else
    var hs := Hards(first[0], first[1]).value;
    if |b| < ByteLen(hs) then Err(ShortageError) else
    var hard := CodeB2ToB64(b, hs);
    if Sizes(major, hard).None? then Err(UnexpectedCodeError) else
    var fs := Sizes(major, hard).value.fs;
    if |b| < ByteLen(fs) then Err(ShortageError) else
    Ok(Ctr(hard, B64ToInt(CodeB2ToB64(b, fs)[hs..fs])))
  }

  /** The domain of a stream, Colds.txt or Colds.bny. */
  datatype Cold = Txt | Bny

  /** Counter.byteCount: the bytes of the framed material. */
  function ByteCount(c: Ctr, cold: Cold): nat {
    match cold case Txt => c.count * 4 case Bny => c.count * 3
  }

  /** Counter.byteSize: the bytes of the counter itself. */
  function ByteSize(major: int, c: Ctr, cold: Cold): nat
    requires Sizes(major, c.code).Some?
  {
    var fs := Sizes(major, c.code).value.fs;
    match cold case Txt => fs case Bny => fs / 4 * 3
  }

  /** QTDex_1_0: the V1 codes that count quadlets. */
  predicate CountsQuadlets1(code: Code) {
    || (|code| == 2 && code[0] == DASH && HasBig(1, code[1]))
    || (|code| == 3 && code[0] == code[1] == DASH && HasBig(1, code[2]))
  }

  /** Counter.enclose in the text domain. */
  function EncloseText(v: Version, code: Code, t: seq<sextet>): Result<seq<sextet>> {
    if |t| % 4 != 0 then Err(ValueError) else
    var c :- Init(v, code, |t| / 4);
    if v.major < 2 && !CountsQuadlets1(c.code) then Err(ValueError) else
    var head :- Infil(v.major, c);
    Ok(head + t)
  }

  /** Counter.enclose in the binary domain. */
  function EncloseBinary(v: Version, code: Code, b: seq<byte>): Result<seq<byte>> {
    if |b| % 3 != 0 then Err(ValueError) else
    var c :- Init(v, code, |b| / 3);
    if v.major < 2 && !CountsQuadlets1(c.code) then Err(ValueError) else
    var head :- Binfil(v.major, c);
    Ok(head + b)
  }

  /** Counter.verToB64 from major and minor. */
  function VerToB64(major: int, minor: int): Result<seq<sextet>> {
    if major < 0 || major > 63 || minor < 0 || minor > 4095 then Err(ValueError)
    else Ok(IntToB64(major, 1) + IntToB64(minor, 2))
  }

  /** Counter.b64ToVer: the first character and the two after it. */
  function B64ToVer(t: seq<sextet>): Result<Version> {
    if t == [] then Err(IndexError)
    else if |t| == 1 then Err(ValueError)
    else Ok(Version(B64ToInt(t[..1]), B64ToInt(if |t| == 2 then t[1..] else t[1..3])))
  }
}
