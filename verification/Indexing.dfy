/** core/indexing.py: the indexed signature codes, and the four converters
    between a primitive and its text and binary forms. */
module Indexing {
  import opened Radix
  import opened Base64
  import opened Results

  /** hard size, soft size, other-index size, full size, lead size. */
  datatype Xizage = Xizage(hs: nat, ss: nat, os: nat, fs: Option<nat>, ls: nat) {
    function Cs(): nat { hs + ss }

    function Ms(): nat
      requires os <= ss
    {
      ss - os
    }
  }

  type Code = seq<sextet>

  /** Hard size by first character: letters 1, '0' to '4' 2. */
  function Hards(first: sextet): Option<nat> {
    if first < 52 then Some(1) else if first <= 56 then Some(2) else None
  }

  /** The size table.  'A'..'F'; '0A','0B'; '2A'..'2F'; '3A','3B'; '0z'; '1z'; '4z'. */
  function Sizes(code: Code): (sz: Option<Xizage>)
    ensures sz.Some? ==> WellFormedRow(sz.value)
    ensures sz.Some? ==> code != [] && sz.value.hs == |code| && Hards(code[0]) == Some(|code|)
  {
    if |code| == 1 && code[0] <= 5 then Some(Xizage(1, 1, 0, Some(88), 0))
    else if |code| != 2 then None
    else if code[0] == 52 && code[1] <= 1 then Some(Xizage(2, 2, 1, Some(156), 0))
    else if code[0] == 54 && code[1] <= 5 then Some(Xizage(2, 4, 2, Some(92), 0))
    else if code[0] == 55 && code[1] <= 1 then Some(Xizage(2, 6, 3, Some(160), 0))
    else if code[0] == 52 && code[1] == 51 then Some(Xizage(2, 2, 0, None, 0))
    else if code[0] == 53 && code[1] == 51 then Some(Xizage(2, 2, 1, Some(76), 1))
    else if code[0] == 56 && code[1] == 51 then Some(Xizage(2, 6, 3, Some(80), 1))
    else None
  }

  /** What the converters assume of every row of the table. */
  predicate WellFormedRow(sz: Xizage) {
    && 1 <= sz.hs && sz.os < sz.ss
    && (sz.Cs() % 4 == 0 || sz.Cs() % 4 == 2)
    && (sz.ls == 0 || (sz.ls == 1 && sz.Cs() % 4 == 0 && sz.fs.Some?))
    && match sz.fs
       case None => sz.Cs() % 4 == 0 && sz.os == 0
       case Some(fs) => fs % 4 == 0 && sz.Cs() + 4 <= fs
  }

  /** IdxCrtSigDex: the signature is for the current list only. */
  predicate CurrentOnly(code: Code) {
    SigCode(code) && code[|code| - 1] % 2 == 1
  }

  /** IdxBthSigDex: the signature is for both lists. */
  predicate BothLists(code: Code) {
    SigCode(code) && code[|code| - 1] % 2 == 0
  }

  /** IdxSigDex: 'A'..'F', '0A', '0B', '2A'..'2F', '3A', '3B'. */
  predicate SigCode(code: Code) {
    || (|code| == 1 && code[0] <= 5)
    || (|code| == 2 && ((code[0] == 52 || code[0] == 55) && code[1] <= 1))
    || (|code| == 2 && code[0] == 54 && code[1] <= 5)
  }

  datatype Prim = Prim(code: Code, index: nat, ondex: Option<int>, raw: seq<byte>)

  /** fs, or for the variable-length row what the index says.  The source's own
      tests of that row (no pad, no other index) are WellFormedRow, so hold. */
  function FullSize(sz: Xizage, index: nat): (fs: nat)
    requires WellFormedRow(sz)
    ensures fs % 4 == 0 && sz.Cs() + 4 * sz.ls <= fs
  {
    if sz.fs.Some? then sz.fs.value else Quadlets(index, sz.Cs()); index * 4 + sz.Cs()
  }

  lemma Quadlets(index: nat, cs: nat)
    requires cs % 4 == 0
    ensures (index * 4 + cs) % 4 == 0
  {
  }

  /** The raw size that __init__ takes, lead bytes not subtracted. */
  function RawSize(sz: Xizage, index: nat): nat
    requires WellFormedRow(sz)
  {
    (FullSize(sz, index) - sz.Cs()) * 3 / 4
  }

  /** "index > 64 ** n - 1" fails. */
  predicate Fits(i: int, n: nat) { 0 <= i < Pow(B64, n) }

  /** Indexer.__init__ from raw material. */
  function Init(raw: seq<byte>, code: Code, index: int, ondex: Option<int>): Result<Prim> {
    if code == [] then Err(EmptyMaterialError) else
    if Sizes(code).None? then Err(UnexpectedCodeError) else
    var sz := Sizes(code).value;
    if !Fits(index, sz.Ms()) then Err(InvalidVarIndexError) else
    if ondex.Some? && sz.os != 0 && !Fits(ondex.value, sz.os) then Err(InvalidVarIndexError) else
    if CurrentOnly(code) && ondex.Some? then Err(InvalidVarIndexError) else
    if BothLists(code) && ondex.Some? && ondex.value != index && sz.os == 0 then Err(InvalidVarIndexError) else
    var ondex' := if BothLists(code) && ondex.None? then Some(index) else ondex;
    var rawsize := RawSize(sz, index);
    if |raw| < rawsize then Err(RawMaterialError) else
    Ok(Prim(code, index, ondex', raw[..rawsize]))
  }

  /** The whole code: hard part, index, other index ("A"s when None). */
  function Both(p: Prim, sz: Xizage): Code
    requires sz.os <= sz.ss
    requires p.ondex.Some? && sz.os != 0 ==> 0 <= p.ondex.value
  {
    p.code + IntToB64(p.index, sz.Ms())
    + IntToB64(if p.ondex.Some? && sz.os != 0 then p.ondex.value else 0, sz.os)
  }

  function PadSize(raw: seq<byte>): (ps: nat)
    ensures ps < 3 && (ps + |raw|) % 3 == 0
  {
    if |raw| % 3 == 0 then 0 else 3 - |raw| % 3
  }

  /** Indexer._infil, once it has the row of its code. */
  function InfilRow(p: Prim, sz: Xizage): Result<seq<sextet>>
    requires WellFormedRow(sz)
  {
    var ps := PadSize(p.raw);
    var cs := sz.Cs();
    var fs := FullSize(sz, p.index);
    if !Fits(p.index, sz.Ms()) then Err(InvalidVarIndexError) else
    if p.ondex.Some? && sz.os != 0 && !Fits(p.ondex.value, sz.os) then Err(InvalidVarIndexError) else
    var both := Both(p, sz);
    if |both| != cs then Err(InvalidCodeSizeError) else
    if cs % 4 != ps - sz.ls then Err(InvalidCodeSizeError) else
    var full := both + Encode(Zeros(ps) + p.raw)[ps - sz.ls..];
    if |full| != fs then Err(InvalidCodeSizeError) else
    Ok(full)
  }

  /** Indexer._infil */
  function Infil(p: Prim): Result<seq<sextet>> {
    if Sizes(p.code).None? then Err(KeyError) else InfilRow(p, Sizes(p.code).value)
  }

  /** Indexer._binfil, once it has the row of its code; its index check is
      against the whole soft size. */
  function BinfilRow(p: Prim, sz: Xizage): Result<seq<byte>>
    requires WellFormedRow(sz)
  {
    var ps := PadSize(p.raw);
    var cs := sz.Cs();
    if !Fits(p.index, sz.ss) then Err(InvalidVarIndexError) else
    if p.ondex.Some? && sz.os != 0 && !Fits(p.ondex.value, sz.os) then Err(InvalidVarIndexError) else
    var fs := FullSize(sz, p.index);
    var both := Both(p, sz);
    if |both| != cs then Err(InvalidCodeSizeError) else
    if cs % 4 != ps - sz.ls then Err(InvalidCodeSizeError) else
    var full := CodeB64ToB2(both) + Zeros(sz.ls) + p.raw;
    if |full| % 3 != 0 || |full| * 4 / 3 != fs then Err(InvalidCodeSizeError) else
    Ok(full)
  }

  /** Indexer._binfil */
  function Binfil(p: Prim): Result<seq<byte>> {
    if Sizes(p.code).None? then Err(KeyError) else BinfilRow(p, Sizes(p.code).value)
  }

  /** The other index read from a code: zero and then None for a current-only
      code, the index itself when the code has no room for another. */
  function ParseOndex(code: Code, index: nat, other: seq<sextet>): Result<Option<int>> {
    if CurrentOnly(code) then
      if other != [] && B64ToInt(other) != 0 then Err(ValueError) else Ok(None)
    else
      Ok(Some(if other != [] then B64ToInt(other) else index))
  }

  /** Index and other index of a whole code. */
  function Fields(hard: Code, sz: Xizage, both: Code): Result<(nat, Option<int>)>
    requires WellFormedRow(sz) && |both| == sz.Cs()
  {
    var m := sz.hs + sz.Ms();
    var index := B64ToInt(both[sz.hs..m]);
    var ondex :- ParseOndex(hard, index, both[m..]);
    Ok((index, ondex))
  }

  /** i & (2 ** (2 * ps) - 1) */
  function PadBits(i: nat, ps: nat): nat
    requires ps < 4
  {
    if ps == 0 then 0 else if ps == 1 then i % 4 else if ps == 2 then i % 16 else i % 64
  }

  /** The raw bytes of a cut-out text: pad bits and lead bytes must be zero. */
  function TextRaw(t: seq<sextet>, cs: nat, ls: nat): Result<seq<byte>>
    requires cs + 4 * ls <= |t| && |t| % 4 == 0 && (cs % 4 == 0 || ls == 0)
  {
    var ps := cs % 4;
    if ps != 0 then
      var paw := Decode(Zeros(ps) + t[cs..]);
      if PadBits(Val(B256, paw[..ps]), ps) != 0 then Err(ValueError) else
      if |paw[ps..]| != (|t| - cs) * 3 / 4 then Err(ConversionError) else Ok(paw[ps..])
    else
      var paw := Decode(t[cs..]);
      if Val(B256, paw[..ls]) != 0 then Err(ValueError) else
      if |paw[ls..]| != (|t| - cs) * 3 / 4 then Err(ConversionError) else Ok(paw[ls..])
  }

  /** Indexer._exfil, once it has the row of its hard code. */
  function TextTail(t: seq<sextet>, hard: Code, sz: Xizage): Result<Prim>
    requires WellFormedRow(sz)
  {
    var cs := sz.Cs();
    if |t| < cs then Err(ShortageError) else
    var (index, ondex) :- Fields(hard, sz, t[..cs]);
    var fs := FullSize(sz, index);
    if |t| < fs then Err(ShortageError) else
    var raw :- TextRaw(t[..fs], cs, sz.ls);
    Ok(Prim(hard, index, ondex, raw))
  }

  /** Indexer._exfil */
  function Exfil(t: seq<sextet>): Result<Prim> {
    if t == [] then Err(ShortageError) else
    if Hards(t[0]).None? then
      Err(if t[0] == DASH then UnexpectedCountCodeError
          else if t[0] == UNDERSCORE then UnexpectedOpCodeError
          else UnexpectedCodeError)
    else
    var hs := Hards(t[0]).value;
    if |t| < hs then Err(ShortageError) else
    if Sizes(t[..hs]).None? then Err(UnexpectedCodeError) else
    TextTail(t, t[..hs], Sizes(t[..hs]).value)
  }

  /** The raw bytes of a cut-out binary form. */
  function BinaryRaw(b: seq<byte>, cs: nat, ls: nat): Result<seq<byte>>
    requires ByteLen(cs) + ls <= |b| && 0 < cs
  {
    var ps, bcs := cs % 4, ByteLen(cs);
    if ps != 0 then
      if PadBits(b[bcs - 1], ps) != 0 then Err(ValueError) else Ok(b[bcs + ls..])
    else
      if Val(B256, b[bcs..bcs + ls]) != 0 then Err(ValueError) else Ok(b[bcs + ls..])
  }

  /** Indexer._bexfil, once it has the row of its hard code. */
  function BinaryTail(b: seq<byte>, hard: Code, sz: Xizage): Result<Prim>
    requires WellFormedRow(sz)
  {
    var cs := sz.Cs();
    if |b| < ByteLen(cs) then Err(ShortageError) else
    var (index, ondex) :- Fields(hard, sz, CodeB2ToB64(b, cs));
    var fs := FullSize(sz, index);
    if |b| < ByteLen(fs) then Err(ShortageError) else
    var raw :- BinaryRaw(b[..ByteLen(fs)], cs, sz.ls);
    Ok(Prim(hard, index, ondex, raw))
  }

  /** Indexer._bexfil.  Its tests for a count or op code start compare a byte
      value with a byte string, so they never hold. */
  function Bexfil(b: seq<byte>): Result<Prim> {
    if b == [] then Err(ShortageError) else
    var first := CodeB2ToB64(b, 1)[0];
    if Hards(first).None? then Err(UnexpectedCodeError) else
    var hs := Hards(first).value;
    if |b| < ByteLen(hs) then Err(ShortageError) else
    var hard := CodeB2ToB64(b, hs);
    if Sizes(hard).None? then Err(UnexpectedCodeError) else
    BinaryTail(b, hard, Sizes(hard).value)
  }
}
