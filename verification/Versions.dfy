/** kering.py: the two version-string grammars, their printers and parsers, and
    the search for a version string near the start of a message. */
module Versions {
  import opened Radix
  import opened Base64
  import opened Results

  /** Characters of Base64 and of lower-case hexadecimal, by value. */
  function B64Chr(d: sextet): (c: char)
    ensures IsB64(c) && B64Idx(c) == d
  {
    if d < 26 then 'A' + d as char
    else if d < 52 then 'a' + (d - 26) as char
    else if d < 62 then '0' + (d - 52) as char
    else if d == 62 then '-' else '_'
  }

  /** Sextets as characters. */
  function Chars(t: seq<sextet>): (s: string)
    ensures |s| == |t|
  {
    seq(|t|, i requires 0 <= i < |t| => B64Chr(t[i]))
  }

  predicate IsUpper(c: char) { 'A' <= c <= 'Z' }

  predicate IsHex(c: char) { '0' <= c <= '9' || 'a' <= c <= 'f' }

  predicate IsB64(c: char) { IsUpper(c) || 'a' <= c <= 'z' || '0' <= c <= '9' || c == '-' || c == '_' }

  function B64Idx(c: char): (d: sextet)
    requires IsB64(c)
  {
    if IsUpper(c) then (c - 'A') as int
    else if 'a' <= c <= 'z' then (c - 'a') as int + 26
    else if '0' <= c <= '9' then (c - '0') as int + 52
    else if c == '-' then 62 else 63
  }

  type nibble = d: nat | d < 16

  function HexChr(d: nibble): (c: char)
    ensures IsHex(c) && HexIdx(c) == d
  {
    if d < 10 then '0' + d as char else 'a' + (d - 10) as char
  }

  function HexIdx(c: char): nibble
    requires IsHex(c)
  {
    if '0' <= c <= '9' then (c - '0') as int else (c - 'a') as int + 10
  }

  predicate AllUpper(s: string) { forall i | 0 <= i < |s| :: IsUpper(s[i]) }

  predicate AllHex(s: string) { forall i | 0 <= i < |s| :: IsHex(s[i]) }

  predicate AllB64(s: string) { forall i | 0 <= i < |s| :: IsB64(s[i]) }

  /** "{:0lx}" */
  function HexStr(v: nat, l: nat): (s: string)
    ensures AllHex(s) && l <= |s| && |s| == Max(l, Width(B16, v))
  {
    var d: seq<nibble> := Written(B16, v, l);
    seq(|d|, i requires 0 <= i < |d| => HexChr(d[i]))
  }

  /** int(s, 16) */
  function HexVal(s: string): nat
    requires AllHex(s)
  {
    Val(B16, seq(|s|, i requires 0 <= i < |s| => HexIdx(s[i])))
  }

  /** intToB64(v, l) for l > 0, as characters */
  function B64Str(v: nat, l: nat): (s: string)
    ensures AllB64(s) && l <= |s| && |s| == Max(l, Width(B64, v))
  {
    var d: seq<sextet> := Written(B64, v, l);
    seq(|d|, i requires 0 <= i < |d| => B64Chr(d[i]))
  }

  function B64Val(s: string): nat
    requires AllB64(s)
  {
    Val(B64, seq(|s|, i requires 0 <= i < |s| => B64Idx(s[i])))
  }

  datatype Vrsn = Vrsn(major: nat, minor: nat)

  datatype Smellage = Smellage(proto: string, pvrsn: Vrsn, kind: string, size: nat, gvrsn: Option<Vrsn>)

  predicate IsProtocol(s: string) { s == "KERI" || s == "ACDC" }

  predicate IsKind(s: string) { s == "JSON" || s == "MGPK" || s == "CBOR" || s == "CESR" }

  const SPAN1: nat := 17
  const SPAN2: nat := 19
  const MAXVSOFFSET: nat := 8
  const SMELLSIZE: nat := 27

  function Versify(m: Smellage): Result<string> {
    if !IsProtocol(m.proto) then Err(ProtocolError) else
    if !IsKind(m.kind) then Err(KindError) else
    if m.pvrsn.major < 2 then
      if m.gvrsn.Some? then Err(VersionError) else
      if m.kind == "CESR" then Err(KindError) else
      Ok(Text1(m.proto, m.pvrsn, m.kind, m.size))
    else if m.pvrsn.major == 2 then
      var g := if m.gvrsn.Some? then m.gvrsn.value else m.pvrsn;
      if g.major != 2 then Err(VersionError) else
      Ok(Text2(m.proto, m.pvrsn, g, m.kind, m.size))
    else Err(VersionError)
  }

  function Text1(proto: string, v: Vrsn, kind: string, size: nat): string {
    proto + HexStr(v.major, 1) + HexStr(v.minor, 1) + kind + HexStr(size, 6) + "_"
  }

  function Text2(proto: string, v: Vrsn, g: Vrsn, kind: string, size: nat): string {
    proto + B64Str(v.major, 1) + B64Str(v.minor, 2) + B64Str(g.major, 1) + B64Str(g.minor, 2)
    + kind + B64Str(size, 4) + "."
  }

  /** VEREX1 matches s. */
  predicate Match1(s: string) {
    && SPAN1 <= |s|
    && AllUpper(s[..4]) && AllHex(s[4..5]) && AllHex(s[5..6]) && AllUpper(s[6..10]) && AllHex(s[10..16]) && s[16] == '_'
  }

  /** VEREX2 matches s. */
  predicate Match2(s: string) {
    && SPAN2 <= |s|
    && AllUpper(s[..4]) && AllB64(s[4..5]) && AllB64(s[5..7]) && AllB64(s[7..8]) && AllB64(s[8..10])
    && AllUpper(s[10..14]) && AllB64(s[14..18]) && s[18] == '.'
  }

  /** rematch of a version 1 match. */
  function Rematch1(s: string): Result<Smellage>
    requires Match1(s)
  {
    var proto, kind := s[..4], s[6..10];
    var v := Vrsn(HexVal(s[4..5]), HexVal(s[5..6]));
    if !IsProtocol(proto) then Err(ProtocolError) else
    if v.major > 1 then Err(VersionError) else
    if !IsKind(kind) then Err(KindError) else
    if kind == "CESR" then Err(KindError) else
    Ok(Smellage(proto, v, kind, HexVal(s[10..16]), None))
  }

  /** rematch of a version 2 match. */
  function Rematch2(s: string): Result<Smellage>
    requires Match2(s)
  {
    var proto, kind := s[..4], s[10..14];
    var v := Vrsn(B64Val(s[4..5]), B64Val(s[5..7]));
    var g := Vrsn(B64Val(s[7..8]), B64Val(s[8..10]));
    if !IsProtocol(proto) then Err(ProtocolError) else
    if v.major != 2 then Err(VersionError) else
    if g.major != 2 then Err(VersionError) else
    if !IsKind(kind) then Err(KindError) else
    Ok(Smellage(proto, v, kind, B64Val(s[14..18]), Some(g)))
  }

  predicate Matches(s: string) { Match2(s) || Match1(s) }

  /** rematch at the start of s; the alternation tries version 2 first. */
  function Rematch(s: string): Result<Smellage>
    requires Matches(s)
  {
    if Match2(s) then Rematch2(s) else Rematch1(s)
  }

  function Deversify(s: string): Result<Smellage> {
    if Matches(s) then Rematch(s) else Err(VersionError)
  }

  /** Rever.search: the leftmost position, from i on, where either grammar matches. */
  function Search(raw: string, i: nat): (at: Option<nat>)
    requires i <= |raw|
    ensures at.Some? ==> i <= at.value <= |raw| && Matches(raw[at.value..])
    ensures forall j | i <= j < (if at.Some? then at.value else |raw|) :: !Matches(raw[j..])
    decreases |raw| - i
  {
    if Matches(raw[i..]) then Some(i)
    else if i == |raw| then None
    else Search(raw, i + 1)
  }

  function Smell(raw: string): Result<Smellage> {
    if |raw| < SMELLSIZE then Err(ShortageError) else
    var at := Search(raw, 0);
    if at.None? || at.value > MAXVSOFFSET then Err(VersionError) else
    Rematch(raw[at.value..])
  }
}
