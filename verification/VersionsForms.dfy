/** Which version strings kering.py takes, and where smell looks for one, with the
    names and numbers written out. */
module VersionsForms {
  import opened Radix
  import opened Results
  import opened Versions
  import opened VersionsLaws

  /** A version 1 string at the start: protocol, one digit for each version number, kind,
      six digits for the size. */
  predicate Form1(s: string) {
    && 17 <= |s| && (s[..4] == "KERI" || s[..4] == "ACDC")
    && (s[4] == '0' || s[4] == '1') && IsHex(s[5])
    && (s[6..10] == "JSON" || s[6..10] == "MGPK" || s[6..10] == "CBOR")
    && (forall i | 10 <= i < 16 :: IsHex(s[i])) && s[16] == '_'
  }

  /** A version 2 string at the start: protocol, its version and that of the code tables,
      both of major number 2, kind, four characters for the size. */
  predicate Form2(s: string) {
    && 19 <= |s| && (s[..4] == "KERI" || s[..4] == "ACDC")
    && s[4] == 'C' && s[7] == 'C' && IsB64(s[5]) && IsB64(s[6]) && IsB64(s[8]) && IsB64(s[9])
    && (s[10..14] == "JSON" || s[10..14] == "MGPK" || s[10..14] == "CBOR" || s[10..14] == "CESR")
    && (forall i | 14 <= i < 18 :: IsB64(s[i])) && s[18] == '.'
  }

  function Fields1(s: string): Smellage
    requires Form1(s)
  {
    assert forall i | 0 <= i < 6 :: IsHex(s[10..16][i]);
    Smellage(s[..4], Vrsn(HexIdx(s[4]), HexIdx(s[5])), s[6..10], HexVal(s[10..16]), None)
  }

  function Fields2(s: string): Smellage
    requires Form2(s)
  {
    assert forall i | 0 <= i < 4 :: IsB64(s[14..18][i]);
    Smellage(s[..4], Vrsn(2, B64Val(s[5..7])), s[10..14], B64Val(s[14..18]), Some(Vrsn(2, B64Val(s[8..10]))))
  }

  lemma OneDigit(b: Base, d: nat)
    ensures Val(b, [d]) == d
  {
    assert [d][..0] == [];
  }

  lemma OneHex(c: char)
    requires IsHex(c)
    ensures HexVal([c]) == HexIdx(c) && (HexIdx(c) <= 1 <==> c == '0' || c == '1')
  {
    var s := [c];
    var d := seq(|s|, i requires 0 <= i < |s| => HexIdx(s[i]));
    assert d == [HexIdx(c)];
    OneDigit(B16, HexIdx(c));
  }

  lemma OneB64(c: char)
    requires IsB64(c)
    ensures B64Val([c]) == B64Idx(c) && (B64Idx(c) == 2 <==> c == 'C')
  {
    var s := [c];
    var d := seq(|s|, i requires 0 <= i < |s| => B64Idx(s[i]));
    assert d == [B64Idx(c)];
    OneDigit(B64, B64Idx(c));
  }

  lemma NamesAreUpper(s: string)
    requires IsProtocol(s) || IsKind(s)
    ensures AllUpper(s)
  {
  }

  lemma Match1Is(s: string)
    ensures Match1(s) && Rematch1(s).Ok? <==> Form1(s)
    ensures Form1(s) ==> Rematch1(s) == Ok(Fields1(s))
  {
    hide HexVal;
    hide HexIdx;
    if 17 <= |s| {
      assert s[4..5] == [s[4]] && s[5..6] == [s[5]];
      if IsHex(s[4]) { OneHex(s[4]); }
      if IsHex(s[5]) { OneHex(s[5]); }
      if IsProtocol(s[..4]) { NamesAreUpper(s[..4]); }
      if IsKind(s[6..10]) { NamesAreUpper(s[6..10]); }
      assert AllHex(s[10..16]) <==> forall i | 10 <= i < 16 :: IsHex(s[i]) by {
        assert forall i | 10 <= i < 16 :: s[i] == s[10..16][i - 10];
      }
      hide AllUpper;
    }
  }

  lemma Match2Is(s: string)
    ensures Match2(s) && Rematch2(s).Ok? <==> Form2(s)
    ensures Form2(s) ==> Rematch2(s) == Ok(Fields2(s))
  {
    hide B64Val;
    hide B64Idx;
    if 19 <= |s| {
      assert s[4..5] == [s[4]] && s[7..8] == [s[7]] && s[5..7] == [s[5], s[6]] && s[8..10] == [s[8], s[9]];
      if IsB64(s[4]) { OneB64(s[4]); }
      if IsB64(s[7]) { OneB64(s[7]); }
      if IsProtocol(s[..4]) { NamesAreUpper(s[..4]); }
      if IsKind(s[10..14]) { NamesAreUpper(s[10..14]); }
      assert AllB64(s[14..18]) <==> forall i | 14 <= i < 18 :: IsB64(s[i]) by {
        assert forall i | 14 <= i < 18 :: s[i] == s[14..18][i - 14];
      }
      hide AllUpper;
    }
  }

  /** deversify takes exactly the strings of the two forms, and reads their fields. */
  lemma DeversifyIs(s: string)
    ensures Deversify(s).Ok? <==> Form1(s) || Form2(s)
    ensures Form1(s) ==> Deversify(s) == Ok(Fields1(s))
    ensures Form2(s) ==> Deversify(s) == Ok(Fields2(s))
  {
    Match1Is(s);
    Match2Is(s);
    GrammarsDisjoint(s);
    hide Match1;
    hide Match2;
    hide Form1;
    hide Form2;
  }

  /** versify takes exactly these names and version numbers. */
  lemma VersifyTakes(m: Smellage)
    ensures Versify(m).Ok? <==>
      && (m.proto == "KERI" || m.proto == "ACDC")
      && (m.kind == "JSON" || m.kind == "MGPK" || m.kind == "CBOR" || (m.kind == "CESR" && m.pvrsn.major == 2))
      && (if m.gvrsn.None? then m.pvrsn.major <= 2 else m.pvrsn.major == m.gvrsn.value.major == 2)
    ensures Versify(m).Err? ==>
      Versify(m).error ==
      if m.proto != "KERI" && m.proto != "ACDC" then ProtocolError
      else if m.kind != "JSON" && m.kind != "MGPK" && m.kind != "CBOR" && m.kind != "CESR" then KindError
      else if m.pvrsn.major < 2 && m.gvrsn.None? then KindError else VersionError
  {
  }

  /** What deversify raises on the other strings: VersionError where neither grammar
      matches; else the protocol is looked at first, then the major numbers, and the
      kind last. */
  lemma DeversifyFails(s: string)
    requires !Form1(s) && !Form2(s)
    ensures Deversify(s) == Err(
      if !Matches(s) then VersionError
      else if s[..4] != "KERI" && s[..4] != "ACDC" then ProtocolError
      else if s[16] == '_' && !Match2(s) then (if s[4] != '0' && s[4] != '1' then VersionError else KindError)
      else if s[4] != 'C' || s[7] != 'C' then VersionError else KindError)
  {
    DeversifyIs(s);
    if Match2(s) {
      assert s[4..5] == [s[4]] && s[7..8] == [s[7]];
      assert IsB64([s[4]][0]) && IsB64([s[7]][0]);
      OneB64(s[4]);
      OneB64(s[7]);
    } else if Match1(s) {
      assert s[4..5] == [s[4]];
      assert IsHex([s[4]][0]);
      OneHex(s[4]);
    }
  }

  /** smell asks for 27 characters, and takes the first match of either grammar that
      starts at offset 8 at the latest. */
  lemma SmellLooks(raw: string, j: nat)
    ensures |raw| < 27 ==> Smell(raw) == Err(ShortageError)
    ensures |raw| >= 27 && (forall i | 0 <= i <= 8 :: !Matches(raw[i..])) ==> Smell(raw) == Err(VersionError)
    ensures |raw| >= 27 && j <= 8 && Matches(raw[j..]) && (forall i | 0 <= i < j :: !Matches(raw[i..])) ==>
      Smell(raw) == Deversify(raw[j..])
  {
    hide Matches;
    hide Rematch;
  }
}
