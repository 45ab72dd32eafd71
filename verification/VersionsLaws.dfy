/** What kering.py promises of version strings. */
module VersionsLaws {
  import opened Radix
  import opened Base64
  import opened Results
  import opened Versions

  /** The alphabets: A to Z, a to z, 0 to 9, - and _; 0 to 9 and a to f. */
  lemma Alphabets(d: nat)
    ensures B64Chr(0) == 'A' && B64Chr(26) == 'a' && B64Chr(52) == '0' && B64Chr(62) == '-' && B64Chr(63) == '_'
    ensures d < 63 && d !in {25, 51, 61, 62} ==> B64Chr(d + 1) as int == B64Chr(d) as int + 1
    ensures HexChr(0) == '0' && HexChr(10) == 'a'
    ensures d < 15 && d != 9 ==> HexChr(d + 1) as int == HexChr(d) as int + 1
  {
  }

  lemma HexRoundTrip(v: nat, l: nat)
    ensures HexVal(HexStr(v, l)) == v
  {
    var d: seq<nibble> := Written(B16, v, l);
    var s := HexStr(v, l);
    assert seq(|s|, i requires 0 <= i < |s| => HexIdx(s[i])) == d;
    WrittenVal(B16, v, l);
  }

  lemma B64StrRoundTrip(v: nat, l: nat)
    ensures B64Val(B64Str(v, l)) == v
  {
    var d: seq<sextet> := Written(B64, v, l);
    var s := B64Str(v, l);
    assert seq(|s|, i requires 0 <= i < |s| => B64Idx(s[i])) == d;
    WrittenVal(B64, v, l);
  }

  lemma HexChrOfIdx(c: char)
    requires IsHex(c)
    ensures HexChr(HexIdx(c)) == c
  {
  }

  lemma B64ChrOfIdx(c: char)
    requires IsB64(c)
    ensures B64Chr(B64Idx(c)) == c
  {
  }

  lemma HexCanonical(s: string)
    requires s != [] && AllHex(s)
    ensures HexStr(HexVal(s), |s|) == s
  {
    var d: seq<nibble> := seq(|s|, i requires 0 <= i < |s| => HexIdx(s[i]));
    hide Val;
    hide Written;
    hide HexChr;
    hide HexIdx;
    WrittenOfVal(B16, d);
    forall i | 0 <= i < |s| ensures HexChr(d[i]) == s[i] {
      HexChrOfIdx(s[i]);
    }
  }

  lemma B64StrCanonical(s: string)
    requires s != [] && AllB64(s)
    ensures B64Str(B64Val(s), |s|) == s
  {
    var d: seq<sextet> := seq(|s|, i requires 0 <= i < |s| => B64Idx(s[i]));
    hide Val;
    hide Written;
    hide B64Chr;
    hide B64Idx;
    WrittenOfVal(B64, d);
    forall i | 0 <= i < |s| ensures B64Chr(d[i]) == s[i] {
      B64ChrOfIdx(s[i]);
    }
  }

  /** The fields fit their fixed widths. */
  predicate InRange(m: Smellage) {
    if m.pvrsn.major < 2 then m.pvrsn.minor < 16 && m.size < 0x100_0000
    else
      && m.pvrsn.minor < 4096 && m.size < 0x100_0000
      && (m.gvrsn.Some? ==> m.gvrsn.value.minor < 4096)
  }

  /** What a parser can return for m: a version 2 string always has a genus version. */
  function Read(m: Smellage): Smellage {
    if m.pvrsn.major == 2 && m.gvrsn.None? then m.(gvrsn := Some(m.pvrsn)) else m
  }

  lemma HexWidths(v: nat)
    ensures v < 16 <==> Width(B16, v) == 1
    ensures v < 0x100_0000 <==> Width(B16, v) <= 6
  {
    WidthFits(B16, v, 1);
    WidthFits(B16, v, 6);
    assert Shift(B16, 1, 3) == 4096 by { assert Shift(B16, 1, 1) == 16 && Shift(B16, 1, 2) == 256; }
    assert Shift(B16, 1, 5) == 0x10_0000 by { assert Shift(B16, 1, 4) == 65536; }
  }

  lemma B64Widths(v: nat)
    ensures v < 64 <==> Width(B64, v) == 1
    ensures v < 4096 <==> Width(B64, v) <= 2
    ensures v < 0x100_0000 <==> Width(B64, v) <= 4
  {
    WidthFits(B64, v, 1);
    WidthFits(B64, v, 2);
    WidthFits(B64, v, 4);
    ShiftQuad1();
  }

  lemma ShiftQuad1()
    ensures Pow(B64, 1) == 64 && Pow(B64, 2) == 4096 && Pow(B64, 4) == 0x100_0000
  {
    SmallShifts(1);
    assert Shift(B64, 1, 4) == Up(B64, Shift(B64, 1, 3), 0);
  }

  lemma UpperNames(s: string)
    requires IsProtocol(s) || IsKind(s)
    ensures |s| == 4 && AllUpper(s)
  {
  }

  lemma Cut1(p: string, a: string, b: string, k: string, c: string, rest: string)
    requires |p| == |k| == 4 && |a| == |b| == 1 && |c| == 6
    ensures var s := p + a + b + k + c + "_" + rest;
      && |s| == SPAN1 + |rest| && s[..4] == p && s[4..5] == a && s[5..6] == b
      && s[6..10] == k && s[10..16] == c && s[16] == '_'
  {
  }

  lemma Cut2(p: string, a: string, b: string, c: string, d: string, k: string, e: string, rest: string)
    requires |p| == |k| == |e| == 4 && |a| == |c| == 1 && |b| == |d| == 2
    ensures var s := p + a + b + c + d + k + e + "." + rest;
      && |s| == SPAN2 + |rest| && s[..4] == p && s[4..5] == a && s[5..7] == b && s[7..8] == c && s[8..10] == d
      && s[10..14] == k && s[14..18] == e && s[18] == '.'
  {
  }

  /** In range, a version 1 string parses back, whatever follows it. */
  lemma Text1RoundTrip(m: Smellage, rest: string)
    requires Versify(m).Ok? && m.pvrsn.major < 2 && InRange(m)
    ensures |Versify(m).value| == SPAN1 && Deversify(Versify(m).value + rest) == Ok(m)
  {
    hide HexStr;
    hide HexVal;
    hide Val;
    HexWidths(m.pvrsn.major);
    HexWidths(m.pvrsn.minor);
    HexWidths(m.size);
    UpperNames(m.proto);
    UpperNames(m.kind);
    var a, b, c := HexStr(m.pvrsn.major, 1), HexStr(m.pvrsn.minor, 1), HexStr(m.size, 6);
    var s := Versify(m).value + rest;
    Cut1(m.proto, a, b, m.kind, c, rest);
    HexRoundTrip(m.pvrsn.major, 1);
    HexRoundTrip(m.pvrsn.minor, 1);
    HexRoundTrip(m.size, 6);
    GrammarsDisjoint(s);
  }

  /** In range, a version 2 string parses back, whatever follows it. */
  lemma Text2RoundTrip(m: Smellage, rest: string)
    requires Versify(m).Ok? && m.pvrsn.major == 2 && InRange(m)
    ensures |Versify(m).value| == SPAN2 && Deversify(Versify(m).value + rest) == Ok(Read(m))
  {
    hide B64Str;
    hide B64Val;
    hide Val;
    var g := if m.gvrsn.Some? then m.gvrsn.value else m.pvrsn;
    B64Widths(2);
    B64Widths(m.pvrsn.minor);
    B64Widths(g.minor);
    B64Widths(m.size);
    UpperNames(m.proto);
    UpperNames(m.kind);
    var a, b, d, e := B64Str(2, 1), B64Str(m.pvrsn.minor, 2), B64Str(g.minor, 2), B64Str(m.size, 4);
    var s := Versify(m).value + rest;
    Cut2(m.proto, a, b, a, d, m.kind, e, rest);
    B64StrRoundTrip(2, 1);
    B64StrRoundTrip(m.pvrsn.minor, 2);
    B64StrRoundTrip(g.minor, 2);
    B64StrRoundTrip(m.size, 4);
  }

  /** The two grammars never both match: position 10 is upper case in one and
      hexadecimal in the other. */
  lemma GrammarsDisjoint(s: string)
    ensures Match1(s) ==> !Match2(s)
  {
    if Match1(s) {
      assert s[10..16][0] == s[10];
      if SPAN2 <= |s| {
        assert s[10..14][0] == s[10];
      }
    }
  }

  /** versify reproduces every string that deversify accepts. */
  lemma VersifyReproduces(s: string)
    requires Deversify(s).Ok?
    ensures var m := Deversify(s).value; var n := if Match2(s) then SPAN2 else SPAN1;
      Read(m) == m && InRange(m) && Versify(m) == Ok(s[..n])
  {
    if Match2(s) {
      Reproduces2(s);
    } else {
      Reproduces1(s);
    }
  }

  lemma Reproduces1(s: string)
    requires Match1(s) && Rematch1(s).Ok?
    ensures var m := Rematch1(s).value; Read(m) == m && InRange(m) && Versify(m) == Ok(s[..SPAN1])
  {
    hide HexStr;
    hide HexVal;
    var m := Rematch1(s).value;
    HexCanonical(s[4..5]);
    HexCanonical(s[5..6]);
    HexCanonical(s[10..16]);
    HexLength(m.pvrsn.minor, 1);
    HexLength(m.size, 6);
    assert s[..SPAN1] == s[..4] + s[4..5] + s[5..6] + s[6..10] + s[10..16] + "_";
  }

  lemma Reproduces2(s: string)
    requires Match2(s) && Rematch2(s).Ok?
    ensures var m := Rematch2(s).value; Read(m) == m && InRange(m) && Versify(m) == Ok(s[..SPAN2])
  {
    hide B64Str;
    hide B64Val;
    var m := Rematch2(s).value;
    B64StrCanonical(s[4..5]);
    B64StrCanonical(s[5..7]);
    B64StrCanonical(s[7..8]);
    B64StrCanonical(s[8..10]);
    B64StrCanonical(s[14..18]);
    B64Length(m.pvrsn.minor, 2);
    B64Length(m.gvrsn.value.minor, 2);
    B64Length(m.size, 4);
    assert s[..SPAN2] ==
      s[..4] + s[4..5] + s[5..7] + s[7..8] + s[8..10] + s[10..14] + s[14..18] + ".";
  }

  lemma HexLength(v: nat, l: nat)
    requires l == 1 || l == 6
    ensures |HexStr(v, l)| == l <==> v < (if l == 1 then 16 else 0x100_0000)
  {
    HexWidths(v);
  }

  lemma B64Length(v: nat, l: nat)
    requires l == 2 || l == 4
    ensures |B64Str(v, l)| == l <==> v < (if l == 2 then 4096 else 0x100_0000)
  {
    B64Widths(v);
  }

  /** deversify inverts versify exactly on the values whose fields fit; out of
      range a printed string is longer than its grammar and does not parse. */
  lemma {:induction false} RoundTripIffInRange(m: Smellage)
    requires Versify(m).Ok?
    ensures Deversify(Versify(m).value).Ok? <==> InRange(m)
    ensures InRange(m) ==> Deversify(Versify(m).value) == Ok(Read(m))
  {
    var s := Versify(m).value;
    assert s + [] == s;
    if InRange(m) {
      if m.pvrsn.major < 2 {
        Text1RoundTrip(m, []);
      } else {
        Text2RoundTrip(m, []);
      }
    } else if Matches(s) {
      if m.pvrsn.major < 2 {
        OnlyMatch1(m);
      } else {
        OnlyMatch2(m);
      }
    }
  }

  /** A printed version 1 string matches only when every field has its width. */
  lemma OnlyMatch1(m: Smellage)
    requires Versify(m).Ok? && m.pvrsn.major < 2 && Matches(Versify(m).value)
    ensures InRange(m)
  {
    hide HexStr;
    var s := Versify(m).value;
    var n := |s| - 1;
    UpperNames(m.proto);
    UpperNames(m.kind);
    var a, b, c := HexStr(m.pvrsn.major, 1), HexStr(m.pvrsn.minor, 1), HexStr(m.size, 6);
    assert s == m.proto + a + b + m.kind + c + "_";
    forall i | 0 <= i < n ensures IsHex(s[i]) || IsUpper(s[i]) {
    }
    assert s[n] == '_';
    assert |s| == SPAN1;
    HexLength(m.pvrsn.minor, 1);
    HexLength(m.size, 6);
  }

  /** Characters of a printed version 2 string. */
  lemma Joined2(p: string, a: string, b: string, d: string, k: string, e: string)
    requires |p| == 4 && |a| == 1 && AllB64(p) && AllB64(a) && AllB64(b) && AllB64(d) && AllB64(k) && AllB64(e)
    ensures var s := p + a + b + a + d + k + e + ".";
      && s[4] == a[0] && s[|s| - 1] == '.' && |s| == 7 + |b| + |d| + |k| + |e|
      && forall i | 0 <= i < |s| - 1 :: IsB64(s[i])
  {
    hide IsB64;
    AllB64Join(p, a);
    AllB64Join(p + a, b);
    AllB64Join(p + a + b, a);
    AllB64Join(p + a + b + a, d);
    AllB64Join(p + a + b + a + d, k);
    AllB64Join(p + a + b + a + d + k, e);
  }

  lemma AllB64Join(s: string, t: string)
    requires AllB64(s) && AllB64(t)
    ensures AllB64(s + t)
  {
    hide IsB64;
  }

  lemma UpperIsB64(s: string)
    requires AllUpper(s)
    ensures AllB64(s)
  {
  }

  /** A printed version 2 string matches only when every field has its width. */
  lemma OnlyMatch2(m: Smellage)
    requires Versify(m).Ok? && m.pvrsn.major == 2 && Matches(Versify(m).value)
    ensures InRange(m)
  {
    hide B64Str;
    hide AllB64;
    hide AllUpper;
    hide Matches;
    var s := Versify(m).value;
    var g := if m.gvrsn.Some? then m.gvrsn.value else m.pvrsn;
    UpperNames(m.proto);
    UpperNames(m.kind);
    var a, b, d, e := B64Str(2, 1), B64Str(m.pvrsn.minor, 2), B64Str(g.minor, 2), B64Str(m.size, 4);
    assert s == m.proto + a + b + a + d + m.kind + e + ".";
    MajorTwo();
    UpperIsB64(m.proto);
    UpperIsB64(m.kind);
    Joined2(m.proto, a, b, d, m.kind, e);
    EndsTheMatch(s);
    B64Length(m.pvrsn.minor, 2);
    B64Length(g.minor, 2);
    B64Length(m.size, 4);
  }

  /** With an upper-case letter for its version and one full stop, at its end, a string
      that matches is a version 2 string. */
  lemma EndsTheMatch(s: string)
    requires 5 <= |s| && IsUpper(s[4]) && s[|s| - 1] == '.' && Matches(s)
    requires forall i | 0 <= i < |s| - 1 :: IsB64(s[i])
    ensures |s| == SPAN2
  {
    assert s[4..5][0] == s[4];
  }

  lemma MajorTwo()
    ensures B64Str(2, 1) == "C"
  {
    assert Written(B64, 2, 1) == Digits(B64, 2, 1) == Digits(B64, 0, 0) + [2];
  }

  /** smell finds the version string behind any short prefix in which neither
      grammar matches, in particular behind one with no upper-case letter. */
  lemma SmellFinds(prefix: string, vs: string, rest: string)
    requires Deversify(vs).Ok?
    requires |prefix| <= MAXVSOFFSET && SMELLSIZE <= |prefix + vs + rest|
    requires forall i | 0 <= i < |prefix| :: !IsUpper(prefix[i])
    ensures Smell(prefix + vs + rest) == Deversify(vs)
  {
    hide Rematch1;
    hide Rematch2;
    var raw := prefix + vs + rest;
    forall j | 0 <= j < |prefix| ensures !Matches(raw[j..]) {
      var u := raw[j..];
      assert u[0] == prefix[j];
      if 4 <= |u| {
        assert u[..4][0] == u[0];
      }
    }
    assert raw[|prefix|..] == vs + rest;
    MatchExtends(vs, rest);
  }

  /** What follows a match does not change it. */
  lemma MatchExtends(s: string, rest: string)
    requires Matches(s)
    ensures Matches(s + rest) && Rematch(s + rest) == Rematch(s)
  {
    var u := s + rest;
    if Match2(s) {
      assert u[..4] == s[..4] && u[4..5] == s[4..5] && u[5..7] == s[5..7] && u[7..8] == s[7..8];
      assert u[8..10] == s[8..10] && u[10..14] == s[10..14] && u[14..18] == s[14..18];
    } else {
      assert u[..4] == s[..4] && u[4..5] == s[4..5] && u[5..6] == s[5..6];
      assert u[6..10] == s[6..10] && u[10..16] == s[10..16];
      GrammarsDisjoint(u);
    }
  }
}
