/** Which count codes core/counting.py has and what it constructs under each, with the
    codes and bounds written out. */
module CountingCodes {
  import opened Radix
  import opened Base64
  import opened Results
  import opened Versions
  import opened Counting
  import opened CountingLaws

  /** V1 has -A to -I, -L, -T to -W and -Z, of which -L and those after it also with two
      dashes; V2 has -A to -Z and -a to -c, all of them also with two dashes.  Both
      have -_AAA. */
  predicate InTable(major: int, name: string) {
    || (|name| == 2 && name[0] == '-' && (if major == 1 then Small1(name[1]) else AnyCode(name[1])))
    || (|name| == 3 && name[0] == '-' && name[1] == '-' && (if major == 1 then Big1(name[2]) else AnyCode(name[2])))
    || (|name| == 5 && name[0] == '-' && name[1] == '_' && name[2] == 'A' && name[3] == 'A' && name[4] == 'A')
  }

  predicate Big1(c: char) { c == 'L' || 'T' <= c <= 'W' || c == 'Z' }

  predicate Small1(c: char) { 'A' <= c <= 'I' || Big1(c) }

  predicate AnyCode(c: char) { 'A' <= c <= 'Z' || 'a' <= c <= 'c' }

  /** Which characters the values of the table are. */
  lemma CodeChar(d: sextet)
    ensures Small1(B64Chr(d)) <==> HasSmall(1, d)
    ensures Big1(B64Chr(d)) <==> HasBig(1, d)
    ensures AnyCode(B64Chr(d)) <==> HasSmall(2, d)
    ensures AnyCode(B64Chr(d)) <==> HasBig(2, d)
    ensures B64Chr(d) == '-' <==> d == DASH
    ensures B64Chr(d) == '_' <==> d == UNDERSCORE
    ensures B64Chr(d) == 'A' <==> d == 0
  {
  }

  /** The size table has exactly these codes, with a count of 2, 5 or 3 characters. */
  lemma TableNames(major: int, code: Code)
    requires major == 1 || major == 2
    ensures Sizes(major, code).Some? <==> InTable(major, Chars(code))
    ensures Sizes(major, code).Some? ==>
      Sizes(major, code).value.ss == (if |code| == 2 then 2 else if |code| == 3 then 5 else 3)
  {
    forall i | 0 <= i < |code|
      ensures Small1(Chars(code)[i]) <==> HasSmall(1, code[i])
      ensures Big1(Chars(code)[i]) <==> HasBig(1, code[i])
      ensures AnyCode(Chars(code)[i]) <==> HasSmall(2, code[i])
      ensures AnyCode(Chars(code)[i]) <==> HasBig(2, code[i])
      ensures Chars(code)[i] == '-' <==> code[i] == DASH
      ensures Chars(code)[i] == '_' <==> code[i] == UNDERSCORE
      ensures Chars(code)[i] == 'A' <==> code[i] == 0
    {
      CodeChar(code[i]);
    }
    hide B64Chr;
    hide Small1;
    hide Big1;
    hide AnyCode;
    hide HasSmall;
    hide HasBig;
  }

  /** Construction under every code, in full: a short code counts to 4095 and is then
      elevated, if its long form is in the table, up to 64 ** 5 - 1. */
  lemma InitByName(v: Version, code: Code, count: int)
    ensures var name := Chars(code);
      Init(v, code, count) ==
        if (v.major != 1 && v.major != 2) || v.minor > 0 then Err(InvalidVersionError)
        else if !InTable(v.major, name) then Err(InvalidCodeError)
        else if |name| == 5 then
          if 0 <= count < 0x4_0000 then Ok(Ctr(code, count)) else Err(InvalidVarIndexError)
        else if !(0 <= count < 0x4000_0000) then Err(InvalidVarIndexError)
        else if |name| == 3 || count <= 4095 then Ok(Ctr(code, count))
        else if InTable(v.major, ['-', '-', name[1]]) then Ok(Ctr([DASH, DASH, code[1]], count))
        else Err(KeyError)
  {
    if v.major == 1 || v.major == 2 {
      TableNames(v.major, code);
      CountBounds();
      hide Pow;
      if |code| == 2 && Sizes(v.major, code).Some? {
        var big := [DASH, DASH, code[1]];
        TableNames(v.major, big);
        CodeChar(DASH);
        assert Chars(big) == ['-', '-', Chars(code)[1]];
        ShortCode(v.major, code);
      } else if Sizes(v.major, code).Some? {
        LongCode(v.major, code);
      }
      hide InTable;
      hide Sizes;
      hide Chars;
    }
  }

  lemma ShortCode(major: int, code: Code)
    requires |code| == 2 && Sizes(major, code).Some?
    ensures code[1] < 52 && code != [DASH, DASH, code[1]]
  {
  }

  lemma LongCode(major: int, code: Code)
    requires |code| != 2 && Sizes(major, code).Some?
    ensures (|code| == 3 || |code| == 5) && code[1] >= 52
  {
  }

  /** The V1 codes that count quadlets, which enclosing takes. */
  lemma QuadletNames(code: Code)
    ensures CountsQuadlets1(code) <==>
      var name := Chars(code);
      || (|name| == 2 && name[0] == '-' && Big1(name[1]))
      || (|name| == 3 && name[0] == '-' && name[1] == '-' && Big1(name[2]))
  {
    forall i | 0 <= i < |code|
      ensures Big1(Chars(code)[i]) <==> HasBig(1, code[i])
      ensures Chars(code)[i] == '-' <==> code[i] == DASH
    {
      CodeChar(code[i]);
    }
    hide B64Chr;
    hide Big1;
    hide HasBig;
  }

  /** The V1 codes that enclosing takes, by name; V2 takes all. */
  predicate Encloses(major: int, name: string) {
    || major >= 2
    || (|name| == 2 && name[0] == '-' && Big1(name[1]))
    || (|name| == 3 && name[0] == '-' && name[1] == '-' && Big1(name[2]))
  }

  lemma QuadletStays(code: Code, count: int)
    requires 2 <= |code| && Sizes(1, code).Some?
    ensures CountsQuadlets1(Promote(code, count)) <==> CountsQuadlets1(code)
  {
  }

  /** Enclosing text passes exactly when it is whole quadlets, a counter can be made of their
      number, and the code may enclose; a parser then finds that counter at the front
      and the text behind it. */
  lemma EnclosedText(v: Version, code: Code, t: seq<sextet>)
    ensures EncloseText(v, code, t).Ok? <==>
      |t| % 4 == 0 && Init(v, code, |t| / 4).Ok? && Encloses(v.major, Chars(code))
    ensures EncloseText(v, code, t).Ok? ==>
      var whole, c := EncloseText(v, code, t).value, Init(v, code, |t| / 4).value;
      && Exfil(v.major, whole) == Ok(c) && c.count == |t| / 4
      && ByteSize(v.major, c, Txt) + |t| == |whole| && whole[ByteSize(v.major, c, Txt)..] == t
  {
    if |t| % 4 == 0 && Init(v, code, |t| / 4).Ok? {
      InitValid(v, code, |t| / 4);
      InitCount(v, code, |t| / 4);
      var c := Init(v, code, |t| / 4).value;
      QuadletNames(code);
      InitPromotes(v, code, |t| / 4);
      if v.major == 1 { QuadletStays(code, |t| / 4); }
      hide Init;
      hide CountsQuadlets1;
      Prints(v.major, c);
      hide Infil;
      TextRoundTrip(v.major, c, t);
      assert (Text(v.major, c) + t)[|Text(v.major, c)|..] == t;
      hide Exfil;
      hide Text;
      hide Valid;
    }
  }

  lemma InitPromotes(v: Version, code: Code, count: int)
    requires Init(v, code, count).Ok?
    ensures Supported(v) && Sizes(v.major, code).Some? && Init(v, code, count).value.code == Promote(code, count)
  {
    hide Fits;
  }

  /** The same of triplets and bytes. */
  lemma EnclosedBytes(v: Version, code: Code, b: seq<byte>)
    ensures EncloseBinary(v, code, b).Ok? <==>
      |b| % 3 == 0 && Init(v, code, |b| / 3).Ok? && Encloses(v.major, Chars(code))
    ensures EncloseBinary(v, code, b).Ok? ==>
      var whole, c := EncloseBinary(v, code, b).value, Init(v, code, |b| / 3).value;
      && Bexfil(v.major, whole) == Ok(c) && c.count == |b| / 3
      && ByteSize(v.major, c, Bny) + |b| == |whole| && whole[ByteSize(v.major, c, Bny)..] == b
  {
    if |b| % 3 == 0 && Init(v, code, |b| / 3).Ok? {
      InitValid(v, code, |b| / 3);
      InitCount(v, code, |b| / 3);
      var c := Init(v, code, |b| / 3).value;
      QuadletNames(code);
      InitPromotes(v, code, |b| / 3);
      if v.major == 1 { QuadletStays(code, |b| / 3); }
      hide Init;
      hide CountsQuadlets1;
      Prints(v.major, c);
      hide Binfil;
      BinaryRoundTrip(v.major, c, b);
      BinarySize(v.major, c);
      hide Decode;
      assert (Decode(Text(v.major, c)) + b)[|Decode(Text(v.major, c))|..] == b;
      hide Bexfil;
      hide Text;
      hide Valid;
    }
  }

  lemma BinarySize(major: int, c: Ctr)
    requires Valid(major, c)
    ensures |Decode(Text(major, c))| == ByteSize(major, c, Bny)
  {
    hide Decode;
  }

  /** What no counter starts with: an op code has an error of its own, in text alone. */
  lemma NoCounter(major: int, t: seq<sextet>)
    requires 2 <= |t|
    requires var s := Chars(t);
      !(s[0] == '-' && ('A' <= s[1] <= 'Z' || 'a' <= s[1] <= 'z' || s[1] == '-' || s[1] == '_'))
    ensures Exfil(major, t) == Err(if Chars(t)[0] == '_' then UnexpectedOpCodeError else UnexpectedCodeError)
  {
    CodeChar(t[0]);
  }
}
