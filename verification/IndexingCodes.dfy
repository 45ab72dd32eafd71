/** What construction from raw takes under each code of core/indexing.py, with the
    codes, bounds and sizes written out. */
module IndexingCodes {
  import opened Radix
  import opened Base64
  import opened Results
  import opened Versions
  import opened Indexing

  /** A, C, E; 0A; 2A, 2C, 2E; 3A: the signature is for both lists. */
  predicate NamesBoth(name: string) {
    || (|name| == 1 && name[0] in {'A', 'C', 'E'})
    || (|name| == 2 && name[0] in {'0', '3'} && name[1] == 'A')
    || (|name| == 2 && name[0] == '2' && name[1] in {'A', 'C', 'E'})
  }

  /** B, D, F; 0B; 2B, 2D, 2F; 3B: it is for the current list only. */
  predicate NamesCurrent(name: string) {
    || (|name| == 1 && name[0] in {'B', 'D', 'F'})
    || (|name| == 2 && name[0] in {'0', '3'} && name[1] == 'B')
    || (|name| == 2 && name[0] == '2' && name[1] in {'B', 'D', 'F'})
  }

  /** How many values the index has, and the other index where there is room for one. */
  function Indices(name: string): nat
    requires name != []
  {
    if |name| == 1 || name[0] == '0' then 64 else if name[0] == '2' then 4096 else 262144
  }

  /** The number of bytes of the signature. */
  function SigBytes(name: string): nat
    requires name != []
  {
    if |name| == 2 && name[0] in {'0', '3'} then 114 else 64
  }

  /** The number of characters it prints. */
  function SigChars(name: string): nat
    requires name != []
  {
    if |name| == 1 then 88 else if name[0] == '0' then 156 else if name[0] == '2' then 92 else 160
  }

  /** The indices are in range; another index is given only for both lists, and is
      the same one where the code has no room for it. */
  predicate TakesIndices(name: string, index: int, ondex: Option<int>)
    requires name != []
  {
    && 0 <= index < Indices(name)
    && (ondex.Some? ==>
          NamesBoth(name) && if |name| == 1 then ondex.value == index else 0 <= ondex.value < Indices(name))
  }

  /** The values of the characters that codes are made of. */
  lemma CharOf(d: sextet)
    ensures B64Chr(d) == 'A' <==> d == 0
    ensures B64Chr(d) == 'B' <==> d == 1
    ensures B64Chr(d) == 'C' <==> d == 2
    ensures B64Chr(d) == 'D' <==> d == 3
    ensures B64Chr(d) == 'E' <==> d == 4
    ensures B64Chr(d) == 'F' <==> d == 5
    ensures B64Chr(d) == 'z' <==> d == 51
    ensures B64Chr(d) == '0' <==> d == 52
    ensures B64Chr(d) == '1' <==> d == 53
    ensures B64Chr(d) == '2' <==> d == 54
    ensures B64Chr(d) == '3' <==> d == 55
    ensures B64Chr(d) == '4' <==> d == 56
  {
  }

  /** The codices of signature codes are those names. */
  lemma SigNames(code: Code)
    ensures BothLists(code) <==> NamesBoth(Chars(code))
    ensures CurrentOnly(code) <==> NamesCurrent(Chars(code))
    ensures SigCode(code) <==> NamesBoth(Chars(code)) || NamesCurrent(Chars(code))
  {
    if code != [] {
      CharOf(code[0]);
      CharOf(code[|code| - 1]);
    }
    hide B64Chr;
  }

  lemma Powers()
    ensures Pow(B64, 1) == 64 && Pow(B64, 2) == 4096 && Pow(B64, 3) == 262144
  {
    assert Shift(B64, 1, 0) == 1;
  }

  /** The row of a signature code in numbers. */
  lemma SigRow(code: Code, index: nat)
    requires SigCode(code)
    ensures Sizes(code).Some?
    ensures var name, sz := Chars(code), Sizes(code).value;
      && Pow(B64, sz.Ms()) == Indices(name) && RawSize(sz, index) == SigBytes(name)
      && FullSize(sz, index) == SigChars(name)
      && (sz.os == 0 <==> |name| == 1) && (sz.os != 0 ==> Pow(B64, sz.os) == Indices(name))
  {
    CharOf(code[0]);
    Powers();
    hide Pow;
    hide B64Chr;
  }

  /** Construction of a signature from raw under each of its codes, in full: the indices
      are checked, then the length of raw, of which what is too long is cut off. */
  lemma InitSignature(raw: seq<byte>, code: Code, index: int, ondex: Option<int>)
    requires NamesBoth(Chars(code)) || NamesCurrent(Chars(code))
    ensures var name := Chars(code);
      Init(raw, code, index, ondex) ==
        if !TakesIndices(name, index, ondex) then Err(InvalidVarIndexError)
        else if |raw| < SigBytes(name) then Err(RawMaterialError)
        else Ok(Prim(code, index, if ondex.None? && NamesBoth(name) then Some(index) else ondex, raw[..SigBytes(name)]))
  {
    SigNames(code);
    SigRow(code, if index < 0 then 0 else index);
    hide Pow;
    hide Sizes;
    hide RawSize;
    hide NamesBoth;
    hide NamesCurrent;
    hide BothLists;
    hide CurrentOnly;
    hide SigBytes;
    hide Indices;
  }

  /** The codes that are to be decided: 0z with as many quadlets as its index says, and
      1z and 4z with 54 bytes, one more than their lead byte leaves room for. */
  lemma InitOther(raw: seq<byte>, code: Code, index: int, ondex: Option<int>)
    requires Chars(code) in {"0z", "1z", "4z"}
    ensures var first := Chars(code)[0];
      var bound := if first == '0' then 4096 else if first == '1' then 64 else 262144;
      var size := if first == '0' then 3 * index else 54;
      Init(raw, code, index, ondex) ==
        if !(0 <= index < bound) || (first != '0' && ondex.Some? && !(0 <= ondex.value < bound))
        then Err(InvalidVarIndexError)
        else if |raw| < size then Err(RawMaterialError)
        else Ok(Prim(code, index, ondex, raw[..size]))
  {
    var name := Chars(code);
    assert name == "0z" || name == "1z" || name == "4z";
    assert name[0] in {'0', '1', '4'} && name[1] == 'z';
    CharOf(code[0]);
    CharOf(code[1]);
    hide B64Chr;
    Powers();
    hide Pow;
    assert Sizes(code) == Some(
      if code[0] == 52 then Xizage(2, 2, 0, None, 0)
      else if code[0] == 53 then Xizage(2, 2, 1, Some(76), 1) else Xizage(2, 6, 3, Some(80), 1));
  }

  /** Nothing is constructed under any other code. */
  lemma InitUnknown(raw: seq<byte>, code: Code, index: int, ondex: Option<int>)
    requires var name := Chars(code); !NamesBoth(name) && !NamesCurrent(name) && name !in {"0z", "1z", "4z"}
    ensures Init(raw, code, index, ondex) == Err(if code == [] then EmptyMaterialError else UnexpectedCodeError)
  {
    SigNames(code);
    if |code| == 2 {
      CharOf(code[0]);
      CharOf(code[1]);
      assert Chars(code) == [B64Chr(code[0]), B64Chr(code[1])];
    }
    hide B64Chr;
  }

  /** What no indexed code starts with: counters and op codes have errors of their own, in
      text alone. */
  lemma NoIndexed(t: seq<sextet>)
    requires t != []
    ensures var c := Chars(t)[0];
      && (c == '-' ==> Exfil(t) == Err(UnexpectedCountCodeError))
      && (c == '_' ==> Exfil(t) == Err(UnexpectedOpCodeError))
      && ('5' <= c <= '9' ==> Exfil(t) == Err(UnexpectedCodeError))
  {
  }
}
