/** Streams of V2 groups nested by Counter.enclose over indexed signatures, and
    recursive descent over them: peek the counter, cut out what it counts. */
module Groups {
  import opened Base64
  import opened Radix
  import opened Results
  import I = Indexing
  import IL = IndexingLaws
  import IB = IndexingBinary
  import IS = IndexingStreams
  import Obj = IndexerObject
  import C = Counting
  import CL = CountingLaws

  const V2 := C.Version(2, 0)

  /** A stream: signatures and groups, one after the other. */
  datatype Stream = End | Sig(p: I.Prim, rest: Stream) | Group(code: C.Code, kids: Stream, rest: Stream)

  /** A counter code that frames material, as the genus version code does not. */
  predicate Frames(code: C.Code) { C.Sizes(2, code).Some? && !C.IsGenus(code) }

  /** One after the other, the first error winning. */
  function Join<T>(a: Result<seq<T>>, b: Result<seq<T>>): Result<seq<T>> {
    var x :- a;
    var y :- b;
    Ok(x + y)
  }

  function TextOf(s: Stream): Result<seq<sextet>> {
    match s
    case End => Ok([])
    case Sig(p, rest) => Join(I.Infil(p), TextOf(rest))
    case Group(code, kids, rest) => Join(GroupText(code, TextOf(kids)), TextOf(rest))
  }

  function GroupText(code: C.Code, kids: Result<seq<sextet>>): Result<seq<sextet>> {
    var k :- kids;
    C.EncloseText(V2, code, k)
  }

  function BinaryOf(s: Stream): Result<seq<byte>> {
    match s
    case End => Ok([])
    case Sig(p, rest) => Join(I.Binfil(p), BinaryOf(rest))
    case Group(code, kids, rest) => Join(GroupBinary(code, BinaryOf(kids)), BinaryOf(rest))
  }

  function GroupBinary(code: C.Code, kids: Result<seq<byte>>): Result<seq<byte>> {
    var k :- kids;
    C.EncloseBinary(V2, code, k)
  }

  /** Every signature prints and reads back, every group code frames. */
  ghost predicate WellFormed(s: Stream) {
    match s
    case End => true
    case Sig(p, rest) => IL.Valid(p) && IL.Plain(p.code) && IL.ReadOndex(p) == p.ondex && WellFormed(rest)
    case Group(code, kids, rest) => Frames(code) && WellFormed(kids) && WellFormed(rest)
  }

  /** A text aligned on 24-bit boundaries, or an error. */
  ghost predicate Whole(t: Result<seq<sextet>>) { t.Ok? ==> |t.value| % 4 == 0 }

  function Decoded(t: Result<seq<sextet>>): Result<seq<byte>>
    requires Whole(t)
  {
    match t case Ok(x) => Ok(Decode(x)) case Err(e) => Err(e)
  }

  lemma JoinDecodes(a: Result<seq<sextet>>, b: Result<seq<sextet>>)
    requires Whole(a) && Whole(b)
    ensures Whole(Join(a, b)) && Decoded(Join(a, b)) == Join(Decoded(a), Decoded(b))
  {
    hide Decode;
    if a.Ok? && b.Ok? {
      Obj.SumOfFours(|a.value|, |b.value|);
      DecodeConcat(a.value, b.value);
    }
  }

  lemma ThreeQuarters(n: nat, m: nat)
    requires n % 4 == 0 && 4 * m == 3 * n
    ensures m % 3 == 0 && m / 3 == n / 4
  {
  }

  /** Enclosing is the same in both domains, counts, elevation and errors alike. */
  lemma {:induction false} EncloseDecodes(code: C.Code, t: seq<sextet>)
    requires |t| % 4 == 0
    ensures Whole(C.EncloseText(V2, code, t))
    ensures C.EncloseBinary(V2, code, Decode(t)) == Decoded(C.EncloseText(V2, code, t))
  {
    hide Decode;
    hide C.Infil;
    hide C.Binfil;
    hide C.Init;
    hide CL.Text;
    hide CL.Valid;
    var n := |t| / 4;
    ThreeQuarters(|t|, |Decode(t)|);
    var r := C.Init(V2, code, n);
    if r.Ok? {
      CL.InitValid(V2, code, n);
      CL.Prints(2, r.value);
      Obj.SumOfFours(|CL.Text(2, r.value)|, |t|);
      DecodeConcat(CL.Text(2, r.value), t);
    }
  }

  lemma {:induction false} SigDecodes(p: I.Prim)
    requires IL.Valid(p) && IL.Plain(p.code)
    ensures Whole(I.Infil(p)) && I.Binfil(p) == Decoded(I.Infil(p))
  {
    hide I.Infil;
    hide I.Binfil;
    hide IL.Text;
    hide IL.Valid;
    hide IL.Plain;
    IL.InfilPrints(p);
    IB.BinaryIsDecodedText(p);
  }

  /** The binary form of a tree of groups is the Base64 decoding of its text
      form at every depth, and they fail together. */
  lemma {:induction false} DomainsAgree(s: Stream)
    requires WellFormed(s)
    ensures Whole(TextOf(s)) && BinaryOf(s) == Decoded(TextOf(s))
  {
    hide I.Infil;
    hide I.Binfil;
    hide C.EncloseText;
    hide C.EncloseBinary;
    match s
    case End =>
    case Sig(p, rest) =>
      DomainsAgree(rest);
      SigDecodes(p);
      JoinDecodes(I.Infil(p), TextOf(rest));
    case Group(code, kids, rest) =>
      DomainsAgree(kids);
      DomainsAgree(rest);
      if TextOf(kids).Ok? {
        EncloseDecodes(code, TextOf(kids).value);
      }
      JoinDecodes(GroupText(code, TextOf(kids)), TextOf(rest));
  }

  /** A group of what its material and what follows it parse to. */
  function GroupOf(code: C.Code, kids: Result<Stream>, rest: Result<Stream>): Result<Stream> {
    var k :- kids;
    var r :- rest;
    Ok(Group(code, k, r))
  }

  function SigOf(p: I.Prim, rest: Result<Stream>): Result<Stream> {
    var r :- rest;
    Ok(Sig(p, r))
  }

  /** Recursive descent over text. */
  function ParseText(t: seq<sextet>): Result<Stream>
    decreases |t|
  {
    if t == [] then Ok(End)
    else if t[0] == DASH then
      var c :- C.Exfil(2, t);
      if C.IsGenus(c.code) then Err(UnexpectedCodeError) else
      var fs, n := C.ByteSize(2, c, C.Txt), C.ByteCount(c, C.Txt);
      if |t| < fs + n then Err(ShortageError) else
      GroupOf(c.code, ParseText(t[fs..fs + n]), ParseText(t[fs + n..]))
    else
      var p :- I.Exfil(t);
      SigOf(p, ParseText(Obj.TextRest(t)))
  }

  /** The first sextet starts a count code. */
  predicate GroupAhead(b: seq<byte>)
    requires b != []
  {
    CodeB2ToB64(b, 1)[0] == DASH
  }

  /** Recursive descent over bytes. */
  function ParseBinary(b: seq<byte>): Result<Stream>
    decreases |b|
  {
    if b == [] then Ok(End)
    else if GroupAhead(b) then
      var c :- C.Bexfil(2, b);
      if C.IsGenus(c.code) then Err(UnexpectedCodeError) else
      var fs, n := C.ByteSize(2, c, C.Bny), C.ByteCount(c, C.Bny);
      if |b| < fs + n then Err(ShortageError) else
      GroupOf(c.code, ParseBinary(b[fs..fs + n]), ParseBinary(b[fs + n..]))
    else
      var p :- I.Bexfil(b);
      SigOf(p, ParseBinary(Obj.BinaryRest(b)))
  }

  /** The stream with each group under the code its count elevates it to. */
  function Elevated(s: Stream): Stream {
    match s
    case End => End
    case Sig(p, rest) => Sig(p, Elevated(rest))
    case Group(code, kids, rest) =>
      var code' := match TextOf(kids)
        case Ok(t) => if 2 <= |code| then C.Promote(code, |t| / 4) else code
        case Err(_) => code;
      Group(code', Elevated(kids), Elevated(rest))
  }

  /** The counter that encloses k quadlets, or triplets, under a framing code. */
  lemma EnclosingCounter(code: C.Code, k: nat)
    requires Frames(code) && C.Init(V2, code, k).Ok?
    ensures var c := C.Init(V2, code, k).value;
      CL.Valid(2, c) && c.count == k && c.code == C.Promote(code, k) && Frames(c.code) && c.code[0] == DASH
  {
  }

  /** The text of a framing counter. */
  lemma CounterText(c: C.Ctr)
    requires CL.Valid(2, c) && Frames(c.code)
    ensures var t := CL.Text(2, c);
      && C.Sizes(2, c.code).Some? && |t| == C.ByteSize(2, c, C.Txt) && |t| % 4 == 0 && t != []
      && |Decode(t)| == C.ByteSize(2, c, C.Bny) && 0 < |Decode(t)|
      && 0 < |c.code| <= |t| && t[..|c.code|] == c.code && c.code[0] == DASH && !C.IsGenus(c.code)
  {
    hide Decode;
  }

  /** What descent does with a text that starts with a framing counter. */
  lemma ParseCounted(t: seq<sextet>, c: C.Ctr, fs: nat, n: nat)
    requires t != [] && t[0] == DASH && C.Exfil(2, t) == Ok(c) && !C.IsGenus(c.code) && C.Sizes(2, c.code).Some?
    requires fs == C.ByteSize(2, c, C.Txt) && n == C.ByteCount(c, C.Txt) && 0 < fs && fs + n <= |t|
    ensures ParseText(t) == GroupOf(c.code, ParseText(t[fs..fs + n]), ParseText(t[fs + n..]))
  {
    hide GroupOf;
    hide SigOf;
    hide C.Exfil;
    hide C.Sizes;
    hide C.IsGenus;
    hide C.ByteSize;
    hide C.ByteCount;
    hide I.Exfil;
    hide Obj.TextRest;
  }

  lemma ParseCountedBytes(b: seq<byte>, c: C.Ctr, fs: nat, n: nat)
    requires b != [] && GroupAhead(b) && C.Bexfil(2, b) == Ok(c) && !C.IsGenus(c.code)
    requires C.Sizes(2, c.code).Some?
    requires fs == C.ByteSize(2, c, C.Bny) && n == C.ByteCount(c, C.Bny) && 0 < fs && fs + n <= |b|
    ensures ParseBinary(b) == GroupOf(c.code, ParseBinary(b[fs..fs + n]), ParseBinary(b[fs + n..]))
  {
    hide GroupOf;
    hide SigOf;
    hide C.Bexfil;
    hide C.Sizes;
    hide C.IsGenus;
    hide C.ByteSize;
    hide C.ByteCount;
    hide GroupAhead;
    hide I.Bexfil;
    hide Obj.BinaryRest;
  }

  lemma ParseGroupText(c: C.Ctr, k: seq<sextet>, r: seq<sextet>)
    requires CL.Valid(2, c) && Frames(c.code) && |k| == c.count * 4
    ensures ParseText(CL.Text(2, c) + k + r) == GroupOf(c.code, ParseText(k), ParseText(r))
  {
    hide GroupOf;
    hide C.Exfil;
    hide C.Sizes;
    hide CL.Text;
    hide CL.Valid;
    hide ParseText;
    var h := CL.Text(2, c);
    var t := h + k + r;
    assert t == h + (k + r);
    CL.TextRoundTrip(2, c, k + r);
    CounterText(c);
    assert t[..|c.code|] == c.code;
    assert t[|h|..|h| + |k|] == k && t[|h| + |k|..] == r;
    ParseCounted(t, c, |h|, |k|);
  }

  lemma {:induction false} ParseSigText(p: I.Prim, r: seq<sextet>)
    requires IL.Valid(p) && IL.Plain(p.code) && IL.ReadOndex(p) == p.ondex
    ensures ParseText(IL.Text(p) + r) ==
      match ParseText(r) case Err(e) => Err(e) case Ok(rest) => Ok(Sig(p, rest))
  {
    hide I.Exfil;
    hide C.Exfil;
    hide IL.Text;
    IL.TextRoundTrip(p, r);
    IS.PlainStart(p);
    var t := IL.Text(p) + r;
    assert t[0] == p.code[0] && Obj.TextRest(t) == r;
  }

  /** Recursive descent terminates and recovers the tree that was printed, each
      group under the code its count elevated it to. */
  lemma {:induction false} DescentRecoversText(s: Stream)
    requires WellFormed(s) && TextOf(s).Ok?
    ensures ParseText(TextOf(s).value) == Ok(Elevated(s))
  {
    match s
    case End =>
    case Sig(p, rest) =>
      hide ParseText;
      hide I.Infil;
      hide IL.Text;
      DescentRecoversText(rest);
      IL.InfilPrints(p);
      ParseSigText(p, TextOf(rest).value);
    case Group(code, kids, rest) =>
      hide ParseText;
      hide C.Infil;
      hide C.Init;
      hide CL.Text;
      hide CL.Valid;
      hide Frames;
      DescentRecoversText(kids);
      DescentRecoversText(rest);
      DomainsAgree(kids);
      var k, r := TextOf(kids).value, TextOf(rest).value;
      EnclosingCounter(code, |k| / 4);
      var c := C.Init(V2, code, |k| / 4).value;
      CL.Prints(2, c);
      ParseGroupText(c, k, r);
  }

  lemma {:induction false} ParseGroupBinary(c: C.Ctr, k: seq<byte>, r: seq<byte>)
    requires CL.Valid(2, c) && Frames(c.code) && |k| == c.count * 3
    ensures ParseBinary(Decode(CL.Text(2, c)) + k + r) == GroupOf(c.code, ParseBinary(k), ParseBinary(r))
  {
    hide GroupOf;
    hide C.Bexfil;
    hide C.Sizes;
    hide CL.Text;
    hide CL.Valid;
    hide Decode;
    hide CodeB2ToB64;
    hide ParseBinary;
    var t := CL.Text(2, c);
    var h := Decode(t);
    var b := h + k + r;
    assert b == h + (k + r);
    CL.BinaryRoundTrip(2, c, k + r);
    CounterText(c);
    CL.PrefixOfDecoded(t, k + r, 1);
    assert t[..1][0] == t[0] == t[..|c.code|][0];
    assert b[|h|..|h| + |k|] == k && b[|h| + |k|..] == r;
    ParseCountedBytes(b, c, |h|, |k|);
  }

  lemma {:induction false} ParseSigBinary(p: I.Prim, r: seq<byte>)
    requires IL.Valid(p) && IL.Plain(p.code) && IL.ReadOndex(p) == p.ondex
    ensures I.Binfil(p).Ok? && ParseBinary(I.Binfil(p).value + r) ==
      match ParseBinary(r) case Err(e) => Err(e) case Ok(rest) => Ok(Sig(p, rest))
  {
    hide I.Bexfil;
    hide I.Binfil;
    hide C.Bexfil;
    hide IL.Text;
    hide IL.ReadOndex;
    hide Decode;
    hide CodeB2ToB64;
    IB.BinaryIsDecodedText(p);
    IS.BinaryRoundTrip(p, r);
    IS.PlainStart(p);
    CL.PrefixOfDecoded(IL.Text(p), r, 1);
    var b := I.Binfil(p).value + r;
    BinaryRestOf(b, I.Binfil(p).value, r);
    assert b != [];
  }

  /** What is left of a binary stream is what follows the printed primitive. */
  lemma BinaryRestOf(b: seq<byte>, h: seq<byte>, r: seq<byte>)
    requires b == h + r && I.Bexfil(b).Ok? && I.Binfil(I.Bexfil(b).value) == Ok(h)
    ensures Obj.BinaryRest(b) == r
  {
    hide I.Bexfil;
    hide I.Binfil;
    IS.BinaryCanonical(b);
  }

  /** The same in the binary domain. */
  lemma {:induction false} DescentRecoversBinary(s: Stream)
    requires WellFormed(s) && BinaryOf(s).Ok?
    ensures ParseBinary(BinaryOf(s).value) == Ok(Elevated(s))
  {
    match s
    case End =>
    case Sig(p, rest) =>
      hide ParseBinary;
      hide I.Binfil;
      hide IL.Text;
      DescentRecoversBinary(rest);
      ParseSigBinary(p, BinaryOf(rest).value);
    case Group(code, kids, rest) =>
      hide ParseBinary;
      hide C.Binfil;
      hide C.Init;
      hide CL.Text;
      hide CL.Valid;
      hide Frames;
      hide Decode;
      DescentRecoversBinary(kids);
      DescentRecoversBinary(rest);
      DomainsAgree(kids);
      var k, r := BinaryOf(kids).value, BinaryOf(rest).value;
      ThreeQuarters(|TextOf(kids).value|, |k|);
      EnclosingCounter(code, |k| / 3);
      var c := C.Init(V2, code, |k| / 3).value;
      CL.Prints(2, c);
      ParseGroupBinary(c, k, r);
  }

  /** A counter read from a stream encloses what it counts under its own code. */
  lemma ReadCounterEncloses(c: C.Ctr, k: nat)
    requires CL.Valid(2, c) && Frames(c.code) && k == c.count
    ensures C.Init(V2, c.code, k) == Ok(c)
  {
    CL.CountBounds();
  }

  /** The counter, the group and the rest that descent cuts a text into. */
  lemma {:induction false} CutText(t: seq<sextet>) returns (c: C.Ctr, k: seq<sextet>, r: seq<sextet>)
    requires t != [] && t[0] == DASH && ParseText(t).Ok?
    ensures CL.Valid(2, c) && Frames(c.code) && t == CL.Text(2, c) + k + r && |k| == c.count * 4
    ensures |k| < |t| && |r| < |t| && ParseText(k).Ok? && ParseText(r).Ok?
    ensures ParseText(t) == Ok(Group(c.code, ParseText(k).value, ParseText(r).value))
  {
    hide C.Exfil;
    hide C.Sizes;
    hide C.IsGenus;
    hide C.Fits;
    hide CL.Text;
    hide I.Exfil;
    hide Obj.TextRest;
    c := C.Exfil(2, t).value;
    CL.TextCanonical(2, t);
    var fs, n := C.ByteSize(2, c, C.Txt), C.ByteCount(c, C.Txt);
    k, r := t[fs..fs + n], t[fs + n..];
  }

  /** What has been checked of the counter of accepted bytes. */
  lemma CountedBytes(b: seq<byte>)
    requires b != [] && GroupAhead(b) && ParseBinary(b).Ok?
    ensures C.Bexfil(2, b).Ok?
    ensures var c := C.Bexfil(2, b).value;
      !C.IsGenus(c.code) && C.Sizes(2, c.code).Some? && C.ByteSize(2, c, C.Bny) + C.ByteCount(c, C.Bny) <= |b|
  {
    hide C.Sizes;
    hide C.IsGenus;
    hide GroupAhead;
    hide GroupOf;
    hide C.ByteCount;
  }

  lemma {:induction false} CutBinary(b: seq<byte>) returns (c: C.Ctr, k: seq<byte>, r: seq<byte>)
    requires b != [] && GroupAhead(b) && ParseBinary(b).Ok?
    ensures CL.Valid(2, c) && Frames(c.code) && b == Decode(CL.Text(2, c)) + k + r && |k| == c.count * 3
    ensures |k| < |b| && |r| < |b| && ParseBinary(k).Ok? && ParseBinary(r).Ok?
    ensures ParseBinary(b) == Ok(Group(c.code, ParseBinary(k).value, ParseBinary(r).value))
  {
    hide C.Bexfil;
    hide C.Sizes;
    hide C.IsGenus;
    hide CL.Valid;
    hide CL.Text;
    hide Decode;
    hide GroupAhead;
    hide ParseBinary;
    hide C.ByteSize;
    CountedBytes(b);
    c := C.Bexfil(2, b).value;
    CL.BinaryCanonical(2, b);
    CounterText(c);
    var fs, n := C.ByteSize(2, c, C.Bny), C.ByteCount(c, C.Bny);
    k, r := b[fs..fs + n], b[fs + n..];
    ParseCountedBytes(b, c, fs, n);
    assert b == b[..fs] + k + r;
  }

  lemma Counted(k: nat, n: nat, m: nat)
    requires n == k * 4 && m == k * 3
    ensures n % 4 == 0 && n / 4 == k && m % 3 == 0 && m / 3 == k
  {
  }

  lemma {:induction false} EncloseCounted(c: C.Ctr, t: seq<sextet>, b: seq<byte>)
    requires CL.Valid(2, c) && Frames(c.code) && |t| == c.count * 4 && |b| == c.count * 3
    ensures C.EncloseText(V2, c.code, t) == Ok(CL.Text(2, c) + t)
    ensures C.EncloseBinary(V2, c.code, b) == Ok(Decode(CL.Text(2, c)) + b)
  {
    hide C.Infil;
    hide C.Binfil;
    hide C.Init;
    hide C.Sizes;
    hide C.IsGenus;
    hide C.CountsQuadlets1;
    hide CL.Valid;
    hide CL.Text;
    hide Decode;
    hide Aligned;
    ReadCounterEncloses(c, c.count);
    CL.Prints(2, c);
    Counted(c.count, |t|, |b|);
  }

  /** Printing what was cut gives the stream back, in both domains. */
  lemma {:induction false} PrintCutText(c: C.Ctr, kids: Stream, rest: Stream)
    requires CL.Valid(2, c) && Frames(c.code) && TextOf(kids).Ok? && TextOf(rest).Ok?
    requires |TextOf(kids).value| == c.count * 4
    ensures TextOf(Group(c.code, kids, rest)) == Ok(CL.Text(2, c) + TextOf(kids).value + TextOf(rest).value)
    ensures Elevated(Group(c.code, kids, rest)) == Group(c.code, Elevated(kids), Elevated(rest))
  {
    hide C.EncloseText;
    hide C.Promote;
    hide C.Init;
    hide CL.Text;
    var k := TextOf(kids).value;
    EncloseCounted(c, k, Zeros(c.count * 3));
    assert |k| / 4 == c.count;
    ReadCounterEncloses(c, c.count);
    EnclosingCounter(c.code, c.count);
  }

  lemma {:induction false} PrintCutBinary(c: C.Ctr, kids: Stream, rest: Stream)
    requires CL.Valid(2, c) && Frames(c.code) && BinaryOf(kids).Ok? && BinaryOf(rest).Ok?
    requires |BinaryOf(kids).value| == c.count * 3
    ensures BinaryOf(Group(c.code, kids, rest)) ==
      Ok(Decode(CL.Text(2, c)) + BinaryOf(kids).value + BinaryOf(rest).value)
  {
    hide C.EncloseBinary;
    hide CL.Text;
    hide Decode;
    EncloseCounted(c, Zeros(c.count * 4), BinaryOf(kids).value);
  }

  /** Streams are canonical: what descent accepts is printed back exactly, so no
      two texts describe the same stream, and elevation changes nothing more. */
  lemma {:induction false} TextIsCanonical(t: seq<sextet>)
    requires ParseText(t).Ok?
    ensures var s := ParseText(t).value; WellFormed(s) && TextOf(s) == Ok(t) && Elevated(s) == s
    decreases |t|
  {
    if t == [] {
    } else if t[0] == DASH {
      hide ParseText;
      hide TextOf;
      hide Elevated;
      hide CL.Text;
      hide CL.Valid;
      hide Frames;
      var c, k, r := CutText(t);
      TextIsCanonical(k);
      TextIsCanonical(r);
      PrintCutText(c, ParseText(k).value, ParseText(r).value);
    } else {
      hide I.Exfil;
      hide I.Infil;
      hide IL.Text;
      TextIsCanonical(Obj.TextRest(t));
      FrontOfText(t);
    }
  }

  lemma FrontOfText(t: seq<sextet>)
    requires I.Exfil(t).Ok?
    ensures var p := I.Exfil(t).value;
      && IL.Valid(p) && IL.Plain(p.code) && IL.ReadOndex(p) == p.ondex
      && I.Infil(p).Ok? && I.Infil(p).value + Obj.TextRest(t) == t
  {
    hide I.Exfil;
    hide I.Infil;
    hide IL.Text;
    IL.TextCanonical(t);
    IL.InfilPrints(I.Exfil(t).value);
  }

  lemma {:induction false} FrontOfBinary(b: seq<byte>)
    requires I.Bexfil(b).Ok?
    ensures var p := I.Bexfil(b).value; I.Binfil(p).Ok? && I.Binfil(p).value + Obj.BinaryRest(b) == b
  {
    hide I.Bexfil;
    hide I.Binfil;
    IS.BinaryCanonical(b);
  }

  /** Binary streams are canonical too, those with lead-byte codes included. */
  lemma {:induction false} BinaryIsCanonical(b: seq<byte>)
    requires ParseBinary(b).Ok?
    ensures BinaryOf(ParseBinary(b).value) == Ok(b)
    decreases |b|
  {
    if b == [] {
    } else if GroupAhead(b) {
      hide ParseBinary;
      hide BinaryOf;
      hide CL.Text;
      hide CL.Valid;
      hide Frames;
      hide Decode;
      hide CodeB2ToB64;
      var c, k, r := CutBinary(b);
      BinaryIsCanonical(k);
      BinaryIsCanonical(r);
      PrintCutBinary(c, ParseBinary(k).value, ParseBinary(r).value);
    } else {
      hide I.Bexfil;
      hide I.Binfil;
      hide CodeB2ToB64;
      BinaryIsCanonical(Obj.BinaryRest(b));
      FrontOfBinary(b);
    }
  }

  /** An accepted text and its decoding describe the same stream. */
  lemma {:induction false} DescentsAgree(t: seq<sextet>)
    requires ParseText(t).Ok?
    ensures |t| % 4 == 0 && ParseBinary(Decode(t)) == ParseText(t)
  {
    hide ParseText;
    hide ParseBinary;
    hide TextOf;
    hide BinaryOf;
    hide WellFormed;
    hide Elevated;
    TextIsCanonical(t);
    var s := ParseText(t).value;
    DomainsAgree(s);
    DescentRecoversBinary(s);
  }
}
