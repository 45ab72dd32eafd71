/** Streams of indexed signatures, and the Indexer object of core/indexing.py
    that takes them off the front of a stream. */
module IndexerObject {
  import opened Base64
  import opened Results
  import opened Versions
  import opened Indexing
  import opened IndexingCodes
  import opened IndexingLaws
  import opened IndexingBinary
  import opened IndexingStreams

  ghost predicate AllPrintable(ps: seq<Prim>) {
    forall i | 0 <= i < |ps| :: Valid(ps[i]) && Plain(ps[i].code) && ReadOndex(ps[i]) == ps[i].ondex
  }

  /** The concatenated texts of a list of primitives. */
  ghost function Texts(ps: seq<Prim>): seq<sextet>
    requires AllPrintable(ps)
  {
    if ps == [] then [] else Text(ps[0]) + Texts(ps[1..])
  }

  /** The concatenated binary forms of a list of primitives. */
  ghost function Binaries(ps: seq<Prim>): seq<byte>
    requires AllPrintable(ps)
  {
    if ps == [] then [] else PlainStart(ps[0]); Decode(Text(ps[0])) + Binaries(ps[1..])
  }

  /** The stream behind the primitive that _exfil takes off its front. */
  function TextRest(t: seq<sextet>): (rest: seq<sextet>)
    requires Exfil(t).Ok?
    ensures |rest| < |t|
  {
    hide Exfil;
    hide Sizes;
    hide Text;
    TextCanonical(t);
    SizePositive(Exfil(t).value);
    t[TextSize(Exfil(t).value)..]
  }

  function BinaryRest(b: seq<byte>): (rest: seq<byte>)
    requires Bexfil(b).Ok?
    ensures |rest| < |b|
  {
    hide *;
    BinaryCanonical(b);
    SizePositive(Bexfil(b).value);
    b[ByteLen(TextSize(Bexfil(b).value))..]
  }

  /** The parser takes p off the front of the stream and leaves rest. */
  predicate TakesText(t: seq<sextet>, p: Prim, rest: seq<sextet>) {
    Exfil(t) == Ok(p) && TextRest(t) == rest
  }

  predicate TakesBinary(b: seq<byte>, p: Prim, rest: seq<byte>) {
    Bexfil(b) == Ok(p) && BinaryRest(b) == rest
  }

  lemma SizePositive(p: Prim)
    requires Sizes(p.code).Some?
    ensures 0 < TextSize(p) && 0 < ByteLen(TextSize(p)) && 4 * ByteLen(TextSize(p)) == 3 * TextSize(p)
  {
  }

  /** Parsing with strip until the text is empty. */
  function ParseTexts(t: seq<sextet>): Result<seq<Prim>>
    decreases |t|
  {
    hide Exfil;
    hide TextRest;
    if t == [] then Ok([]) else
    var p :- Exfil(t);
    var rest :- ParseTexts(TextRest(t));
    Ok([p] + rest)
  }

  /** Parsing with strip until the bytes are used up. */
  function ParseBinaries(b: seq<byte>): Result<seq<Prim>>
    decreases |b|
  {
    hide Bexfil;
    hide BinaryRest;
    if b == [] then Ok([]) else
    var p :- Bexfil(b);
    var rest :- ParseBinaries(BinaryRest(b));
    Ok([p] + rest)
  }

  /** Streams are self-framing: the list goes in as one run of characters and
      comes out whole, in either domain. */
  lemma {:induction false} StreamsSelfFrame(ps: seq<Prim>)
    requires AllPrintable(ps)
    ensures ParseTexts(Texts(ps)) == Ok(ps)
    ensures ParseBinaries(Binaries(ps)) == Ok(ps)
  {
    if ps == [] {
    } else {
      hide ParseTexts;
      hide ParseBinaries;
      StreamsSelfFrame(ps[1..]);
      TextsStep(ps);
      BinariesStep(ps);
    }
  }

  lemma {:induction false} TextsStep(ps: seq<Prim>)
    requires AllPrintable(ps) && ps != [] && ParseTexts(Texts(ps[1..])) == Ok(ps[1..])
    ensures ParseTexts(Texts(ps)) == Ok(ps)
  {
    hide AllPrintable;
    hide Exfil;
    hide TextRest;
    hide Texts;
    FrontOfTexts(ps);
    assert [ps[0]] + ps[1..] == ps;
  }

  lemma {:induction false} BinariesStep(ps: seq<Prim>)
    requires AllPrintable(ps) && ps != [] && ParseBinaries(Binaries(ps[1..])) == Ok(ps[1..])
    ensures ParseBinaries(Binaries(ps)) == Ok(ps)
  {
    hide AllPrintable;
    hide Bexfil;
    hide BinaryRest;
    hide Binaries;
    FrontOfBinaries(ps);
    assert [ps[0]] + ps[1..] == ps;
  }

  lemma {:induction false} FrontOfTexts(ps: seq<Prim>)
    requires AllPrintable(ps) && ps != []
    ensures Texts(ps) != [] && TakesText(Texts(ps), ps[0], Texts(ps[1..]))
  {
    hide Exfil;
    hide Valid;
    hide Plain;
    hide Text;
    TextRoundTrip(ps[0], Texts(ps[1..]));
    PlainStart(ps[0]);
  }

  lemma {:induction false} FrontOfBinaries(ps: seq<Prim>)
    requires AllPrintable(ps) && ps != []
    ensures Binaries(ps) != [] && TakesBinary(Binaries(ps), ps[0], Binaries(ps[1..]))
  {
    hide Bexfil;
    hide Binfil;
    hide Valid;
    hide Plain;
    hide Text;
    hide Decode;
    var p, rest := ps[0], Binaries(ps[1..]);
    BinaryIsDecodedText(p);
    BinaryRoundTrip(p, rest);
    PlainStart(p);
    BinaryCanonical(Binaries(ps));
    SizePositive(p);
    assert |Decode(Text(p))| == ByteLen(TextSize(p));
  }

  /** The two streams are images of each other. */
  lemma {:induction false} StreamsDecode(ps: seq<Prim>)
    requires AllPrintable(ps)
    ensures |Texts(ps)| % 4 == 0 && Decode(Texts(ps)) == Binaries(ps)
  {
    hide Valid;
    hide Plain;
    hide Text;
    if ps == [] {
    } else {
      hide Decode;
      StreamsDecode(ps[1..]);
      PlainStart(ps[0]);
      var t, u := Text(ps[0]), Texts(ps[1..]);
      SumOfFours(|t|, |u|);
      DecodeConcat(t, u);
    }
  }

  lemma SumOfFours(m: nat, n: nat)
    requires m % 4 == 0 && n % 4 == 0
    ensures (m + n) % 4 == 0
  {
  }

  /** Siger.__init__: an Indexer whose code is a signature code. */
  function Siger(r: Result<Prim>): Result<Prim> {
    var p :- r;
    if SigCode(p.code) then Ok(p) else Err(ValidationError)
  }

  /** Signature codes have no lead bytes. */
  lemma SigIsPlain(code: Code)
    requires SigCode(code)
    ensures Plain(code)
  {
  }

  /** What Siger takes from raw: a signature code, indices in its range and enough
      bytes, of which it keeps the first 64 or 114. */
  lemma SigerTakes(raw: seq<byte>, code: Code, index: int, ondex: Option<int>)
    ensures var name := Chars(code);
      Siger(Init(raw, code, index, ondex)).Ok? <==>
        (NamesBoth(name) || NamesCurrent(name)) && TakesIndices(name, index, ondex) && |raw| >= SigBytes(name)
    ensures Siger(Init(raw, code, index, ondex)).Ok? ==>
      Siger(Init(raw, code, index, ondex)) == Init(raw, code, index, ondex)
  {
    hide NamesBoth;
    hide NamesCurrent;
    hide TakesIndices;
    hide SigBytes;
    SigNames(code);
    if SigCode(code) {
      hide SigCode;
      hide Init;
      InitSignature(raw, code, index, ondex);
    } else if Init(raw, code, index, ondex).Ok? {
      hide SigCode;
      InitCode(raw, code, index, ondex);
    }
  }

  lemma InitCode(raw: seq<byte>, code: Code, index: int, ondex: Option<int>)
    requires Init(raw, code, index, ondex).Ok?
    ensures Init(raw, code, index, ondex).value.code == code
  {
    hide RawSize;
    hide Fits;
    hide Sizes;
  }

  /** A signature is built from raw exactly under the codes, indices and lengths written
      out; it then survives either wire form, and the two forms are images of each other. */
  lemma SigerRoundTrips(raw: seq<byte>, code: Code, index: int, ondex: Option<int>, t: seq<sextet>, b: seq<byte>)
    ensures var name := Chars(code);
      Siger(Init(raw, code, index, ondex)).Ok? <==>
        (NamesBoth(name) || NamesCurrent(name)) && TakesIndices(name, index, ondex) && |raw| >= SigBytes(name)
    ensures Siger(Init(raw, code, index, ondex)).Ok? ==>
      var p, name := Siger(Init(raw, code, index, ondex)).value, Chars(code);
      && Infil(p).Ok? && |Infil(p).value| == SigChars(name) && SigChars(name) % 4 == 0
      && Binfil(p) == Ok(Decode(Infil(p).value))
      && Siger(Exfil(Infil(p).value + t)) == Ok(p) && Siger(Bexfil(Binfil(p).value + b)) == Ok(p)
      && p == Prim(code, index, if ondex.None? && NamesBoth(name) then Some(index) else ondex, raw[..SigBytes(name)])
  {
    hide Exfil;
    hide Bexfil;
    hide Infil;
    hide Binfil;
    hide Init;
    hide Text;
    hide Plain;
    hide Valid;
    hide Decode;
    hide Sizes;
    hide ReadOndex;
    hide SigChars;
    hide SigBytes;
    hide NamesBoth;
    hide NamesCurrent;
    hide TakesIndices;
    SigerTakes(raw, code, index, ondex);
    if Siger(Init(raw, code, index, ondex)).Ok? {
      SigNames(code);
      hide SigCode;
      InitSignature(raw, code, index, ondex);
      SigIsPlain(code);
      InitValid(raw, code, index, ondex);
      var p := Init(raw, code, index, ondex).value;
      SigRow(code, p.index);
      InfilPrints(p);
      BinaryIsDecodedText(p);
      SigReadsBack(p);
      TextRoundTrip(p, t);
      BinaryRoundTrip(p, b);
    }
  }

  /** A signature code has room for the other index, or needs none. */
  lemma SigReadsBack(p: Prim)
    requires Valid(p) && Plain(p.code) && SigCode(p.code)
    ensures p.(ondex := ReadOndex(p)) == p
  {
    hide Sizes;
    ReadsBackIff(p);
  }

  /** A primitive built with a lead-byte code is lost: it prints in no domain. */
  lemma {:induction false} LeadCodesDoNotPrint(raw: seq<byte>, code: Code, index: int, ondex: Option<int>)
    requires Init(raw, code, index, ondex).Ok?
    ensures var p := Init(raw, code, index, ondex).value;
      && (Infil(p).Ok? <==> Plain(code)) && (Binfil(p).Ok? <==> Plain(code))
  {
    InitValid(raw, code, index, ondex);
    var p := Init(raw, code, index, ondex).value;
    if Plain(code) {
      InfilPrints(p);
      BinaryIsDecodedText(p);
    } else {
      LeadSizes(Sizes(code).value, |p.raw|);
    }
  }

  lemma LeadSizes(sz: Xizage, n: nat)
    requires WellFormedRow(sz) && sz.ls == 1 && n == (sz.fs.value - sz.Cs()) * 3 / 4
    ensures n % 3 == 0 && sz.Cs() % 4 != 0 - sz.ls
  {
    QuadsOfMaterial(sz.fs.value, sz.Cs());
  }

  lemma QuadsOfMaterial(f: nat, c: nat)
    requires f % 4 == 0 && c % 4 == 0 && c <= f
    ensures (f - c) * 3 / 4 % 3 == 0
  {
    var q := f / 4 - c / 4;
    assert (f - c) * 3 == q * 12;
    Twelfths(q);
  }

  lemma Twelfths(q: nat)
    ensures q * 12 / 4 % 3 == 0
  {
    assert q * 12 / 4 == q * 3;
  }

  /** A bytearray of the text domain. */
  class TextStream {
    var text: seq<sextet>

    constructor (text: seq<sextet>)
      ensures this.text == text
    {
      this.text := text;
    }
  }

  /** A bytearray of the binary domain. */
  class ByteStream {
    var bytes: seq<byte>

    constructor (bytes: seq<byte>)
      ensures this.bytes == bytes
    {
      this.bytes := bytes;
    }
  }

  class Indexer {
    var code: Code
    var index: nat
    var ondex: Option<int>
    var raw: seq<byte>

    function Value(): Prim
      reads this
    {
      Prim(code, index, ondex, raw)
    }

    method Assign(p: Prim)
      modifies this
      ensures Value() == p
    {
      code, index, ondex, raw := p.code, p.index, p.ondex, p.raw;
    }

    method FromRaw(raw: seq<byte>, code: Code, index: int, ondex: Option<int>) returns (o: Outcome)
      modifies this
      ensures match Init(raw, code, index, ondex)
        case Ok(p) => o == Pass && Value() == p
        case Err(e) => o == Fail(e) && Value() == old(Value())
      ensures var name := Chars(code);
        NamesBoth(name) || NamesCurrent(name) ==>
          && (o == Pass <==> TakesIndices(name, index, ondex) && |raw| >= SigBytes(name))
          && (o == Pass ==> this.raw == raw[..SigBytes(name)])
    {
      if NamesBoth(Chars(code)) || NamesCurrent(Chars(code)) { InitSignature(raw, code, index, ondex); }
      var r := Init(raw, code, index, ondex);
      if r.Err? {
        return Fail(r.error);
      }
      Assign(r.value);
      return Pass;
    }

    /** Parse, then delete from the stream as many characters as the parsed
        primitive prints: printing does not raise, and they are those read. */
    method FromText(ims: TextStream, strip: bool) returns (o: Outcome)
      modifies this, ims
      ensures match Exfil(old(ims.text))
        case Ok(p) => o == Pass && Value() == p
          && ims.text == (if strip then TextRest(old(ims.text)) else old(ims.text))
        case Err(e) => o == Fail(e) && Value() == old(Value()) && ims.text == old(ims.text)
    {
      hide Exfil;
      hide InfilRow;
      var r := Exfil(ims.text);
      if r.Err? {
        return Fail(r.error);
      }
      TextCanonical(ims.text);
      InfilPrints(r.value);
      Assign(r.value);
      if strip {
        var printed := Infil(Value());
        ims.text := ims.text[|printed.value|..];
      }
      return Pass;
    }

    method FromBinary(ims: ByteStream, strip: bool) returns (o: Outcome)
      modifies this, ims
      ensures match Bexfil(old(ims.bytes))
        case Ok(p) => o == Pass && Value() == p
          && ims.bytes == (if strip then BinaryRest(old(ims.bytes)) else old(ims.bytes))
        case Err(e) => o == Fail(e) && Value() == old(Value()) && ims.bytes == old(ims.bytes)
    {
      hide Bexfil;
      hide BinfilRow;
      var r := Bexfil(ims.bytes);
      if r.Err? {
        return Fail(r.error);
      }
      BinaryCanonical(ims.bytes);
      Assign(r.value);
      if strip {
        var printed := Binfil(Value());
        ims.bytes := ims.bytes[|printed.value|..];
      }
      return Pass;
    }
  }

  /** Take signatures off the stream until it is empty or one does not parse. */
  method Drain(ims: TextStream) returns (ps: seq<Prim>, o: Outcome)
    modifies ims
    ensures o == Pass ==> ims.text == [] && ParseTexts(old(ims.text)) == Ok(ps)
    ensures o.Fail? ==> ParseTexts(old(ims.text)) == Err(o.error) && Exfil(ims.text) == Err(o.error)
  {
    hide Exfil;
    hide TextRest;
    ps, o := [], Pass;
    ghost var all := ims.text;
    PrependNil(ParseTexts(all));
    while ims.text != []
      invariant ParseTexts(all) == Prepend(ps, ParseTexts(ims.text))
      decreases |ims.text|
    {
      var x := new Indexer;
      o := x.FromText(ims, true);
      if o.Fail? {
        return;
      }
      PrependStep(ps, x.Value(), ParseTexts(ims.text));
      ps := ps + [x.Value()];
    }
    o := Pass;
    assert ps + [] == ps;
  }

  /** The same off a stream of bytes. */
  method DrainBytes(ims: ByteStream) returns (ps: seq<Prim>, o: Outcome)
    modifies ims
    ensures o == Pass ==> ims.bytes == [] && ParseBinaries(old(ims.bytes)) == Ok(ps)
    ensures o.Fail? ==> ParseBinaries(old(ims.bytes)) == Err(o.error) && Bexfil(ims.bytes) == Err(o.error)
  {
    hide Bexfil;
    hide BinaryRest;
    ps, o := [], Pass;
    ghost var all := ims.bytes;
    PrependNil(ParseBinaries(all));
    while ims.bytes != []
      invariant ParseBinaries(all) == Prepend(ps, ParseBinaries(ims.bytes))
      decreases |ims.bytes|
    {
      var x := new Indexer;
      o := x.FromBinary(ims, true);
      if o.Fail? {
        return;
      }
      PrependStep(ps, x.Value(), ParseBinaries(ims.bytes));
      ps := ps + [x.Value()];
    }
    o := Pass;
    assert ps + [] == ps;
  }

  function Prepend(ps: seq<Prim>, r: Result<seq<Prim>>): Result<seq<Prim>> {
    var rest :- r;
    Ok(ps + rest)
  }

  lemma PrependNil(r: Result<seq<Prim>>)
    ensures Prepend([], r) == r
  {
    if r.Ok? {
      assert [] + r.value == r.value;
    }
  }

  lemma PrependStep(ps: seq<Prim>, p: Prim, r: Result<seq<Prim>>)
    ensures Prepend(ps, Prepend([p], r)) == Prepend(ps + [p], r)
  {
    if r.Ok? {
      assert ps + ([p] + r.value) == ps + [p] + r.value;
    }
  }
}
