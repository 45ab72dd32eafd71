/** The Counter object of core/counting.py, and Counter.enclose, which builds
    its result in place. */
module CounterObject {
  import opened Base64
  import opened Results
  import opened Counting
  import opened CountingLaws
  import opened IndexerObject

  class Counter {
    const version: Version
    var code: Code
    var count: nat

    constructor (version: Version)
      ensures this.version == version
    {
      this.version := version;
    }

    function Value(): Ctr
      reads this
    {
      Ctr(code, count)
    }

    method FromCode(code: Code, count: int) returns (o: Outcome)
      modifies this
      ensures match Init(version, code, count)
        case Ok(c) => o == Pass && Value() == c
        case Err(e) => o == Fail(e) && Value() == old(Value())
    {
      var r := Init(version, code, count);
      if r.Err? {
        return Fail(r.error);
      }
      this.code, this.count := r.value.code, r.value.count;
      return Pass;
    }

    /** Parse and, if asked, delete the counter: the rest of the stream follows
        the counter's own print. */
    method FromText(ims: TextStream, strip: bool) returns (o: Outcome)
      modifies this, ims
      ensures !Supported(version) ==> o == Fail(InvalidVersionError)
      ensures Supported(version) ==> match Exfil(version.major, old(ims.text))
        case Ok(c) => o == Pass && Value() == c && Valid(version.major, c)
          && old(ims.text) == Text(version.major, c) + old(ims.text)[|Text(version.major, c)|..]
          && ims.text == (if strip then old(ims.text)[|Text(version.major, c)|..] else old(ims.text))
        case Err(e) => o == Fail(e)
      ensures o.Fail? ==> Value() == old(Value()) && ims.text == old(ims.text)
    {
      hide Text;
      if !Supported(version) {
        return Fail(InvalidVersionError);
      }
      var r := Exfil(version.major, ims.text);
      if r.Err? {
        return Fail(r.error);
      }
      TextCanonical(version.major, ims.text);
      code, count := r.value.code, r.value.count;
      if strip {
        ims.text := ims.text[Sizes(version.major, code).value.fs..];
      }
      return Pass;
    }

    method FromBinary(ims: ByteStream, strip: bool) returns (o: Outcome)
      modifies this, ims
      ensures !Supported(version) ==> o == Fail(InvalidVersionError)
      ensures Supported(version) ==> match Bexfil(version.major, old(ims.bytes))
        case Ok(c) => o == Pass && Value() == c && Valid(version.major, c)
          && old(ims.bytes) == Decode(Text(version.major, c)) + old(ims.bytes)[ByteSize(version.major, c, Bny)..]
          && ims.bytes == (if strip then old(ims.bytes)[ByteSize(version.major, c, Bny)..] else old(ims.bytes))
        case Err(e) => o == Fail(e)
      ensures o.Fail? ==> Value() == old(Value()) && ims.bytes == old(ims.bytes)
    {
      hide Text;
      hide Decode;
      hide CodeB2ToB64;
      if !Supported(version) {
        return Fail(InvalidVersionError);
      }
      var r := Bexfil(version.major, ims.bytes);
      if r.Err? {
        return Fail(r.error);
      }
      BinaryCanonical(version.major, ims.bytes);
      code, count := r.value.code, r.value.count;
      if strip {
        ims.bytes := ims.bytes[Sizes(version.major, code).value.fs * 3 / 4..];
      }
      return Pass;
    }
  }

  /** Counter.enclose on text: count the quadlets, print the counter, extend. */
  method Enclose(v: Version, code: Code, qb64: seq<sextet>) returns (enclosure: TextStream, o: Outcome)
    ensures fresh(enclosure)
    ensures match EncloseText(v, code, qb64)
      case Ok(t) => o == Pass && enclosure.text == t
      case Err(e) => o == Fail(e) && enclosure.text == []
  {
    hide Infil;
    hide Init;
    enclosure := new TextStream([]);
    if |qb64| % 4 != 0 {
      o := Fail(ValueError);
      return;
    }
    var counter := new Counter(v);
    o := counter.FromCode(code, |qb64| / 4);
    if o.Fail? {
      return;
    }
    if v.major < 2 && !CountsQuadlets1(counter.code) {
      o := Fail(ValueError);
      return;
    }
    var head := Infil(v.major, counter.Value());
    if head.Err? {
      o := Fail(head.error);
      return;
    }
    enclosure.text := head.value;
    enclosure.text := enclosure.text + qb64;
  }

  /** Counter.enclose on bytes: the same with triplets. */
  method EncloseBytes(v: Version, code: Code, qb2: seq<byte>) returns (enclosure: ByteStream, o: Outcome)
    ensures fresh(enclosure)
    ensures match EncloseBinary(v, code, qb2)
      case Ok(b) => o == Pass && enclosure.bytes == b
      case Err(e) => o == Fail(e) && enclosure.bytes == []
  {
    hide Binfil;
    hide Init;
    enclosure := new ByteStream([]);
    if |qb2| % 3 != 0 {
      o := Fail(ValueError);
      return;
    }
    var counter := new Counter(v);
    o := counter.FromCode(code, |qb2| / 3);
    if o.Fail? {
      return;
    }
    if v.major < 2 && !CountsQuadlets1(counter.code) {
      o := Fail(ValueError);
      return;
    }
    var head := Binfil(v.major, counter.Value());
    if head.Err? {
      o := Fail(head.error);
      return;
    }
    enclosure.bytes := head.value;
    enclosure.bytes := enclosure.bytes + qb2;
  }
}
