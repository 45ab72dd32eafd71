# A Dafny model of KERI's codec, key manager, escrows and mailboxes

This project models the parts of the KERI reference library
(`src/keri/keri_official_lib`) whose correctness rests on an argument, and proves
that argument.  Check it with `dafny verify dfyconfig.toml`.

- **CESR codec** (`Radix`, `Base64`, `Indexing*`, `Indexer`, `Counting*`,
  `Counter`, `Groups`).  Text is a sequence of sextets, in the URL-safe alphabet of
  section 5 of RFC 4648; binary is a sequence of bytes.  The four hand-written
  converters of indexed signatures and of count codes are functions with the
  branches, tables and errors of the code.  Printers and parsers are proved to undo
  each other both ways, the two domains to be images of each other, streams to frame
  themselves, and nested groups to survive recursive descent.
- **Version strings** (`Versions*`).  The two grammars of `kering.py`, their printer,
  parser and search.
- **Key manager and rotation** (`Keeping*`, `Manager`, `Habbing*`, `Hab`).  Keys are
  named by how they were made (path, secret or event), so distinct paths are distinct
  keys.  A *lot* is one set of keys; the central invariant, `StandsAt`, says that the
  store is at lot n of a list of lots, with that list on record and every private key
  from lot n - 1 on present.  Rotation of a Hab takes a verdict for each event and is
  proved to keep key store and key event log in step over all runs.
- **Escrows** (`Delegating*`, `Anchorer`, `Grouping*`, `Counselor`).  Each call sees an
  arbitrary *world* (key states, logs, receipts, signatures); invariants speak of the
  worlds seen so far, in order, so the results hold for every environment.
- **Mailboxes** (`Mailboxing*`, `Mailboxer`), **watchers** (`Watching`,
  `Adjudicator`) and **contacts** (`Organizing*`, `Organizer`).

Code that changes state is a class whose methods keep the source's steps and loops;
each method is proved to have exactly the effect of a function of its old state, and
the laws are lemmas about that function and about runs of it.  Codes, bounds, names and
default values are written out in `IndexingCodes`, `CountingCodes`, `VersionsForms` and
`KeepingPaths`, and what one step does in each case in `DelegatingSteps`, `GroupingSteps`
and `WatchingVerdicts`, so that the functions are tied to more than each other.  The
functions themselves have no row below: the lemmas and methods about them do.

Where code and expectation part, the model follows the code:

- `_bexfil` of both codecs compares an integer with a byte string to find count and op
  code starts, so the test never holds and another error is raised.
- A primitive built with a lead-byte code (`1z`, `4z`) prints in no domain, and no text
  of such a code parses.
- `_binfil` checks the index against the whole soft size, which differs from `_infil`
  only for values that `__init__` refuses.
- A V1 small counter above 4095 whose big code is not in the table is a KeyError.
- `BaseHab.rotate` swallows MissingSignatureError after the key store has moved on, and
  `Hab.rotate` then erases: `HabbingLaws.RotateHabKeepsStep` gives the exact condition.
- `Hab.make` from secrets at an iridx above 0 looks for its keys under the first key of
  that list.  With a digest for its prefix it fails unless another sequence stands
  there; with that key for its prefix it succeeds, and the Hab is out of step unless a
  sequence stands there (`HabbingLaws.MakeSecretInStep`).  A sequence that stands there is
  taken over (`HabbingLaws.MakeSecretTakesOver`).  `ingest` accepts an iridx just past
  its lists (`KeepingRuns.IngestPastEnd`).
- Derivation paths are joined without separators, so sequences with one salt can share a
  key when the stem of one starts with the stem of the other
  (`HabbingApart.NamesCanMeet`).
- `Anchorer` records a seal under the latest event of the prefix, not under the event
  approved; a second event at a recorded number is lost on publication.
- `Counselor` compares no digest when it takes an event from the log, chooses the route
  by the latest event of the log, removes all pending events of a group with one, and
  asks for completeness at the latest number.  `GroupingRuns` and `GroupingStages` give
  a run for each: the first two break the promise of safety with a single event started.
  The guards under which it holds are in `GroupingLaws.GroupSafety`, and the stages of
  the Anchorer at which the elected member needs none in `GroupingStages.SafeStages`.
- A mailbox skips an empty message without counting it, and so repeats a later one.
- A contact record keeps the id that `get` adds, and an id in the data of an update
  shows in `list` and not in `get`.

## Model

| member | source | states |
|---|---|---|
| `Base64.WriteB64` | src/keri/keri_official_lib/help/helping.py:297-311 | the digit loop of intToB64 writes, for every number and minimum length, exactly the positional base-64 digits of the number, as many as are needed |
| `Base64.ReadB64` | src/keri/keri_official_lib/help/helping.py:322-334 | the loop of b64ToInt returns the positional value of any text, and raises on the empty one |
| `Base64.CodeRoundTrip` | src/keri/keri_official_lib/help/helping.py:337-388 | codeB2ToB64 gives back every code that codeB64ToB2 packed, whatever bytes follow it |
| `Base64.NabIsCode` | src/keri/keri_official_lib/help/helping.py:391-413 | nabSextets of bytes is codeB64ToB2 of the sextets read from them, so tables keyed by such bytes answer as the text tables do |
| `Base64.DecodeVal` | src/keri/keri_official_lib/help/helping.py:337-359 | a text and its bytes denote the same integer |
| `IndexingLaws.InitValid` | src/keri/keri_official_lib/core/indexing.py:254-309 | what `__init__` accepts from raw is a primitive on which every later law holds; what it accepts is in the rows of `IndexingCodes` |
| `IndexingCodes.SigNames` | src/keri/keri_official_lib/core/indexing.py:70-148 | the three codices have exactly the codes A to F, 0A, 0B, 2A to 2F, 3A and 3B, those that end in A, C or E for both lists and the others for the current one |
| `IndexingCodes.InitSignature` | src/keri/keri_official_lib/core/indexing.py:195-309 | under a signature code construction from raw succeeds exactly when the index is below 64 (one character, 0A, 0B), 4096 (2A to 2F) or 64^3 (3A, 3B), the other index is absent or, for both lists, the same one or in that range, and raw has 64 bytes, or 114 under 0A, 0B, 3A and 3B; it keeps just those; else the error is named |
| `IndexingCodes.InitOther` | src/keri/keri_official_lib/core/indexing.py:195-309 | the same of the codes to be decided: 0z takes three bytes for every quadlet of its index, 1z and 4z take 54 |
| `IndexingCodes.InitUnknown` | src/keri/keri_official_lib/core/indexing.py:254-262 | nothing is constructed under any other code |
| `IndexingCodes.NoIndexed` | src/keri/keri_official_lib/core/indexing.py:525-540 | a text that starts with a dash, an underscore or a digit from 5 on is a count code, op code or code error |
| `IndexingLaws.InfilPrints` | src/keri/keri_official_lib/core/indexing.py:399-456 | every accepted primitive of a code without lead bytes prints, and what is printed is its code followed by the material part of its encoded raw |
| `IndexingLaws.TextRoundTrip` | src/keri/keri_official_lib/core/indexing.py:517-633 | parsing a printed primitive, whatever follows it, gives code, raw and index back, and the other index as far as the code holds it |
| `IndexingLaws.TextCanonical` | src/keri/keri_official_lib/core/indexing.py:580-633 | whatever text is accepted is reproduced character for character by the printer over its full size: no two texts parse alike, and no code with lead bytes parses |
| `IndexingStreams.ReadsBackIff` | src/keri/keri_official_lib/core/indexing.py:266-309 | a parsed print equals the primitive exactly when its code is a signature code or its other index is its index: the exact condition under which the to-be-decided code survives |
| `IndexingBinary.BinaryIsDecodedText` | src/keri/keri_official_lib/core/indexing.py:459-514 | for every valid primitive the shifted code integer followed by raw is the Base64 decoding of the overlaid text |
| `IndexingBinary.BinaryParseIsTextParse` | src/keri/keri_official_lib/core/indexing.py:637-738 | parsing the decoding of a text gives the result or the error that parsing the text gives; the exceptions (op and count starts, lead-byte codes) are named |
| `IndexingStreams.BinaryCanonical` | src/keri/keri_official_lib/core/indexing.py:637-738 | accepted bytes are reproduced exactly by the binary printer, for every code |
| `IndexingStreams.BinaryRoundTrip` | src/keri/keri_official_lib/core/indexing.py:637-738 | the binary parser undoes the binary printer whatever follows |
| `IndexingStreams.TextPrefixIsShort` | src/keri/keri_official_lib/core/indexing.py:525-591 | every proper prefix of one printed text ends in ShortageError and in nothing else |
| `IndexingStreams.BinaryPrefixIsShort` | src/keri/keri_official_lib/core/indexing.py:645-708 | the same of every proper prefix of the bytes |
| `IndexerObject.StreamsSelfFrame` | src/keri/keri_official_lib/core/indexing.py:311-322 | repeated parsing of the concatenation of any list of printed signatures returns that list, in both domains |
| `IndexerObject.StreamsDecode` | src/keri/keri_official_lib/core/indexing.py:311-322 | the two concatenations are images of each other, on a 24-bit boundary |
| `IndexerObject.SigerRoundTrips` | src/keri/keri_official_lib/core/indexing.py:741-789 | a signature is built from raw exactly under the codes, indices and lengths written out, keeps the first 64 or 114 bytes, prints 88, 156, 92 or 160 characters, and survives either wire form; the forms are images of each other |
| `IndexerObject.LeadCodesDoNotPrint` | src/keri/keri_official_lib/core/indexing.py:399-514 | a primitive built with a lead-byte code prints in neither domain |
| `IndexerObject.Indexer.FromRaw` | src/keri/keri_official_lib/core/indexing.py:254-309 | construction from raw sets the four fields to the checked values or raises and sets none; under a signature code it passes exactly for indices in range and enough bytes, of which it keeps the first |
| `IndexerObject.Indexer.FromText` | src/keri/keri_official_lib/core/indexing.py:311-316 | parsing takes exactly the printed size of what it parsed off the front of the buffer, or raises and leaves object and buffer |
| `IndexerObject.Indexer.FromBinary` | src/keri/keri_official_lib/core/indexing.py:317-322 | the same for bytes |
| `IndexerObject.Drain` | src/keri/keri_official_lib/core/indexing.py:311-316 | parsing until the text buffer is empty returns the list the pure parse gives and empties it, or stops at the first failure |
| `IndexerObject.DrainBytes` | src/keri/keri_official_lib/core/indexing.py:317-322 | the same off a buffer of bytes |
| `CountingLaws.InitValid` | src/keri/keri_official_lib/core/counting.py:725-750 | an accepted construction leaves a code of its table and a count that fits it |
| `CountingCodes.TableNames` | src/keri/keri_official_lib/core/counting.py:566-660 | each version has exactly the codes written out, with counts of 2, 5 or 3 characters |
| `CountingCodes.InitByName` | src/keri/keri_official_lib/core/counting.py:684-750 | construction under every code and version, in full: which counts are taken, which are elevated to which code, and each error |
| `CountingLaws.Prints` | src/keri/keri_official_lib/core/counting.py:1086-1135 | both printers succeed on it and the binary form is the decoding of the text form |
| `CountingLaws.TextRoundTrip` | src/keri/keri_official_lib/core/counting.py:1137-1179 | the parser undoes the printer whatever follows |
| `CountingLaws.TextCanonical` | src/keri/keri_official_lib/core/counting.py:1137-1179 | an accepted text is what the printer prints of the result |
| `CountingLaws.BinaryParseIsTextParse` | src/keri/keri_official_lib/core/counting.py:1182-1219 | parsing the bytes of any text on a 24-bit boundary gives the result or the error that parsing the text gives |
| `CountingLaws.BinaryAccepts` | src/keri/keri_official_lib/core/counting.py:1182-1219 | bytes of any length are accepted exactly when the text of their whole triplets is, with the same counter |
| `CountingLaws.BinaryRoundTrip` | src/keri/keri_official_lib/core/counting.py:1182-1219 | the binary parser undoes the binary printer whatever follows |
| `CountingLaws.BinaryCanonical` | src/keri/keri_official_lib/core/counting.py:1182-1219 | accepted bytes are what the binary printer prints of the result |
| `CountingLaws.V2Construction` | src/keri/keri_official_lib/core/counting.py:725-750 | a V2 code accepts exactly the counts below 64^5 and is elevated exactly when the count is above 4095 |
| `CountingLaws.V1Construction` | src/keri/keri_official_lib/core/counting.py:725-750 | a V1 small code accepts the same counts exactly when its table has the big code; otherwise a larger count is a KeyError |
| `CountingLaws.GenusConstruction` | src/keri/keri_official_lib/core/counting.py:725-750 | the genus-version code accepts exactly the counts below 64^3 and is never elevated |
| `CountingLaws.PrintedCountIsInjective` | src/keri/keri_official_lib/core/counting.py:725-750 | under one given code two counts that print alike are equal, elevated or not |
| `CountingLaws.VersionRoundTrip` | src/keri/keri_official_lib/core/counting.py:1017-1083 | verToB64 accepts exactly major 0-63 and minor 0-4095, and b64ToVer inverts it |
| `CountingLaws.VersionCanonical` | src/keri/keri_official_lib/core/counting.py:1017-1083 | verToB64 reproduces every three characters b64ToVer reads |
| `CounterObject.Counter.FromCode` | src/keri/keri_official_lib/core/counting.py:725-750 | construction sets code and count to the promoted code and the count, or raises |
| `CounterObject.Counter.FromText` | src/keri/keri_official_lib/core/counting.py:1137-1179 | parsing strips exactly the counter off the buffer |
| `CounterObject.Counter.FromBinary` | src/keri/keri_official_lib/core/counting.py:1182-1219 | the same for bytes |
| `CounterObject.Enclose` | src/keri/keri_official_lib/core/counting.py:799-816 | enclosing puts the counter of the quadlets in front of the text it was given |
| `CounterObject.EncloseBytes` | src/keri/keri_official_lib/core/counting.py:818-831 | the same with triplets in front of bytes |
| `CountingCodes.EnclosedText` | src/keri/keri_official_lib/core/counting.py:799-816 | enclosing text passes exactly for whole quadlets, a count the code takes and, in V1, a code that counts quadlets; a parser finds the counter of the quadlets at the front and the text behind it |
| `CountingCodes.EnclosedBytes` | src/keri/keri_official_lib/core/counting.py:818-831 | the same of triplets and bytes |
| `CountingCodes.NoCounter` | src/keri/keri_official_lib/core/counting.py:1137-1165 | a text that starts with no count code is an op code error behind an underscore, else a code error |
| `Groups.DomainsAgree` | src/keri/keri_official_lib/core/counting.py:773-829 | for every tree of V2 groups over indexed signatures the binary form is the Base64 decoding of the text form at every depth, and the two fail together |
| `Groups.DescentRecoversText` | src/keri/keri_official_lib/core/counting.py:973-1003 | recursive descent, cutting what each counter counts, terminates and gives the tree back with every group under the code its count elevated it to |
| `Groups.DescentRecoversBinary` | src/keri/keri_official_lib/core/counting.py:973-1003 | the same over bytes |
| `Groups.TextIsCanonical` | src/keri/keri_official_lib/core/counting.py:1137-1179 | every text descent accepts is printed back exactly from its tree |
| `Groups.BinaryIsCanonical` | src/keri/keri_official_lib/core/counting.py:1182-1219 | the same over bytes |
| `Groups.DescentsAgree` | src/keri/keri_official_lib/core/counting.py:973-1003 | an accepted text and its decoding describe the same tree |
| `VersionsLaws.RoundTripIffInRange` | src/keri/keri_official_lib/kering.py:140-208 | deversify inverts versify exactly on the values whose fields fit the fixed widths |
| `VersionsLaws.Text1RoundTrip` | src/keri/keri_official_lib/kering.py:31-63 | a version 1 string in range parses back whatever follows |
| `VersionsLaws.Text2RoundTrip` | src/keri/keri_official_lib/kering.py:31-63 | a version 2 string in range parses back whatever follows |
| `VersionsLaws.VersifyReproduces` | src/keri/keri_official_lib/kering.py:140-208 | versify reproduces every string deversify accepts |
| `VersionsLaws.GrammarsDisjoint` | src/keri/keri_official_lib/kering.py:31-63 | the two grammars never match at one position |
| `VersionsLaws.SmellFinds` | src/keri/keri_official_lib/kering.py:211-233 | smell finds the version string behind any short prefix without an upper-case letter, when the message is long enough |
| `VersionsForms.DeversifyIs` | src/keri/keri_official_lib/kering.py:67-133 | deversify takes exactly the strings of two forms, with the protocols KERI and ACDC, the major versions 0, 1 and 2, the kinds and the terminators written out, and reads their fields |
| `VersionsForms.DeversifyFails` | src/keri/keri_official_lib/kering.py:67-133 | what it raises on the others |
| `VersionsForms.VersifyTakes` | src/keri/keri_official_lib/kering.py:140-176 | versify takes exactly these protocols, kinds and version numbers, and what it raises otherwise |
| `VersionsForms.SmellLooks` | src/keri/keri_official_lib/kering.py:211-233 | smell asks for 27 characters and takes the first match that starts at offset 8 at the latest |
| `KeepingLaws.PathsDiffer` | src/keri/keri_official_lib/app/keeping.py:542-544 | two derivation paths differ when ridx does not fall and kidx rises, though the digits are joined without separator |
| `KeepingLaws.PathsCanMeet` | src/keri/keri_official_lib/app/keeping.py:542-544 | without that order two different pairs share a path |
| `KeepingPaths.PathParts` | src/keri/keri_official_lib/app/keeping.py:542-544 | a string is the derivation path exactly when it is the stem, or the hex sequence index without one, then the hex rotation index, then the hex key index, each unpadded, and nothing else |
| `KeepingPaths.CreateMakes` | src/keri/keri_official_lib/app/keeping.py:542-550 | the created keys are exactly those of the salt under the paths of consecutive key indices |
| `KeepingPaths.InceptMakes` | src/keri/keri_official_lib/app/keeping.py:1017-1077 | a successful incept makes the current keys at rotation 0 from key index 0 on and the next ones at rotation 1 from where those end, and answers the first and the digests of the second |
| `KeepingPaths.SequencesCount` | src/keri/keri_official_lib/app/keeping.py:1055-1077 | the sequence index goes up by one with every sequence made and with nothing else |
| `KeepingLaws.KeysDistinct` | src/keri/keri_official_lib/app/keeping.py:1028-1031 | no two places of one key sequence hold the same key |
| `KeepingLaws.ReplaySteps` | src/keri/keri_official_lib/app/keeping.py:1685-1728 | replay moves one lot on and answers its keys with the digests of the lot after it, or at the end raises IndexError and changes nothing; erasing removes exactly the stale lot; other prefixes are untouched |
| `KeepingLaws.RotateSteps` | src/keri/keri_official_lib/app/keeping.py:1178-1246 | rotate reveals the committed lot, makes the next at ridx + 1 and at the total of all earlier keys, or raises and changes nothing |
| `KeepingRuns.RunsAreSound` | src/keri/keri_official_lib/app/keeping.py:1055-1137 | after any calls on the Manager everything stored belongs to a reserved prefix |
| `KeepingRuns.InceptSound` | src/keri/keri_official_lib/app/keeping.py:1055-1079 | in such a store incept fails exactly on bad counts or a reserved key, and a failed incept changes nothing |
| `KeepingRuns.MoveSound` | src/keri/keri_official_lib/app/keeping.py:1092-1137 | in such a store move succeeds exactly under its tests and never fails half-way |
| `KeepingRuns.InceptStarts` | src/keri/keri_official_lib/app/keeping.py:1028-1077 | a successful incept stands at the first lot of its key sequence and answers that lot and the digests of the second |
| `KeepingRuns.SaltyRunStands` | src/keri/keri_official_lib/app/keeping.py:1178-1246 | over any run of incept and rotates each answer commits to exactly the keys the next one reveals; the list of lots is complete and, with erase, the private keys are exactly those of old, new and next |
| `KeepingRuns.IngestStarts` | src/keri/keri_official_lib/app/keeping.py:1558-1649 | ingest of distinct keys begun before its last list stands at list iridx of the given lists and one made lot |
| `KeepingRuns.IngestPastEnd` | src/keri/keri_official_lib/app/keeping.py:1558-1649 | begun after its last list it is accepted with no current and no next keys, and the first replay answers no keys |
| `KeepingRuns.ReplaysWalk` | src/keri/keri_official_lib/app/keeping.py:1685-1728 | any number of replays walks the lots in order, advances exactly while there is a lot after the next, and then raises IndexError for ever without change |
| `KeepingRuns.IngestReplays` | src/keri/keri_official_lib/app/keeping.py:1558-1728 | after ingest of k lists exactly k - 1 - iridx replays advance, the last one committing to the made keys |
| `KeepingRuns.MoveTransports` | src/keri/keri_official_lib/app/keeping.py:1092-1137 | a move carries parameters, situation and the whole list of keys to the new prefix; the old keeps its list, all others everything |
| `ManagerObject.CreateKeys` | src/keri/keri_official_lib/app/keeping.py:522-550 | the loop of create makes the keys of consecutive key indices, each under the path of stem, rotation index and key index in this order |
| `ManagerObject.Manager.Incept` | src/keri/keri_official_lib/app/keeping.py:947-1077 | the method, writing one database after another, has the effect and answer of the specification in every case, and the keys it answers are those of the salt under the paths of rotation 0 |
| `ManagerObject.Manager.Rotate` | src/keri/keri_official_lib/app/keeping.py:1140-1246 | the same |
| `ManagerObject.Manager.Replay` | src/keri/keri_official_lib/app/keeping.py:1652-1728 | the same |
| `ManagerObject.Manager.Move` | src/keri/keri_official_lib/app/keeping.py:1080-1137 | the same, with the copying loop that ends at the first gap or clash |
| `ManagerObject.Manager.Ingest` | src/keri/keri_official_lib/app/keeping.py:1474-1649 | the same, with the loop over lists that sets old, new and next as it passes iridx |
| `HabbingLaws.IndicesComplete` | src/keri/keri_official_lib/app/habbing.py:1331-1338 | keys that were committed to in full are found at every prior next position |
| `HabbingLaws.AdvanceIs` | src/keri/keri_official_lib/app/habbing.py:2670-2676 | replay, or rotate at its end, reveals the committed lot or changes nothing |
| `HabbingLaws.RotateHabIs` | src/keri/keri_official_lib/app/habbing.py:2662-2703 | what rotate does in every case: no event and no change; a refused event and the Hab in step where it was, the made lot kept; an accepted event and the Hab in step one lot on; the prior next check always finds all positions |
| `HabbingLaws.RotateHabKeepsStep` | src/keri/keri_official_lib/app/habbing.py:1370-1378 | rotate keeps key store and log in step exactly unless the event was made, its prior threshold met and MissingSignatureError swallowed |
| `HabbingLaws.RetryReusesLot` | src/keri/keri_official_lib/app/habbing.py:2684-2696 | after a refused event a retry, whatever count it asks for, reveals and commits to the same keys and makes no new lot |
| `HabbingLaws.RunKeepsStep` | src/keri/keri_official_lib/app/habbing.py:2662-2703 | over every run with any accept or refuse each time the key store stays in step with the log and every event reveals exactly what the one before committed to |
| `HabbingLaws.MakeFreshInStep` | src/keri/keri_official_lib/app/habbing.py:2570-2622 | a Hab made from fresh keys starts in step; its log is one event with those keys, the digests of the next and the threshold asked for |
| `HabbingMaking.MakeIs` | src/keri/keri_official_lib/app/habbing.py:2559-2622 | a Hab made from fresh keys, or from distinct secrets from the first list on, takes a place of its own in the store and leaves the entries of every other prefix; without keys nothing changes; it is made exactly when its digest is no prefix yet and its event is not refused, and accepted it is in step, and its log is one event with lot 0, the digests of lot 1 and the next threshold asked for; with a swallowed MissingSignatureError the log is empty |
| `HabbingMaking.MadeRotates` | src/keri/keri_official_lib/app/habbing.py:2662-2703 | an accepted rotation of a Hab just made passes exactly when it has keys to reveal and positions among them meet the next threshold it was made with; it reveals the keys the inception committed to |
| `HabbingMaking.FreshRotates` | src/keri/keri_official_lib/app/habbing.py:2662-2703 | with fresh keys: exactly when there are next keys, no negative count is asked for, and positions below their number meet that threshold |
| `HabbingTogether.AllStaySeated` | src/keri/keri_official_lib/app/habbing.py:2662-2703 | over every interleaving of rotations of any number of Habs on one Manager and makings of further ones, accepted, refused or impossible, each is in step with its own log, as long as no key comes to be in two of the sequences |
| `HabbingApart.NamesApart` | src/keri/keri_official_lib/app/keeping.py:542-544 | salty sequences never have a key in common when their salts differ or neither stem starts with the other, though stem and indices are joined without separator |
| `HabbingApart.NamesCanMeet` | src/keri/keri_official_lib/app/keeping.py:542-544 | where one stem is the other and a 1, sequences with one salt can share a key |
| `HabbingApart.NamedStayInStep` | src/keri/keri_official_lib/app/habbing.py:2547-2703 | Habs made from fresh keys under names that differ so all stay in step with their own logs, whatever is interleaved |
| `HabbingApart.HabsInStep` | src/keri/keri_official_lib/app/habbing.py:2547-2703 | from an empty store on, however many are made and however they rotate, each Hab is in step with its log and its log reveals what it committed to |
| `HabbingLaws.MakeSecretInStep` | src/keri/keri_official_lib/app/habbing.py:2559-2598 | a Hab made from secrets starts in step at list 0; at a later list, with a digest for its prefix it is made exactly when the first key of that list has parameters and a situation of its own in the store and is a ValueError otherwise, and with that key for its prefix it is always made, and out of step when the key has no situation; the inception event has the keys of that list, the digests of the next lot and the threshold asked for |
| `HabbingLaws.MakeSecretTakesOver` | src/keri/keri_official_lib/app/habbing.py:2559-2598 | when another sequence stands under that key the new Hab takes it over, and with a digest for its prefix robs the other prefix; it is in step exactly when the current and next keys there are those ingested and nothing before them is held |
| `HabObject.Hab.FindIndices` | src/keri/keri_official_lib/app/habbing.py:1331-1335 | the loop over prior digests appends exactly the positions met, and all of them when the keys are those committed to |
| `HabObject.Hab.Rotate` | src/keri/keri_official_lib/app/habbing.py:2662-2703 | the method has the specified effect on Manager and log in every case, and keeps a Hab in step for every accepted or refused event |
| `DelegatingLaws.SweepMoves` | src/keri/keri_official_lib/app/delegating.py:137-235 | one pass over an escrow takes each of its events one stage on, for its reason, or leaves it, and touches no other event |
| `DelegatingSteps.WitnessStep` | src/keri/keri_official_lib/app/delegating.py:164-215 | an event leaves the first escrow for the second and is sent to its delegator exactly when its key state is there, it is local, all witnesses have receipted, there are none or the Receiptor has reported it, the delegator is known, and it is of a group or a proxy is set; otherwise nothing changes, and which exception comes is named |
| `DelegatingSteps.UnanchoredStep` | src/keri/keri_official_lib/app/delegating.py:137-157 | a sealed event leaves the second escrow for the third exactly when its Hab is local or it has no publisher; the seal is recorded under the latest event in either case |
| `DelegatingSteps.PublicationStep` | src/keri/keri_official_lib/app/delegating.py:217-235 | an event leaves the third escrow exactly when its publisher is there and idle; it is recorded unless its place is taken |
| `DelegatingSteps.WitnessPass` | src/keri/keri_official_lib/app/delegating.py:159-215 | a whole pass sends, in order, exactly the events that can be sent up to the first that raises, whose exception ends it |
| `DelegatingSteps.UnanchoredPass` | src/keri/keri_official_lib/app/delegating.py:137-157 | a whole pass takes on exactly the sealed events up to the first that raises |
| `DelegatingSteps.PublicationPass` | src/keri/keri_official_lib/app/delegating.py:217-235 | a whole pass never fails and publishes exactly the first event of each prefix whose publisher is idle |
| `DelegatingSteps.PublicationRecords` | src/keri/keri_official_lib/app/delegating.py:234-235 | it records exactly those at their numbers, where nothing was recorded, and changes no record |
| `DelegatingSteps.DelegationStep` | src/keri/keri_official_lib/app/delegating.py:51-84 | a submission passes exactly for a local Hab with a known delegator and an event at the number asked for, the latest by default; what it changes and raises otherwise is named |
| `DelegatingLaws.RunsJustified` | src/keri/keri_official_lib/app/delegating.py:137-235 | in every run, whatever the world at each call, an event is at a stage only if the reasons for all stages up to it were seen at earlier calls, in order; what is sent to a delegator was fully receipted |
| `DelegatingLaws.CompleteMeans` | src/keri/keri_official_lib/app/delegating.py:217-235 | an event recorded as delegated was in its log, then fully receipted, then sealed by its delegator |
| `DelegatingLaws.CompleteAnswers` | src/keri/keri_official_lib/app/delegating.py:86-104 | in every run, complete asked with a digest is true only of an event that was logged, then receipted, then sealed; it is an error only when another event has the place, and false only when none has |
| `DelegatingLaws.FetchSealingFinds` | src/keri/keri_official_lib/db/basing.py:1799-1833 | the search finds the first last event of the log, from a number on, that seals the event and is witnessed to its threshold, or there is none |
| `DelegatingLaws.SealedMeans` | src/keri/keri_official_lib/app/delegating.py:142-147 | an event counts as sealed exactly when some such event of its delegator exists |
| `DelegatingLaws.SealUnderLatest` | src/keri/keri_official_lib/app/delegating.py:142-157 | in every run, when a seal is found it is recorded under the approved event exactly when that is the latest of its prefix |
| `DelegatingLaws.AllWitnesses` | src/keri/keri_official_lib/app/delegating.py:171-173 | the count test of receipts is met exactly when every witness has receipted |
| `DelegatingLaws.ExactlyOne` | src/keri/keri_official_lib/app/delegating.py:82-84 | with each event submitted once and one per number, every submitted event is at exactly one stage and no other event is anywhere |
| `DelegatingLaws.OnlyForward` | src/keri/keri_official_lib/app/delegating.py:137-235 | and it only moves forward |
| `DelegatingLaws.PublicationLoses` | src/keri/keri_official_lib/app/delegating.py:222-235 | in every run a submitted event is in no escrow and not recorded exactly when a call published it over another event recorded at its number and it was not submitted again since; that other was submitted too |
| `AnchorerObject.Anchorer.Delegation` | src/keri/keri_official_lib/app/delegating.py:51-84 | submission has the specified effect in every case, also when it raises half-way |
| `AnchorerObject.Anchorer.Complete` | src/keri/keri_official_lib/app/delegating.py:86-104 | true means, for every history that can have led to this state, that the recorded event and the one asked for were logged, then receipted, then sealed |
| `AnchorerObject.Anchorer.ProcessPartialWitnessEscrow` | src/keri/keri_official_lib/app/delegating.py:159-215 | the loop has the effect of the specified sweep: it sends exactly the events that can be sent, in order, up to the first exception |
| `AnchorerObject.Anchorer.ProcessUnanchoredEscrow` | src/keri/keri_official_lib/app/delegating.py:137-157 | the same: it takes on exactly the sealed events up to the first exception |
| `AnchorerObject.Anchorer.ProcessWitnessPublication` | src/keri/keri_official_lib/app/delegating.py:217-235 | the same: it publishes exactly the first event of each prefix whose publisher is idle |
| `AnchorerObject.Anchorer.FindSealing` | src/keri/keri_official_lib/db/basing.py:1799-1833 | the search of the log returns the first fully witnessed event with the seal |
| `GroupingLaws.ElectedDone` | src/keri/keri_official_lib/app/grouping.py:191-198 | a pending group event that the Anchorer has recorded was logged, receipted and sealed |
| `GroupingLaws.LatestIsEnough` | src/keri/keri_official_lib/app/grouping.py:191-198 | while the log holds nothing else at its number and it is at the latest one, what the Anchorer recorded there is the pending event |
| `GroupingLaws.OnlyStarted` | src/keri/keri_official_lib/app/grouping.py:57-73 | what is pending in any escrow of any run was started |
| `GroupingSteps.SignStep` | src/keri/keri_official_lib/app/grouping.py:121-178 | one entry of the sign round in full: the member whose key signed first, and no other, submits the event to the Anchorer or sends it to the witnesses; where the entry goes and what is raised |
| `GroupingSteps.ApproveStep` | src/keri/keri_official_lib/app/grouping.py:180-211 | one entry of the approve round in full: the first member records it on the word of the Anchorer, another when some entry of the log of the delegator seals it |
| `GroupingSteps.ReceiptStep` | src/keri/keri_official_lib/app/grouping.py:213-240 | one entry of the receipt round in full: recorded with all receipts, the first member waiting for its Receiptor; without them every other member asks for receipts |
| `GroupingLaws.GroupSafety` | src/keri/keri_official_lib/app/grouping.py:127-240 | in every run whose sign and elected approve calls meet their guards (`SignGuard`, `ApproveGuard`), a group event is recorded only after it was in the log, was fully receipted and, if delegated and establishing, was sealed, by whichever of the three routes it went |
| `GroupingLaws.GroupCompleteAnswers` | src/keri/keri_official_lib/app/grouping.py:75-93 | in such a run, complete asked with a digest is true only of such an event, and not true only of one that is not recorded |
| `GroupingRuns.RecordedSafelyIff` | src/keri/keri_official_lib/app/grouping.py:127-175 | start, sign and receipt in one world record an event safely exactly when the sign guard holds in that world |
| `GroupingRuns.SealedSafelyIff` | src/keri/keri_official_lib/app/grouping.py:127-214 | start, sign, approve by a member that is not elected, and receipt in one world record an event safely exactly when the sign guard holds in that world |
| `GroupingStages.SafeStages` | src/keri/keri_official_lib/app/grouping.py:184-198 | an entry that is what its digest says and is newly recorded by an elected member is safe in every run, guarded or not, exactly when the Anchorer has the event waiting for publication or recorded; at each earlier stage, and with the event nowhere, a run records it unsealed |
| `GroupingRuns.InteractionHidesDelegation` | src/keri/keri_official_lib/app/grouping.py:150-175 | a run with one event started, and a log that always agrees with it: a delegated establishment event followed by an interaction event is recorded unsealed, since the route is chosen by the latest event |
| `GroupingRuns.HidingWorld` | src/keri/keri_official_lib/app/grouping.py:150-175 | one world where that happens |
| `GroupingRuns.OtherEventRecorded` | src/keri/keri_official_lib/app/grouping.py:135-175 | a run with one event started where, the log holding another at its number, an event that never was in the log is recorded |
| `GroupingRuns.SecondPendingLost` | src/keri/keri_official_lib/app/grouping.py:138-139 | a run where two events of a group are started and the second is in no escrow and not recorded after the first is signed |
| `GroupingStages.LaterEventApproves` | src/keri/keri_official_lib/app/grouping.py:191-198 | runs at whose end an elected member has recorded a waiting delegated event that its delegator never sealed, on the strength of a later one, with the waiting event nowhere in the Anchorer, not receipted, or not sealed there |
| `CounselorObject.Counselor.Start` | src/keri/keri_official_lib/app/grouping.py:57-73 | adds the pending event to the first escrow |
| `CounselorObject.Counselor.Complete` | src/keri/keri_official_lib/app/grouping.py:75-93 | true means, for every history that can have led to this state, that the recorded event and the one asked for were logged, receipted and, where needed, sealed |
| `CounselorObject.Counselor.Process` | src/keri/keri_official_lib/app/grouping.py:121-240 | each loop has the effect of the specified sweep, the Anchorer included |
| `MailboxingLaws.CloneIs` | src/keri/keri_official_lib/app/storing.py:132-153 | a mailbox without empty messages yields every message from a position on, with its position |
| `MailboxingLaws.PollIs` | src/keri/keri_official_lib/app/indirecting.py:1026-1045 | a poll sends each topic asked for from its cursor to its end and leaves the cursor there |
| `MailboxingLaws.TakenIsPrefix` | src/keri/keri_official_lib/app/indirecting.py:800-846 | over any order of stores, polls, partial reads and reconnections what the client has taken of a topic is a prefix of what was stored to it: no gap, no repeat |
| `MailboxingLaws.ReadToTheEnd` | src/keri/keri_official_lib/app/indirecting.py:826-846 | after a poll read to its end it has taken the whole topic |
| `MailboxingLaws.PollCatchesUp` | src/keri/keri_official_lib/app/indirecting.py:1036-1043 | the cursor reaches the end exactly when no message on the way is empty |
| `MailboxingLaws.EmptyMessageRepeats` | src/keri/keri_official_lib/app/indirecting.py:1036-1043 | a run at whose end the client has taken twice a message stored once behind an empty one |
| `MailboxObjects.Mailboxer.StoreMsg` | src/keri/keri_official_lib/app/storing.py:109-129 | appends the digest to the topic and keeps the message by digest |
| `MailboxObjects.Mailboxer.CloneTopicIter` | src/keri/keri_official_lib/app/storing.py:132-153 | the loop yields the specified messages with their positions |
| `MailboxObjects.Mailboxer.GetTopicMsgs` | src/keri/keri_official_lib/app/storing.py:89-106 | the loop returns the same messages without positions |
| `MailboxObjects.MailboxIterable.Next` | src/keri/keri_official_lib/app/indirecting.py:1026-1045 | the nested loops send and count as specified |
| `MailboxObjects.Poller.Query` | src/keri/keri_official_lib/app/indirecting.py:800-806 | the loop asks each topic once, from the position after the last taken |
| `MailboxObjects.Poller.Drain` | src/keri/keri_official_lib/app/indirecting.py:826-846 | the loop takes the arrived events in order and moves its cursors |
| `Watching.StatesMatch` | src/keri/keri_official_lib/app/watching.py:106-120 | the list of compared states has at each stage as many entries as watchers stand there, with their digests |
| `Watching.KindIsVerdict` | src/keri/keri_official_lib/app/watching.py:92-160 | the kind of the cue is a function of the set of watchers: neither their order nor the random choice counts |
| `Watching.UpdateMeans` | src/keri/keri_official_lib/app/watching.py:97-146 | an update is cued exactly when no watcher is duplicitous and at least one is ahead, all with one digest, and these are all watchers when toad is None or 0, else at least toad |
| `WatchingVerdicts.FailsWhen` | src/keri/keri_official_lib/app/watching.py:97-109 | adjudication fails exactly when a given toad exceeds the number of watchers, there is no local key state, or a watcher reports on another prefix, with the error of each |
| `WatchingVerdicts.VerdictMeans` | src/keri/keri_official_lib/app/watching.py:111-160 | every kind of cue in terms of the numbers and digests reported: duplicity, update, nothing, lagging and consistency, each exactly when |
| `WatchingVerdicts.CueLists` | src/keri/keri_official_lib/app/watching.py:111-160 | every cue lists exactly the watchers it is about, each once and as it reported: the duplicitous or else the ahead, the ahead with the number of one of them, the behind, or all that reported |
| `WatchingVerdicts.OneOfThree` | src/keri/keri_official_lib/app/watching.py:97-98 | without toad one watcher of three that is ahead moves nothing |
| `Watching.UpdatesAgree` | src/keri/keri_official_lib/app/watching.py:122-146 | two adjudications over the same reports whose thresholds sum to more than the union of their watchers never endorse different digests |
| `Watching.UpdatesMayDiffer` | src/keri/keri_official_lib/app/watching.py:122-146 | with thresholds that only sum to it they may |
| `AdjudicatorObject.Adjudicator.Watchers` | src/keri/keri_official_lib/app/watching.py:92-95 | the loop collects the enabled watchers of the prefix |
| `AdjudicatorObject.Adjudicator.CompareAll` | src/keri/keri_official_lib/app/watching.py:101-109 | the loop over the set compares every watcher that has reported, in some order, or raises |
| `AdjudicatorObject.Adjudicator.Adjudicate` | src/keri/keri_official_lib/app/watching.py:80-160 | appends at most one cue, of the kind of the verdict on the set of watchers, with the contents the specification gives for some order of them; an update exactly when all watchers are ahead with one digest, or toad of them when it is given |
| `OrganizingLaws.RunsIndexed` | src/keri/keri_official_lib/app/organizing.py:33-105 | after any run of update, replace, set, unset and rem the index is exactly the flattening of the records, the id aside, and every signature fits |
| `OrganizingLaws.UpdateMeans` | src/keri/keri_official_lib/app/organizing.py:33-54 | get after update is the old record with the data laid over; other records are kept |
| `OrganizingLaws.ReplaceMeans` | src/keri/keri_official_lib/app/organizing.py:56-65 | get after replace is the data; the index has its fields and no other |
| `OrganizingLaws.SetMeans` | src/keri/keri_official_lib/app/organizing.py:67-79 | get after set differs in the one field |
| `OrganizingLaws.UnsetMeans` | src/keri/keri_official_lib/app/organizing.py:81-92 | get after unset lacks the one field; a missing record or field raises and changes nothing |
| `OrganizingLaws.RemMeans` | src/keri/keri_official_lib/app/organizing.py:94-105 | nothing is left of the prefix, everything of the others |
| `OrganizingLaws.ListIsListed` | src/keri/keri_official_lib/app/organizing.py:136-158 | list returns exactly one record for each prefix with fields |
| `OrganizingLaws.ListAgrees` | src/keri/keri_official_lib/app/organizing.py:107-158 | after any run that record is the one of get exactly when the index holds no other id for the prefix |
| `OrganizingLaws.FindExactFinds` | src/keri/keri_official_lib/app/organizing.py:179-199 | findExact finds, each once, exactly the prefixes whose record has the value; by the field id exactly those whose id the calls have left in the index, though every record it returns has its prefix as id |
| `OrganizingLaws.LastIdIs` | src/keri/keri_official_lib/app/organizing.py:33-105 | the id in the index is the one the run of calls leaves: given in data, or the prefix after a set or unset of a record |
| `OrganizingLaws.ForeignIdShows` | src/keri/keri_official_lib/app/organizing.py:136-158 | an id among the data of an update shows in list and not in get |
| `OrganizerObject.Organizer.Update` | src/keri/keri_official_lib/app/organizing.py:33-54 | the method, pinning field by field, has the specified effect |
| `OrganizerObject.Organizer.Rem` | src/keri/keri_official_lib/app/organizing.py:94-105 | the same |
| `OrganizerObject.Organizer.Replace` | src/keri/keri_official_lib/app/organizing.py:56-65 | the same |
| `OrganizerObject.Organizer.Set` | src/keri/keri_official_lib/app/organizing.py:67-79 | the same |
| `OrganizerObject.Organizer.Unset` | src/keri/keri_official_lib/app/organizing.py:81-92 | the same |
| `OrganizerObject.Organizer.List` | src/keri/keri_official_lib/app/organizing.py:136-158 | the fold over the index gives the specified list |
| `OrganizerObject.Organizer.FindExact` | src/keri/keri_official_lib/app/organizing.py:179-199 | the loops return the record of every match in order |

## Left out

- Cryptography: signing, digests, salt stretching and encryption of secrets.  Keys and digests are values of free datatypes; the encrypted store (`aeid`) and its errors are not modelled.
- The random key creator, the codes and transferability of keys, and time stamps of lots.
- Validation of events: `Kever`, `Kevery`, `Serder`, `Tholder`, `Matter` and `Parser` are not part of this model.  An event gets a verdict; a threshold is the set of position sets that meet it; receipts and signatures are positions.
- HabbingLaws.RunKeepsStep: excludes events whose MissingSignatureError is swallowed, which `HabbingLaws.RotateHabKeepsStep` shows to be exactly the ones that break it.
- Errors of `Hab.make` between key creation and move (bad thresholds); the verdict falls after the move.
- Characters outside the URL-safe alphabet, which `urlsafe_b64decode` discards; counters given by code name or by text count; the text form of `verToB64`; negative numbers in `versify`, for which the digit loop of `intToB64` does not end.
- LMDB: databases are maps and sets whose keys are tuples, iteration is over a snapshot, prefixes are prefix-free; the order of an iteration is a parameter of the escrow sweeps, of `list` and of `findExact`.
- GroupingLaws.GroupSafety: holds of runs whose calls meet `SignGuard` (the log's event at the number is the pending one, and an event that needs a seal is routed as one or sealed already) and `ApproveGuard` (the Anchorer's record for the pending event itself is there when the elected member asks at the latest number); the code tests neither, and the runs in `GroupingRuns` and `GroupingStages` break each.
- MailboxingLaws.TakenIsPrefix: assumes non-empty messages, no deletion of topics and no crash of the client between taking a message and moving its cursor; a new connection drops what was under way.
- MailboxingLaws.ReadToTheEnd: speaks of the calls that are made, not of whether they are made: liveness of polls, escrows and publications is not modelled.
- The `cid`, `oid` and `wids` of a cue of the Adjudicator.
- HTTP, server-sent-event text, doers and generators: each call of a loop is one step.
- `find` and `values` of the contact store (regular expressions), images, and the splitting of field names that contain the key separator.
- HabbingTogether.AllStaySeated: the makings it interleaves are from fresh keys or from secrets at the first list; a Hab made from a later list may take over the sequence of another, as `HabbingLaws.MakeSecretTakesOver` says.
- The remaining files of the library (agents, forwarding, notifying, signaling, CLI, ACDC) and the directories `src/db` and `src/verification-system`, which would add only easy members.
