/**
 The WASM section scanners of indexer/src/wasmBuildMetadata.js (`customSections`, `parseProducersSection`) and
 indexer/src/wasmContractSpec.js (`extractContractSpecSection`), against the binary format of the WebAssembly
 Core Specification 1.0: section 5.5.2 (sections) and section 5.5.3 (custom sections).

 Section names are compared as bytes; UTF-8 decoding maps a byte string to an ASCII name only if it is that name.
 */
module WasmSections {
  import opened Leb128
  import opened Options

  /* ----- buffers ----- */

  /** `buf.slice(start, end)`: negative positions count from the end, and the rest is clamped. */
  function Slice(buf: bytes, start: int, end: int): bytes {
    var from := ClampIndex(start, |buf|);
    var to := ClampIndex(end, |buf|);
    if from < to then buf[from..to] else []
  }

  function ClampIndex(i: int, length: nat): (r: nat)
    ensures r <= length
  {
    if i < 0 then (if length + i < 0 then 0 else length + i) else if i > length then length else i
  }

  /** `buf.toString("utf8", start, end)`: clamped, never counting from the end. */
  function Text(buf: bytes, start: nat, end: int): bytes {
    var to := if end > |buf| then |buf| else end;
    if start < to then buf[start..to] else []
  }

  const MAGIC: bytes := [0x00, 0x61, 0x73, 0x6d]
  const VERSION: bytes := [0x01, 0x00, 0x00, 0x00]

  /** "contractspecv0" */
  const SPEC_NAME: bytes := [0x63, 0x6f, 0x6e, 0x74, 0x72, 0x61, 0x63, 0x74, 0x73, 0x70, 0x65, 0x63, 0x76, 0x30]

  predicate HasMagic(buf: bytes) {
    |buf| >= 4 && buf[..4] == MAGIC
  }

  /* ----- what the two scanners compute ----- */

  datatype Named = Named(name: bytes, payload: bytes)

  /**
   The custom sections found from a position on.  `negative` reports a section whose size reads back negative,
   where this model stops (the source's position moves backwards there).
   */
  datatype Scan = Scan(found: seq<Named>, negative: bool)

  function CustomAt(buf: bytes, pos: nat, sectionEnd: int): Named {
    var (nameLen, nameStart) := ReadLEB(buf, pos);
    Named(Text(buf, nameStart, nameStart + nameLen), Slice(buf, nameStart + nameLen, sectionEnd))
  }

  function Prepend(x: Named, s: Scan): Scan {
    Scan([x] + s.found, s.negative)
  }

  function ScanFrom(buf: bytes, pos: nat): Scan
    decreases |buf| - pos
  {
    if pos >= |buf| then Scan([], false)
    else
      var (size, start) := ReadLEB(buf, pos + 1);
      if size < 0 then Scan([], true)
      else if buf[pos] == 0 && size > 0 then Prepend(CustomAt(buf, start, start + size), ScanFrom(buf, start + size))
      else ScanFrom(buf, start + size)
  }

  function CustomSections(buf: bytes): Scan {
    if |buf| < 8 || !HasMagic(buf) then Scan([], false) else ScanFrom(buf, 8)
  }

  datatype Extracted = Payload(bytes: bytes) | BadMagic | Missing | OutOfRange | NegativeSize

  function ExtractFrom(buf: bytes, pos: nat): Extracted
    decreases |buf| - pos
  {
    if pos >= |buf| then Missing
    else
      var (size, start) := ReadLEB(buf, pos + 1);
      var (nameLen, nameStart) := ReadLEB(buf, start);
      if buf[pos] == 0 && Slice(buf, nameStart, nameStart + nameLen) == SPEC_NAME
      then Payload(Slice(buf, nameStart + nameLen, start + size))
      else if size < 0 then NegativeSize
      else ExtractFrom(buf, start + size)
  }

  function Extract(buf: bytes): Extracted {
    if |buf| < 4 then OutOfRange else if !HasMagic(buf) then BadMagic else ExtractFrom(buf, 8)
  }

  /* ----- the loops ----- */

  method CustomSectionsLoop(buf: bytes) returns (out: Scan)
    ensures out == CustomSections(buf)
  {
    hide ReadLEB, HasMagic, Slice, Text;
    if |buf| < 8 || !HasMagic(buf) { return Scan([], false); }
    var found: seq<Named> := [];
    var pos := 8;
    while pos < |buf|
      invariant pos >= 8
      invariant CustomSections(buf) == Scan(found + ScanFrom(buf, pos).found, ScanFrom(buf, pos).negative)
      decreases |buf| - pos
    {
      var sectionId := buf[pos];
      var sectionSize, afterSize := ReadLEB128(buf, pos + 1);
      if sectionSize < 0 {
        assert found + [] == found;
        return Scan(found, true);
      }
      var sectionEnd := afterSize + sectionSize;
      if sectionId == 0 && afterSize < sectionEnd {
        var nameLen, nameStart := ReadLEB128(buf, afterSize);
        var nameEnd := nameStart + nameLen;
        var x := Named(Text(buf, nameStart, nameEnd), Slice(buf, nameEnd, sectionEnd));
        assert found + ([x] + ScanFrom(buf, sectionEnd).found) == (found + [x]) + ScanFrom(buf, sectionEnd).found;
        found := found + [x];
      }
      pos := sectionEnd;
    }
    assert found + [] == found;
    return Scan(found, false);
  }

  method ExtractContractSpecSection(buf: bytes) returns (out: Extracted)
    ensures out == Extract(buf)
  {
    hide ReadLEB, HasMagic, Slice, SPEC_NAME;
    if |buf| < 4 { return OutOfRange; }
    if !HasMagic(buf) { return BadMagic; }
    var pos := 8;
    while pos < |buf|
      invariant pos >= 8 && ExtractFrom(buf, pos) == Extract(buf)
      decreases |buf| - pos
    {
      var sectionId := buf[pos];
      var sectionSize, afterSize := ReadLEB128(buf, pos + 1);
      var sectionEnd := afterSize + sectionSize;
      if sectionId == 0 {
        var nameLen, afterNameLen := ReadLEB128(buf, afterSize);
        var name := Slice(buf, afterNameLen, afterNameLen + nameLen);
        if name == SPEC_NAME {
          return Payload(Slice(buf, afterNameLen + nameLen, sectionEnd));
        }
      }
      if sectionSize < 0 { return NegativeSize; }
      pos := sectionEnd;
    }
    return Missing;
  }

  /* ----- printing a module ----- */

  datatype Section = Custom(name: bytes, payload: bytes) | Other(id: byte, body: bytes)

  function Body(s: Section): bytes {
    match s
    case Custom(name, payload) => EncodeLEB(|name|) + name + payload
    case Other(_, body) => body
  }

  ghost predicate Printable(s: Section) {
    |Body(s)| < 0x8000_0000 && (s.Other? ==> s.id != 0)
  }

  function PrintSection(s: Section): bytes {
    [if s.Custom? then 0 else s.id] + EncodeLEB(|Body(s)|) + Body(s)
  }

  function PrintSections(ss: seq<Section>): bytes {
    if ss == [] then [] else PrintSection(ss[0]) + PrintSections(ss[1..])
  }

  function PrintModule(ss: seq<Section>): bytes {
    MAGIC + VERSION + PrintSections(ss)
  }

  /** The custom sections of a module, in order. */
  function Customs(ss: seq<Section>): seq<Named> {
    if ss == [] then []
    else (match ss[0] case Custom(name, payload) => [Named(name, payload)] case Other(_, _) => []) + Customs(ss[1..])
  }

  function FirstNamed(found: seq<Named>, name: bytes): Option<bytes> {
    if found == [] then None else if found[0].name == name then Some(found[0].payload) else FirstNamed(found[1..], name)
  }

  /* ----- reading one printed section ----- */

  lemma ReadAt(buf: bytes, at: nat, n: nat)
    requires at <= |buf| && EncodeLEB(n) <= buf[at..] && n < 0x8000_0000
    ensures ReadLEB(buf, at) == (n, at + |EncodeLEB(n)|)
  {
    hide ReadLEB, EncodeLEB;
    var pre, post := buf[..at], buf[at + |EncodeLEB(n)|..];
    assert buf[at..] == EncodeLEB(n) + post;
    assert buf == pre + EncodeLEB(n) + post;
    DecodeEncode(pre, n, post);
  }

  /** The positions inside a printed section that stands at `pos`. */
  lemma SectionLayout(buf: bytes, pos: nat, s: Section) returns (start: nat)
    requires Printable(s) && pos <= |buf| && PrintSection(s) <= buf[pos..]
    ensures pos < |buf| && buf[pos] == if s.Custom? then 0 else s.id
    ensures ReadLEB(buf, pos + 1) == (|Body(s)|, start)
    ensures start + |Body(s)| == pos + |PrintSection(s)| <= |buf|
    ensures buf[start..start + |Body(s)|] == Body(s)
  {
    hide ReadLEB, EncodeLEB;
    var p := PrintSection(s);
    assert buf[pos] == buf[pos..][0] == p[0];
    var e := EncodeLEB(|Body(s)|);
    assert buf[pos + 1..] == buf[pos..][1..] && p[1..] == e + Body(s);
    assert p[1..] <= buf[pos + 1..];
    assert e <= buf[pos + 1..];
    ReadAt(buf, pos + 1, |Body(s)|);
    start := pos + 1 + |e|;
    assert buf[start..start + |Body(s)|] == buf[pos..][1 + |e|..|p|] == p[1 + |e|..];
  }

  lemma CustomLayout(buf: bytes, pos: nat, s: Section, start: nat) returns (nameStart: nat)
    requires s.Custom? && Printable(s) && start + |Body(s)| <= |buf|
    requires buf[start..start + |Body(s)|] == Body(s)
    ensures |Body(s)| > 0
    ensures ReadLEB(buf, start) == (|s.name|, nameStart)
    ensures nameStart + |s.name| <= start + |Body(s)| <= |buf|
    ensures buf[nameStart..nameStart + |s.name|] == s.name
    ensures buf[nameStart + |s.name|..start + |Body(s)|] == s.payload
  {
    hide ReadLEB, EncodeLEB;
    var b := Body(s);
    var e := EncodeLEB(|s.name|);
    assert e <= b && b <= buf[start..] by { assert buf[start..start + |b|] == buf[start..][..|b|]; }
    ReadAt(buf, start, |s.name|);
    nameStart := start + |e|;
    assert buf[nameStart..nameStart + |s.name|] == buf[start..start + |b|][|e|..|e| + |s.name|] == s.name;
    assert buf[nameStart + |s.name|..start + |b|] == buf[start..start + |b|][|e| + |s.name|..] == s.payload;
  }

  lemma CustomAtPrinted(buf: bytes, pos: nat, s: Section, start: nat)
    requires s.Custom? && Printable(s) && start + |Body(s)| <= |buf|
    requires buf[start..start + |Body(s)|] == Body(s)
    ensures |Body(s)| > 0 && CustomAt(buf, start, start + |Body(s)|) == Named(s.name, s.payload)
    ensures ReadLEB(buf, start).0 >= 0
  {
    hide ReadLEB, EncodeLEB, Slice, Text, Body, Printable;
    var nameStart := CustomLayout(buf, pos, s, start);
    SliceInside(buf, nameStart, nameStart + |s.name|, s.name);
    SliceInside(buf, nameStart + |s.name|, start + |Body(s)|, s.payload);
  }

  lemma PrintedTail(buf: bytes, pos: nat, ss: seq<Section>) returns (start: nat)
    requires pos <= |buf| && ss != [] && buf[pos..] == PrintSections(ss) && Printable(ss[0])
    ensures PrintSection(ss[0]) <= buf[pos..]
    ensures pos < |buf| && buf[pos] == if ss[0].Custom? then 0 else ss[0].id
    ensures ReadLEB(buf, pos + 1) == (|Body(ss[0])|, start)
    ensures start + |Body(ss[0])| <= |buf| && buf[start..start + |Body(ss[0])|] == Body(ss[0])
    ensures buf[start + |Body(ss[0])|..] == PrintSections(ss[1..])
  {
    hide ReadLEB, EncodeLEB, Body, Printable, PrintSection;
    start := SectionLayout(buf, pos, ss[0]);
    assert buf[start + |Body(ss[0])|..] == buf[pos..][|PrintSection(ss[0])|..];
  }

  lemma {:induction false} ScanPrinted(buf: bytes, pos: nat, ss: seq<Section>)
    requires pos <= |buf| && buf[pos..] == PrintSections(ss)
    requires forall s :: s in ss ==> Printable(s)
    ensures ScanFrom(buf, pos) == Scan(Customs(ss), false)
    decreases |ss|
  {
    hide ReadLEB, EncodeLEB, Body, Printable, PrintSection, CustomAt, PrintSections;
    if ss == [] {
      assert pos == |buf| by { EmptyPrint(); }
    } else {
      assert ss[0] in ss;
      var start := PrintedTail(buf, pos, ss);
      ScanPrinted(buf, start + |Body(ss[0])|, ss[1..]);
      if ss[0].Custom? { CustomAtPrinted(buf, pos, ss[0], start); } else { NotCustomId(ss[0]); }
    }
  }

  lemma EmptyPrint()
    ensures PrintSections([]) == []
  {
  }

  lemma NotCustomId(s: Section)
    requires s.Other? && Printable(s)
    ensures s.id != 0
  {
  }

  lemma SliceInside(buf: bytes, i: nat, j: nat, piece: bytes)
    requires i <= j <= |buf| && buf[i..j] == piece
    ensures Slice(buf, i, j) == piece && Text(buf, i, j) == piece
  {
  }

  lemma PrintedHeader(ss: seq<Section>)
    ensures var buf := PrintModule(ss); |buf| >= 8 && HasMagic(buf) && buf[8..] == PrintSections(ss)
  {
    assert PrintModule(ss)[..4] == MAGIC;
  }

  /** Scanning inverts printing: exactly the custom sections come back, in order. */
  lemma CustomSectionsInvertsPrinting(ss: seq<Section>)
    requires forall s :: s in ss ==> Printable(s)
    ensures CustomSections(PrintModule(ss)) == Scan(Customs(ss), false)
  {
    PrintedHeader(ss);
    ScanPrinted(PrintModule(ss), 8, ss);
  }

  /* ----- the two scanners against each other ----- */

  /** No size and no name length of a custom section reads back negative. */
  predicate NonNegative(buf: bytes, pos: nat)
    decreases |buf| - pos
  {
    pos >= |buf| ||
    (var (size, start) := ReadLEB(buf, pos + 1);
     && size >= 0
     && (buf[pos] == 0 ==> ReadLEB(buf, start).0 >= 0)
     && NonNegative(buf, start + size))
  }

  /** What stands at `start` reads as the length and the text "contractspecv0". */
  predicate ReadsSpecName(buf: bytes, start: nat) {
    var (nameLen, nameStart) := ReadLEB(buf, start);
    Slice(buf, nameStart, nameStart + nameLen) == SPEC_NAME
  }

  /** Ahead of the first custom section that is named contractspecv0, an empty one is followed by bytes that read so. */
  predicate Decoy(buf: bytes, pos: nat)
    decreases |buf| - pos
  {
    pos < |buf| &&
    var (size, start) := ReadLEB(buf, pos + 1);
    size >= 0 &&
    if buf[pos] == 0 && ReadsSpecName(buf, start) then size == 0 else Decoy(buf, start + size)
  }

  lemma SliceIsText(buf: bytes, i: nat, j: nat)
    ensures Slice(buf, i, j) == Text(buf, i, j)
  {
  }

  function Expected(scan: Scan): Extracted {
    match FirstNamed(scan.found, SPEC_NAME) case Some(p) => Payload(p) case None => Missing
  }

  lemma EmptyPayload(buf: bytes, start: nat, nameEnd: int)
    requires start <= nameEnd
    ensures Slice(buf, nameEnd, start) == []
  {
  }

  lemma {:induction false} ScannersFrom(buf: bytes, pos: nat)
    requires NonNegative(buf, pos)
    ensures !ScanFrom(buf, pos).negative
    ensures ExtractFrom(buf, pos) == if Decoy(buf, pos) then Payload([]) else Expected(ScanFrom(buf, pos))
    decreases |buf| - pos
  {
    hide ReadLEB, Slice, Text, SPEC_NAME;
    if pos < |buf| {
      var (size, start) := ReadLEB(buf, pos + 1);
      ScannersFrom(buf, start + size);
      if buf[pos] == 0 {
        var (nameLen, nameStart) := ReadLEB(buf, start);
        if size == 0 {
          EmptyPayload(buf, start, nameStart + nameLen);
        } else {
          SliceIsText(buf, nameStart, nameStart + nameLen);
          var x := CustomAt(buf, start, start + size);
          var rest := ScanFrom(buf, start + size).found;
          assert ScanFrom(buf, pos).found == [x] + rest && ([x] + rest)[1..] == rest;
        }
      }
    }
  }

  /**
   On every buffer without negative sizes, well-formed module or not: the contract-spec extractor returns the payload
   of the first section named contractspecv0 that the other scanner yields, and fails if there is none, exactly unless
   an empty custom section ahead of it is followed by bytes that read as that name.  Then the extractor returns an
   empty payload, and the scanners agree just when the section named so is empty as well.
   */
  lemma ScannersAgreeIff(buf: bytes)
    requires HasMagic(buf) && NonNegative(buf, 8)
    ensures Extract(buf) == Expected(CustomSections(buf)) <==>
            (Decoy(buf, 8) ==> FirstNamed(CustomSections(buf).found, SPEC_NAME) == Some([]))
    ensures Decoy(buf, 8) ==> Extract(buf) == Payload([])
  {
    hide ScanFrom, ExtractFrom, Decoy, NonNegative, SPEC_NAME;
    if |buf| >= 8 {
      ScannersFrom(buf, 8);
    } else {
      NothingFrom(buf);
    }
  }

  lemma NothingFrom(buf: bytes)
    requires |buf| < 8
    ensures ExtractFrom(buf, 8) == Missing && !Decoy(buf, 8) && FirstNamed([], SPEC_NAME) == None
  {
  }

  /** Every custom section on the way is non-empty, and no size or name length reads back negative. */
  predicate Proper(buf: bytes, pos: nat)
    decreases |buf| - pos
  {
    pos >= |buf| ||
    (var (size, start) := ReadLEB(buf, pos + 1);
     && size >= 0
     && (buf[pos] == 0 ==> size > 0 && ReadLEB(buf, start).0 >= 0)
     && Proper(buf, start + size))
  }

  lemma {:induction false} ProperHasNoDecoy(buf: bytes, pos: nat)
    requires Proper(buf, pos)
    ensures NonNegative(buf, pos) && !Decoy(buf, pos)
    decreases |buf| - pos
  {
    hide ReadLEB, ReadsSpecName;
    if pos < |buf| {
      var (size, start) := ReadLEB(buf, pos + 1);
      ProperHasNoDecoy(buf, start + size);
    }
  }

  lemma {:induction false} PrintedIsProper(buf: bytes, pos: nat, ss: seq<Section>)
    requires pos <= |buf| && buf[pos..] == PrintSections(ss)
    requires forall s :: s in ss ==> Printable(s)
    ensures Proper(buf, pos)
    decreases |ss|
  {
    hide ReadLEB, EncodeLEB, Body, Printable, PrintSection, CustomAt, PrintSections;
    if ss == [] {
      assert pos == |buf| by { EmptyPrint(); }
    } else {
      assert ss[0] in ss;
      var start := PrintedTail(buf, pos, ss);
      PrintedIsProper(buf, start + |Body(ss[0])|, ss[1..]);
      if ss[0].Custom? { CustomAtPrinted(buf, pos, ss[0], start); } else { NotCustomId(ss[0]); }
    }
  }

  /**
   On a printed module the extractor returns the first contractspecv0 payload, and fails exactly when there is
   none.
   */
  lemma ExtractInvertsPrinting(ss: seq<Section>)
    requires forall s :: s in ss ==> Printable(s)
    ensures Extract(PrintModule(ss))
         == match FirstNamed(Customs(ss), SPEC_NAME) case Some(p) => Payload(p) case None => Missing
  {
    PrintedHeader(ss);
    PrintedIsProper(PrintModule(ss), 8, ss);
    ProperHasNoDecoy(PrintModule(ss), 8);
    ScannersAgreeIff(PrintModule(ss));
    CustomSectionsInvertsPrinting(ss);
  }

  /**
   The smallest module on which the scanners part: the extractor reads a name out of the bytes that follow an empty
   custom section, and finds the contract spec in a module that has no custom section with a name at all.
   */
  lemma EmptyCustomSectionSplitsScanners()
    ensures var buf := MAGIC + VERSION + [0, 0] + [14] + SPEC_NAME;
            CustomSections(buf).found == [] && Extract(buf) == Payload([])
  {
    hide ReadLEB, EncodeLEB;
    var head := MAGIC + VERSION + [0, 0] + [14];
    var buf := head + SPEC_NAME;
    assert HasMagic(buf) by { assert buf[..4] == MAGIC; }
    assert head == [0, 0x61, 0x73, 0x6d, 1, 0, 0, 0, 0, 0, 14] && |buf| == 25;
    assert buf[8] == 0 && buf[9] == 0 && buf[10] == 14 && buf[11] == 0x63;
    ReadSmall(buf, 9);
    ReadSmall(buf, 10);
    ReadSmall(buf, 11);
    assert Slice(buf, 11, 25) == SPEC_NAME by { assert buf[11..25] == SPEC_NAME; }
    assert ExtractFrom(buf, 8) == Payload(Slice(buf, 25, 10)) by { hide Slice, SPEC_NAME; }
    assert ScanFrom(buf, 12 + 0x63) == Scan([], false);
    assert ScanFrom(buf, 10) == Scan([], false);
    assert ScanFrom(buf, 8) == ScanFrom(buf, 10);
  }

  lemma ReadSmall(buf: bytes, at: nat)
    requires at < |buf| && buf[at] < 128
    ensures ReadLEB(buf, at) == (buf[at], at + 1)
  {
    assert EncodeLEB(buf[at]) == [buf[at]] && buf[at..][0] == buf[at];
    ReadAt(buf, at, buf[at]);
  }

  /** A buffer that does not begin with the four bytes `\0asm` is refused by the extractor, and empty to the scanner. */
  lemma ForeignBuffers(buf: bytes)
    ensures Extract(buf) == OutOfRange <==> |buf| < 4
    ensures Extract(buf) == BadMagic <==> |buf| >= 4 && buf[..4] != [0x00, 0x61, 0x73, 0x6d]
    ensures |buf| < 8 || buf[..4] != [0x00, 0x61, 0x73, 0x6d] ==> CustomSections(buf).found == []
  {
    ExtractFromKinds(buf, 8);
    hide ExtractFrom, ScanFrom;
  }

  lemma {:induction false} ExtractFromKinds(buf: bytes, pos: nat)
    ensures !ExtractFrom(buf, pos).BadMagic? && !ExtractFrom(buf, pos).OutOfRange?
    decreases |buf| - pos
  {
    hide ReadLEB, Slice, SPEC_NAME;
    if pos < |buf| {
      var (size, start) := ReadLEB(buf, pos + 1);
      if size >= 0 {
        ExtractFromKinds(buf, start + size);
      }
    }
  }
}
