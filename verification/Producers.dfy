/**
 `parseProducersSection` of indexer/src/wasmBuildMetadata.js: a vector of fields, each a name and a vector of
 (name, version) pairs, every string preceded by its length.
 */
module Producers {
  import opened Leb128
  import opened WasmSections

  datatype Pair = Pair(name: bytes, version: bytes)

  datatype Field = Field(name: bytes, values: seq<Pair>)

  const SPACE: byte := 0x20
  const COMMA: byte := 0x2c

  /** `readLEB128` at a position that earlier negative lengths may have moved below 0. */
  function ReadAnywhere(buf: bytes, pos: int): (int, int) {
    if pos < 0 then (0, pos + 1) else var r := ReadLEB(buf, pos); (r.0, r.1)
  }

  function TextAnywhere(buf: bytes, start: int, end: int): bytes {
    Text(buf, if start < 0 then 0 else start, end)
  }

  /** A length-prefixed string at `pos`, and the position after it. */
  function ReadString(buf: bytes, pos: int): (bytes, int) {
    var (n, at) := ReadAnywhere(buf, pos);
    (TextAnywhere(buf, at, at + n), at + n)
  }

  function Part(p: Pair): bytes {
    if p.version != [] then p.name + [SPACE] + p.version else p.name
  }

  /** `parts.join(", ")` */
  function Join(parts: seq<bytes>): bytes {
    if parts == [] then [] else if |parts| == 1 then parts[0] else parts[0] + [COMMA, SPACE] + Join(parts[1..])
  }

  function ReadParts(buf: bytes, pos: int, count: int): (seq<bytes>, int)
    decreases count
  {
    if count <= 0 then ([], pos)
    else
      var (name, p1) := ReadString(buf, pos);
      var (version, p2) := ReadString(buf, p1);
      var (rest, p3) := ReadParts(buf, p2, count - 1);
      ([Part(Pair(name, version))] + rest, p3)
  }

  /** The field at `pos` as the key and value it contributes, and the position after it. */
  function ReadField(buf: bytes, pos: int): (bytes, bytes, int) {
    var (name, p1) := ReadString(buf, pos);
    var (count, p2) := ReadAnywhere(buf, p1);
    var (parts, p3) := ReadParts(buf, p2, count);
    (name, Join(parts), p3)
  }

  function ReadFields(buf: bytes, pos: int, count: int, result: map<bytes, bytes>): map<bytes, bytes>
    decreases count
  {
    if count <= 0 then result
    else var (name, value, p) := ReadField(buf, pos); ReadFields(buf, p, count - 1, result[name := value])
  }

  function ParseProducers(payload: bytes): map<bytes, bytes> {
    var (count, p) := ReadAnywhere(payload, 0);
    ReadFields(payload, p, count, map[])
  }

  method ReadVarint(buf: bytes, pos: int) returns (value: int, next: int)
    ensures (value, next) == ReadAnywhere(buf, pos)
  {
    if pos < 0 { return 0, pos + 1; }
    value, next := ReadLEB128(buf, pos);
  }

  method ParseProducersSection(payload: bytes) returns (result: map<bytes, bytes>)
    ensures result == ParseProducers(payload)
  {
    hide ReadAnywhere, TextAnywhere, Join;
    result := map[];
    var fieldCount, pos := ReadVarint(payload, 0);
    var i := 0;
    while i < fieldCount
      invariant 0 <= i && (fieldCount > 0 ==> i <= fieldCount)
      invariant ParseProducers(payload) == ReadFields(payload, pos, fieldCount - i, result)
      decreases fieldCount - i
    {
      ghost var start := pos;
      var fnLen;
      fnLen, pos := ReadVarint(payload, pos);
      var fieldName := TextAnywhere(payload, pos, pos + fnLen);
      pos := pos + fnLen;
      var valCount;
      valCount, pos := ReadVarint(payload, pos);
      ghost var first := pos;
      var parts: seq<bytes> := [];
      var j := 0;
      assert parts + ReadParts(payload, pos, valCount).0 == ReadParts(payload, pos, valCount).0;
      while j < valCount
        invariant 0 <= j && (valCount > 0 ==> j <= valCount)
        invariant ReadParts(payload, first, valCount) ==
                  (parts + ReadParts(payload, pos, valCount - j).0, ReadParts(payload, pos, valCount - j).1)
        decreases valCount - j
      {
        var nLen, vLen;
        ghost var rest := ReadParts(payload, pos, valCount - j);
        nLen, pos := ReadVarint(payload, pos);
        var name := TextAnywhere(payload, pos, pos + nLen);
        pos := pos + nLen;
        vLen, pos := ReadVarint(payload, pos);
        var version := TextAnywhere(payload, pos, pos + vLen);
        pos := pos + vLen;
        var part := if version != [] then name + [SPACE] + version else name;
        ghost var more := ReadParts(payload, pos, valCount - j - 1).0;
        assert rest.0 == [part] + more;
        assert parts + ([part] + more) == (parts + [part]) + more;
        parts := parts + [part];
        j := j + 1;
      }
      assert parts + [] == parts;
      assert ReadField(payload, start) == (fieldName, Join(parts), pos);
      result := result[fieldName := Join(parts)];
      i := i + 1;
    }
  }

  /* ----- printing ----- */

  function PrintString(s: bytes): bytes {
    EncodeLEB(|s|) + s
  }

  function PrintPairs(ps: seq<Pair>): bytes {
    if ps == [] then [] else PrintString(ps[0].name) + (PrintString(ps[0].version) + PrintPairs(ps[1..]))
  }

  function PrintFields(fs: seq<Field>): bytes {
    if fs == [] then []
    else PrintString(fs[0].name) + (EncodeLEB(|fs[0].values|) + (PrintPairs(fs[0].values) + PrintFields(fs[1..])))
  }

  function PrintProducers(fs: seq<Field>): bytes {
    EncodeLEB(|fs|) + PrintFields(fs)
  }

  function Parts(ps: seq<Pair>): seq<bytes> {
    if ps == [] then [] else [Part(ps[0])] + Parts(ps[1..])
  }

  /** The flat object that a list of fields stands for; a later field of the same name wins. */
  function Flat(fs: seq<Field>, result: map<bytes, bytes>): map<bytes, bytes>
    decreases |fs|
  {
    if fs == [] then result else Flat(fs[1..], result[fs[0].name := Join(Parts(fs[0].values))])
  }

  ghost predicate Fits(n: nat) {
    n < 0x8000_0000
  }

  ghost predicate PrintableField(f: Field) {
    Fits(|f.name|) && Fits(|f.values|) && forall p :: p in f.values ==> Fits(|p.name|) && Fits(|p.version|)
  }

  lemma VarintAt(buf: bytes, pos: nat, n: nat, rest: bytes)
    requires pos <= |buf| && buf[pos..] == EncodeLEB(n) + rest && Fits(n)
    ensures ReadAnywhere(buf, pos) == (n, pos + |EncodeLEB(n)|)
    ensures pos + |EncodeLEB(n)| <= |buf| && buf[pos + |EncodeLEB(n)|..] == rest
  {
    hide ReadLEB, EncodeLEB;
    ReadAt(buf, pos, n);
    assert buf[pos + |EncodeLEB(n)|..] == buf[pos..][|EncodeLEB(n)|..];
  }

  lemma StringAt(buf: bytes, pos: nat, s: bytes, rest: bytes) returns (next: nat)
    requires pos <= |buf| && buf[pos..] == PrintString(s) + rest && Fits(|s|)
    ensures next <= |buf| && ReadString(buf, pos) == (s, next) && buf[next..] == rest
  {
    hide ReadAnywhere, EncodeLEB;
    var e := EncodeLEB(|s|);
    assert buf[pos..] == e + (s + rest);
    VarintAt(buf, pos, |s|, s + rest);
    var at := pos + |e|;
    next := at + |s|;
    assert buf[at..next] == buf[at..][..|s|] == s;
    assert buf[next..] == buf[at..][|s|..] == rest;
  }

  lemma {:induction false} PairsAt(buf: bytes, pos: nat, ps: seq<Pair>, rest: bytes) returns (next: nat)
    requires pos <= |buf| && buf[pos..] == PrintPairs(ps) + rest
    requires forall p :: p in ps ==> Fits(|p.name|) && Fits(|p.version|)
    ensures next <= |buf| && ReadParts(buf, pos, |ps|) == (Parts(ps), next) && buf[next..] == rest
    decreases |ps|
  {
    hide ReadString, PrintString, Fits, Part;
    if ps == [] {
      next := pos;
    } else {
      assert ps[0] in ps;
      var tail := PrintPairs(ps[1..]) + rest;
      assert PrintPairs(ps) + rest == PrintString(ps[0].name) + (PrintString(ps[0].version) + tail);
      var p1 := StringAt(buf, pos, ps[0].name, PrintString(ps[0].version) + tail);
      var p2 := StringAt(buf, p1, ps[0].version, tail);
      next := PairsAt(buf, p2, ps[1..], rest);
    }
  }

  lemma FieldAt(buf: bytes, pos: nat, f: Field, rest: bytes) returns (next: nat)
    requires pos <= |buf| && PrintableField(f)
    requires buf[pos..] == PrintString(f.name) + (EncodeLEB(|f.values|) + (PrintPairs(f.values) + rest))
    ensures next <= |buf| && ReadField(buf, pos) == (f.name, Join(Parts(f.values)), next) && buf[next..] == rest
  {
    hide ReadString, PrintString, Fits, EncodeLEB, ReadAnywhere, PrintPairs, Parts, Join, ReadParts;
    var p1 := StringAt(buf, pos, f.name, EncodeLEB(|f.values|) + (PrintPairs(f.values) + rest));
    VarintAt(buf, p1, |f.values|, PrintPairs(f.values) + rest);
    next := PairsAt(buf, p1 + |EncodeLEB(|f.values|)|, f.values, rest);
  }

  lemma {:induction false} FieldsAt(buf: bytes, pos: nat, fs: seq<Field>, result: map<bytes, bytes>)
    requires pos <= |buf| && buf[pos..] == PrintFields(fs)
    requires forall f :: f in fs ==> PrintableField(f)
    ensures ReadFields(buf, pos, |fs|, result) == Flat(fs, result)
    decreases |fs|
  {
    hide ReadField, PrintString, PrintableField, PrintPairs, EncodeLEB;
    if fs != [] {
      assert fs[0] in fs;
      var next := FieldAt(buf, pos, fs[0], PrintFields(fs[1..]));
      FieldsAt(buf, next, fs[1..], result[fs[0].name := Join(Parts(fs[0].values))]);
    }
  }

  /** Parsing inverts printing, for every list of fields the format can hold. */
  lemma ParseInvertsPrinting(fs: seq<Field>)
    requires Fits(|fs|) && forall f :: f in fs ==> PrintableField(f)
    ensures ParseProducers(PrintProducers(fs)) == Flat(fs, map[])
  {
    hide ReadAnywhere, EncodeLEB, PrintFields, Fits, PrintableField;
    var buf := PrintProducers(fs);
    assert buf[0..] == buf;
    VarintAt(buf, 0, |fs|, PrintFields(fs));
    FieldsAt(buf, |EncodeLEB(|fs|)|, fs, map[]);
  }

  /* ----- reading the flat object ----- */

  /** The object has the names of the fields, each with the value of the last field of that name. */
  lemma {:induction false} FlatMeaning(fs: seq<Field>, result: map<bytes, bytes>, name: bytes)
    ensures name in Flat(fs, result) <==> name in result || exists i :: 0 <= i < |fs| && fs[i].name == name
    ensures (forall i :: 0 <= i < |fs| ==> fs[i].name != name) && name in result ==>
              Flat(fs, result)[name] == result[name]
    ensures forall i :: 0 <= i < |fs| && fs[i].name == name && (forall j :: i < j < |fs| ==> fs[j].name != name) ==>
                          name in Flat(fs, result) && Flat(fs, result)[name] == Join(Parts(fs[i].values))
    decreases |fs|
  {
    hide Join, Parts;
    if fs != [] {
      var next := result[fs[0].name := Join(Parts(fs[0].values))];
      FlatMeaning(fs[1..], next, name);
      assert forall j :: 1 <= j < |fs| ==> fs[1..][j - 1] == fs[j];
      assert forall j :: 0 <= j < |fs[1..]| ==> fs[1..][j] == fs[j + 1];
    }
  }

  function SeparatorAt(s: bytes): (i: nat)
    ensures i <= |s|
  {
    if s == [] || (|s| >= 2 && s[0] == COMMA && s[1] == SPACE) then 0 else 1 + SeparatorAt(s[1..])
  }

  function SpaceAt(s: bytes): (i: nat)
    ensures i <= |s|
  {
    if s == [] || s[0] == SPACE then 0 else 1 + SpaceAt(s[1..])
  }

  /** "name version" or "name" */
  function ReadPart(s: bytes): Pair {
    var i := SpaceAt(s);
    if i < |s| then Pair(s[..i], s[i + 1..]) else Pair(s, [])
  }

  /** A list of those, separated by commas with a space. */
  function ReadValues(s: bytes): seq<Pair>
    decreases |s|
  {
    if s == [] then []
    else
      var i := SeparatorAt(s);
      [ReadPart(s[..i])] + if i + 2 <= |s| then ReadValues(s[i + 2..]) else []
  }

  /** A name without spaces and commas, and a version without commas. */
  ghost predicate Clean(p: Pair) {
    p.name != [] && SPACE !in p.name && COMMA !in p.name && COMMA !in p.version
  }

  lemma {:induction false} SpaceFound(a: bytes, b: bytes)
    requires SPACE !in a
    ensures SpaceAt(a) == |a| && SpaceAt(a + [SPACE] + b) == |a|
  {
    if a == [] {
      assert a + [SPACE] + b == [SPACE] + b;
    } else {
      assert a[0] in a;
      SpaceFound(a[1..], b);
      assert (a + [SPACE] + b)[1..] == a[1..] + [SPACE] + b;
    }
  }

  lemma {:induction false} SeparatorFound(a: bytes, b: bytes)
    requires COMMA !in a
    ensures SeparatorAt(a) == |a| && SeparatorAt(a + [COMMA, SPACE] + b) == |a|
  {
    if a == [] {
      assert a + [COMMA, SPACE] + b == [COMMA, SPACE] + b;
    } else {
      assert a[0] in a;
      SeparatorFound(a[1..], b);
      assert (a + [COMMA, SPACE] + b)[1..] == a[1..] + [COMMA, SPACE] + b;
    }
  }

  lemma PartBack(p: Pair)
    requires Clean(p)
    ensures ReadPart(Part(p)) == p && Part(p) != [] && COMMA !in Part(p)
  {
    hide SpaceAt;
    SpaceFound(p.name, p.version);
    if p.version != [] {
      var s := p.name + [SPACE] + p.version;
      assert s[..|p.name|] == p.name && s[|p.name| + 1..] == p.version;
    }
  }

  /** The joined value of a field can be read back. */
  lemma {:induction false} ValuesReadBack(ps: seq<Pair>)
    requires forall p :: p in ps ==> Clean(p)
    ensures ReadValues(Join(Parts(ps))) == ps
  {
    hide Part, ReadPart, Clean, SeparatorAt;
    if ps != [] {
      assert ps[0] in ps;
      PartBack(ps[0]);
      var part, rest := Part(ps[0]), Join(Parts(ps[1..]));
      ValuesReadBack(ps[1..]);
      SeparatorFound(part, rest);
      assert Parts(ps)[1..] == Parts(ps[1..]);
      if |ps| > 1 {
        assert |Parts(ps[1..])| >= 1;
        var s := part + [COMMA, SPACE] + rest;
        assert Join(Parts(ps)) == s;
        assert s[..|part|] == part && s[|part| + 2..] == rest;
      } else {
        assert Join(Parts(ps)) == part && part[..|part|] == part;
      }
    }
  }

  /** From a printed section every field that is the last of its name can be read back, with names and versions. */
  lemma FieldsReadBack(fs: seq<Field>, i: nat)
    requires Fits(|fs|) && forall f :: f in fs ==> PrintableField(f)
    requires i < |fs| && (forall j :: i < j < |fs| ==> fs[j].name != fs[i].name)
    requires forall p :: p in fs[i].values ==> Clean(p)
    ensures var result := ParseProducers(PrintProducers(fs));
            fs[i].name in result && ReadValues(result[fs[i].name]) == fs[i].values
  {
    hide Flat, Fits, PrintableField, Clean;
    ParseInvertsPrinting(fs);
    FlatMeaning(fs, map[], fs[i].name);
    ValuesReadBack(fs[i].values);
  }
}
