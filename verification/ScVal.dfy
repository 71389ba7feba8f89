/**
 Decoding of Soroban values: `scValToJs`, `scValToJsTyped` and `buildTypeIndex` of indexer/src/scval.js.
 Error and address values carry the text the Stellar SDK prints for them.
 */
module ScVals {
  import opened Bits
  import Decimal

  datatype ScVal =
    | ScvBool(b: bool)
    | ScvVoid
    | ScvError(text: string)
    | ScvU32(n: int)
    | ScvI32(n: int)
    | ScvU64(n: int)
    | ScvI64(n: int)
    | ScvTimepoint(n: int)
    | ScvDuration(n: int)
    | ScvU128(hi: int, lo: int)
    | ScvI128(hi: int, lo: int)
    | ScvU256(hiHi: int, hiLo: int, loHi: int, loLo: int)
    | ScvI256(hiHi: int, hiLo: int, loHi: int, loLo: int)
    | ScvBytes(bytes: seq<int>)
    | ScvString(s: string)
    | ScvSymbol(s: string)
    | ScvVec(items: seq<ScVal>)
    | ScvMap(entries: seq<MapEntry>)
    | ScvAddress(text: string)
    | ScvLedgerKeyContractInstance
    | ScvLedgerKeyNonce(nonce: int)
    | ScvContractInstance
    | ScvOther(text: string)

  datatype MapEntry = MapEntry(key: ScVal, val: ScVal)

  datatype Js =
    | Null
    | Bool(b: bool)
    | Number(n: int)
    | BigInt(n: int)
    | Str(s: string)
    | Array(items: seq<Js>)
    | Object(props: map<string, Js>)

  /* ----- the generic decoder ----- */

  /** `BigInt(a) << k` */
  function Shl(a: int, k: nat): int {
    a * Pow2(k)
  }

  function Wide128(hi: int, lo: int): int {
    BitOr(Shl(hi, 64), lo)
  }

  function Wide256(hiHi: int, hiLo: int, loHi: int, loLo: int): int {
    BitOr(BitOr(BitOr(Shl(hiHi, 192), Shl(hiLo, 128)), Shl(loHi, 64)), loLo)
  }

  function HexDigit(d: int): char {
    if 0 <= d < 16 then "0123456789abcdef"[d] else '?'
  }

  function Hex(bytes: seq<int>): string {
    if bytes == [] then "" else [HexDigit(bytes[0] / 16), HexDigit(bytes[0] % 16)] + Hex(bytes[1..])
  }

  /** `String(v)` */
  function ToText(v: Js): string {
    match v
    case Null => "null"
    case Bool(b) => if b then "true" else "false"
    case Number(n) => Decimal.Text(n)
    case BigInt(n) => Decimal.Text(n)
    case Str(s) => s
    case Array(items) => JoinTexts(items)
    case Object(_) => "[object Object]"
  }

  function JoinTexts(items: seq<Js>): string {
    if items == [] then ""
    else
      var head := if items[0].Null? then "" else ToText(items[0]);
      if |items| == 1 then head else head + "," + JoinTexts(items[1..])
  }

  function ToJs(v: ScVal): Js {
    match v
    case ScvBool(b) => Bool(b)
    case ScvVoid => Null
    case ScvError(text) => Object(map["error" := Str(text)])
    case ScvU32(n) => Number(n)
    case ScvI32(n) => Number(n)
    case ScvU64(n) => BigInt(n)
    case ScvI64(n) => BigInt(n)
    case ScvTimepoint(n) => BigInt(n)
    case ScvDuration(n) => BigInt(n)
    case ScvU128(hi, lo) => BigInt(Wide128(hi, lo))
    case ScvI128(hi, lo) => BigInt(Wide128(hi, lo))
    case ScvU256(a, b, c, d) => BigInt(Wide256(a, b, c, d))
    case ScvI256(a, b, c, d) => BigInt(Wide256(a, b, c, d))
    case ScvBytes(bytes) => Str(Hex(bytes))
    case ScvString(s) => Str(s)
    case ScvSymbol(s) => Str(s)
    case ScvVec(items) => Array(AllToJs(items))
    case ScvMap(entries) => Object(MapToJs(entries))
    case ScvAddress(text) => Str(text)
    case ScvLedgerKeyContractInstance => Object(map["type" := Str("ledgerKeyContractInstance")])
    case ScvLedgerKeyNonce(nonce) => Object(map["type" := Str("ledgerKeyNonce"), "nonce" := BigInt(nonce)])
    case ScvContractInstance => Object(map["type" := Str("contractInstance")])
    case ScvOther(text) => Str(text)
  }

  function AllToJs(items: seq<ScVal>): (r: seq<Js>)
    ensures |r| == |items|
    ensures forall i :: 0 <= i < |items| ==> r[i] == ToJs(items[i])
  {
    if items == [] then [] else [ToJs(items[0])] + AllToJs(items[1..])
  }

  /** The object filled entry by entry: a later entry with the same key text wins. */
  function MapToJs(entries: seq<MapEntry>): map<string, Js> {
    if entries == [] then map[]
    else EntryToJs(entries[0]) + MapToJs(entries[1..])
  }

  function EntryToJs(e: MapEntry): map<string, Js> {
    map[ToText(ToJs(e.key)) := ToJs(e.val)]
  }

  /* ----- what the generic decoder gives ----- */

  function HexValue(c: char): int {
    if '0' <= c <= '9' then c as int - '0' as int else if 'a' <= c <= 'f' then c as int - 'a' as int + 10 else -1
  }

  /** `Buffer.from(s, "hex")` of a text of digit pairs, high digit first. */
  function ReadHex(s: string): seq<int> {
    if |s| < 2 then [] else [16 * HexValue(s[0]) + HexValue(s[1])] + ReadHex(s[2..])
  }

  lemma HexDigitReads(d: int)
    requires 0 <= d < 16
    ensures HexValue(HexDigit(d)) == d
  {
  }

  /** Bytes are printed as digit pairs from which they can be read back. */
  lemma {:induction false} HexReadsBack(bytes: seq<int>)
    requires forall i :: 0 <= i < |bytes| ==> 0 <= bytes[i] < 256
    ensures |Hex(bytes)| == 2 * |bytes| && ReadHex(Hex(bytes)) == bytes
  {
    hide HexDigit, HexValue;
    if bytes != [] {
      HexReadsBack(bytes[1..]);
      HexDigitReads(bytes[0] / 16);
      HexDigitReads(bytes[0] % 16);
      assert Hex(bytes)[2..] == Hex(bytes[1..]);
    }
  }

  /** Integers of up to 32 bits become numbers, wider ones BigInts, and texts, flags and void what they are. */
  lemma ScalarsDecode(n: int, s: string, b: bool)
    ensures ToJs(ScvU32(n)) == ToJs(ScvI32(n)) == Number(n)
    ensures ToJs(ScvU64(n)) == ToJs(ScvI64(n)) == ToJs(ScvTimepoint(n)) == ToJs(ScvDuration(n)) == BigInt(n)
    ensures ToJs(ScvString(s)) == ToJs(ScvSymbol(s)) == ToJs(ScvAddress(s)) == Str(s)
    ensures ToJs(ScvBool(b)) == Bool(b) && ToJs(ScvVoid) == Null && ToJs(ScvError(s)) == Object(map["error" := Str(s)])
  {
  }

  /** Ledger keys and instances become objects that tell what they are. */
  lemma LedgerKeysDecode(n: int)
    ensures ToJs(ScvLedgerKeyNonce(n)) == Object(map["type" := Str("ledgerKeyNonce"), "nonce" := BigInt(n)])
    ensures ToJs(ScvLedgerKeyContractInstance) == Object(map["type" := Str("ledgerKeyContractInstance")])
    ensures ToJs(ScvContractInstance) == Object(map["type" := Str("contractInstance")])
  {
  }

  /** An object made from a map has a property for the text of every key, and the last entry under a text wins. */
  lemma {:induction false} MapMeaning(entries: seq<MapEntry>, name: string)
    ensures name in MapToJs(entries) <==> exists i :: 0 <= i < |entries| && ToText(ToJs(entries[i].key)) == name
    ensures forall i :: 0 <= i < |entries| && ToText(ToJs(entries[i].key)) == name
                        && (forall j :: i < j < |entries| ==> ToText(ToJs(entries[j].key)) != name)
              ==> name in MapToJs(entries) && MapToJs(entries)[name] == ToJs(entries[i].val)
  {
    hide ToJs, ToText;
    if entries != [] {
      MapMeaning(entries[1..], name);
      forall i | 0 <= i < |entries| && ToText(ToJs(entries[i].key)) == name
                 && (forall j :: i < j < |entries| ==> ToText(ToJs(entries[j].key)) != name)
        ensures name in MapToJs(entries) && MapToJs(entries)[name] == ToJs(entries[i].val)
      {
        if i == 0 {
          forall j | 0 <= j < |entries[1..]| ensures ToText(ToJs(entries[1..][j].key)) != name {
            assert entries[1..][j] == entries[j + 1];
          }
        } else {
          assert entries[1..][i - 1] == entries[i];
          forall j | i - 1 < j < |entries[1..]| ensures ToText(ToJs(entries[1..][j].key)) != name {
            assert entries[1..][j] == entries[j + 1];
          }
        }
      }
      if i :| 0 <= i < |entries| && ToText(ToJs(entries[i].key)) == name {
        assert i > 0 ==> entries[1..][i - 1] == entries[i];
      }
      if i :| 0 <= i < |entries[1..]| && ToText(ToJs(entries[1..][i].key)) == name {
        assert entries[i + 1] == entries[1..][i];
      }
    }
  }

  /** The text of a key: of texts they themselves, of numbers the decimal digits, of arrays the texts with commas. */
  lemma KeyTexts(s: string, a: string, b: string, n: int)
    ensures ToText(Str(s)) == s && ToText(Number(n)) == ToText(BigInt(n)) == Decimal.Text(n)
    ensures ToText(Bool(true)) == "true" && ToText(Bool(false)) == "false" && ToText(Null) == "null"
    ensures ToText(Array([Str(a), Null, Str(b)])) == a + ",," + b
  {
    var items := [Str(a), Null, Str(b)];
    assert items[1..] == [Null, Str(b)] && items[1..][1..] == [Str(b)];
    assert JoinTexts([Str(b)]) == b;
    assert JoinTexts([Null, Str(b)]) == "" + "," + b;
    assert JoinTexts(items) == a + "," + JoinTexts(items[1..]);
  }

  /* ----- the type index ----- */

  datatype FieldDef = FieldDef(name: string, kind: string)

  datatype EnumCase = EnumCase(name: string, value: int)

  /** A void case has no payload types. */
  datatype UnionCase = UnionCase(name: string, kinds: seq<string>)

  datatype TypeDef =
    | Struct(fields: seq<FieldDef>)
    | Enum(cases: seq<EnumCase>)
    | Union(variants: seq<UnionCase>)
    | ErrorEnum(cases: seq<EnumCase>)

  datatype TypeEntry = TypeEntry(name: string, def: TypeDef)

  type TypeIndex = map<string, TypeDef>

  function IndexOf(types: seq<TypeEntry>): TypeIndex {
    if types == [] then map[]
    else
      var before := IndexOf(types[..|types| - 1]);
      var t := types[|types| - 1];
      if t.name != "" then before[t.name := t.def] else before
  }

  method BuildTypeIndex(types: seq<TypeEntry>) returns (index: TypeIndex)
    ensures index == IndexOf(types)
  {
    index := map[];
    for i := 0 to |types|
      invariant index == IndexOf(types[..i])
    {
      assert types[..i + 1][..i] == types[..i];
      if types[i].name != "" {
        index := index[types[i].name := types[i].def];
      }
    }
    assert types[..|types|] == types;
  }

  /** The index maps every name to the last definition that carries it, and nothing else. */
  lemma {:induction false} IndexMeaning(types: seq<TypeEntry>, name: string)
    ensures name in IndexOf(types) <==> name != "" && exists t :: t in types && t.name == name
    ensures forall i :: 0 <= i < |types| && types[i].name == name != ""
                        && (forall j :: i < j < |types| ==> types[j].name != name)
              ==> IndexOf(types)[name] == types[i].def
  {
    if types != [] {
      var before := types[..|types| - 1];
      IndexMeaning(before, name);
      assert types == before + [types[|types| - 1]];
    }
  }

  /* ----- the typed decoder ----- */

  function FieldKind(fields: seq<FieldDef>, name: string): string {
    if fields == [] then "" else if fields[0].name == name then fields[0].kind else FieldKind(fields[1..], name)
  }

  /** `cases.find((c) => c.value === value)`, or the number of cases if there is none. */
  function CaseByValue(cases: seq<EnumCase>, value: int): (i: nat)
    ensures i <= |cases| && (i < |cases| ==> cases[i].value == value)
    ensures forall j :: 0 <= j < i ==> cases[j].value != value
  {
    if cases == [] || cases[0].value == value then 0 else 1 + CaseByValue(cases[1..], value)
  }

  function VariantByName(cases: seq<UnionCase>, name: string): (i: nat)
    ensures i <= |cases| && (i < |cases| ==> cases[i].name == name)
    ensures forall j :: 0 <= j < i ==> cases[j].name != name
  {
    if cases == [] || cases[0].name == name then 0 else 1 + VariantByName(cases[1..], name)
  }

  function TagOf(v: ScVal): string {
    if v.ScvSymbol? then v.s else ToText(ToJs(v))
  }

  function EnumJs(kind: string, cases: seq<EnumCase>, value: int): Js {
    var i := CaseByValue(cases, value);
    var variant := if i < |cases| then cases[i].name else "Unknown(" + Decimal.Text(value) + ")";
    Object(map["_type" := Str(kind), "variant" := Str(variant), "value" := Number(value)])
  }

  function ErrorJs(kind: string, cases: seq<EnumCase>, value: int): Js {
    var i := CaseByValue(cases, value);
    var error := if i < |cases| then cases[i].name else "Unknown(" + Decimal.Text(value) + ")";
    Object(map["_type" := Str(kind), "error" := Str(error), "code" := Number(value)])
  }

  function VoidVariantJs(kind: string, tag: string): Js {
    Object(map["_type" := Str(kind), "variant" := Str(tag)])
  }

  function VariantJs(kind: string, tag: string, data: Js): Js {
    Object(map["_type" := Str(kind), "variant" := Str(tag), "data" := data])
  }

  /** `scValToJsTyped(val, typeHint, typeIndex)`; the empty hint stands for a missing one. */
  function Typed(v: ScVal, kind: string, index: TypeIndex): Js
    decreases v, 1
  {
    if kind == "" || kind !in index then ToJs(v)
    else match index[kind]
      case Struct(fields) =>
        if v.ScvMap? then Object(TypedEntries(v.entries, fields, index))
        else if v.ScvVec? then
          if |fields| > 0 && |v.items| == |fields| then Object(TypedFields(v.items, fields, index))
          else Array(AllToJs(v.items))
        else ToJs(v)
      case Enum(cases) => if v.ScvU32? then EnumJs(kind, cases, v.n) else ToJs(v)
      case Union(variants) =>
        if v.ScvVec? then
          if v.items == [] then ToJs(v)
          else
            var tag := TagOf(v.items[0]);
            var i := VariantByName(variants, tag);
            if i == |variants| then VariantJs(kind, tag, Array(AllToJs(v.items[1..])))
            else if variants[i].kinds == [] then VoidVariantJs(kind, tag)
            else
              var data := TypedItems(v.items[1..], variants[i].kinds, index);
              VariantJs(kind, tag, if |data| == 1 then data[0] else Array(data))
        else if v.ScvSymbol? then VoidVariantJs(kind, v.s)
        else ToJs(v)
      case ErrorEnum(cases) => if v.ScvU32? then ErrorJs(kind, cases, v.n) else ToJs(v)
  }

  function TypedEntries(entries: seq<MapEntry>, fields: seq<FieldDef>, index: TypeIndex): map<string, Js>
    decreases entries, 0
  {
    if entries == [] then map[]
    else TypedEntry(entries[0], fields, index) + TypedEntries(entries[1..], fields, index)
  }

  function TypedEntry(e: MapEntry, fields: seq<FieldDef>, index: TypeIndex): map<string, Js>
    decreases e, 2
  {
    var name := ToText(ToJs(e.key));
    map[name := Typed(e.val, FieldKind(fields, name), index)]
  }

  function TypedFields(items: seq<ScVal>, fields: seq<FieldDef>, index: TypeIndex): map<string, Js>
    requires |items| == |fields|
    decreases items, 0
  {
    if items == [] then map[]
    else map[fields[0].name := Typed(items[0], fields[0].kind, index)] + TypedFields(items[1..], fields[1..], index)
  }

  /** Payload items beyond the declared types are decoded without a type. */
  function TypedItems(items: seq<ScVal>, kinds: seq<string>, index: TypeIndex): (r: seq<Js>)
    ensures |r| == |items|
    decreases items, 0
  {
    if items == [] then []
    else [Typed(items[0], if kinds == [] then "" else kinds[0], index)]
         + TypedItems(items[1..], if kinds == [] then [] else kinds[1..], index)
  }

  /* ----- the loops that fill an object ----- */

  lemma {:induction false} MapToJsSnoc(entries: seq<MapEntry>, e: MapEntry)
    ensures MapToJs(entries + [e]) == MapToJs(entries) + EntryToJs(e)
  {
    hide EntryToJs;
    if entries == [] {
      assert [] + [e] == [e] && [e][1..] == [];
    } else {
      MapToJsSnoc(entries[1..], e);
      assert (entries + [e])[1..] == entries[1..] + [e];
    }
  }

  lemma {:induction false} TypedEntriesSnoc(entries: seq<MapEntry>, e: MapEntry, fields: seq<FieldDef>,
                                            index: TypeIndex)
    ensures TypedEntries(entries + [e], fields, index)
         == TypedEntries(entries, fields, index) + TypedEntry(e, fields, index)
  {
    hide TypedEntry;
    if entries == [] {
      assert [] + [e] == [e] && [e][1..] == [];
    } else {
      TypedEntriesSnoc(entries[1..], e, fields, index);
      assert (entries + [e])[1..] == entries[1..] + [e];
    }
  }

  /** The `scvMap` branch of `scValToJs`. */
  method DecodeMap(entries: seq<MapEntry>) returns (obj: map<string, Js>)
    ensures obj == MapToJs(entries)
  {
    hide ToJs, ToText;
    obj := map[];
    for i := 0 to |entries|
      invariant obj == MapToJs(entries[..i])
    {
      var k := ToJs(entries[i].key);
      obj := obj[ToText(k) := ToJs(entries[i].val)];
      MapToJsSnoc(entries[..i], entries[i]);
      assert entries[..i + 1] == entries[..i] + [entries[i]];
    }
    assert entries[..|entries|] == entries;
  }

  /** The `scvMap` branch of a struct in `scValToJsTyped`. */
  method DecodeStructMap(entries: seq<MapEntry>, fields: seq<FieldDef>, index: TypeIndex)
    returns (result: map<string, Js>)
    ensures result == TypedEntries(entries, fields, index)
  {
    result := map[];
    for i := 0 to |entries|
      invariant result == TypedEntries(entries[..i], fields, index)
    {
      hide ToJs, ToText, Typed, FieldKind, TypedEntries;
      assert entries[..i + 1] == entries[..i] + [entries[i]];
      TypedEntriesSnoc(entries[..i], entries[i], fields, index);
      var fieldName := ToText(ToJs(entries[i].key));
      var value := Typed(entries[i].val, FieldKind(fields, fieldName), index);
      Put(result, fieldName, value);
      result := result[fieldName := value];
    }
    assert entries[..|entries|] == entries;
  }

  lemma Put(m: map<string, Js>, name: string, value: Js)
    ensures m + map[name := value] == m[name := value]
  {
  }

  /* ----- wide integers ----- */

  const W: int := 0x1_0000_0000_0000_0000

  /** The limbs of a 128-bit integer, signed or not: the high limb carries the sign. */
  lemma WideFromLimbs128(n: int)
    ensures Wide128(n / W, n % W) == n
  {
    hide BitOr, Pow2;
    Pow2Of64();
    BitOrDisjoint(n / W, 64, n % W);
  }

  lemma OrStep(high: int, shift: nat, limb: int)
    requires 0 <= limb < W
    ensures BitOr(high * Pow2(shift + 64), limb * Pow2(shift)) == (high * W + limb) * Pow2(shift)
  {
    hide BitOr, Pow2;
    var p := Pow2(shift);
    Pow2Of64();
    Pow2Add(shift, 64);
    Below(limb, p);
    BitOrDisjoint(high, shift + 64, limb * p);
    assert high * (p * W) + limb * p == (high * W + limb) * p;
  }

  lemma Below(limb: int, p: nat)
    requires 0 <= limb < W && p >= 1
    ensures 0 <= limb * p < p * W
  {
    assert (W - limb) * p >= 1;
    assert (W - limb) * p == W * p - limb * p;
  }

  lemma Limbs(n: int)
    ensures ((n / W / W / W * W + (n / W / W) % W) * W + (n / W) % W) * W + n % W == n
  {
  }

  /** The limbs of a 256-bit integer, signed or not. */
  lemma WideFromLimbs256(n: int)
    ensures Wide256(n / W / W / W, (n / W / W) % W, (n / W) % W, n % W) == n
  {
    hide BitOr, Pow2;
    var a, b, c, d := n / W / W / W, (n / W / W) % W, (n / W) % W, n % W;
    OrStep(a, 128, b);
    OrStep(a * W + b, 64, c);
    OrStep((a * W + b) * W + c, 0, d);
    assert Pow2(0) == 1 by { Pow2One(); }
    Limbs(n);
  }

  lemma Pow2One()
    ensures Pow2(0) == 1
  {
  }

  function U128(n: int): ScVal { ScvU128(n / W, n % W) }

  function I128(n: int): ScVal { ScvI128(n / W, n % W) }

  function U256(n: int): ScVal { ScvU256(n / W / W / W, (n / W / W) % W, (n / W) % W, n % W) }

  function I256(n: int): ScVal { ScvI256(n / W / W / W, (n / W / W) % W, (n / W) % W, n % W) }

  /** Wide integers come back exactly from their limbs, negative ones included, without loss of precision. */
  lemma WideIntegersDecode(n: int)
    ensures ToJs(U128(n)) == BigInt(n) == ToJs(I128(n))
    ensures ToJs(U256(n)) == BigInt(n) == ToJs(I256(n))
  {
    hide Wide128, Wide256;
    WideFromLimbs128(n);
    WideFromLimbs256(n);
  }
}
