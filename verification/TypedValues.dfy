/**
 Values of contract types, the ways Soroban encodes them, and what `scValToJsTyped` makes of an encoding.
 A type is named by a string; a name the index does not define (a primitive, `Vec<..>`, `Option<..>`) is
 opaque to the typed decoder, which falls back to the generic one there.
 */
module TypedValues {
  import opened ScVals
  import Decimal

  datatype Val =
    | Plain(v: ScVal)
    | Record(fields: seq<Val>)
    | Member(ix: nat)
    | Tagged(ix: nat, data: seq<Val>)

  predicate Defined(kind: string, index: TypeIndex) {
    kind != "" && kind in index
  }

  ghost predicate HasType(t: Val, kind: string, index: TypeIndex) {
    if !Defined(kind, index) then t.Plain?
    else match index[kind]
      case Struct(fs) =>
        t.Record? && |t.fields| == |fs| && forall i :: 0 <= i < |fs| ==> HasType(t.fields[i], fs[i].kind, index)
      case Enum(cs) => t.Member? && t.ix < |cs|
      case ErrorEnum(cs) => t.Member? && t.ix < |cs|
      case Union(vs) =>
        && t.Tagged? && t.ix < |vs| && |t.data| == |vs[t.ix].kinds|
        && forall i :: 0 <= i < |t.data| ==> HasType(t.data[i], vs[t.ix].kinds[i], index)
  }

  /** Within one definition, fields and union cases have distinct names and enum cases distinct values. */
  ghost predicate DistinctDef(def: TypeDef) {
    match def
    case Struct(fs) => forall i, j :: 0 <= i < j < |fs| ==> fs[i].name != fs[j].name
    case Enum(cs) => forall i, j :: 0 <= i < j < |cs| ==> cs[i].value != cs[j].value
    case ErrorEnum(cs) => forall i, j :: 0 <= i < j < |cs| ==> cs[i].value != cs[j].value
    case Union(vs) => forall i, j :: 0 <= i < j < |vs| ==> vs[i].name != vs[j].name
  }

  ghost predicate WellFormed(index: TypeIndex) {
    forall kind :: kind in index ==> DistinctDef(index[kind])
  }

  /* ----- encodings ----- */

  /**
   `sv` encodes `t`: a struct as a vector in field order (if it has fields) or as a map from field symbols in any
   order, a union case as a vector led by its symbol or, without payload, as the bare symbol.
   */
  ghost predicate Encodes(sv: ScVal, t: Val, kind: string, index: TypeIndex)
    requires HasType(t, kind, index)
    decreases t
  {
    if !Defined(kind, index) then sv == t.v
    else match index[kind]
      case Struct(fs) => EncodesTuple(sv, t, fs, index) || EncodesMap(sv, t, fs, index)
      case Enum(cs) => sv == ScvU32(cs[t.ix].value)
      case ErrorEnum(cs) => sv == ScvU32(cs[t.ix].value)
      case Union(vs) =>
        var c := vs[t.ix];
        if c.kinds == [] then sv == ScvSymbol(c.name) || sv == ScvVec([ScvSymbol(c.name)])
        else
          && sv.ScvVec? && |sv.items| == 1 + |c.kinds| && sv.items[0] == ScvSymbol(c.name)
          && forall i :: 0 <= i < |t.data| ==> Encodes(sv.items[i + 1], t.data[i], c.kinds[i], index)
  }

  ghost predicate EncodesTuple(sv: ScVal, t: Val, fs: seq<FieldDef>, index: TypeIndex)
    requires t.Record? && |t.fields| == |fs| && forall i :: 0 <= i < |fs| ==> HasType(t.fields[i], fs[i].kind, index)
    decreases t, 0
  {
    && sv.ScvVec? && |fs| > 0 && |sv.items| == |fs|
    && forall i :: 0 <= i < |fs| ==> Encodes(sv.items[i], t.fields[i], fs[i].kind, index)
  }

  ghost predicate EncodesMap(sv: ScVal, t: Val, fs: seq<FieldDef>, index: TypeIndex)
    requires t.Record? && |t.fields| == |fs| && forall i :: 0 <= i < |fs| ==> HasType(t.fields[i], fs[i].kind, index)
    decreases t, 0
  {
    && sv.ScvMap?
    && (forall e :: e in sv.entries ==> EncodesEntry(e, t, fs, index))
    && (forall f :: f in fs ==> HasEntry(sv.entries, f.name))
  }

  /** The entry stands for one of the struct's fields. */
  ghost predicate EncodesEntry(e: MapEntry, t: Val, fs: seq<FieldDef>, index: TypeIndex)
    requires t.Record? && |t.fields| == |fs| && forall i :: 0 <= i < |fs| ==> HasType(t.fields[i], fs[i].kind, index)
    decreases t, 0, 0
  {
    exists i :: 0 <= i < |fs| && e.key == ScvSymbol(fs[i].name) && Encodes(e.val, t.fields[i], fs[i].kind, index)
  }

  predicate HasEntry(entries: seq<MapEntry>, name: string) {
    exists j :: 0 <= j < |entries| && entries[j].key == ScvSymbol(name)
  }

  /* ----- the JavaScript value of a typed value ----- */

  function Render(t: Val, kind: string, index: TypeIndex): Js
    requires HasType(t, kind, index)
    decreases t, 1
  {
    if !Defined(kind, index) then ToJs(t.v)
    else match index[kind]
      case Struct(fs) => Object(RenderFields(t.fields, fs, index))
      case Enum(cs) =>
        Object(map["_type" := Str(kind), "variant" := Str(cs[t.ix].name), "value" := Number(cs[t.ix].value)])
      case ErrorEnum(cs) =>
        Object(map["_type" := Str(kind), "error" := Str(cs[t.ix].name), "code" := Number(cs[t.ix].value)])
      case Union(vs) =>
        var c := vs[t.ix];
        if c.kinds == [] then Object(map["_type" := Str(kind), "variant" := Str(c.name)])
        else
          var data := RenderItems(t.data, c.kinds, index);
          Object(map["_type" := Str(kind), "variant" := Str(c.name),
                     "data" := if |data| == 1 then data[0] else Array(data)])
  }

  function RenderFields(ts: seq<Val>, fs: seq<FieldDef>, index: TypeIndex): map<string, Js>
    requires |ts| == |fs| && forall i :: 0 <= i < |fs| ==> HasType(ts[i], fs[i].kind, index)
    decreases ts, 0
  {
    if ts == [] then map[]
    else map[fs[0].name := Render(ts[0], fs[0].kind, index)] + RenderFields(ts[1..], fs[1..], index)
  }

  function RenderItems(ts: seq<Val>, kinds: seq<string>, index: TypeIndex): (r: seq<Js>)
    requires |ts| == |kinds| && forall i :: 0 <= i < |ts| ==> HasType(ts[i], kinds[i], index)
    ensures |r| == |ts|
    decreases ts, 0
  {
    if ts == [] then [] else [Render(ts[0], kinds[0], index)] + RenderItems(ts[1..], kinds[1..], index)
  }

  /* ----- lookups under distinct names ----- */

  lemma {:induction false} FieldKindAt(fs: seq<FieldDef>, i: nat)
    requires i < |fs| && DistinctDef(Struct(fs))
    ensures FieldKind(fs, fs[i].name) == fs[i].kind
  {
    if i > 0 {
      assert fs[0].name != fs[i].name;
      assert DistinctDef(Struct(fs[1..]));
      FieldKindAt(fs[1..], i - 1);
    }
  }

  lemma {:induction false} RenderFieldAt(ts: seq<Val>, fs: seq<FieldDef>, index: TypeIndex, i: nat)
    requires |ts| == |fs| && forall i :: 0 <= i < |fs| ==> HasType(ts[i], fs[i].kind, index)
    requires DistinctDef(Struct(fs)) && i < |fs|
    ensures var m := RenderFields(ts, fs, index);
            fs[i].name in m && m[fs[i].name] == Render(ts[i], fs[i].kind, index)
  {
    hide HasType, Render;
    if i > 0 {
      assert DistinctDef(Struct(fs[1..]));
      RenderFieldAt(ts[1..], fs[1..], index, i - 1);
      assert fs[1..][i - 1] == fs[i] && ts[1..][i - 1] == ts[i];
    } else {
      RenderFieldNames(ts[1..], fs[1..], index, fs[0].name);
    }
  }

  lemma {:induction false} RenderFieldNames(ts: seq<Val>, fs: seq<FieldDef>, index: TypeIndex, name: string)
    requires |ts| == |fs| && forall i :: 0 <= i < |fs| ==> HasType(ts[i], fs[i].kind, index)
    ensures name in RenderFields(ts, fs, index) ==> exists i :: 0 <= i < |fs| && fs[i].name == name
  {
    hide HasType, Render;
    if ts != [] && fs[0].name != name {
      RenderFieldNames(ts[1..], fs[1..], index, name);
      if name in RenderFields(ts[1..], fs[1..], index) {
        var i :| 0 <= i < |fs[1..]| && fs[1..][i].name == name;
        assert fs[i + 1].name == name;
      }
    }
  }

  lemma {:induction false} RenderItemsAt(ts: seq<Val>, kinds: seq<string>, index: TypeIndex)
    requires |ts| == |kinds| && forall i :: 0 <= i < |ts| ==> HasType(ts[i], kinds[i], index)
    ensures forall i :: 0 <= i < |ts| ==> RenderItems(ts, kinds, index)[i] == Render(ts[i], kinds[i], index)
  {
    hide HasType, Render;
    if ts != [] {
      RenderItemsAt(ts[1..], kinds[1..], index);
      forall i | 0 < i < |ts| ensures RenderItems(ts, kinds, index)[i] == Render(ts[i], kinds[i], index) {
        assert ts[1..][i - 1] == ts[i] && kinds[1..][i - 1] == kinds[i];
      }
    }
  }

  /* ----- decoding inverts encoding ----- */

  lemma {:induction false} TypedFieldsDecode(items: seq<ScVal>, ts: seq<Val>, fs: seq<FieldDef>, index: TypeIndex)
    requires WellFormed(index) && |items| == |ts| == |fs|
    requires forall i :: 0 <= i < |fs| ==>
                           HasType(ts[i], fs[i].kind, index) && Encodes(items[i], ts[i], fs[i].kind, index)
    ensures TypedFields(items, fs, index) == RenderFields(ts, fs, index)
    decreases ts, 0
  {
    hide HasType, Encodes, Render, Typed, WellFormed;
    if ts != [] {
      DecodeEncoding(items[0], ts[0], fs[0].kind, index);
      TypedFieldsDecode(items[1..], ts[1..], fs[1..], index);
    }
  }

  lemma {:induction false} TypedItemsDecode(items: seq<ScVal>, ts: seq<Val>, kinds: seq<string>, index: TypeIndex)
    requires WellFormed(index) && |items| == |ts| == |kinds|
    requires forall i :: 0 <= i < |ts| ==> HasType(ts[i], kinds[i], index) && Encodes(items[i], ts[i], kinds[i], index)
    ensures TypedItems(items, kinds, index) == RenderItems(ts, kinds, index)
    decreases ts, 0
  {
    hide HasType, Encodes, Render, Typed, WellFormed;
    if ts != [] {
      DecodeEncoding(items[0], ts[0], kinds[0], index);
      TypedItemsDecode(items[1..], ts[1..], kinds[1..], index);
    }
  }

  /** Entries that each agree with `want` fill an object that agrees with `want` on the names they carry. */
  lemma {:induction false} EntriesFill(entries: seq<MapEntry>, fs: seq<FieldDef>, index: TypeIndex,
                                       want: map<string, Js>)
    requires forall j :: 0 <= j < |entries| ==>
               && entries[j].key.ScvSymbol? && entries[j].key.s in want
               && Typed(entries[j].val, FieldKind(fs, entries[j].key.s), index) == want[entries[j].key.s]
    ensures var m := TypedEntries(entries, fs, index);
            && (forall name :: name in m ==> name in want && m[name] == want[name])
            && (forall j :: 0 <= j < |entries| ==> entries[j].key.s in m)
  {
    hide Typed;
    if entries != [] {
      EntriesFill(entries[1..], fs, index, want);
      var m := TypedEntries(entries, fs, index);
      assert ToText(ToJs(entries[0].key)) == entries[0].key.s;
      forall j | 0 <= j < |entries| ensures entries[j].key.s in m {
        if j > 0 {
          assert entries[1..][j - 1] == entries[j];
        } else {
          assert entries[0].key.s in TypedEntry(entries[0], fs, index);
        }
      }
    }
  }

  lemma EntryDecode(e: MapEntry, t: Val, fs: seq<FieldDef>, index: TypeIndex)
    requires WellFormed(index) && DistinctDef(Struct(fs))
    requires t.Record? && |t.fields| == |fs| && forall i :: 0 <= i < |fs| ==> HasType(t.fields[i], fs[i].kind, index)
    requires EncodesEntry(e, t, fs, index)
    ensures var want := RenderFields(t.fields, fs, index);
            e.key.ScvSymbol? && e.key.s in want && Typed(e.val, FieldKind(fs, e.key.s), index) == want[e.key.s]
    decreases t, 0
  {
    hide HasType, Encodes, Render, Typed, WellFormed, DistinctDef, RenderFields;
    var i :| 0 <= i < |fs| && e.key == ScvSymbol(fs[i].name) && Encodes(e.val, t.fields[i], fs[i].kind, index);
    FieldKindAt(fs, i);
    RenderFieldAt(t.fields, fs, index, i);
    DecodeEncoding(e.val, t.fields[i], fs[i].kind, index);
  }

  lemma NameCovered(sv: ScVal, t: Val, fs: seq<FieldDef>, index: TypeIndex, name: string) returns (j: nat)
    requires t.Record? && |t.fields| == |fs| && forall i :: 0 <= i < |fs| ==> HasType(t.fields[i], fs[i].kind, index)
    requires EncodesMap(sv, t, fs, index) && name in RenderFields(t.fields, fs, index)
    ensures j < |sv.entries| && sv.entries[j].key == ScvSymbol(name)
  {
    hide HasType, Encodes, RenderFields, EncodesEntry;
    RenderFieldNames(t.fields, fs, index, name);
    var i :| 0 <= i < |fs| && fs[i].name == name;
    assert fs[i] in fs && HasEntry(sv.entries, name);
    j :| 0 <= j < |sv.entries| && sv.entries[j].key == ScvSymbol(name);
  }

  lemma EntryOf(sv: ScVal, t: Val, fs: seq<FieldDef>, index: TypeIndex, j: nat)
    requires t.Record? && |t.fields| == |fs| && forall i :: 0 <= i < |fs| ==> HasType(t.fields[i], fs[i].kind, index)
    requires EncodesMap(sv, t, fs, index) && j < |sv.entries|
    ensures EncodesEntry(sv.entries[j], t, fs, index)
  {
    hide HasType, EncodesEntry, HasEntry;
    assert sv.entries[j] in sv.entries;
  }

  lemma MapDecode(sv: ScVal, t: Val, fs: seq<FieldDef>, index: TypeIndex)
    requires WellFormed(index) && DistinctDef(Struct(fs))
    requires t.Record? && |t.fields| == |fs| && forall i :: 0 <= i < |fs| ==> HasType(t.fields[i], fs[i].kind, index)
    requires sv.ScvMap? && EncodesMap(sv, t, fs, index)
    ensures TypedEntries(sv.entries, fs, index) == RenderFields(t.fields, fs, index)
    decreases t, 1
  {
    hide HasType, EncodesMap, Typed, WellFormed, DistinctDef, RenderFields, TypedEntries;
    var want := RenderFields(t.fields, fs, index);
    forall j | 0 <= j < |sv.entries|
      ensures sv.entries[j].key.ScvSymbol? && sv.entries[j].key.s in want
      ensures Typed(sv.entries[j].val, FieldKind(fs, sv.entries[j].key.s), index) == want[sv.entries[j].key.s]
    {
      EntryOf(sv, t, fs, index, j);
      EntryDecode(sv.entries[j], t, fs, index);
    }
    EntriesFill(sv.entries, fs, index, want);
    var m := TypedEntries(sv.entries, fs, index);
    forall name | name in want ensures name in m {
      var j := NameCovered(sv, t, fs, index, name);
      assert sv.entries[j].key.s in m;
    }
    assert m == want;
  }

  lemma StructDecode(sv: ScVal, t: Val, kind: string, index: TypeIndex)
    requires WellFormed(index) && Defined(kind, index) && index[kind].Struct? && HasType(t, kind, index)
    requires Encodes(sv, t, kind, index)
    ensures Typed(sv, kind, index) == Render(t, kind, index)
    decreases t, 2
  {
    var fs := index[kind].fields;
    if EncodesTuple(sv, t, fs, index) {
      TypedFieldsDecode(sv.items, t.fields, fs, index);
    } else {
      MapDecode(sv, t, fs, index);
    }
  }

  lemma CaseFound(cs: seq<EnumCase>, i: nat)
    requires i < |cs| && DistinctDef(Enum(cs))
    ensures CaseByValue(cs, cs[i].value) == i
  {
  }

  lemma VariantFound(vs: seq<UnionCase>, i: nat)
    requires i < |vs| && DistinctDef(Union(vs))
    ensures VariantByName(vs, vs[i].name) == i
  {
  }

  lemma UnionDecode(sv: ScVal, t: Val, kind: string, index: TypeIndex)
    requires WellFormed(index) && Defined(kind, index) && index[kind].Union? && HasType(t, kind, index)
    requires Encodes(sv, t, kind, index)
    ensures Typed(sv, kind, index) == Render(t, kind, index)
    decreases t, 2
  {
    var vs := index[kind].variants;
    var c := vs[t.ix];
    VariantFound(vs, t.ix);
    if c.kinds != [] {
      var items := sv.items[1..];
      forall i | 0 <= i < |c.kinds| ensures Encodes(items[i], t.data[i], c.kinds[i], index) {
        assert items[i] == sv.items[i + 1];
      }
      TypedItemsDecode(items, t.data, c.kinds, index);
      RenderItemsAt(t.data, c.kinds, index);
    }
  }

  /**
   The typed decoder inverts every encoding of every typed value, whatever mixture of map form, tuple form and bare
   symbols the encoding uses at each level, for recursive type definitions too.
   */
  lemma {:induction false} DecodeEncoding(sv: ScVal, t: Val, kind: string, index: TypeIndex)
    requires WellFormed(index) && HasType(t, kind, index) && Encodes(sv, t, kind, index)
    ensures Typed(sv, kind, index) == Render(t, kind, index)
    decreases t, 3
  {
    if Defined(kind, index) {
      match index[kind]
      case Struct(_) => StructDecode(sv, t, kind, index);
      case Enum(cs) => CaseFound(cs, t.ix);
      case ErrorEnum(cs) => CaseFound(cs, t.ix);
      case Union(_) => UnionDecode(sv, t, kind, index);
    }
  }

  /* ----- nothing is lost ----- */

  /** Equal up to what the generic decoder makes of the values it decodes without a type. */
  ghost predicate Same(s: Val, t: Val) {
    match (s, t)
    case (Plain(v), Plain(w)) => ToJs(v) == ToJs(w)
    case (Record(a), Record(b)) => |a| == |b| && forall i :: 0 <= i < |a| ==> Same(a[i], b[i])
    case (Member(i), Member(j)) => i == j
    case (Tagged(i, a), Tagged(j, b)) => i == j && |a| == |b| && forall k :: 0 <= k < |a| ==> Same(a[k], b[k])
    case _ => false
  }

  /** A JavaScript value determines the typed value it came from, so decoding loses nothing the types describe. */
  lemma {:induction false} RenderInjective(s: Val, t: Val, kind: string, index: TypeIndex)
    requires WellFormed(index) && HasType(s, kind, index) && HasType(t, kind, index)
    requires Render(s, kind, index) == Render(t, kind, index)
    ensures Same(s, t)
    decreases s
  {
    if Defined(kind, index) {
      match index[kind]
      case Struct(fs) =>
        forall i | 0 <= i < |fs| ensures Same(s.fields[i], t.fields[i]) {
          RenderFieldAt(s.fields, fs, index, i);
          RenderFieldAt(t.fields, fs, index, i);
          RenderInjective(s.fields[i], t.fields[i], fs[i].kind, index);
        }
      case Enum(cs) =>
        assert Render(s, kind, index).props["value"] == Render(t, kind, index).props["value"];
      case ErrorEnum(cs) =>
        assert Render(s, kind, index).props["code"] == Render(t, kind, index).props["code"];
      case Union(vs) => UnionInjective(s, t, kind, index);
    }
  }

  lemma UnionInjective(s: Val, t: Val, kind: string, index: TypeIndex)
    requires WellFormed(index) && HasType(s, kind, index) && HasType(t, kind, index)
    requires Defined(kind, index) && index[kind].Union?
    requires Render(s, kind, index) == Render(t, kind, index)
    ensures Same(s, t)
    decreases s, 0
  {
    var vs := index[kind].variants;
    assert Render(s, kind, index).props["variant"] == Render(t, kind, index).props["variant"];
    assert s.ix == t.ix;
    var kinds := vs[s.ix].kinds;
    if kinds != [] {
      assert Render(s, kind, index).props["data"] == Render(t, kind, index).props["data"];
      RenderItemsAt(s.data, kinds, index);
      RenderItemsAt(t.data, kinds, index);
      forall i | 0 <= i < |kinds| ensures Same(s.data[i], t.data[i]) {
        assert Render(s.data[i], kinds[i], index) == Render(t.data[i], kinds[i], index);
        RenderInjective(s.data[i], t.data[i], kinds[i], index);
      }
    }
  }

  /** Encodings of different values decode to different values. */
  lemma DecodingSeparates(sv: ScVal, s: Val, sw: ScVal, t: Val, kind: string, index: TypeIndex)
    requires WellFormed(index) && HasType(s, kind, index) && HasType(t, kind, index)
    requires Encodes(sv, s, kind, index) && Encodes(sw, t, kind, index)
    requires Typed(sv, kind, index) == Typed(sw, kind, index)
    ensures Same(s, t)
  {
    DecodeEncoding(sv, s, kind, index);
    DecodeEncoding(sw, t, kind, index);
    RenderInjective(s, t, kind, index);
  }

  /* ----- what a decoded value looks like ----- */

  /**
   An encoding of a union case decodes to an object that names the type and the case; it has data exactly if the case
   carries any, which are the decoded item of a single one and the array of the decoded items otherwise.
   */
  lemma UnionShape(sv: ScVal, t: Val, kind: string, index: TypeIndex)
    requires WellFormed(index) && Defined(kind, index) && index[kind].Union? && HasType(t, kind, index)
    requires Encodes(sv, t, kind, index)
    ensures Typed(sv, kind, index).Object?
    ensures var props, c := Typed(sv, kind, index).props, index[kind].variants[t.ix];
            && props.Keys == {"_type", "variant"} + (if c.kinds == [] then {} else {"data"})
            && props["_type"] == Str(kind) && props["variant"] == Str(c.name)
            && (|c.kinds| == 1 ==> sv.ScvVec? && |sv.items| == 2
                                   && props["data"] == Typed(sv.items[1], c.kinds[0], index))
            && (|c.kinds| > 1 ==> sv.ScvVec? && |sv.items| == 1 + |c.kinds|
                                  && props["data"].Array? && |props["data"].items| == |c.kinds|
                                  && forall i :: 0 <= i < |c.kinds| ==>
                                       props["data"].items[i] == Typed(sv.items[i + 1], c.kinds[i], index))
  {
    var c := index[kind].variants[t.ix];
    DecodeEncoding(sv, t, kind, index);
    if c.kinds != [] {
      RenderItemsAt(t.data, c.kinds, index);
      forall i | 0 <= i < |c.kinds|
        ensures Render(t.data[i], c.kinds[i], index) == Typed(sv.items[i + 1], c.kinds[i], index)
      {
        DecodeEncoding(sv.items[i + 1], t.data[i], c.kinds[i], index);
      }
    }
  }

  /** Integer enums and error enums: the type, the name of the case and its number; a number without a case is told. */
  lemma EnumShape(kind: string, index: TypeIndex, n: int)
    requires Defined(kind, index) && (index[kind].Enum? || index[kind].ErrorEnum?)
    ensures var v, cs := Typed(ScvU32(n), kind, index), index[kind].cases;
            && v.Object? && v.props.Keys == (if index[kind].Enum? then {"_type", "variant", "value"}
                                             else {"_type", "error", "code"})
            && v.props["_type"] == Str(kind)
            && v.props[if index[kind].Enum? then "value" else "code"] == Number(n)
            && var name := v.props[if index[kind].Enum? then "variant" else "error"];
               if exists c :: c in cs && c.value == n then exists c :: c in cs && c.value == n && name == Str(c.name)
               else name == Str("Unknown(" + Decimal.Text(n) + ")")
  {
    var cs := index[kind].cases;
    var i := CaseByValue(cs, n);
    if i < |cs| {
      assert cs[i] in cs && cs[i].value == n;
    }
  }

  /**
   A vector whose first item names no case of the union is told with that name and its items, decoded untyped.  A first
   item that is no symbol counts by its text.
   */
  lemma UnknownVariantShape(kind: string, index: TypeIndex, first: ScVal, items: seq<ScVal>)
    requires Defined(kind, index) && index[kind].Union?
    requires forall c :: c in index[kind].variants ==>
                           c.name != if first.ScvSymbol? then first.s else ToText(ToJs(first))
    ensures var tag := if first.ScvSymbol? then first.s else ToText(ToJs(first));
            Typed(ScvVec([first] + items), kind, index)
            == Object(map["_type" := Str(kind), "variant" := Str(tag), "data" := Array(AllToJs(items))])
  {
    var vs, tag := index[kind].variants, TagOf(first);
    hide ToJs, ToText;
    assert VariantByName(vs, tag) == |vs|;
    assert ([first] + items)[1..] == items;
  }

  lemma {:induction false} TypedItemsAt(items: seq<ScVal>, kinds: seq<string>, index: TypeIndex, i: nat)
    requires i < |items|
    ensures TypedItems(items, kinds, index)[i]
         == if i < |kinds| then Typed(items[i], kinds[i], index) else ToJs(items[i])
  {
    if i > 0 {
      hide Typed;
      TypedItemsAt(items[1..], if kinds == [] then [] else kinds[1..], index, i - 1);
    } else {
      hide ToJs;
    }
  }

  /**
   A vector led by the name of a case with payload, with any number of items: each is decoded by the type at its place,
   the ones beyond the types untyped; the data is the item if there is one, and otherwise the array, which may be empty.
   */
  lemma VariantShape(kind: string, index: TypeIndex, ix: nat, items: seq<ScVal>)
    requires WellFormed(index) && Defined(kind, index) && index[kind].Union?
    requires ix < |index[kind].variants| && index[kind].variants[ix].kinds != []
    ensures var c := index[kind].variants[ix];
            var v := Typed(ScvVec([ScvSymbol(c.name)] + items), kind, index);
            && v.Object? && v.props.Keys == {"_type", "variant", "data"}
            && v.props["_type"] == Str(kind) && v.props["variant"] == Str(c.name)
            && (|items| != 1 ==> v.props["data"].Array? && |v.props["data"].items| == |items|)
            && forall i :: 0 <= i < |items| ==>
                 (if |items| == 1 then v.props["data"] else v.props["data"].items[i])
                 == if i < |c.kinds| then Typed(items[i], c.kinds[i], index) else ToJs(items[i])
  {
    var vs := index[kind].variants;
    VariantFound(vs, ix);
    assert ([ScvSymbol(vs[ix].name)] + items)[1..] == items;
    forall i | 0 <= i < |items|
      ensures TypedItems(items, vs[ix].kinds, index)[i]
           == if i < |vs[ix].kinds| then Typed(items[i], vs[ix].kinds[i], index) else ToJs(items[i])
    {
      TypedItemsAt(items, vs[ix].kinds, index, i);
    }
    hide ToJs, TypedItems, VariantByName;
  }

  /** A value that has no form of an encoding of its type is decoded without the type. */
  lemma OtherFormsFallBack(sv: ScVal, kind: string, index: TypeIndex)
    requires Defined(kind, index) ==>
               match index[kind]
               case Struct(fs) => !sv.ScvMap? && (sv.ScvVec? ==> |fs| == 0 || |sv.items| != |fs|)
               case Union(_) => !sv.ScvSymbol? && (sv.ScvVec? ==> sv.items == [])
               case _ => !sv.ScvU32?
    ensures Typed(sv, kind, index) == ToJs(sv)
  {
  }

  /** An encoding of a struct decodes to an object with exactly its fields, each holding its own value. */
  lemma StructShape(sv: ScVal, t: Val, kind: string, index: TypeIndex)
    requires WellFormed(index) && Defined(kind, index) && index[kind].Struct? && HasType(t, kind, index)
    requires Encodes(sv, t, kind, index)
    ensures Typed(sv, kind, index).Object?
    ensures var props, fs := Typed(sv, kind, index).props, index[kind].fields;
            && (forall name :: name in props <==> exists i :: 0 <= i < |fs| && fs[i].name == name)
            && (forall i :: 0 <= i < |fs| ==> props[fs[i].name] == Render(t.fields[i], fs[i].kind, index))
  {
    var fs := index[kind].fields;
    DecodeEncoding(sv, t, kind, index);
    assert DistinctDef(index[kind]);
    hide WellFormed, Encodes, Typed, RenderFields, DistinctDef;
    forall i | 0 <= i < |fs|
      ensures fs[i].name in RenderFields(t.fields, fs, index)
      ensures RenderFields(t.fields, fs, index)[fs[i].name] == Render(t.fields[i], fs[i].kind, index)
    {
      RenderFieldAt(t.fields, fs, index, i);
    }
    forall name | name in RenderFields(t.fields, fs, index) ensures exists i :: 0 <= i < |fs| && fs[i].name == name {
      RenderFieldNames(t.fields, fs, index, name);
    }
  }

  /* ----- one encoder ----- */

  /** The encoding with every struct in map form, or every struct that has fields in tuple form. */
  function Encode(t: Val, kind: string, index: TypeIndex, tuples: bool): ScVal
    requires HasType(t, kind, index)
    decreases t, 1
  {
    if !Defined(kind, index) then t.v
    else match index[kind]
      case Struct(fs) =>
        if tuples && |fs| > 0
        then ScvVec(EncodeItems(t.fields, seq(|fs|, i requires 0 <= i < |fs| => fs[i].kind), index, tuples))
        else ScvMap(EncodeEntries(t.fields, fs, index, tuples))
      case Enum(cs) => ScvU32(cs[t.ix].value)
      case ErrorEnum(cs) => ScvU32(cs[t.ix].value)
      case Union(vs) => ScvVec([ScvSymbol(vs[t.ix].name)] + EncodeItems(t.data, vs[t.ix].kinds, index, tuples))
  }

  function EncodeItems(ts: seq<Val>, kinds: seq<string>, index: TypeIndex, tuples: bool): (r: seq<ScVal>)
    requires |ts| == |kinds| && forall i :: 0 <= i < |ts| ==> HasType(ts[i], kinds[i], index)
    ensures |r| == |ts|
    decreases ts, 0
  {
    if ts == [] then [] else [Encode(ts[0], kinds[0], index, tuples)] + EncodeItems(ts[1..], kinds[1..], index, tuples)
  }

  function EncodeEntries(ts: seq<Val>, fs: seq<FieldDef>, index: TypeIndex, tuples: bool): (r: seq<MapEntry>)
    requires |ts| == |fs| && forall i :: 0 <= i < |fs| ==> HasType(ts[i], fs[i].kind, index)
    ensures |r| == |ts|
    decreases ts, 0
  {
    if ts == [] then []
    else [MapEntry(ScvSymbol(fs[0].name), Encode(ts[0], fs[0].kind, index, tuples))]
         + EncodeEntries(ts[1..], fs[1..], index, tuples)
  }

  lemma {:induction false} EncodeItemsAt(ts: seq<Val>, kinds: seq<string>, index: TypeIndex, tuples: bool, i: nat)
    requires |ts| == |kinds| && forall k :: 0 <= k < |ts| ==> HasType(ts[k], kinds[k], index)
    requires i < |ts|
    ensures EncodeItems(ts, kinds, index, tuples)[i] == Encode(ts[i], kinds[i], index, tuples)
  {
    hide HasType, Encode;
    if i > 0 { EncodeItemsAt(ts[1..], kinds[1..], index, tuples, i - 1); }
  }

  lemma {:induction false} EncodeEntriesAt(ts: seq<Val>, fs: seq<FieldDef>, index: TypeIndex, tuples: bool, i: nat)
    requires |ts| == |fs| && forall k :: 0 <= k < |fs| ==> HasType(ts[k], fs[k].kind, index)
    requires i < |ts|
    ensures EncodeEntries(ts, fs, index, tuples)[i]
         == MapEntry(ScvSymbol(fs[i].name), Encode(ts[i], fs[i].kind, index, tuples))
  {
    hide HasType, Encode;
    if i > 0 { EncodeEntriesAt(ts[1..], fs[1..], index, tuples, i - 1); }
  }

  lemma {:induction false} EncodeEncodes(t: Val, kind: string, index: TypeIndex, tuples: bool)
    requires HasType(t, kind, index)
    ensures Encodes(Encode(t, kind, index, tuples), t, kind, index)
    decreases t
  {
    if Defined(kind, index) {
      var sv := Encode(t, kind, index, tuples);
      match index[kind]
      case Struct(fs) =>
        var kinds := seq(|fs|, i requires 0 <= i < |fs| => fs[i].kind);
        forall i | 0 <= i < |fs|
          ensures Encodes(Encode(t.fields[i], fs[i].kind, index, tuples), t.fields[i], fs[i].kind, index)
        {
          EncodeEncodes(t.fields[i], fs[i].kind, index, tuples);
        }
        if tuples && |fs| > 0 {
          forall i | 0 <= i < |fs| ensures Encodes(sv.items[i], t.fields[i], fs[i].kind, index) {
            EncodeItemsAt(t.fields, kinds, index, tuples, i);
          }
          assert EncodesTuple(sv, t, fs, index);
        } else {
          forall i | 0 <= i < |fs|
            ensures sv.entries[i] == MapEntry(ScvSymbol(fs[i].name), Encode(t.fields[i], fs[i].kind, index, tuples))
          {
            EncodeEntriesAt(t.fields, fs, index, tuples, i);
          }
          forall e | e in sv.entries ensures EncodesEntry(e, t, fs, index) {
            var j :| 0 <= j < |sv.entries| && sv.entries[j] == e;
            assert e.key == ScvSymbol(fs[j].name) && Encodes(e.val, t.fields[j], fs[j].kind, index);
          }
          forall f | f in fs ensures HasEntry(sv.entries, f.name) {
            var i :| 0 <= i < |fs| && fs[i] == f;
            assert sv.entries[i].key == ScvSymbol(f.name);
          }
          assert EncodesMap(sv, t, fs, index);
        }
      case Union(vs) =>
        forall i | 0 <= i < |t.data| ensures Encodes(sv.items[i + 1], t.data[i], vs[t.ix].kinds[i], index) {
          EncodeItemsAt(t.data, vs[t.ix].kinds, index, tuples, i);
          EncodeEncodes(t.data[i], vs[t.ix].kinds[i], index, tuples);
        }
      case _ =>
    }
  }

  /** Round trip: decoding what the encoder writes gives the value back, in map form and in tuple form alike. */
  lemma RoundTrip(t: Val, kind: string, index: TypeIndex, tuples: bool)
    requires WellFormed(index) && HasType(t, kind, index)
    ensures Typed(Encode(t, kind, index, tuples), kind, index) == Render(t, kind, index)
  {
    EncodeEncodes(t, kind, index, tuples);
    DecodeEncoding(Encode(t, kind, index, tuples), t, kind, index);
  }

  /**
   A vector of a struct's encoded fields decodes to the same record as the map form exactly when the struct has
   fields: an empty struct in vector form comes back as an empty array.
   */
  lemma TupleFormAgreesIff(t: Val, kind: string, fs: seq<FieldDef>, index: TypeIndex, items: seq<ScVal>,
                           entries: seq<MapEntry>)
    requires WellFormed(index) && Defined(kind, index) && index[kind] == Struct(fs) && HasType(t, kind, index)
    requires |items| == |fs| && forall i :: 0 <= i < |fs| ==> Encodes(items[i], t.fields[i], fs[i].kind, index)
    requires EncodesMap(ScvMap(entries), t, fs, index)
    ensures Typed(ScvVec(items), kind, index) == Typed(ScvMap(entries), kind, index) <==> |fs| > 0
  {
    hide HasType, Encodes, EncodesMap, Render, WellFormed;
    StructEncodings(ScvMap(entries), t, kind, fs, index);
    StructDecode(ScvMap(entries), t, kind, index);
    if |fs| > 0 {
      StructEncodings(ScvVec(items), t, kind, fs, index);
      StructDecode(ScvVec(items), t, kind, index);
    }
  }

  lemma StructEncodings(sv: ScVal, t: Val, kind: string, fs: seq<FieldDef>, index: TypeIndex)
    requires Defined(kind, index) && index[kind] == Struct(fs) && HasType(t, kind, index)
    requires EncodesTuple(sv, t, fs, index) || EncodesMap(sv, t, fs, index)
    ensures Encodes(sv, t, kind, index)
  {
  }
}
