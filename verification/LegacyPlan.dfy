/**
  Reading plans of the first format (internal/journal/plan_legacy.go): a JSON value
  is walked along the type it will be decoded into, and the keys of objects that
  stand for structs are renamed from field names to tags.
 */
module LegacyPlan {
  import opened Wrappers
  import opened JsonValues

  /** The types a plan is decoded into. */
  datatype GoType =
    | Interface
    | Scalar
    | Pointer(elem: GoType)
    | Struct(fields: seq<Field>)
    | Slice(elem: GoType)
    | MapOf(elem: GoType)

  datatype Field = Field(goName: string, tag: string, typ: GoType)

  // ---- renaming -------------------------------------------------------------------------------

  /** The last field of that Go name. */
  function ByGoName(fields: seq<Field>, k: string): (r: Option<nat>)
    ensures r.Some? ==> r.value < |fields| && fields[r.value].goName == k
    ensures r.None? ==> forall i :: 0 <= i < |fields| ==> fields[i].goName != k
  {
    if |fields| == 0 then None
    else if fields[|fields| - 1].goName == k then Some(|fields| - 1)
    else ByGoName(fields[..|fields| - 1], k)
  }

  function ByTag(fields: seq<Field>, k: string): (r: Option<nat>)
    ensures r.Some? ==> r.value < |fields| && fields[r.value].tag == k
    ensures r.None? ==> forall i :: 0 <= i < |fields| ==> fields[i].tag != k
  {
    if |fields| == 0 then None
    else if fields[|fields| - 1].tag == k then Some(|fields| - 1)
    else ByTag(fields[..|fields| - 1], k)
  }

  /** The field a key stands for: by Go name first, then by tag. */
  function FieldOf(fields: seq<Field>, k: string): (r: Option<nat>)
    ensures r.Some? ==> r.value < |fields|
  {
    if ByGoName(fields, k).Some? then ByGoName(fields, k) else ByTag(fields, k)
  }

  /** The key it is kept under. */
  function KeyOf(fields: seq<Field>, k: string): string {
    if ByGoName(fields, k).Some? then fields[ByGoName(fields, k).value].tag else k
  }

  /** `out` is a result of renaming v along t. Keys are walked in any order, so where
      two keys of an object come to the same name either may win. */
  ghost predicate Renamed(v: Json, t: GoType, out: Json)
    decreases t, 1
  {
    match t
    case Interface => out == v
    case Scalar => out == v
    case Pointer(elem) => Renamed(v, elem, out)
    case Struct(fields) =>
      if !v.Obj? then out == v
      else
        && out.Obj?
        && (forall k :: k in v.fields ==> KeyOf(fields, k) in out.fields)
        && (forall name :: name in out.fields ==> exists k :: Supplies(v, fields, k, name, out.fields[name]))
    case Slice(elem) =>
      if !v.Arr? then out == v
      else out.Arr? && |out.elems| == |v.elems| && forall i :: 0 <= i < |v.elems| ==> Renamed(v.elems[i], elem, out.elems[i])
    case MapOf(elem) =>
      if !v.Obj? then out == v
      else out.Obj? && out.fields.Keys == v.fields.Keys
           && forall k :: k in v.fields ==> Renamed(v.fields[k], elem, out.fields[k])
  }

  /** The key's value, renamed along its field's type, is what stands under the name. */
  ghost predicate Supplies(v: Json, fields: seq<Field>, k: string, name: string, o: Json)
    requires v.Obj?
    decreases fields, 0
  {
    k in v.fields && KeyOf(fields, k) == name
    && (if FieldOf(fields, k).Some? then Renamed(v.fields[k], fields[FieldOf(fields, k).value].typ, o)
        else o == v.fields[k])
  }

  /** The walk. */
  method RenameLegacyKeys(v: Json, t: GoType) returns (out: Json)
    ensures Renamed(v, t, out)
    decreases t, 1
  {
    match t {
      case Interface => out := v;
      case Scalar => out := v;
      case Pointer(elem) => out := RenameLegacyKeys(v, elem);
      case Struct(fields) => out := RenameStruct(v, fields);
      case Slice(elem) =>
        if !v.Arr? {
          return v;
        }
        var elems: seq<Json> := [];
        var i := 0;
        while i < |v.elems|
          invariant 0 <= i <= |v.elems| && |elems| == i
          invariant forall k :: 0 <= k < i ==> Renamed(v.elems[k], elem, elems[k])
        {
          var one := RenameLegacyKeys(v.elems[i], elem);
          elems := elems + [one];
          i := i + 1;
        }
        out := Arr(elems);
      case MapOf(elem) =>
        if !v.Obj? {
          return v;
        }
        var entries: map<string, Json> := map[];
        var left := v.fields.Keys;
        while left != {}
          invariant left <= v.fields.Keys && entries.Keys == v.fields.Keys - left
          invariant forall k :: k in entries ==> Renamed(v.fields[k], elem, entries[k])
          decreases |left|
        {
          var k :| k in left;
          var one := RenameLegacyKeys(v.fields[k], elem);
          entries := entries[k := one];
          left := left - {k};
        }
        out := Obj(entries);
    }
  }

  /** The keys of one object that stands for a struct, in any order. */
  method RenameStruct(v: Json, fields: seq<Field>) returns (out: Json)
    ensures Renamed(v, Struct(fields), out)
    decreases Struct(fields), 0
  {
    if !v.Obj? {
      return v;
    }
    hide Supplies, KeyOf;
    var renamed: map<string, Json> := map[];
    var left := v.fields.Keys;
    while left != {}
      invariant left <= v.fields.Keys
      invariant forall k :: k in v.fields && k !in left ==> KeyOf(fields, k) in renamed
      invariant AllSupplied(v, fields, renamed)
      decreases |left|
    {
      hide Renamed;
      var k :| k in left;
      var val := v.fields[k];
      var field := FieldOf(fields, k);
      if field.Some? {
        val := RenameLegacyKeys(val, fields[field.value].typ);
      }
      OneMoreSupplied(v, fields, renamed, k, val);
      renamed := renamed[KeyOf(fields, k) := val];
      left := left - {k};
    }
    out := Obj(renamed);
  }

  ghost predicate AllSupplied(v: Json, fields: seq<Field>, renamed: map<string, Json>)
    requires v.Obj?
  {
    forall name :: name in renamed ==> exists k :: Supplies(v, fields, k, name, renamed[name])
  }

  lemma OneMoreSupplied(v: Json, fields: seq<Field>, renamed: map<string, Json>, k: string, val: Json)
    requires v.Obj? && AllSupplied(v, fields, renamed) && k in v.fields
    requires if FieldOf(fields, k).Some? then Renamed(v.fields[k], fields[FieldOf(fields, k).value].typ, val)
             else val == v.fields[k]
    ensures AllSupplied(v, fields, renamed[KeyOf(fields, k) := val])
  {
    hide Renamed, KeyOf, FieldOf;
    var more := renamed[KeyOf(fields, k) := val];
    assert Supplies(v, fields, k, KeyOf(fields, k), val);
    forall name | name in more
      ensures exists other :: Supplies(v, fields, other, name, more[name])
    {
      hide Supplies;
      if name != KeyOf(fields, k) {
        var other :| Supplies(v, fields, other, name, renamed[name]);
        assert Supplies(v, fields, other, name, more[name]);
      }
    }
  }

  // ---- values and their two encodings ------------------------------------------------------------

  /** A value of a type; a struct's field may be omitted. */
  datatype GoValue =
    | Nil
    | Opaque(json: Json)
    | Record(vals: seq<Option<GoValue>>)
    | List(items: seq<GoValue>)
    | Dict(entries: map<string, GoValue>)

  ghost predicate HasType(v: GoValue, t: GoType)
    decreases t
  {
    match t
    case Interface => v.Opaque?
    case Scalar => v.Opaque?
    case Pointer(elem) => v.Nil? || HasType(v, elem)
    case Struct(fields) =>
      v.Record? && |v.vals| == |fields|
      && forall i :: 0 <= i < |fields| && v.vals[i].Some? ==> HasType(v.vals[i].value, fields[i].typ)
    case Slice(elem) => v.Nil? || (v.List? && forall i :: 0 <= i < |v.items| ==> HasType(v.items[i], elem))
    case MapOf(elem) => v.Nil? || (v.Dict? && forall k :: k in v.entries ==> HasType(v.entries[k], elem))
  }

  function NameOf(f: Field, legacy: bool): string {
    if legacy then f.goName else f.tag
  }

  /** Untagged encoding names fields as Go does, tagged encoding by their tags. */
  ghost function Encode(v: GoValue, t: GoType, legacy: bool): Json
    requires HasType(v, t)
    decreases t, 1
  {
    match t
    case Interface => v.json
    case Scalar => v.json
    case Pointer(elem) => if v.Nil? then Null else Encode(v, elem, legacy)
    case Struct(fields) => Obj(EncodeFields(v.vals, fields, legacy))
    case Slice(elem) =>
      if v.Nil? then Null
      else Arr(seq(|v.items|, i requires 0 <= i < |v.items| => Encode(v.items[i], elem, legacy)))
    case MapOf(elem) =>
      if v.Nil? then Null else Obj(map k | k in v.entries :: Encode(v.entries[k], elem, legacy))
  }

  ghost function EncodeFields(vals: seq<Option<GoValue>>, fields: seq<Field>, legacy: bool): map<string, Json>
    requires |vals| == |fields|
    requires forall i :: 0 <= i < |fields| && vals[i].Some? ==> HasType(vals[i].value, fields[i].typ)
    decreases fields, 0
  {
    if |fields| == 0 then map[]
    else
      var n := |fields| - 1;
      var before := EncodeFields(vals[..n], fields[..n], legacy);
      if vals[n].Some? then before[NameOf(fields[n], legacy) := Encode(vals[n].value, fields[n].typ, legacy)]
      else before
  }

  /** Distinct Go names, distinct tags, and no Go name that is another field's tag. */
  predicate NamesOk(fields: seq<Field>) {
    forall i, j :: 0 <= i < |fields| && 0 <= j < |fields| && i != j ==>
      fields[i].goName != fields[j].goName && fields[i].tag != fields[j].tag && fields[i].goName != fields[j].tag
  }

  predicate TypeOk(t: GoType)
    decreases t
  {
    match t
    case Interface => true
    case Scalar => true
    case Pointer(elem) => TypeOk(elem)
    case Struct(fields) => NamesOk(fields) && forall i :: 0 <= i < |fields| ==> TypeOk(fields[i].typ)
    case Slice(elem) => TypeOk(elem)
    case MapOf(elem) => TypeOk(elem)
  }

  lemma EncodedLast(vals: seq<Option<GoValue>>, fields: seq<Field>, legacy: bool)
    requires |vals| == |fields| > 0
    requires forall i :: 0 <= i < |fields| && vals[i].Some? ==> HasType(vals[i].value, fields[i].typ)
    ensures var n := |fields| - 1;
            EncodeFields(vals, fields, legacy)
              == if vals[n].Some?
                 then EncodeFields(vals[..n], fields[..n], legacy)
                        [NameOf(fields[n], legacy) := Encode(vals[n].value, fields[n].typ, legacy)]
                 else EncodeFields(vals[..n], fields[..n], legacy)
  {
    hide Encode, HasType;
  }

  /** What an encoded struct holds under each of its names. */
  lemma {:induction false} EncodedFields(vals: seq<Option<GoValue>>, fields: seq<Field>, legacy: bool)
    requires |vals| == |fields|
    requires forall i :: 0 <= i < |fields| && vals[i].Some? ==> HasType(vals[i].value, fields[i].typ)
    requires forall i, j :: 0 <= i < j < |fields| ==> NameOf(fields[i], legacy) != NameOf(fields[j], legacy)
    ensures forall k :: k in EncodeFields(vals, fields, legacy) <==>
              exists i :: 0 <= i < |fields| && vals[i].Some? && NameOf(fields[i], legacy) == k
    ensures forall i :: 0 <= i < |fields| && vals[i].Some? ==>
              NameOf(fields[i], legacy) in EncodeFields(vals, fields, legacy)
              && EncodeFields(vals, fields, legacy)[NameOf(fields[i], legacy)]
                 == Encode(vals[i].value, fields[i].typ, legacy)
  {
    hide Encode, HasType, NameOf;
    if |fields| > 0 {
      hide EncodeFields;
      var n := |fields| - 1;
      EncodedFields(vals[..n], fields[..n], legacy);
      EncodedLast(vals, fields, legacy);
      assert forall i :: 0 <= i < n ==> vals[..n][i] == vals[i] && fields[..n][i] == fields[i];
    }
  }

  /** Every field's own name finds it, in either spelling. */
  lemma OwnNameFinds(fields: seq<Field>, i: nat, legacy: bool)
    requires NamesOk(fields) && i < |fields|
    ensures FieldOf(fields, NameOf(fields[i], legacy)) == Some(i)
    ensures KeyOf(fields, NameOf(fields[i], legacy)) == fields[i].tag
  {}

  /** Renaming takes the untagged encoding of any value to its tagged one, whatever
      the order in which keys are walked, and leaves the tagged one as it is. User
      keys of maps and values of interface type are part of both encodings
      unchanged, however they are spelled. */
  lemma {:induction false} RenamingTagsEverything(v: GoValue, t: GoType, legacy: bool, out: Json)
    requires HasType(v, t) && TypeOk(t) && Renamed(Encode(v, t, legacy), t, out)
    ensures out == Encode(v, t, false)
    decreases t, 2
  {
    match t
    case Interface =>
    case Scalar =>
    case Pointer(elem) =>
      if v.Nil? {
        NullStays(elem, out);
      } else {
        RenamingTagsEverything(v, elem, legacy, out);
      }
    case Struct(fields) => StructIsTagged(v, fields, legacy, out);
    case Slice(elem) =>
      if !v.Nil? {
        ListIsTagged(v, elem, legacy, out);
      }
    case MapOf(elem) =>
      if !v.Nil? {
        DictIsTagged(v, elem, legacy, out);
      }
  }

  lemma ListIsTagged(v: GoValue, elem: GoType, legacy: bool, out: Json)
    requires v.List? && HasType(v, Slice(elem)) && TypeOk(elem)
    requires Renamed(Encode(v, Slice(elem), legacy), Slice(elem), out)
    ensures out == Encode(v, Slice(elem), false)
    decreases Slice(elem), 0
  {
    var from := Encode(v, Slice(elem), legacy).elems;
    forall i | 0 <= i < |v.items|
      ensures out.elems[i] == Encode(v.items[i], elem, false)
    {
      assert Renamed(from[i], elem, out.elems[i]);
      RenamingTagsEverything(v.items[i], elem, legacy, out.elems[i]);
    }
  }

  lemma DictIsTagged(v: GoValue, elem: GoType, legacy: bool, out: Json)
    requires v.Dict? && HasType(v, MapOf(elem)) && TypeOk(elem)
    requires Renamed(Encode(v, MapOf(elem), legacy), MapOf(elem), out)
    ensures out == Encode(v, MapOf(elem), false)
    decreases MapOf(elem), 1
  {
    DictEntries(v, elem, legacy);
    DictEntries(v, elem, false);
    hide Encode, Renamed, HasType, TypeOk;
    var to := Encode(v, MapOf(elem), false).fields;
    forall k | k in v.entries
      ensures out.fields[k] == to[k]
    {
      EntryIsTagged(v, elem, legacy, out, k);
    }
    assert out.fields == to;
  }

  lemma EntryIsTagged(v: GoValue, elem: GoType, legacy: bool, out: Json, k: string)
    requires v.Dict? && HasType(v, MapOf(elem)) && TypeOk(elem) && k in v.entries && HasType(v.entries[k], elem)
    requires out.Obj? && k in out.fields && Renamed(Encode(v.entries[k], elem, legacy), elem, out.fields[k])
    ensures out.fields[k] == Encode(v.entries[k], elem, false)
    decreases MapOf(elem), 0
  {
    hide Encode, Renamed, HasType, TypeOk;
    RenamingTagsEverything(v.entries[k], elem, legacy, out.fields[k]);
  }

  lemma DictEntries(v: GoValue, elem: GoType, legacy: bool)
    requires v.Dict? && HasType(v, MapOf(elem))
    ensures forall k :: k in v.entries ==> HasType(v.entries[k], elem)
    ensures var e := Encode(v, MapOf(elem), legacy);
            e.Obj? && e.fields.Keys == v.entries.Keys
            && forall k :: k in v.entries ==> e.fields[k] == Encode(v.entries[k], elem, legacy)
  {}

  lemma {:induction false} NullStays(t: GoType, out: Json)
    requires Renamed(Null, t, out)
    ensures out == Null
    decreases t
  {
    if t.Pointer? {
      NullStays(t.elem, out);
    }
  }

  lemma StructIsTagged(v: GoValue, fields: seq<Field>, legacy: bool, out: Json)
    requires HasType(v, Struct(fields)) && TypeOk(Struct(fields))
    requires Renamed(Encode(v, Struct(fields), legacy), Struct(fields), out)
    ensures out == Encode(v, Struct(fields), false)
    decreases Struct(fields), 1
  {
    hide FieldOf, KeyOf, Encode, HasType, Supplies, NamesOk, TypeOk, Renamed;
    StructNames(fields);
    StructIsObject(v, fields, legacy);
    StructIsObject(v, fields, false);
    var from, to := Encode(v, Struct(fields), legacy).fields, Encode(v, Struct(fields), false).fields;
    RenamedStruct(Obj(from), fields, out);
    forall name | name in out.fields
      ensures name in to && out.fields[name] == to[name]
    {
      hide NameOf;
      var k :| Supplies(Obj(from), fields, k, name, out.fields[name]);
      SuppliedIsTagged(v, fields, legacy, from, to, k, name, out.fields[name]);
    }
    forall name | name in to
      ensures name in out.fields
    {
      TagIsKept(v, fields, legacy, from, to, name);
    }
    assert out.fields == to;
  }

  lemma StructIsObject(v: GoValue, fields: seq<Field>, legacy: bool)
    requires HasType(v, Struct(fields))
    ensures Encode(v, Struct(fields), legacy).Obj?
  {}

  lemma TagIsKept(v: GoValue, fields: seq<Field>, legacy: bool, from: map<string, Json>, to: map<string, Json>, name: string)
    requires HasType(v, Struct(fields)) && NamesOk(fields) && name in to
    requires Encode(v, Struct(fields), legacy) == Obj(from) && Encode(v, Struct(fields), false) == Obj(to)
    ensures exists k :: k in from && KeyOf(fields, k) == name
  {
    hide FieldOf, KeyOf, Encode, HasType, NamesOk;
    var from' := StructEncoding(v, fields, legacy);
    var to' := StructEncoding(v, fields, false);
    var i :| 0 <= i < |fields| && v.vals[i].Some? && NameOf(fields[i], false) == name;
    OwnNameFinds(fields, i, legacy);
    assert NameOf(fields[i], legacy) in from;
  }

  lemma StructNames(fields: seq<Field>)
    requires TypeOk(Struct(fields))
    ensures NamesOk(fields)
  {}

  lemma RenamedStruct(v: Json, fields: seq<Field>, out: Json)
    requires v.Obj? && Renamed(v, Struct(fields), out)
    ensures out.Obj? && (forall k :: k in v.fields ==> KeyOf(fields, k) in out.fields)
    ensures AllSupplied(v, fields, out.fields)
  {
    hide KeyOf, FieldOf;
  }

  lemma SuppliedIsTagged(v: GoValue, fields: seq<Field>, legacy: bool, from: map<string, Json>, to: map<string, Json>,
                         k: string, name: string, o: Json)
    requires HasType(v, Struct(fields)) && TypeOk(Struct(fields))
    requires Encode(v, Struct(fields), legacy) == Obj(from) && Encode(v, Struct(fields), false) == Obj(to)
    requires Supplies(Obj(from), fields, k, name, o)
    ensures name in to && o == to[name]
    decreases Struct(fields), 0
  {
    hide FieldOf, KeyOf, Encode, HasType, Renamed, NamesOk;
    var from' := StructEncoding(v, fields, legacy);
    var to' := StructEncoding(v, fields, false);
    var i :| 0 <= i < |fields| && v.vals[i].Some? && NameOf(fields[i], legacy) == k;
    OwnNameFinds(fields, i, legacy);
    RenamingTagsEverything(v.vals[i].value, fields[i].typ, legacy, o);
    assert name == NameOf(fields[i], false);
  }

  /** An encoded struct, with all that is known of its entries. */
  lemma StructEncoding(v: GoValue, fields: seq<Field>, legacy: bool) returns (entries: map<string, Json>)
    requires HasType(v, Struct(fields)) && NamesOk(fields)
    ensures Encode(v, Struct(fields), legacy) == Obj(entries) && v.Record? && |v.vals| == |fields|
    ensures forall i :: 0 <= i < |fields| && v.vals[i].Some? ==> HasType(v.vals[i].value, fields[i].typ)
    ensures forall k :: k in entries <==>
              exists i :: 0 <= i < |fields| && v.vals[i].Some? && NameOf(fields[i], legacy) == k
    ensures forall i :: 0 <= i < |fields| && v.vals[i].Some? ==>
              NameOf(fields[i], legacy) in entries
              && entries[NameOf(fields[i], legacy)] == Encode(v.vals[i].value, fields[i].typ, legacy)
  {
    entries := EncodeFields(v.vals, fields, legacy);
    EncodedFields(v.vals, fields, legacy);
  }

  /** A key that names no field is kept with its value. */
  lemma UnknownKeysStay(v: Json, fields: seq<Field>, out: Json, k: string)
    requires v.Obj? && Renamed(v, Struct(fields), out) && k in v.fields
    requires forall i :: 0 <= i < |fields| ==> fields[i].goName != k && fields[i].tag != k
    ensures out.Obj? && k in out.fields && out.fields[k] == v.fields[k]
  {
    var other :| Supplies(v, fields, other, k, out.fields[k]);
    assert other == k;
  }

  /** The condition on names cannot be dropped: where a field's Go name is another
      field's tag, the tagged encoding of that other field alone is not left as it
      is. */
  lemma ClashingNameIsRenamed(fields: seq<Field>, i: nat, j: nat, v: GoValue, out: Json)
    requires i < |fields| && j < |fields| && i != j && fields[i].goName == fields[j].tag
    requires forall a, b :: 0 <= a < b < |fields| ==>
               fields[a].goName != fields[b].goName && fields[a].tag != fields[b].tag
    requires HasType(v, Struct(fields)) && forall a :: 0 <= a < |fields| ==> (v.vals[a].Some? <==> a == j)
    requires Renamed(Encode(v, Struct(fields), false), Struct(fields), out)
    ensures out != Encode(v, Struct(fields), false)
  {
    hide Encode, HasType, Renamed;
    var k := fields[j].tag;
    EncodedAlone(v, fields, j);
    KeyMoves(Encode(v, Struct(fields), false), fields, out, k);
    assert ByGoName(fields, k) == Some(i);
    assert fields[i].tag != k;
  }

  lemma EncodedAlone(v: GoValue, fields: seq<Field>, j: nat)
    requires HasType(v, Struct(fields)) && j < |fields|
    requires forall a :: 0 <= a < |fields| ==> (v.vals[a].Some? <==> a == j)
    requires forall a, b :: 0 <= a < b < |fields| ==> fields[a].tag != fields[b].tag
    ensures var e := Encode(v, Struct(fields), false); e.Obj? && e.fields.Keys == {fields[j].tag}
  {
    EncodedFields(v.vals, fields, false);
  }

  lemma KeyMoves(v: Json, fields: seq<Field>, out: Json, k: string)
    requires v.Obj? && k in v.fields && Renamed(v, Struct(fields), out)
    ensures out.Obj? && KeyOf(fields, k) in out.fields
  {}
}
