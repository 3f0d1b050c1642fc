/** `ElasticModel.index` and `ElasticModel.save`: copying a record into its search
    document, property by property, and retrying once after opening a closed index.

    The search index is a `DocStore`: a map from document id to the document's
    fields, an open flag, and the log of every save in order. Reading or writing
    a closed index raises `AuthorizationException`. */
module Indexing {
  import opened Wrappers
  import opened Manager

  type Pk = int

  /** A field value of a search document. A nested field holds a list of
      single-key maps. */
  datatype Value =
    | Str(s: string)
    | Int(i: int)
    | Bool(b: bool)
    | Null
    | Nested(items: seq<map<string, Value>>)

  type Fields = map<string, Value>

  /** What `getattr(record, name)` gives: a stored value, a zero-argument method
      (already applied to the record), or a related collection whose items expose
      their own attributes. */
  datatype Attribute =
    | Stored(v: Value)
    | Callable(result: Value)
    | Related(items: seq<map<string, Value>>)

  datatype Record = Record(pk: Pk, attrs: map<string, Attribute>)

  /** One entry of the mapping's `properties`: its name, its `type` (if any) and,
      for a nested property, the names of its own sub-properties in order. */
  datatype Property = Property(name: string, kind: Option<string>, children: seq<string>)

  /** The doc type's mapping: `properties.name` and `properties.to_dict()`. */
  datatype Mapping = Mapping(name: string, dict: map<string, seq<Property>>)

  /** The exceptions `index` can end with. */
  datatype SyncError =
    | AttributeError(attr: string)   // getattr of a missing attribute
    | NoNestedProperty(prop: string) // IndexError: a nested property without sub-properties
    | ManagerCall(prop: string)      // calling a related manager found under a plain property
    | Authorization                  // the index is closed
    | Config(e: ConfigError)         // setup could not resolve the type

  // -------------------------------------------------------- the field mapper

  /** The nested value for a related collection: one `{child: item.child}` map per
      item, in the collection's order, or the missing attribute's error. */
  function Flattened(items: seq<map<string, Value>>, child: string)
    : (r: Result<seq<map<string, Value>>, SyncError>)
    ensures r.Ok? <==> forall i :: 0 <= i < |items| ==> child in items[i]
    ensures r.Ok? ==> |r.value| == |items|
    ensures r.Ok? ==> forall i :: 0 <= i < |items| ==> r.value[i] == map[child := items[i][child]]
    ensures r.Err? ==> r.error == AttributeError(child)
  {
    if forall i :: 0 <= i < |items| ==> child in items[i] then
      Ok(seq(|items|, i requires 0 <= i < |items| => map[child := items[i][child]]))
    else Err(AttributeError(child))
  }

  /** The value `index` sets for one property of the record. */
  function FieldValue(rec: Record, prop: Property): (r: Result<Value, SyncError>)
    ensures r.Ok? <==>
              && prop.name in rec.attrs
              && if prop.kind == Some("nested")
                 then && |prop.children| >= 1 && rec.attrs[prop.name].Related?
                      && Flattened(rec.attrs[prop.name].items, prop.children[0]).Ok?
                 else !rec.attrs[prop.name].Related?
    ensures prop.name !in rec.attrs ==> r == Err(AttributeError(prop.name))
    ensures prop.name in rec.attrs && prop.kind == Some("nested") && prop.children == [] ==>
              r == Err(NoNestedProperty(prop.name))
    ensures r.Ok? && prop.kind == Some("nested") ==>
              && |prop.children| >= 1 && rec.attrs[prop.name].Related? && r.value.Nested?
              && Flattened(rec.attrs[prop.name].items, prop.children[0]) == Ok(r.value.items)
    ensures r.Ok? && prop.kind != Some("nested") ==>
              match rec.attrs[prop.name]
              case Stored(v) => r.value == v
              case Callable(res) => r.value == res
              case Related(_) => false
    ensures r.Err? ==> !r.error.Authorization? && !r.error.Config?
  {
    if prop.name !in rec.attrs then Err(AttributeError(prop.name))
    else
      var value := rec.attrs[prop.name];
      if prop.kind == Some("nested") then
        if |prop.children| == 0 then Err(NoNestedProperty(prop.name))
        else if !value.Related? then Err(AttributeError("all"))
        else match Flattened(value.items, prop.children[0])
          case Err(e) => Err(e)
          case Ok(list) => Ok(Nested(list))
      else
        match value
        case Callable(res) => Ok(res)
        case Stored(v) => Ok(v)
        case Related(_) => Err(ManagerCall(prop.name))
  }

  /** The plist loop: builds the nested list item by item. */
  method FlattenNested(items: seq<map<string, Value>>, child: string)
    returns (r: Result<seq<map<string, Value>>, SyncError>)
    ensures r == Flattened(items, child)
  {
    var plist: seq<map<string, Value>> := [];
    var i := 0;
    while i < |items|
      invariant 0 <= i <= |items|
      invariant |plist| == i
      invariant forall j :: 0 <= j < i ==> child in items[j] && plist[j] == map[child := items[j][child]]
    {
      if child !in items[i] {
        return Err(AttributeError(child));
      }
      plist := plist + [map[child := items[i][child]]];
      i := i + 1;
    }
    assert plist == seq(|items|, i requires 0 <= i < |items| => map[child := items[i][child]]);
    r := Ok(plist);
  }

  // ----------------------------------------------------- the document builder

  /** The outcome of walking the properties: the document as saved after each
      property, and the final document or the error that stopped the walk. */
  datatype Outcome = Outcome(saved: seq<Fields>, result: Result<Fields, SyncError>)

  /** Sets each property in order on `doc`, saving after each one. */
  function Build(doc: Fields, rec: Record, props: seq<Property>): (out: Outcome)
    ensures |out.saved| <= |props|
    ensures out.result.Ok? ==> |out.saved| == |props|
    ensures out.result.Err? ==> !out.result.error.Authorization? && !out.result.error.Config?
    decreases |props|
  {
    if props == [] then Outcome([], Ok(doc))
    else match FieldValue(rec, props[0])
      case Err(e) => Outcome([], Err(e))
      case Ok(v) =>
        var next := doc[props[0].name := v];
        var rest := Build(next, rec, props[1..]);
        Outcome([next] + rest.saved, rest.result)
  }

  /** With the first `i` properties done and `saved` so far, building the rest from
      `doc` completes the build from `doc0`. */
  ghost predicate Resumes(doc0: Fields, rec: Record, props: seq<Property>, i: nat,
                          saved: seq<Fields>, doc: Fields)
    requires i <= |props|
  {
    && Build(doc0, rec, props).saved == saved + Build(doc, rec, props[i..]).saved
    && Build(doc0, rec, props).result == Build(doc, rec, props[i..]).result
  }

  /** One step of the property loop: with the first `i` properties done, the
      next one's value is set and saved. */
  lemma BuildAdvance(doc0: Fields, rec: Record, props: seq<Property>, i: nat,
                     saved: seq<Fields>, doc: Fields, v: Value)
    requires i < |props| && FieldValue(rec, props[i]) == Ok(v)
    requires Resumes(doc0, rec, props, i, saved, doc)
    ensures Resumes(doc0, rec, props, i + 1, saved + [doc[props[i].name := v]], doc[props[i].name := v])
  {
    var rest := props[i..];
    assert rest[0] == props[i] && rest[1..] == props[i + 1..];
  }

  /** The property loop stops at a property whose value fails. */
  lemma BuildStops(doc0: Fields, rec: Record, props: seq<Property>, i: nat, saved: seq<Fields>, doc: Fields)
    requires i < |props| && FieldValue(rec, props[i]).Err?
    requires Resumes(doc0, rec, props, i, saved, doc)
    ensures Build(doc0, rec, props).saved == saved
    ensures Build(doc0, rec, props).result == Err(FieldValue(rec, props[i]).error)
  {
    var rest := props[i..];
    assert rest[0] == props[i];
    assert saved + [] == saved;
  }

  /** The property loop ends with every property done. */
  lemma BuildDone(doc0: Fields, rec: Record, props: seq<Property>, saved: seq<Fields>, doc: Fields)
    requires Resumes(doc0, rec, props, |props|, saved, doc)
    ensures Build(doc0, rec, props).saved == saved
    ensures Build(doc0, rec, props).result == Ok(doc)
  {
    assert props[|props|..] == [];
    assert saved + [] == saved;
  }

  /** The store after saving each of `saved` in turn under `pk`. */
  function AfterSaves(docs: map<Pk, Fields>, pk: Pk, saved: seq<Fields>): map<Pk, Fields>
  {
    if saved == [] then docs else docs[pk := saved[|saved| - 1]]
  }

  /** The fields the properties write, later properties winning. */
  function Writes(rec: Record, props: seq<Property>): Fields
    decreases |props|
  {
    if props == [] then map[]
    else match FieldValue(rec, props[0])
      case Err(_) => map[]
      case Ok(v) => map[props[0].name := v] + Writes(rec, props[1..])
  }

  /** Building overlays the same writes on any starting document, and whether it
      succeeds does not depend on the starting document. */
  lemma {:induction false} BuildIsOverlay(doc: Fields, other: Fields, rec: Record, props: seq<Property>)
    ensures Build(doc, rec, props).result.Ok? == Build(other, rec, props).result.Ok?
    ensures Build(doc, rec, props).result.Ok? ==>
              Build(doc, rec, props).result.value == doc + Writes(rec, props)
    decreases |props|
  {
    if props != [] {
      match FieldValue(rec, props[0])
      case Err(_) =>
      case Ok(v) =>
        var next := doc[props[0].name := v];
        BuildIsOverlay(next, other[props[0].name := v], rec, props[1..]);
        assert next + Writes(rec, props[1..]) == doc + (map[props[0].name := v] + Writes(rec, props[1..]));
    }
  }

  /** What the walk saves: the `i`-th save is the starting document with the writes
      of the first `i + 1` properties; it succeeds exactly when every property's
      value does, and otherwise stops at the first failing property, right after
      the saves of the properties before it. */
  lemma BuildSaves(doc: Fields, rec: Record, props: seq<Property>)
    ensures var out := Build(doc, rec, props);
            && (forall i :: 0 <= i < |out.saved| ==>
                  FieldValue(rec, props[i]).Ok? && out.saved[i] == doc + Writes(rec, props[..i + 1]))
            && (out.result.Ok? <==> forall i :: 0 <= i < |props| ==> FieldValue(rec, props[i]).Ok?)
            && (out.result.Err? ==>
                  && |out.saved| < |props| && FieldValue(rec, props[|out.saved|]).Err?
                  && out.result.error == FieldValue(rec, props[|out.saved|]).error)
  {
    var out := Build(doc, rec, props);
    BuildStopsAtFirstFailure(doc, rec, props);
    forall i | 0 <= i < |out.saved|
      ensures FieldValue(rec, props[i]).Ok? && out.saved[i] == doc + Writes(rec, props[..i + 1])
    {
      BuildSaveAt(doc, rec, props, i);
    }
  }

  /** The `i`-th save holds the writes of the first `i + 1` properties. */
  lemma {:induction false} BuildSaveAt(doc: Fields, rec: Record, props: seq<Property>, i: nat)
    requires i < |Build(doc, rec, props).saved|
    ensures FieldValue(rec, props[i]).Ok?
    ensures Build(doc, rec, props).saved[i] == doc + Writes(rec, props[..i + 1])
    decreases i
  {
    var v := FieldValue(rec, props[0]).value;
    var next := doc[props[0].name := v];
    var tail := props[1..];
    assert Build(doc, rec, props).saved == [next] + Build(next, rec, tail).saved;
    WritesFirst(rec, props[..i + 1], v);
    assert props[..i + 1][1..] == tail[..i];
    UpdateThenUnion(doc, props[0].name, v, Writes(rec, tail[..i]));
    if i == 0 {
      assert tail[..0] == [];
    } else {
      BuildSaveAt(next, rec, tail, i - 1);
      assert props[i] == tail[i - 1];
    }
  }

  /** The writes of properties whose first value succeeds start with that value. */
  lemma WritesFirst(rec: Record, props: seq<Property>, v: Value)
    requires props != [] && FieldValue(rec, props[0]) == Ok(v)
    ensures Writes(rec, props) == map[props[0].name := v] + Writes(rec, props[1..])
  {
  }

  lemma UpdateThenUnion(doc: Fields, key: string, v: Value, w: Fields)
    ensures doc[key := v] + w == doc + (map[key := v] + w)
  {
  }

  /** The walk succeeds exactly when every property's value does, and otherwise
      fails on the first failing property, after one save per property before it. */
  lemma {:induction false} BuildStopsAtFirstFailure(doc: Fields, rec: Record, props: seq<Property>)
    ensures var out := Build(doc, rec, props);
            && (out.result.Ok? <==> forall i :: 0 <= i < |props| ==> FieldValue(rec, props[i]).Ok?)
            && (out.result.Err? ==>
                  && |out.saved| < |props| && FieldValue(rec, props[|out.saved|]).Err?
                  && out.result.error == FieldValue(rec, props[|out.saved|]).error)
    decreases |props|
  {
    if props != [] && FieldValue(rec, props[0]).Ok? {
      var next := doc[props[0].name := FieldValue(rec, props[0]).value];
      var tail := props[1..];
      BuildStopsAtFirstFailure(next, rec, tail);
      assert forall i :: 0 < i < |props| ==> props[i] == tail[i - 1];
    }
  }

  /** On success the last save is the document returned. */
  lemma LastSaveIsResult(doc: Fields, rec: Record, props: seq<Property>)
    requires props != [] && Build(doc, rec, props).result.Ok?
    ensures Build(doc, rec, props).saved[|props| - 1] == Build(doc, rec, props).result.value
  {
    BuildSaves(doc, rec, props);
    BuildIsOverlay(doc, doc, rec, props);
    assert props[..|props|] == props;
  }

  /** Only the mapped fields change; fields the mapping does not name are kept. */
  lemma KeepsUnmappedFields(doc: Fields, rec: Record, props: seq<Property>, key: string)
    requires Build(doc, rec, props).result.Ok?
    requires key in doc
    requires forall i :: 0 <= i < |props| ==> props[i].name != key
    ensures key in Build(doc, rec, props).result.value
    ensures Build(doc, rec, props).result.value[key] == doc[key]
  {
    BuildIsOverlay(doc, doc, rec, props);
    WritesKeys(rec, props, key);
  }

  lemma {:induction false} WritesKeys(rec: Record, props: seq<Property>, key: string)
    requires forall i :: 0 <= i < |props| ==> props[i].name != key
    ensures key !in Writes(rec, props)
    decreases |props|
  {
    if props != [] {
      WritesKeys(rec, props[1..], key);
    }
  }

  /** Indexing an unchanged record again leaves its document as it was. */
  lemma BuildIdempotent(doc: Fields, rec: Record, props: seq<Property>)
    requires Build(doc, rec, props).result.Ok?
    ensures var once := Build(doc, rec, props).result.value;
            Build(once, rec, props).result == Ok(once)
  {
    var once := Build(doc, rec, props).result.value;
    BuildIsOverlay(doc, once, rec, props);
    BuildIsOverlay(once, doc, rec, props);
    assert once + Writes(rec, props) == once;
  }

  // ------------------------------------------------------------ the index

  class DocStore {
    /** The name of the index the doc type reads and writes. */
    const index: string
    var docs: map<Pk, Fields>
    var isOpen: bool
    /** Every save, in order: the document id and the fields saved. */
    var log: seq<(Pk, Fields)>

    constructor (index: string, docs: map<Pk, Fields>, isOpen: bool)
      ensures this.index == index && this.docs == docs && this.isOpen == isOpen && log == []
    {
      this.index := index;
      this.docs, this.isOpen, log := docs, isOpen, [];
    }

    /** `DT.get(id=pk)`: the stored document, `None` for `NotFoundError`. */
    method Get(pk: Pk) returns (r: Result<Option<Fields>, SyncError>)
      ensures !isOpen ==> r == Err(Authorization)
      ensures isOpen ==> r == Ok(if pk in docs then Some(docs[pk]) else None)
    {
      if !isOpen {
        return Err(Authorization);
      }
      r := Ok(if pk in docs then Some(docs[pk]) else None);
    }

    /** `pdoc.save()`. */
    method Save(pk: Pk, fields: Fields) returns (r: Result<(), SyncError>)
      modifies this`docs, this`log
      ensures r.Ok? <==> old(isOpen)
      ensures r.Ok? ==> docs == old(docs)[pk := fields] && log == old(log) + [(pk, fields)]
      ensures r.Err? ==> r.error == Authorization && docs == old(docs) && log == old(log)
    {
      if !isOpen {
        return Err(Authorization);
      }
      docs := docs[pk := fields];
      log := log + [(pk, fields)];
      r := Ok(());
    }

    /** `Index(...).open()`. */
    method Open()
      modifies this`isOpen
      ensures isOpen
    {
      isOpen := true;
    }
  }

  /** The log entries for saving each of `saved` under `pk`. */
  function SavesOf(pk: Pk, saved: seq<Fields>): (log: seq<(Pk, Fields)>)
    ensures |log| == |saved|
  {
    if saved == [] then [] else [(pk, saved[0])] + SavesOf(pk, saved[1..])
  }

  /** Entry `i` of the log records the `i`-th save, under the record's id. */
  lemma {:induction false} SavesOfAt(pk: Pk, saved: seq<Fields>, i: nat)
    requires i < |saved|
    ensures SavesOf(pk, saved)[i] == (pk, saved[i])
  {
    if i > 0 {
      SavesOfAt(pk, saved[1..], i - 1);
    }
  }

  /** The document `index` starts from: the stored one, or a new one with `_id = pk`. */
  function StartDoc(docs: map<Pk, Fields>, pk: Pk): (doc: Fields)
    ensures pk in docs ==> doc == docs[pk]
    ensures pk !in docs ==> |doc| == 0
  {
    if pk in docs then docs[pk] else map[]
  }

  /** The body of the property loop for one property: reads the attribute, and
      either flattens a nested collection or calls a callable. */
  method ComputeField(rec: Record, prop: Property) returns (r: Result<Value, SyncError>)
    ensures r == FieldValue(rec, prop)
  {
    if prop.name !in rec.attrs {
      return Err(AttributeError(prop.name));
    }
    var attr := rec.attrs[prop.name];
    if prop.kind == Some("nested") {
      if |prop.children| == 0 {
        return Err(NoNestedProperty(prop.name));
      }
      if !attr.Related? {
        return Err(AttributeError("all"));
      }
      var plist := FlattenNested(attr.items, prop.children[0]);
      if plist.Err? {
        return Err(plist.error);
      }
      r := Ok(Nested(plist.value));
    } else {
      match attr
      case Callable(res) => r := Ok(res);
      case Stored(v) => r := Ok(v);
      case Related(_) => r := Err(ManagerCall(prop.name));
    }
  }

  /** The property loop of `index`: sets each property on `doc` and saves the
      document after each one, stopping at the first error. */
  method WriteProperties(store: DocStore, rec: Record, props: seq<Property>, doc0: Fields)
    returns (r: Result<Fields, SyncError>)
    requires store.isOpen
    modifies store`docs, store`log
    ensures var out := Build(doc0, rec, props);
            && r == out.result
            && store.log == old(store.log) + SavesOf(rec.pk, out.saved)
            && store.docs == AfterSaves(old(store.docs), rec.pk, out.saved)
  {
    var doc := doc0;
    ghost var saved: seq<Fields> := [];
    var i := 0;
    while i < |props|
      invariant 0 <= i <= |props|
      invariant store.isOpen
      invariant Resumes(doc0, rec, props, i, saved, doc)
      invariant store.log == old(store.log) + SavesOf(rec.pk, saved)
      invariant store.docs == AfterSaves(old(store.docs), rec.pk, saved)
    {
      var value := ComputeField(rec, props[i]);
      if value.Err? {
        BuildStops(doc0, rec, props, i, saved, doc);
        return Err(value.error);
      }
      BuildAdvance(doc0, rec, props, i, saved, doc, value.value);
      doc := doc[props[i].name := value.value];
      var _ := store.Save(rec.pk, doc);
      SavesAppend(rec.pk, saved, doc);
      AfterSavesAppend(old(store.docs), rec.pk, saved, doc);
      saved := saved + [doc];
      i := i + 1;
    }
    BuildDone(doc0, rec, props, saved, doc);
    r := Ok(doc);
  }

  /** `ElasticModel.index`. Resolves the manager's doc type through `setup` if it is
      unset, fetches or creates the document with the record's id, then sets and
      saves each mapped property in order. Returns `None` when the mapping's name is
      not a key of its properties dict. */
  method Index<H>(mgr: ElasticManager<H>, store: DocStore, rec: Record, mapping: Mapping)
    returns (r: Result<Option<Fields>, SyncError>)
    modifies mgr`attrs, store`docs, store`log
    ensures DocTypeAttr in old(mgr.attrs) ==> mgr.attrs == old(mgr.attrs)
    ensures DocTypeAttr !in old(mgr.attrs) ==> mgr.SetUpFrom(old(mgr.attrs), mgr.attrs)
    ensures var setupFails := DocTypeAttr !in old(mgr.attrs) && TypeAttr !in old(mgr.attrs)
                              && mgr.Default(TypeAttr).Err?;
            && (setupFails ==> r == Err(Config(mgr.Default(TypeAttr).error)))
            && (!setupFails ==> DocTypeAttr in mgr.attrs)
            && (!setupFails && !store.isOpen ==> r == Err(Authorization))
            && (setupFails || !store.isOpen || mapping.name !in mapping.dict ==>
                  store.docs == old(store.docs) && store.log == old(store.log))
            && (!setupFails && store.isOpen && mapping.name !in mapping.dict ==> r == Ok(None))
            && (!setupFails && store.isOpen && mapping.name in mapping.dict ==>
                  var out := Build(StartDoc(old(store.docs), rec.pk), rec, mapping.dict[mapping.name]);
                  && store.log == old(store.log) + SavesOf(rec.pk, out.saved)
                  && store.docs == AfterSaves(old(store.docs), rec.pk, out.saved)
                  && r == (if out.result.Ok? then Ok(Some(out.result.value)) else Err(out.result.error)))
  {
    if DocTypeAttr !in mgr.attrs {
      var s := mgr.Setup();
      if s.Err? {
        return Err(Config(s.error));
      }
    }
    var got := store.Get(rec.pk);
    if got.Err? {
      return Err(got.error);
    }
    var doc := if got.value.Some? then got.value.value else map[];
    if mapping.name !in mapping.dict {
      return Ok(None);
    }
    var built := WriteProperties(store, rec, mapping.dict[mapping.name], doc);
    r := if built.Ok? then Ok(Some(built.value)) else Err(built.error);
  }

  lemma AfterSavesAppend(docs: map<Pk, Fields>, pk: Pk, saved: seq<Fields>, doc: Fields)
    ensures AfterSaves(docs, pk, saved + [doc]) == AfterSaves(docs, pk, saved)[pk := doc]
  {
  }

  lemma {:induction false} SavesAppend(pk: Pk, saved: seq<Fields>, doc: Fields)
    ensures SavesOf(pk, saved + [doc]) == SavesOf(pk, saved) + [(pk, doc)]
  {
    if saved != [] {
      assert (saved + [doc])[1..] == saved[1..] + [doc];
      SavesAppend(pk, saved[1..], doc);
    }
  }

  /** `ElasticModel.save`: indexes the record; on `AuthorizationException` opens the
      index `get_index()` names and indexes exactly once more, letting a second
      failure propagate. Opening helps only when that index is the one the doc type
      writes to. */
  method Save<H>(mgr: ElasticManager<H>, store: DocStore, rec: Record, mapping: Mapping)
    returns (r: Result<Option<Fields>, SyncError>)
    modifies mgr`attrs, store`docs, store`log, store`isOpen
    ensures DocTypeAttr in old(mgr.attrs) ==> mgr.attrs == old(mgr.attrs)
    ensures DocTypeAttr !in old(mgr.attrs) ==> mgr.SetUpFrom(old(mgr.attrs), mgr.attrs)
    ensures var setupFails := DocTypeAttr !in old(mgr.attrs) && TypeAttr !in old(mgr.attrs)
                              && mgr.Default(TypeAttr).Err?;
            var retried := !setupFails && !old(store.isOpen);
            var sameIndex := GetIndex(mgr.meta, mgr.defaultIndex) == store.index;
            var writes := !setupFails && (old(store.isOpen) || sameIndex);
            && store.isOpen == (old(store.isOpen) || (retried && sameIndex))
            && (r == Err(Authorization) <==> retried && !sameIndex)
            && (setupFails ==> r == Err(Config(mgr.Default(TypeAttr).error)))
            && (!writes || mapping.name !in mapping.dict ==>
                  store.docs == old(store.docs) && store.log == old(store.log))
            && (writes && mapping.name !in mapping.dict ==> r == Ok(None))
            && (writes && mapping.name in mapping.dict ==>
                  var out := Build(StartDoc(old(store.docs), rec.pk), rec, mapping.dict[mapping.name]);
                  && store.log == old(store.log) + SavesOf(rec.pk, out.saved)
                  && store.docs == AfterSaves(old(store.docs), rec.pk, out.saved)
                  && r == (if out.result.Ok? then Ok(Some(out.result.value)) else Err(out.result.error)))
  {
    r := Index(mgr, store, rec, mapping);
    if r.Err? && r.error == Authorization {
      if GetIndex(mgr.meta, mgr.defaultIndex) == store.index {
        store.Open();
      }
      r := Index(mgr, store, rec, mapping);
    }
  }

  /** An article with a title and two tags: indexing it twice gives the same one
      document both times. */
  lemma ArticleScenario()
    ensures var a := map["name" := Str("a")];
            var b := map["name" := Str("b")];
            var rec := Record(7, map["title" := Stored(Str("Hello")),
                                     "tags" := Related([a, b])]);
            var props := [Property("title", Some("text"), []),
                          Property("tags", Some("nested"), ["name"])];
            var doc := map["title" := Str("Hello"), "tags" := Nested([a, b])];
            && Build(map[], rec, props).result == Ok(doc)
            && |Build(map[], rec, props).saved| == 2
            && Build(doc, rec, props).result == Ok(doc)
  {
    var a := map["name" := Str("a")];
    var b := map["name" := Str("b")];
    var rec := Record(7, map["title" := Stored(Str("Hello")), "tags" := Related([a, b])]);
    var props := [Property("title", Some("text"), []), Property("tags", Some("nested"), ["name"])];
    var doc := map["title" := Str("Hello"), "tags" := Nested([a, b])];
    assert "title" != "tags";
    var flat := Flattened([a, b], "name");
    assert flat.Ok? && flat.value == [a, b];
    assert FieldValue(rec, props[0]) == Ok(Str("Hello"));
    assert FieldValue(rec, props[1]) == Ok(Nested([a, b]));
    assert props[1..][1..] == [];
    assert Build(map[], rec, props).result == Ok(doc);
    BuildIdempotent(map[], rec, props);
  }
}
