/** The `rebuild_indexing` management command: which models it selects and the
    order in which it prepares the index and indexes them. */
module Rebuild {
  import opened Wrappers
  import opened Text

  /** A model class as the application registry lists it: `__name__`,
      `__module__` and whether it carries a truthy `is_elastic`. */
  datatype ModelClass = ModelClass(name: string, modulePath: string, isElastic: bool)

  /** A dictionary from class name to class, in insertion order. */
  type Registry = seq<(string, ModelClass)>

  /** What `run_indexing` does to the index and the models, in order. */
  datatype Event = CreateIndex | OpenIndex | IndexModel(appLabel: string, name: string)

  /** `label, _ = module.split('.')` fails to unpack. */
  datatype RebuildError = Unpack(modulePath: string)

  function Keys(reg: Registry): (ks: seq<string>)
    ensures |ks| == |reg|
    ensures forall i :: 0 <= i < |reg| ==> ks[i] == reg[i].0
  {
    if reg == [] then [] else [reg[0].0] + Keys(reg[1..])
  }

  function Values(reg: Registry): (vs: seq<ModelClass>)
    ensures |vs| == |reg|
    ensures forall i :: 0 <= i < |reg| ==> vs[i] == reg[i].1
  {
    if reg == [] then [] else [reg[0].1] + Values(reg[1..])
  }

  /** `reg[key]` when present. */
  function Lookup(reg: Registry, key: string): (r: Option<ModelClass>)
    ensures r.None? <==> key !in Keys(reg)
    ensures r.Some? ==> r.value in Values(reg)
  {
    if reg == [] then None
    else if reg[0].0 == key then Some(reg[0].1)
    else Lookup(reg[1..], key)
  }

  /** `reg[key] = m`: an existing key keeps its position and takes the new value;
      a new key goes at the end. */
  function Insert(reg: Registry, key: string, m: ModelClass): (r: Registry)
    ensures key in Keys(r)
  {
    if reg == [] then [(key, m)]
    else if reg[0].0 == key then [(key, m)] + reg[1..]
    else [reg[0]] + Insert(reg[1..], key, m)
  }

  /** `{m.__name__: m for m in models}`. */
  function RegistryOf(models: seq<ModelClass>): (reg: Registry)
    ensures reg == [] <==> models == []
  {
    if models == [] then []
    else
      var last := models[|models| - 1];
      Insert(RegistryOf(models[..|models| - 1]), last.name, last)
  }

  function Names(models: seq<ModelClass>): (ns: seq<string>)
    ensures |ns| == |models|
  {
    seq(|models|, i requires 0 <= i < |models| => models[i].name)
  }

  /** The names of `s` without repeats, each at its first occurrence. */
  function Distinct(s: seq<string>): (d: seq<string>)
    ensures forall x :: x in d <==> x in s
    ensures forall i, j :: 0 <= i < j < |d| ==> d[i] != d[j]
  {
    if s == [] then []
    else
      var init := Distinct(s[..|s| - 1]);
      if s[|s| - 1] in init then init else init + [s[|s| - 1]]
  }

  /** The last model in `models` with the given name: the independent reference
      for what the registry holds under that name. */
  function LastNamed(models: seq<ModelClass>, name: string): (r: Option<ModelClass>)
    ensures r.None? <==> forall i :: 0 <= i < |models| ==> models[i].name != name
    ensures r.Some? ==> r.value in models && r.value.name == name
  {
    if models == [] then None
    else if models[|models| - 1].name == name then Some(models[|models| - 1])
    else LastNamed(models[..|models| - 1], name)
  }

  lemma {:induction false} InsertLookup(reg: Registry, key: string, m: ModelClass, name: string)
    ensures Lookup(Insert(reg, key, m), name) == if name == key then Some(m) else Lookup(reg, name)
    decreases |reg|
  {
    if reg != [] && reg[0].0 != key {
      InsertLookup(reg[1..], key, m, name);
      assert Insert(reg, key, m)[1..] == Insert(reg[1..], key, m);
    }
  }

  lemma {:induction false} InsertKeys(reg: Registry, key: string, m: ModelClass)
    ensures Keys(Insert(reg, key, m)) == if key in Keys(reg) then Keys(reg) else Keys(reg) + [key]
    decreases |reg|
  {
    if reg == [] {
    } else if reg[0].0 == key {
      assert Keys(Insert(reg, key, m)) == Keys(reg);
    } else {
      var tail := reg[1..];
      var r := Insert(tail, key, m);
      InsertKeys(tail, key, m);
      assert Insert(reg, key, m) == [reg[0]] + r;
      assert ([reg[0]] + r)[1..] == r;
      assert Keys(reg) == [reg[0].0] + Keys(tail);
      assert Keys(Insert(reg, key, m)) == [reg[0].0] + Keys(r);
      assert key in Keys(reg) <==> key in Keys(tail);
    }
  }

  /** Two classes with the same name collapse to the later one. */
  lemma {:induction false} RegistryLookup(models: seq<ModelClass>, name: string)
    ensures Lookup(RegistryOf(models), name) == LastNamed(models, name)
    decreases |models|
  {
    if models != [] {
      var last := models[|models| - 1];
      RegistryLookup(models[..|models| - 1], name);
      InsertLookup(RegistryOf(models[..|models| - 1]), last.name, last, name);
    }
  }

  /** The registry lists each class name once, at the position of its first
      occurrence. */
  lemma {:induction false} RegistryKeys(models: seq<ModelClass>)
    ensures Keys(RegistryOf(models)) == Distinct(Names(models))
    decreases |models|
  {
    if models != [] {
      var init := models[..|models| - 1];
      var last := models[|models| - 1];
      var reg := RegistryOf(init);
      RegistryKeys(init);
      InsertDistinct(reg, Names(init), last.name, last);
      assert RegistryOf(models) == Insert(reg, last.name, last);
      NamesSnoc(models);
    }
  }

  lemma NamesSnoc(models: seq<ModelClass>)
    requires models != []
    ensures Names(models) == Names(models[..|models| - 1]) + [models[|models| - 1].name]
  {
  }

  /** Storing under a name keeps the keys the distinct names, that name now included. */
  lemma InsertDistinct(reg: Registry, names: seq<string>, key: string, m: ModelClass)
    requires Keys(reg) == Distinct(names)
    ensures Keys(Insert(reg, key, m)) == Distinct(names + [key])
  {
    InsertKeys(reg, key, m);
    assert (names + [key])[..|names|] == names;
  }

  lemma {:induction false} LookupAt(reg: Registry, i: nat)
    requires i < |reg|
    requires forall j, k :: 0 <= j < k < |reg| ==> reg[j].0 != reg[k].0
    ensures Lookup(reg, reg[i].0) == Some(reg[i].1)
    decreases i
  {
    if i > 0 {
      LookupAt(reg[1..], i - 1);
    }
  }

  /** Gathering every registered class yields, for each distinct name, the last
      class declared under it. */
  lemma RegistryValues(models: seq<ModelClass>)
    ensures var reg := RegistryOf(models);
            forall i :: 0 <= i < |reg| ==> LastNamed(models, reg[i].0) == Some(Values(reg)[i])
  {
    var reg := RegistryOf(models);
    RegistryKeys(models);
    assert forall j, k :: 0 <= j < k < |reg| ==> reg[j].0 != reg[k].0 by {
      assert forall j :: 0 <= j < |reg| ==> reg[j].0 == Keys(reg)[j];
    }
    forall i | 0 <= i < |reg|
      ensures LastNamed(models, reg[i].0) == Some(Values(reg)[i])
    {
      LookupAt(reg, i);
      RegistryLookup(models, reg[i].0);
    }
  }

  /** The classes picked by name, in the order given: unknown names are skipped
      and repeated names picked again. */
  function Picked(reg: Registry, names: seq<string>): (ms: seq<ModelClass>)
    ensures |ms| <= |names|
    ensures forall m :: m in ms ==> m in Values(reg)
  {
    if names == [] then []
    else
      var init := Picked(reg, names[..|names| - 1]);
      match Lookup(reg, names[|names| - 1])
      case Some(m) => init + [m]
      case None => init
  }

  /** Picking is done name by name. */
  lemma {:induction false} PickedAppend(reg: Registry, a: seq<string>, b: seq<string>)
    ensures Picked(reg, a + b) == Picked(reg, a) + Picked(reg, b)
    decreases |b|
  {
    if b != [] {
      var b0 := b[..|b| - 1];
      PickedAppend(reg, a, b0);
      assert (a + b)[..|a + b| - 1] == a + b0;
      assert (a + b)[|a + b| - 1] == b[|b| - 1];
    } else {
      assert a + b == a;
    }
  }

  /** One name picks its registered class, or nothing when it is unknown. */
  lemma PickedOne(reg: Registry, name: string)
    ensures Picked(reg, [name]) == if name in Keys(reg) then [Lookup(reg, name).value] else []
  {
    assert [name][..0] == [];
  }

  /** The candidate list: the named classes when some names are passed, otherwise
      every registered class in registry order. */
  function Gathered(reg: Registry, passed: Option<seq<string>>): (ms: seq<ModelClass>)
    ensures forall m :: m in ms ==> m in Values(reg)
    ensures passed.None? || passed == Some([]) ==> |ms| == |reg|
  {
    if passed.Some? && passed.value != [] then Picked(reg, passed.value) else Values(reg)
  }

  /** `(module, name)` of each elastic class, in order. */
  function ElasticPairs(gathered: seq<ModelClass>): (ps: seq<(string, string)>)
    ensures |ps| <= |gathered|
  {
    if gathered == [] then []
    else
      var init := ElasticPairs(gathered[..|gathered| - 1]);
      var m := gathered[|gathered| - 1];
      if m.isElastic then init + [(m.modulePath, m.name)] else init
  }

  /** Every elastic candidate is kept, and nothing else. */
  lemma {:induction false} ElasticPairsSpec(gathered: seq<ModelClass>)
    ensures forall m :: m in gathered && m.isElastic ==> (m.modulePath, m.name) in ElasticPairs(gathered)
    ensures forall p :: p in ElasticPairs(gathered) ==>
              exists m :: m in gathered && m.isElastic && p == (m.modulePath, m.name)
    decreases |gathered|
  {
    if gathered != [] {
      var init := gathered[..|gathered| - 1];
      ElasticPairsSpec(init);
      assert gathered == init + [gathered[|gathered| - 1]];
    }
  }

  /** The filter keeps the candidates' order: it runs class by class. */
  lemma {:induction false} ElasticPairsAppend(a: seq<ModelClass>, b: seq<ModelClass>)
    ensures ElasticPairs(a + b) == ElasticPairs(a) + ElasticPairs(b)
    decreases |b|
  {
    if b != [] {
      var b0 := b[..|b| - 1];
      ElasticPairsAppend(a, b0);
      assert (a + b)[..|a + b| - 1] == a + b0;
      assert (a + b)[|a + b| - 1] == b[|b| - 1];
    } else {
      assert a + b == a;
    }
  }

  /** One class gives its `(module, name)` pair when it is elastic, nothing otherwise. */
  lemma ElasticPairsOne(m: ModelClass)
    ensures ElasticPairs([m]) == if m.isElastic then [(m.modulePath, m.name)] else []
  {
    assert [m][..0] == [];
  }

  /** Creating and opening the index, which precede any model. */
  function Preamble(indexExists: bool): (es: seq<Event>)
    ensures |es| >= 1 && es[|es| - 1] == OpenIndex
    ensures CreateIndex in es <==> !indexExists
    ensures forall e :: e in es ==> !e.IndexModel?
  {
    (if indexExists then [] else [CreateIndex]) + [OpenIndex]
  }

  /** The models indexed, in order, up to the first module path that does not
      split into exactly two dotted parts. */
  function ModelRuns(pairs: seq<(string, string)>): (out: (seq<Event>, Result<(), RebuildError>))
    ensures |out.0| <= |pairs|
  {
    if pairs == [] then ([], Ok(()))
    else
      var parts := Split(pairs[0].0, '.');
      if |parts| != 2 then ([], Err(Unpack(pairs[0].0)))
      else
        var rest := ModelRuns(pairs[1..]);
        ([IndexModel(parts[0], pairs[0].1)] + rest.0, rest.1)
  }

  /** Each model before the first malformed module path is indexed under the
      label before its dot, in order; the run fails exactly when some path is
      malformed, and then on the first one. */
  lemma {:induction false} ModelRunsSpec(pairs: seq<(string, string)>)
    ensures var out := ModelRuns(pairs);
            && (forall i :: 0 <= i < |out.0| ==>
                  |Split(pairs[i].0, '.')| == 2 && out.0[i] == IndexModel(Split(pairs[i].0, '.')[0], pairs[i].1))
            && (out.1.Ok? <==> forall i :: 0 <= i < |pairs| ==> |Split(pairs[i].0, '.')| == 2)
            && (out.1.Ok? ==> |out.0| == |pairs|)
            && (out.1.Err? ==> |out.0| < |pairs| && out.1.error == Unpack(pairs[|out.0|].0)
                               && |Split(pairs[|out.0|].0, '.')| != 2)
  {
    if pairs != [] && |Split(pairs[0].0, '.')| == 2 {
      var tail := pairs[1..];
      ModelRunsSpec(tail);
      assert forall i :: 0 < i < |pairs| ==> pairs[i] == tail[i - 1];
      var out := ModelRuns(pairs);
      assert forall i :: 0 < i < |out.0| ==> out.0[i] == ModelRuns(tail).0[i - 1];
    }
  }

  /** The loop over the passed names: each registered name adds its class. */
  method PickNames(reg: Registry, names: seq<string>) returns (gathered: seq<ModelClass>)
    ensures gathered == Picked(reg, names)
  {
    gathered := [];
    for i := 0 to |names|
      invariant gathered == Picked(reg, names[..i])
    {
      assert names[..i + 1][..i] == names[..i];
      var found := Lookup(reg, names[i]);
      if found.Some? {
        gathered := gathered + [found.value];
      }
    }
    assert names[..|names|] == names;
  }

  /** The loop filling `self.models`: the `(module, name)` of each elastic class. */
  method KeepElastic(gathered: seq<ModelClass>) returns (pairs: seq<(string, string)>)
    ensures pairs == ElasticPairs(gathered)
  {
    pairs := [];
    for i := 0 to |gathered|
      invariant pairs == ElasticPairs(gathered[..i])
    {
      assert gathered[..i + 1][..i] == gathered[..i];
      var m := gathered[i];
      if m.isElastic {
        pairs := pairs + [(m.modulePath, m.name)];
      }
    }
    assert gathered[..|gathered|] == gathered;
  }

  /** The management command, holding the `(module, name)` pairs it selected. */
  class Command {
    /** `django.apps.apps.get_models()`, in registry order. */
    const registered: seq<ModelClass>
    var models: seq<(string, string)>

    constructor(registered: seq<ModelClass>)
      ensures this.registered == registered && models == []
    {
      this.registered := registered;
      models := [];
    }

    /** `gather_models(passed)`: the candidates are the named classes, or every
        registered class when no names are passed; the elastic ones are kept. */
    method GatherModels(passed: Option<seq<string>>)
      modifies this`models
      ensures models == ElasticPairs(Gathered(RegistryOf(registered), passed))
    {
      var reg := RegistryOf(registered);
      var gathered: seq<ModelClass>;
      if passed.Some? && passed.value != [] {
        gathered := PickNames(reg, passed.value);
      } else {
        gathered := Values(reg);
      }
      models := KeepElastic(gathered);
    }

    /** `run_indexing()`: given whether the index exists, the operations it
        performs, in order, and whether it stops on a module path. */
    method RunIndexing(indexExists: bool) returns (events: seq<Event>, r: Result<(), RebuildError>)
      ensures events == Preamble(indexExists) + ModelRuns(models).0
      ensures r == ModelRuns(models).1
    {
      var pairs := models;
      events := [];
      if !indexExists {
        events := events + [CreateIndex];
      }
      events := events + [OpenIndex];
      ghost var pre := events;
      assert pre == Preamble(indexExists);
      var i := 0;
      while i < |pairs|
        invariant 0 <= i <= |pairs|
        invariant |events| >= |pre| && events[..|pre|] == pre
        invariant RunsFrom(pairs, i, events[|pre|..])
      {
        var (modulePath, name) := pairs[i];
        var parts := Split(modulePath, '.');
        if |parts| != 2 {
          RunsStop(pairs, i, events[|pre|..]);
          assert events == pre + events[|pre|..];
          return events, Err(Unpack(modulePath));
        }
        ghost var done := events[|pre|..];
        events := events + [IndexModel(parts[0], name)];
        assert events[|pre|..] == done + [IndexModel(parts[0], name)];
        RunsAdvance(pairs, i, done);
        i := i + 1;
      }
      RunsDone(pairs, events[|pre|..]);
      assert events == pre + events[|pre|..];
      r := Ok(());
    }
  }

  /** With the first `i` pairs run, producing `done`, running the rest completes
      the run of all pairs. */
  ghost predicate RunsFrom(pairs: seq<(string, string)>, i: nat, done: seq<Event>)
    requires i <= |pairs|
  {
    && ModelRuns(pairs).0 == done + ModelRuns(pairs[i..]).0
    && ModelRuns(pairs).1 == ModelRuns(pairs[i..]).1
  }

  lemma ModelRunsStep(pairs: seq<(string, string)>, i: nat)
    requires i < |pairs|
    ensures var parts := Split(pairs[i].0, '.');
            ModelRuns(pairs[i..]) == if |parts| != 2 then ([], Err(Unpack(pairs[i].0)))
                                     else ([IndexModel(parts[0], pairs[i].1)] + ModelRuns(pairs[i + 1..]).0,
                                           ModelRuns(pairs[i + 1..]).1)
  {
    assert pairs[i..][0] == pairs[i] && pairs[i..][1..] == pairs[i + 1..];
  }

  lemma RunsAdvance(pairs: seq<(string, string)>, i: nat, done: seq<Event>)
    requires i < |pairs| && RunsFrom(pairs, i, done)
    requires |Split(pairs[i].0, '.')| == 2
    ensures RunsFrom(pairs, i + 1, done + [IndexModel(Split(pairs[i].0, '.')[0], pairs[i].1)])
  {
    ModelRunsStep(pairs, i);
  }

  lemma RunsStop(pairs: seq<(string, string)>, i: nat, done: seq<Event>)
    requires i < |pairs| && RunsFrom(pairs, i, done)
    requires |Split(pairs[i].0, '.')| != 2
    ensures ModelRuns(pairs) == (done, Err(Unpack(pairs[i].0)))
  {
    ModelRunsStep(pairs, i);
    assert done + [] == done;
  }

  lemma RunsDone(pairs: seq<(string, string)>, done: seq<Event>)
    requires RunsFrom(pairs, |pairs|, done)
    ensures ModelRuns(pairs) == (done, Ok(()))
  {
    assert pairs[|pairs|..] == [];
    assert done + [] == done;
  }

  lemma SplitThreeParts()
    ensures |Split("site.blog.models", '.')| == 3
  {
    SplitJoin(["site", "blog", "models"], '.');
    assert Join(["site", "blog", "models"], '.') == "site.blog.models";
  }

  /** A module path `app.rest` yields the label `app`. */
  lemma LabelIsFirstPart(app: string, rest: string, name: string)
    requires '.' !in app && '.' !in rest
    ensures ModelRuns([(app + "." + rest, name)]) == ([IndexModel(app, name)], Ok(()))
  {
    SplitJoin([app, rest], '.');
    assert Join([app, rest], '.') == app + "." + rest;
    var one := [(app + "." + rest, name)];
    assert one[1..] == [];
    assert Split(one[0].0, '.') == [app, rest];
    assert ModelRuns(one[1..]) == ([], Ok(()));
    var out := ModelRuns(one);
    assert out.0 == [IndexModel(app, name)] + [];
    assert out.0 == [IndexModel(app, name)];
    assert out.1 == Ok(());
  }

  /** A module path with a package prefix stops the run before that model. */
  lemma UnpackExample()
    ensures ModelRuns([("site.blog.models", "Article"), ("blog.models", "Post")])
              == ([], Err(Unpack("site.blog.models")))
  {
    SplitThreeParts();
  }

  /** Two registered classes named `Article` collapse to the later one, listed at
      the first one's position; naming it twice indexes it twice. */
  lemma CollapseExample(a: ModelClass, b: ModelClass, c: ModelClass)
    requires a.name == "Article" && b.name == "Tag" && c.name == "Article"
    ensures RegistryOf([a, b, c]) == [("Article", c), ("Tag", b)]
    ensures Gathered(RegistryOf([a, b, c]), Some(["Article", "Nope", "Article"])) == [c, c]
    ensures Gathered(RegistryOf([a, b, c]), Some([])) == [c, b]
  {
    assert [a, b, c][..2] == [a, b];
    assert [a, b][..1] == [a];
    assert [a][..0] == [];
    assert RegistryOf([a]) == [("Article", a)];
    assert "Article"[0] != "Tag"[0];
    assert Insert([("Article", a)], "Tag", b) == [("Article", a)] + Insert([], "Tag", b);
    assert RegistryOf([a, b]) == [("Article", a), ("Tag", b)];
    var reg := RegistryOf([a, b, c]);
    assert reg == [("Article", c), ("Tag", b)];
    var names := ["Article", "Nope", "Article"];
    assert names[..2] == ["Article", "Nope"];
    assert names[..2][..1] == ["Article"];
    assert ["Article"][..0] == [];
    assert Lookup(reg, "Article") == Some(c);
    assert Lookup(reg, "Nope") == None;
    assert Picked(reg, ["Article"]) == [c];
    assert Picked(reg, ["Article", "Nope"]) == [c];
  }
}
