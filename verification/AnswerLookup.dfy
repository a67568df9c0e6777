/** What dict.get finds in the file printed from a model, read back. */
module AnswerLookup {
  import opened Wrappers
  import opened Toml
  import opened TomlPrinter
  import opened TomlRoundTrip
  import opened AnswerChecker

  /** The value under a key. */
  function Lookup(entries: seq<(string, Node)>, key: string): Option<Node> {
    if entries == [] then None
    else if entries[0].0 == key then Some(entries[0].1)
    else Lookup(entries[1..], key)
  }

  lemma {:induction false} LookupBoth(a: seq<(string, Node)>, b: seq<(string, Node)>, key: string)
    ensures Lookup(a + b, key) == if Lookup(a, key).Some? then Lookup(a, key) else Lookup(b, key)
  {
    if a == [] {
      assert a + b == b;
    } else {
      assert (a + b)[1..] == a[1..] + b;
      LookupBoth(a[1..], b, key);
    }
  }

  // ----- the printed model, looked up -----

  function DictOf(es: seq<(string, Value)>): map<string, Value>
    decreases |es|
  {
    if es == [] then map[] else DictOf(es[..|es| - 1])[es[|es| - 1].0 := es[|es| - 1].1]
  }

  function FoundOf(node: Option<Node>): Found {
    match node
    case None => Missing
    case Some(Leaf(v)) => Is(v)
    case Some(Sub(es)) => Dict(DictOf(es))
  }

  function SectionOf(model: seq<Section>, n: string): seq<(string, Node)> {
    if model == [] then []
    else if model[0].name == n then model[0].entries
    else SectionOf(model[1..], n)
  }

  /** a and b hold the same under the key n.k. */
  predicate SameUnder(a: map<Key, Value>, b: map<Key, Value>, n: string, k: string) {
    && (forall key :: key in a && |key| >= 2 && key[0] == n && key[1] == k ==> key in b && b[key] == a[key])
    && (forall key :: key in b && |key| >= 2 && key[0] == n && key[1] == k ==> key in a)
  }

  lemma SameTrans(a: map<Key, Value>, b: map<Key, Value>, c: map<Key, Value>, n: string, k: string)
    requires SameUnder(a, b, n, k) && SameUnder(b, c, n, k)
    ensures SameUnder(a, c, n, k)
  {
  }

  lemma {:induction false} SubTouches(values: map<Key, Value>, m: string, j: string, es: seq<(string, Value)>, n: string, k: string)
    requires m != n || j != k
    ensures SameUnder(values, WithSub(values, m, j, es), n, k)
    decreases |es|
  {
    if es != [] {
      var v := values[[m, j, es[0].0] := es[0].1];
      SubTouches(v, m, j, es[1..], n, k);
      assert SameUnder(values, v, n, k);
      SameTrans(values, v, WithSub(v, m, j, es[1..]), n, k);
    }
  }

  lemma NodeTouches(values: map<Key, Value>, m: string, j: string, node: Node, n: string, k: string)
    requires m != n || j != k
    ensures SameUnder(values, WithNode(values, m, j, node), n, k)
  {
    match node {
      case Leaf(v) => assert SameUnder(values, values[[m, j] := v], n, k);
      case Sub(es) => SubTouches(values, m, j, es, n, k);
    }
  }

  lemma {:induction false} EntriesTouch(values: map<Key, Value>, m: string, entries: seq<(string, Node)>, n: string, k: string)
    requires m != n || forall i :: 0 <= i < |entries| ==> entries[i].0 != k
    ensures SameUnder(values, WithEntries(values, m, entries), n, k)
    decreases |entries|
  {
    hide SameUnder;
    if entries != [] {
      var v := WithNode(values, m, entries[0].0, entries[0].1);
      NodeTouches(values, m, entries[0].0, entries[0].1, n, k);
      assert forall i :: 0 <= i < |entries[1..]| ==> entries[1..][i] == entries[i + 1];
      EntriesTouch(v, m, entries[1..], n, k);
      SameTrans(values, v, WithEntries(v, m, entries[1..]), n, k);
    } else {
      SameSelf(values, n, k);
    }
  }

  lemma SameSelf(values: map<Key, Value>, n: string, k: string)
    ensures SameUnder(values, values, n, k)
  {
  }

  /** What values hold under n.k, as dict.get finds it; table: there is a sub-table there. */
  predicate Holds(values: map<Key, Value>, n: string, k: string, node: Option<Node>) {
    match node
    case None => forall key :: key in values && |key| >= 2 ==> !(key[0] == n && key[1] == k)
    case Some(Leaf(v)) =>
      && [n, k] in values && values[[n, k]] == v
      && forall key :: key in values && |key| > 2 ==> !(key[0] == n && key[1] == k)
    case Some(Sub(es)) =>
      && [n, k] !in values
      && (forall s :: s in DictOf(es) ==> [n, k, s] in values && values[[n, k, s]] == DictOf(es)[s])
      && (forall key :: key in values && |key| == 3 && key[0] == n && key[1] == k ==> key[2] in DictOf(es))
  }

  lemma HoldsSame(a: map<Key, Value>, b: map<Key, Value>, n: string, k: string, node: Option<Node>)
    requires Holds(a, n, k, node) && SameUnder(a, b, n, k)
    ensures Holds(b, n, k, node)
  {
  }

  lemma {:induction false} SubHolds(values: map<Key, Value>, n: string, k: string, es: seq<(string, Value)>)
    requires Holds(values, n, k, None)
    ensures Holds(WithSub(values, n, k, es), n, k, Some(Sub(es)))
  {
    SubIs(values, n, k, es);
  }

  lemma {:induction false} SubIs(values: map<Key, Value>, n: string, k: string, es: seq<(string, Value)>)
    ensures var w := WithSub(values, n, k, es);
            && (forall s :: s in DictOf(es) ==> [n, k, s] in w && w[[n, k, s]] == DictOf(es)[s])
            && (forall key :: key in w && key !in values ==> |key| == 3 && key[0] == n && key[1] == k && key[2] in DictOf(es))
            && (forall key :: key in values && !(|key| == 3 && key[0] == n && key[1] == k) ==> key in w && w[key] == values[key])
            && (forall key :: key in values && |key| == 3 && key[0] == n && key[1] == k && key[2] !in DictOf(es) ==> key in w && w[key] == values[key])
    decreases |es|
  {
    if es != [] {
      var i := |es| - 1;
      SubSnoc(values, n, k, es[..i], es[i]);
      assert es[..i] + [es[i]] == es;
      SubIs(values, n, k, es[..i]);
      var w := WithSub(values, n, k, es);
      forall s | s in DictOf(es) ensures [n, k, s] in w && w[[n, k, s]] == DictOf(es)[s] {
        assert [n, k, s][2] == s;
      }
    }
  }

  lemma {:induction false} SubSnoc(values: map<Key, Value>, n: string, k: string, es: seq<(string, Value)>, e: (string, Value))
    ensures WithSub(values, n, k, es + [e]) == WithSub(values, n, k, es)[[n, k, e.0] := e.1]
    decreases |es|
  {
    if es == [] {
      assert es + [e] == [e];
    } else {
      assert (es + [e])[1..] == es[1..] + [e];
      SubSnoc(values[[n, k, es[0].0] := es[0].1], n, k, es[1..], e);
    }
  }

  lemma {:induction false} SectionHolds(values: map<Key, Value>, n: string, entries: seq<(string, Node)>, k: string)
    requires DistinctKeys(entries) && Holds(values, n, k, None)
    ensures Holds(WithEntries(values, n, entries), n, k, Lookup(entries, k))
    decreases |entries|
  {
    hide Holds, SameUnder, WithNode;
    if entries != [] {
      var j, node := entries[0].0, entries[0].1;
      var v := WithNode(values, n, j, node);
      assert forall i :: 0 <= i < |entries[1..]| ==> entries[1..][i] == entries[i + 1];
      if j == k {
        NodeHolds(values, n, k, node);
        EntriesTouch(v, n, entries[1..], n, k);
        HoldsSame(v, WithEntries(v, n, entries[1..]), n, k, Some(node));
      } else {
        NodeTouches(values, n, j, node, n, k);
        HoldsSame(values, v, n, k, None);
        SectionHolds(v, n, entries[1..], k);
      }
    }
  }

  lemma NodeHolds(values: map<Key, Value>, n: string, k: string, node: Node)
    requires Holds(values, n, k, None)
    ensures Holds(WithNode(values, n, k, node), n, k, Some(node))
  {
    match node {
      case Leaf(v) =>
      case Sub(es) => SubHolds(values, n, k, es);
    }
  }

  lemma {:induction false} ModelHolds(values: map<Key, Value>, model: seq<Section>, n: string, k: string)
    requires WellFormed(model) && Holds(values, n, k, None)
    ensures Holds(Values(values, model), n, k, Lookup(SectionOf(model, n), k))
    decreases |model|
  {
    hide Holds, SameUnder, WithEntries;
    if model != [] {
      var s := model[0];
      var v := WithEntries(values, s.name, s.entries);
      assert forall i :: 0 <= i < |model[1..]| ==> model[1..][i] == model[i + 1];
      if s.name == n {
        SectionHolds(values, n, s.entries, k);
        OthersTouch(v, model[1..], n, k);
        HoldsSame(v, Values(v, model[1..]), n, k, Lookup(s.entries, k));
      } else {
        EntriesTouch(values, s.name, s.entries, n, k);
        HoldsSame(values, v, n, k, None);
        ModelHolds(v, model[1..], n, k);
      }
    }
  }

  lemma {:induction false} OthersTouch(values: map<Key, Value>, model: seq<Section>, n: string, k: string)
    requires forall i :: 0 <= i < |model| ==> model[i].name != n
    ensures SameUnder(values, Values(values, model), n, k)
    decreases |model|
  {
    hide SameUnder, WithEntries;
    if model != [] {
      var v := WithEntries(values, model[0].name, model[0].entries);
      EntriesTouch(values, model[0].name, model[0].entries, n, k);
      assert forall i :: 0 <= i < |model[1..]| ==> model[1..][i] == model[i + 1];
      OthersTouch(v, model[1..], n, k);
      SameTrans(values, v, Values(v, model[1..]), n, k);
    } else {
      SameSelf(values, n, k);
    }
  }

  lemma {:induction false} LookupIs(entries: seq<(string, Node)>, k: string)
    ensures Lookup(entries, k).Some? ==> exists j :: 0 <= j < |entries| && entries[j] == (k, Lookup(entries, k).value)
    ensures Lookup(entries, k).None? ==> forall j :: 0 <= j < |entries| ==> entries[j].0 != k
  {
    if entries != [] {
      LookupIs(entries[1..], k);
      assert forall i :: 0 <= i < |entries[1..]| ==> entries[1..][i] == entries[i + 1];
      if Lookup(entries[1..], k).Some? {
        var j :| 0 <= j < |entries[1..]| && entries[1..][j] == (k, Lookup(entries[1..], k).value);
        assert entries[j + 1] == (k, Lookup(entries[1..], k).value);
      }
    }
  }

  lemma {:induction false} SectionIs(model: seq<Section>, n: string)
    ensures SectionOf(model, n) == [] || exists i :: 0 <= i < |model| && model[i].name == n && model[i].entries == SectionOf(model, n)
  {
    if model != [] && model[0].name != n {
      SectionIs(model[1..], n);
      assert forall i :: 0 <= i < |model[1..]| ==> model[1..][i] == model[i + 1];
    }
  }

  /** What dict.get finds in the parsed file is what the model holds there. */
  lemma FoundInModel(model: seq<Section>, n: string, k: string)
    requires WellFormed(model)
    ensures At(AsData(model), n, k) == FoundOf(Lookup(SectionOf(model, n), k))
  {
    hide Holds, Lookup, SectionOf, Values, Tables, WellFormedEntries;
    var d := AsData(model);
    DataHasTwoParts(Data(map[], {}), model, true);
    assert {} + Tables(model, true) == Tables(model, true);
    EmptyHolds(n, k);
    ModelHolds(map[], model, n, k);
    var node := Lookup(SectionOf(model, n), k);
    SubTableThere(model, n, k);
    FoundFromHolds(d, n, k, node);
  }

  lemma EmptyHolds(n: string, k: string)
    ensures Holds(map[], n, k, None)
  {
  }

  lemma FoundFromHolds(d: Data<Value>, n: string, k: string, node: Option<Node>)
    requires Holds(d.values, n, k, node)
    requires node.None? ==> [n, k] !in d.tables
    requires node.Some? && node.value.Sub? ==> [n, k] in d.tables
    ensures At(d, n, k) == FoundOf(node)
  {
    var key := [n, k];
    assert |key| >= 2 && key[0] == n && key[1] == k;
    if node.Some? && node.value.Sub? {
      var es := node.value.entries;
      var sub := SubDict(d, n, k);
      forall s | s in DictOf(es) ensures s in sub {
        assert [n, k, s] in d.values;
        assert [n, k, s][2] in SubNames(d);
      }
      forall s | s in sub ensures s in DictOf(es) && sub[s] == DictOf(es)[s] {
        var full := [n, k, s];
        assert full in d.values && |full| == 3 && full[0] == n && full[1] == k;
      }
      assert sub == DictOf(es);
    }
  }

  lemma SubTableThere(model: seq<Section>, n: string, k: string)
    requires WellFormed(model)
    ensures var node := Lookup(SectionOf(model, n), k);
            [n, k] in Tables(model, true) <==> node.Some? && node.value.Sub?
  {
    hide *;
    SubIsTable(model, n, k);
    TableIsSub(model, n, k);
  }

  lemma SubIsTable(model: seq<Section>, n: string, k: string)
    ensures var node := Lookup(SectionOf(model, n), k);
            node.Some? && node.value.Sub? ==> [n, k] in Tables(model, true)
  {
    hide Tables, SubTables, Lookup, SectionOf;
    var entries := SectionOf(model, n);
    LookupIs(entries, k);
    SectionIs(model, n);
    NothingThere(k);
    if Lookup(entries, k).Some? && Lookup(entries, k).value.Sub? {
      TableIs(model, true);
      var i :| 0 <= i < |model| && model[i].name == n && model[i].entries == entries;
      SubTableIs(n, entries, true);
      assert [n, k] in SubTables(model[i].name, model[i].entries, true);
    }
  }

  lemma NothingThere(k: string)
    ensures Lookup([], k) == None
  {
  }

  lemma TableIsSub(model: seq<Section>, n: string, k: string)
    requires WellFormed(model)
    ensures var node := Lookup(SectionOf(model, n), k);
            [n, k] in Tables(model, true) ==> node.Some? && node.value.Sub?
  {
    hide Tables, SubTables, WellFormedEntries, Lookup, SectionOf;
    var t := [n, k];
    TableIs(model, true);
    if t in Tables(model, true) {
      var i :| 0 <= i < |model| && (t == [model[i].name] || t in SubTables(model[i].name, model[i].entries, true));
      assert |t| == 2 && t[1] == k;
      SubTableIs(model[i].name, model[i].entries, true);
      NamedSection(model, i);
      SubInSection(model[i].entries, k);
    }
  }

  lemma SubInSection(entries: seq<(string, Node)>, k: string)
    requires WellFormedEntries(entries)
    requires exists j :: 0 <= j < |entries| && entries[j].0 == k && entries[j].1.Sub?
    ensures Lookup(entries, k).Some? && Lookup(entries, k).value.Sub?
  {
    var j :| 0 <= j < |entries| && entries[j].0 == k && entries[j].1.Sub?;
    DistinctLookup(entries, j);
  }

  lemma {:induction false} NamedSection(model: seq<Section>, i: nat)
    requires WellFormed(model) && i < |model|
    ensures SectionOf(model, model[i].name) == model[i].entries && WellFormedEntries(model[i].entries)
  {
    hide WellFormedEntries;
    if i > 0 {
      assert model[1..][i - 1] == model[i];
      assert forall x :: 0 <= x < |model[1..]| ==> model[1..][x] == model[x + 1];
      NamedSection(model[1..], i - 1);
    }
  }

  lemma {:induction false} DistinctLookup(entries: seq<(string, Node)>, j: nat)
    requires DistinctKeys(entries) && j < |entries|
    ensures Lookup(entries, entries[j].0) == Some(entries[j].1)
  {
    if j > 0 {
      assert entries[1..][j - 1] == entries[j];
      assert forall x :: 0 <= x < |entries[1..]| ==> entries[1..][x] == entries[x + 1];
      DistinctLookup(entries[1..], j - 1);
    }
  }
}
