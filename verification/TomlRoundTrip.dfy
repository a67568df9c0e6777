/** The printed answer file reads back as the model it was printed from. */
module TomlRoundTrip {
  import opened Wrappers
  import opened Toml
  import opened TomlPrinter

  // ----- keys -----

  lemma {:induction false} BareLengthIs(k: string, t: string)
    requires forall i :: 0 <= i < |k| ==> BareChar(k[i])
    requires t == [] || !BareChar(t[0])
    ensures BareLength(k + t) == |k|
  {
    if k == [] {
      assert k + t == t;
    } else {
      assert (k + t)[1..] == k[1..] + t;
      BareLengthIs(k[1..], t);
    }
  }

  lemma PartReads(k: string, t: string)
    requires Bare(k) && t != [] && !BareChar(t[0])
    ensures ReadKeyPart(k + t) == Some(Scanned(k, t))
    ensures SkipBlanks(k + t) == k + t
  {
    BareLengthIs(k, t);
    assert (k + t)[0] == k[0];
    assert (k + t)[..|k|] == k && (k + t)[|k|..] == t;
  }

  /** A bare key, up to what comes behind it. */
  lemma KeyReads(k: string, t: string)
    requires Bare(k) && t != [] && !BareChar(t[0]) && t[0] != '.' && !Blank(t[0])
    ensures ReadKey(k + t) == Some(KeyRead([k], t))
    ensures ReadKey(k + " " + t) == Some(KeyRead([k], t))
  {
    hide ReadKeyPart;
    PartReads(k, t);
    PartReads(k, " " + t);
    assert k + (" " + t) == k + " " + t;
    assert (" " + t)[1..] == t;
  }

  lemma DottedKeyReads(k: string, s: string, t: string)
    requires Bare(k) && Bare(s) && t != [] && !BareChar(t[0]) && t[0] != '.' && !Blank(t[0])
    ensures ReadKey(k + "." + s + " " + t) == Some(KeyRead([k, s], t))
  {
    hide ReadKeyPart, ReadKey, SkipBlanks, Bare, BareChar;
    var more := s + " " + t;
    var rest := "." + more;
    PartReads(k, rest) by { assert !BareChar('.') by { DotIsNotBare(); } }
    assert k + rest == k + "." + s + " " + t;
    assert rest[1..] == more;
    assert more == s + (" " + t);
    PartReads(s, " " + t) by { assert !BareChar(' ') by { DotIsNotBare(); } }
    KeyReads(s, t);
    assert [k] + [s] == [k, s];
    KeyOfParts(k + rest, k, rest);
  }

  lemma DotIsNotBare()
    ensures !BareChar('.') && !BareChar(' ')
  {
  }

  /** A key part, a dot, and another key. */
  lemma KeyOfParts(line: string, k: string, rest: string)
    requires ReadKeyPart(line) == Some(Scanned(k, rest)) && rest != [] && rest[0] == '.'
    requires SkipBlanks(rest[1..]) == rest[1..] && ReadKey(rest[1..]).Some?
    ensures ReadKey(line) == Some(KeyRead([k] + ReadKey(rest[1..]).value.key, ReadKey(rest[1..]).value.rest))
  {
    hide ReadKeyPart;
  }

  // ----- lines -----

  lemma LineOfKey(line: string, k: string, t: string)
    requires Bare(k) && line == k + t
    ensures SkipBlanks(line) == line && !Ends(line) && line[0] != '['
  {
    assert line[0] == k[0];
  }

  lemma LeafLineReads(k: string, v: Value)
    requires Bare(k)
    ensures ReadLine(k + " = " + Show(v), ReadValue) == Some(Assign([k], v))
    ensures OneLine(k + " = " + Show(v))
  {
    hide ReadKey, ReadValue, Show, Ends;
    var line := k + " = " + Show(v);
    var t := "= " + Show(v);
    assert line == k + " " + t;
    LineOfKey(line, k, " " + t);
    KeyReads(k, t);
    assert t[1..] == " " + Show(v);
    ValueReads(v);
  }

  lemma SubLineReads(k: string, s: string, v: Value)
    requires Bare(k) && Bare(s)
    ensures ReadLine(k + "." + s + " = " + Show(v), ReadValue) == Some(Assign([k, s], v))
    ensures OneLine(k + "." + s + " = " + Show(v))
  {
    hide ReadKey, ReadValue, Show, Ends;
    var line := k + "." + s + " = " + Show(v);
    var t := "= " + Show(v);
    assert line == k + "." + s + " " + t;
    assert line == k + ("." + s + " " + t);
    LineOfKey(line, k, "." + s + " " + t);
    DottedKeyReads(k, s, t);
    assert t[1..] == " " + Show(v);
    ValueReads(v);
  }

  lemma HeaderLineReads<V>(name: string, read: Reader<V>)
    requires Bare(name)
    ensures ReadLine("[" + name + "]", read) == Some(Table([name]))
    ensures OneLine("[" + name + "]")
  {
    hide ReadKey;
    var line := "[" + name + "]";
    assert line[1..] == name + "]";
    PartReads(name, "]");
    KeyReads(name, "]");
    assert Ends("]"[1..]);
    assert line[0] == '[';
  }

  // ----- the items of a model -----

  function SubItems(k: string, es: seq<(string, Value)>): seq<Item<Value>> {
    if es == [] then [] else [Assign([k, es[0].0], es[0].1)] + SubItems(k, es[1..])
  }

  function NodeItems(k: string, node: Node): seq<Item<Value>> {
    match node
    case Leaf(v) => [Assign([k], v)]
    case Sub(es) => SubItems(k, es)
  }

  function EntryItems(entries: seq<(string, Node)>): seq<Item<Value>> {
    if entries == [] then [] else NodeItems(entries[0].0, entries[0].1) + EntryItems(entries[1..])
  }

  function Items(model: seq<Section>): seq<Item<Value>> {
    if model == [] then []
    else [Table([model[0].name])] + EntryItems(model[0].entries) + [Nothing] + Items(model[1..])
  }

  predicate OneLiners(lines: seq<string>) {
    forall i :: 0 <= i < |lines| ==> OneLine(lines[i])
  }

  lemma {:induction false} ItemsAppend<V>(a: seq<string>, b: seq<string>, read: Reader<V>)
    ensures ItemsOf(a, read).Some? && ItemsOf(b, read).Some? ==>
              ItemsOf(a + b, read) == Some(ItemsOf(a, read).value + ItemsOf(b, read).value)
  {
    if a == [] {
      assert a + b == b;
      assert ItemsOf(a, read) == Some([]);
      if ItemsOf(b, read).Some? {
        assert [] + ItemsOf(b, read).value == ItemsOf(b, read).value;
      }
    } else if ItemsOf(a, read).Some? && ItemsOf(b, read).Some? {
      assert (a + b)[1..] == a[1..] + b;
      ItemsAppend(a[1..], b, read);
      var x, y, z := [ReadLine(a[0], read).value], ItemsOf(a[1..], read).value, ItemsOf(b, read).value;
      assert (x + y) + z == x + (y + z);
    }
  }

  lemma ItemsOfOne<V>(line: string, item: Item<V>, read: Reader<V>)
    requires ReadLine(line, read) == Some(item)
    ensures ItemsOf([line], read) == Some([item])
  {
    assert [line][1..] == [];
    assert [item] + [] == [item];
  }

  lemma {:induction false} SubLinesRead(k: string, es: seq<(string, Value)>)
    requires Bare(k) && forall j :: 0 <= j < |es| ==> Bare(es[j].0)
    ensures ItemsOf(SubLines(k, es), ReadValue) == Some(SubItems(k, es))
    ensures OneLiners(SubLines(k, es))
  {
    hide ReadLine, ReadValue, Show, OneLine;
    if es != [] {
      SubLinesRead(k, es[1..]);
      SubLineReads(k, es[0].0, es[0].1);
      var line := k + "." + es[0].0 + " = " + Show(es[0].1);
      ItemsOfOne(line, Assign([k, es[0].0], es[0].1), ReadValue);
      ItemsAppend([line], SubLines(k, es[1..]), ReadValue);
    }
  }

  lemma NoLines<V>(read: Reader<V>)
    ensures ItemsOf([], read) == Some([])
  {
  }

  lemma FirstWellFormed(entries: seq<(string, Node)>)
    requires entries != [] && WellFormedEntries(entries)
    ensures WellFormedEntries(entries[1..]) && Bare(entries[0].0)
    ensures entries[0].1.Sub? ==> forall j :: 0 <= j < |entries[0].1.entries| ==> Bare(entries[0].1.entries[j].0)
  {
    hide Bare;
    assert forall i :: 0 <= i < |entries[1..]| ==> entries[1..][i] == entries[i + 1];
  }

  lemma {:induction false} EntryLinesRead(entries: seq<(string, Node)>)
    requires WellFormedEntries(entries)
    ensures ItemsOf(EntryLines(entries), ReadValue) == Some(EntryItems(entries))
    ensures OneLiners(EntryLines(entries))
  {
    hide ReadLine, ReadValue, Show, OneLine, SubLines, SubItems, ItemsOf, WellFormedEntries, Bare;
    if entries == [] {
      NoLines(ReadValue);
    } else {
      FirstWellFormed(entries);
      EntryLinesRead(entries[1..]);
      var k := entries[0].0;
      match entries[0].1 {
        case Leaf(v) =>
          LeafLineReads(k, v);
          ItemsOfOne(k + " = " + Show(v), Assign([k], v), ReadValue);
          ItemsAppend([k + " = " + Show(v)], EntryLines(entries[1..]), ReadValue);
        case Sub(es) =>
          SubLinesRead(k, es);
          ItemsAppend(SubLines(k, es), EntryLines(entries[1..]), ReadValue);
      }
    }
  }

  lemma {:induction false} LinesRead(model: seq<Section>)
    requires WellFormed(model)
    ensures ItemsOf(Lines(model), ReadValue) == Some(Items(model))
    ensures OneLiners(Lines(model))
  {
    hide ReadLine, ReadValue, EntryLines, EntryItems;
    if model != [] {
      LinesRead(model[1..]);
      var s := model[0];
      var header := ["[" + s.name + "]"];
      HeaderLineReads(s.name, ReadValue);
      ItemsOfOne(header[0], Table([s.name]), ReadValue);
      EntryLinesRead(s.entries);
      EmptyLineReads(ReadValue);
      ItemsOfOne("", Nothing, ReadValue);
      ItemsAppend(header, EntryLines(s.entries), ReadValue);
      ItemsAppend(header + EntryLines(s.entries), [""], ReadValue);
      ItemsAppend(header + EntryLines(s.entries) + [""], Lines(model[1..]), ReadValue);
    }
  }

  lemma EmptyLineReads<V>(read: Reader<V>)
    ensures ReadLine("", read) == Some(Nothing)
  {
  }

  // ----- text and lines -----

  lemma {:induction false} LineStays(line: string, t: string)
    requires OneLine(line)
    ensures LinesOf(line + t) == [line + LinesOf(t)[0]] + LinesOf(t)[1..]
  {
    if line == [] {
      assert line + t == t;
      var r := LinesOf(t);
      assert line + r[0] == r[0] && r == [r[0]] + r[1..];
    } else {
      assert (line + t)[1..] == line[1..] + t;
      LineStays(line[1..], t);
      assert [line[0]] + (line[1..] + LinesOf(t)[0]) == line + LinesOf(t)[0];
    }
  }

  /** Lines joined and cut apart again. */
  lemma {:induction false} JoinedLinesSplit(lines: seq<string>)
    requires OneLiners(lines)
    ensures LinesOf(Join(lines)) == if lines == [] then [[]] else lines
  {
    if |lines| == 1 {
      LineStays(lines[0], []);
      assert lines[0] + [] == lines[0];
    } else if |lines| > 1 {
      JoinedLinesSplit(lines[1..]);
      var t := "\n" + Join(lines[1..]);
      assert t[1..] == Join(lines[1..]);
      assert LinesOf(t) == [[]] + lines[1..];
      LineStays(lines[0], t);
      assert lines[0] + t == Join(lines);
      assert lines[0] + [] == lines[0];
    }
  }

  lemma {:induction false} NoReturns(text: string)
    requires forall i :: 0 <= i < |text| ==> text[i] != '\r'
    ensures Newlines(text) == text
  {
    if text != [] {
      NoReturns(text[1..]);
    }
  }

  lemma {:induction false} JoinHasNoReturns(lines: seq<string>)
    requires OneLiners(lines)
    ensures forall i :: 0 <= i < |Join(lines)| ==> Join(lines)[i] != '\r'
  {
    if |lines| > 1 {
      JoinHasNoReturns(lines[1..]);
    }
  }

  // ----- what the items make -----

  /** Nothing of r lies under the table n. */
  predicate FreeOf<V>(r: Reading<V>, n: string) {
    && (forall k :: k in r.data.values ==> k != [] && k[0] != n)
    && (forall k :: k in r.data.tables + r.fixed + r.later ==> k != [] && k[0] != n)
  }

  /** Nothing of r lies at or under the key n.k. */
  predicate FreeOfKey<V>(r: Reading<V>, n: string, k: string) {
    && (forall p :: p in r.data.values ==> !(|p| >= 2 && p[0] == n && p[1] == k))
    && (forall p :: p in r.data.tables + r.fixed + r.later ==> !(|p| >= 2 && p[0] == n && p[1] == k))
  }

  /** In the table n: opened, fixed, and not under a value. */
  predicate Within<V>(r: Reading<V>, n: string) {
    r.at == [n] && [n] in r.data.tables && [n] !in r.data.values
  }

  lemma LeafAssigned<V>(r: Reading<V>, n: string, k: string, v: V)
    requires Within(r, n) && FreeOfKey(r, n, k)
    ensures Reads(r, Assign([k], v)) == Some(r.(data := r.data.(values := r.data.values[[n, k] := v])))
  {
    var key := [k];
    assert r.at + key == [n, k];
    assert key[..0] == [] && r.at + key[..0] == [n];
    assert Prefixes([n]) == {[n]} by { assert [n][..1] == [n]; }
    assert Passed(r.at, key) == {};
    assert [n][..1] == [n];
    assert !UnderValue(r.data, [n]);
    assert [n, k] !in r.data.values && [n, k] !in r.data.tables;
    assert r.data.tables + {[n]} == r.data.tables;
    assert r.later + {} == r.later;
  }

  /** The dotted keys of one sub-table. */
  lemma {:induction false} SubAssigned(r: Reading<Value>, n: string, k: string, es: seq<(string, Value)>)
    requires Within(r, n) && DistinctKeys(es)
    requires [n, k] !in r.data.values && [n, k] !in r.fixed
    requires forall j :: 0 <= j < |es| ==> [n, k, es[j].0] !in r.data.values && [n, k, es[j].0] !in r.data.tables
    ensures var d := if es == [] then {} else {[n, k]};
            ReadItems(r, SubItems(k, es)) ==
            Some(Reading(Data(WithSub(r.data.values, n, k, es), r.data.tables + d), r.fixed, r.later + d, r.at))
    decreases |es|
  {
    hide Reads;
    if es == [] {
      assert r.data.tables + {} == r.data.tables && r.later + {} == r.later;
    } else {
      OneSubAssigned(r, n, k, es[0].0, es[0].1);
      var r' := r.(data := Data(r.data.values[[n, k, es[0].0] := es[0].1], r.data.tables + {[n, k]}), later := r.later + {[n, k]});
      forall j | 0 <= j < |es[1..]| ensures [n, k, es[1..][j].0] != [n, k, es[0].0] {
        assert es[1..][j] == es[j + 1];
        assert [n, k, es[j + 1].0][2] != [n, k, es[0].0][2];
      }
      SubAssigned(r', n, k, es[1..]);
      assert SubItems(k, es)[1..] == SubItems(k, es[1..]);
      var d := if es[1..] == [] then {} else {[n, k]};
      assert (r.data.tables + {[n, k]}) + d == r.data.tables + {[n, k]};
      assert (r.later + {[n, k]}) + d == r.later + {[n, k]};
    }
  }

  lemma OneSubAssigned(r: Reading<Value>, n: string, k: string, s: string, v: Value)
    requires Within(r, n) && [n, k] !in r.data.values && [n, k] !in r.fixed
    requires [n, k, s] !in r.data.values && [n, k, s] !in r.data.tables
    ensures Reads(r, Assign([k, s], v)) ==
            Some(r.(data := Data(r.data.values[[n, k, s] := v], r.data.tables + {[n, k]}), later := r.later + {[n, k]}))
  {
    var key := [k, s];
    assert r.at + key == [n, k, s];
    assert key[..1] == [k] && r.at + key[..1] == [n, k];
    assert Passed(r.at, key) == {[n, k]};
    var parent := [n, k];
    assert parent[..1] == [n] && parent[..2] == parent;
    assert Prefixes(parent) == {[n], [n, k]};
    assert !UnderValue(r.data, parent);
    assert r.data.tables + {[n], [n, k]} == r.data.tables + {[n, k]};
  }

  lemma {:induction false} SubAdds(values: map<Key, Value>, n: string, k: string, es: seq<(string, Value)>)
    ensures forall p :: p in WithSub(values, n, k, es) ==> p in values || (|p| == 3 && p[0] == n && p[1] == k)
    ensures forall p :: p in values ==> p in WithSub(values, n, k, es)
    decreases |es|
  {
    if es != [] {
      SubAdds(values[[n, k, es[0].0] := es[0].1], n, k, es[1..]);
    }
  }

  /** What one entry makes of a reading. */
  function NodeRead(r: Reading<Value>, n: string, k: string, node: Node): Reading<Value> {
    var d := if node.Sub? && node.entries != [] then {[n, k]} else {};
    Reading(Data(WithNode(r.data.values, n, k, node), r.data.tables + d), r.fixed, r.later + d, r.at)
  }

  lemma NodeAssigned(r: Reading<Value>, n: string, k: string, node: Node)
    requires Within(r, n) && FreeOfKey(r, n, k) && (node.Sub? ==> DistinctKeys(node.entries))
    ensures ReadItems(r, NodeItems(k, node)) == Some(NodeRead(r, n, k, node))
    ensures Within(NodeRead(r, n, k, node), n)
    ensures forall m :: m != k && FreeOfKey(r, n, m) ==> FreeOfKey(NodeRead(r, n, k, node), n, m)
    ensures forall m :: m != n && FreeOf(r, m) ==> FreeOf(NodeRead(r, n, k, node), m)
  {
    NodeReads(r, n, k, node);
    NodeIsLocal(r, n, k, node);
  }

  lemma NodeReads(r: Reading<Value>, n: string, k: string, node: Node)
    requires Within(r, n) && FreeOfKey(r, n, k) && (node.Sub? ==> DistinctKeys(node.entries))
    ensures ReadItems(r, NodeItems(k, node)) == Some(NodeRead(r, n, k, node))
  {
    hide Reads, Within;
    match node {
      case Leaf(v) =>
        LeafAssigned(r, n, k, v);
        var items := NodeItems(k, node);
        assert items[1..] == [];
        assert r.data.tables + {} == r.data.tables && r.later + {} == r.later;
      case Sub(es) =>
        forall j | 0 <= j < |es| ensures [n, k, es[j].0] !in r.data.values && [n, k, es[j].0] !in r.data.tables {
          var p := [n, k, es[j].0];
          assert |p| >= 2 && p[0] == n && p[1] == k;
        }
        var q := [n, k];
        assert q[0] == n && q[1] == k;
        hide FreeOfKey, ReadItems;
        SubAssigned(r, n, k, es);
    }
  }

  lemma NodeIsLocal(r: Reading<Value>, n: string, k: string, node: Node)
    requires Within(r, n)
    ensures Within(NodeRead(r, n, k, node), n)
    ensures forall m :: m != k && FreeOfKey(r, n, m) ==> FreeOfKey(NodeRead(r, n, k, node), n, m)
    ensures forall m :: m != n && FreeOf(r, m) ==> FreeOf(NodeRead(r, n, k, node), m)
  {
    var q := [n, k];
    assert q[0] == n && q[1] == k && |[n]| == 1;
    var after := NodeRead(r, n, k, node);
    if node.Sub? {
      SubAdds(r.data.values, n, k, node.entries);
    }
    assert forall p :: p in after.data.values ==> p in r.data.values || (|p| >= 2 && p[0] == n && p[1] == k);
    assert forall p :: p in after.data.tables + after.fixed + after.later ==> p in r.data.tables + r.fixed + r.later || p == q;
    hide WithSub, NodeRead;
  }

  lemma {:induction false} ReadsAppend<V>(r: Reading<V>, a: seq<Item<V>>, b: seq<Item<V>>)
    ensures ReadItems(r, a + b) ==
            match ReadItems(r, a) case None => None case Some(r') => ReadItems(r', b)
    decreases |a|
  {
    hide Reads;
    if a == [] {
      assert a + b == b;
    } else {
      assert (a + b)[1..] == a[1..] + b;
      if Reads(r, a[0]).Some? {
        ReadsAppend(Reads(r, a[0]).value, a[1..], b);
      }
    }
  }

  function EntriesRead(r: Reading<Value>, n: string, entries: seq<(string, Node)>): Reading<Value>
    decreases |entries|
  {
    if entries == [] then r else EntriesRead(NodeRead(r, n, entries[0].0, entries[0].1), n, entries[1..])
  }

  lemma {:induction false} EntriesAssigned(r: Reading<Value>, n: string, entries: seq<(string, Node)>)
    requires Within(r, n) && WellFormedEntries(entries)
    requires forall i :: 0 <= i < |entries| ==> FreeOfKey(r, n, entries[i].0)
    ensures ReadItems(r, EntryItems(entries)) == Some(EntriesRead(r, n, entries))
    ensures var e := EntriesRead(r, n, entries);
            && e.data.values == WithEntries(r.data.values, n, entries)
            && e.data.tables == r.data.tables + SubTables(n, entries, false)
            && (forall m :: m != n && FreeOf(r, m) ==> FreeOf(e, m))
    decreases |entries|
  {
    hide Reads, Within, FreeOfKey, FreeOf;
    if entries != [] {
      var k, node := entries[0].0, entries[0].1;
      NodeAssigned(r, n, k, node);
      var r' := NodeRead(r, n, k, node);
      forall i | 0 <= i < |entries[1..]| ensures FreeOfKey(r', n, entries[1..][i].0) {
        assert entries[1..][i] == entries[i + 1];
      }
      EntriesAssigned(r', n, entries[1..]);
      ReadsAppend(r, NodeItems(k, node), EntryItems(entries[1..]));
    }
  }

  lemma SectionOpened<V>(r: Reading<V>, n: string)
    requires FreeOf(r, n)
    ensures var o := Reading(r.data.(tables := r.data.tables + {[n]}), r.fixed + r.later + {[n]}, {}, [n]);
            && Reads(r, Table([n])) == Some(o) && Within(o, n)
            && (forall k :: FreeOfKey(o, n, k))
            && (forall m :: m != n && FreeOf(r, m) ==> FreeOf(o, m))
  {
    var key := [n];
    assert key[..1] == key;
    assert Prefixes(key) == {key};
    assert key[0] == n;
    assert !UnderValue(r.data, key);
  }

  lemma {:induction false} SectionsRead(r: Reading<Value>, model: seq<Section>)
    requires WellFormed(model) && forall i :: 0 <= i < |model| ==> FreeOf(r, model[i].name)
    ensures var e := ReadItems(r, Items(model));
            e.Some? && e.value.data == DataFrom(r.data, model, false)
    decreases |model|
  {
    hide Reads, Within, FreeOfKey, FreeOf, WellFormedEntries, WithEntries, SubTables;
    if model != [] {
      var s := model[0];
      SectionOpened(r, s.name);
      var o := Reads(r, Table([s.name])).value;
      EntriesAssigned(o, s.name, s.entries);
      var e := EntriesRead(o, s.name, s.entries);
      var header: seq<Item<Value>> := [Table([s.name])];
      OneItem(r, header[0]);
      OneItem(e, Nothing);
      ReadsAppend(r, header, EntryItems(s.entries));
      ReadsAppend(r, header + EntryItems(s.entries), [Nothing]);
      ReadsAppend(r, header + EntryItems(s.entries) + [Nothing], Items(model[1..]));
      assert Reads(e, Nothing) == Some(e) by { ReadsNothing(e); }
      forall i | 0 <= i < |model[1..]| ensures FreeOf(e, model[1..][i].name) {
        assert model[1..][i] == model[i + 1];
      }
      SectionsRead(e, model[1..]);
    }
  }

  lemma OneItem<V>(r: Reading<V>, item: Item<V>)
    ensures ReadItems(r, [item]) == Reads(r, item)
  {
    assert [item][1..] == [];
  }

  lemma ReadsNothing<V>(r: Reading<V>)
    ensures Reads(r, Nothing) == Some(r)
  {
  }

  // ----- sub-tables without a key -----

  function Tables(model: seq<Section>, empty: bool): set<Key> {
    if model == [] then {}
    else {[model[0].name]} + SubTables(model[0].name, model[0].entries, empty) + Tables(model[1..], empty)
  }

  function Values(values: map<Key, Value>, model: seq<Section>): map<Key, Value>
    decreases |model|
  {
    if model == [] then values else Values(WithEntries(values, model[0].name, model[0].entries), model[1..])
  }

  lemma {:induction false} DataHasTwoParts(d: Data<Value>, model: seq<Section>, empty: bool)
    ensures DataFrom(d, model, empty) == Data(Values(d.values, model), d.tables + Tables(model, empty))
    decreases |model|
  {
    hide SubTables, WithEntries;
    if model != [] {
      var s := model[0];
      var d' := Data(WithEntries(d.values, s.name, s.entries), d.tables + {[s.name]} + SubTables(s.name, s.entries, empty));
      DataHasTwoParts(d', model[1..], empty);
      assert d'.tables + Tables(model[1..], empty) == d.tables + Tables(model, empty);
    } else {
      assert d.tables + {} == d.tables;
    }
  }

  lemma {:induction false} SubTableIs(n: string, entries: seq<(string, Node)>, empty: bool)
    ensures forall t :: t in SubTables(n, entries, empty) ==>
              |t| == 2 && t[0] == n
              && exists j :: 0 <= j < |entries| && entries[j].0 == t[1] && entries[j].1.Sub?
                             && (empty || entries[j].1.entries != [])
    ensures forall j :: 0 <= j < |entries| && entries[j].1.Sub? && (empty || entries[j].1.entries != []) ==>
              [n, entries[j].0] in SubTables(n, entries, empty)
  {
    if entries != [] {
      SubTableIs(n, entries[1..], empty);
      assert forall j :: 0 < j < |entries| ==> entries[1..][j - 1] == entries[j];
      assert forall j :: 0 <= j < |entries[1..]| ==> entries[1..][j] == entries[j + 1];
    }
  }

  lemma {:induction false} TableIs(model: seq<Section>, empty: bool)
    ensures forall t :: t in Tables(model, empty) ==>
              exists i :: 0 <= i < |model| && (t == [model[i].name] || t in SubTables(model[i].name, model[i].entries, empty))
    ensures forall i, t :: 0 <= i < |model| && t in SubTables(model[i].name, model[i].entries, empty) ==>
              t in Tables(model, empty)
  {
    hide SubTables;
    if model != [] {
      TableIs(model[1..], empty);
      assert forall i :: 0 < i < |model| ==> model[1..][i - 1] == model[i];
      assert forall i :: 0 <= i < |model[1..]| ==> model[1..][i] == model[i + 1];
    }
  }

  /** What was printed makes no table of a sub-table but for its keys. */
  lemma KeptTable(model: seq<Section>, n: string, k: string)
    ensures [n, k] in Tables(model, false) ==>
              exists x, y :: 0 <= x < |model| && model[x].name == n && 0 <= y < |model[x].entries|
                             && model[x].entries[y].0 == k && model[x].entries[y].1.Sub? && model[x].entries[y].1.entries != []
  {
    hide SubTables, Tables;
    var t := [n, k];
    TableIs(model, false);
    if t in Tables(model, false) {
      var x :| 0 <= x < |model| && (t == [model[x].name] || t in SubTables(model[x].name, model[x].entries, false));
      assert |t| == 2 && t[0] == n && t[1] == k;
      SubTableIs(model[x].name, model[x].entries, false);
    }
  }

  /** The table of a sub-table without a key is missing from what was printed. */
  lemma EmptySubIsLost(model: seq<Section>, i: nat, j: nat)
    requires WellFormed(model) && i < |model| && j < |model[i].entries|
    requires model[i].entries[j].1.Sub? && model[i].entries[j].1.entries == []
    ensures [model[i].name, model[i].entries[j].0] in Tables(model, true) - Tables(model, false)
  {
    hide SubTables, Tables;
    SubTableIs(model[i].name, model[i].entries, true);
    TableIs(model, true);
    KeptTable(model, model[i].name, model[i].entries[j].0);
    EntryIsOne(model, i, j);
    hide WellFormed;
  }

  /** A well-formed model has one entry under a section and a key. */
  lemma EntryIsOne(model: seq<Section>, i: nat, j: nat)
    requires WellFormed(model) && i < |model| && j < |model[i].entries|
    ensures forall x :: 0 <= x < |model| && model[x].name == model[i].name ==> x == i
    ensures forall y :: 0 <= y < |model[i].entries| && model[i].entries[y].0 == model[i].entries[j].0 ==> y == j
  {
    hide Bare;
    assert DistinctKeys(model[i].entries);
  }

  lemma {:induction false} SameTables(model: seq<Section>)
    requires NoEmptySub(model)
    ensures Tables(model, true) == Tables(model, false)
  {
    if model != [] {
      assert forall i :: 0 <= i < |model[1..]| ==> model[1..][i] == model[i + 1];
      SameTables(model[1..]);
      SameSubTables(model[0].name, model[0].entries);
    }
  }

  lemma {:induction false} SameSubTables(n: string, entries: seq<(string, Node)>)
    requires forall j :: 0 <= j < |entries| && entries[j].1.Sub? ==> entries[j].1.entries != []
    ensures SubTables(n, entries, true) == SubTables(n, entries, false)
  {
    if entries != [] {
      SameSubTables(n, entries[1..]);
    }
  }

  lemma EmptySubsDiffer(model: seq<Section>)
    requires WellFormed(model)
    ensures AsData(model) == DataFrom(Data(map[], {}), model, false) <==> NoEmptySub(model)
  {
    hide Tables, Values, WellFormed;
    DataHasTwoParts(Data(map[], {}), model, true);
    DataHasTwoParts(Data(map[], {}), model, false);
    assert {} + Tables(model, true) == Tables(model, true);
    assert {} + Tables(model, false) == Tables(model, false);
    if NoEmptySub(model) {
      SameTables(model);
    } else {
      var i, j :| 0 <= i < |model| && 0 <= j < |model[i].entries| && model[i].entries[j].1.Sub?
                  && model[i].entries[j].1.entries == [];
      EmptySubIsLost(model, i, j);
    }
  }

  // ----- the round trip -----

  /** Printing a model and reading the text gives the model back - all its sections, keys,
      strings and lists, under the keys they had - exactly when it has no sub-table without
      a key: of those nothing is printed. */
  lemma PrinterAndReaderAgree(model: seq<Section>)
    requires WellFormed(model)
    ensures ReadText(Emit(model), ReadValue) == Some(AsData(model)) <==> NoEmptySub(model)
    ensures ReadText(Emit(model), ReadValue).Some?
  {
    hide ReadItems, ReadLine, ReadValue, Items;
    LinesRead(model);
    JoinHasNoReturns(Lines(model));
    NoReturns(Emit(model));
    JoinedLinesSplit(Lines(model));
    SectionsRead(Start(), model);
    if model == [] {
      EmptyLineReads(ReadValue);
      ItemsOfOne("", Nothing, ReadValue);
      ReadsNothing<Value>(Start());
      OneItem<Value>(Start(), Nothing);
      assert ReadText(Emit(model), ReadValue) == Some(DataFrom(Data(map[], {}), model, false));
    }
    EmptySubsDiffer(model);
  }
}
