/** What a stripped document says: the original without the webhook table. */
module WebhookReads {
  import opened Wrappers
  import opened PythonText
  import opened Toml
  import opened Webhook

  // ----- what the line patterns mean to a reader -----

  lemma {:induction false} SkipSame(s: string)
    requires SkipBlanks(s) == [] || !Space(SkipBlanks(s)[0])
    ensures TrimLeft(s) == SkipBlanks(s)
  {
    if s != [] && Blank(s[0]) {
      SkipSame(s[1..]);
    }
  }

  /** A key begins with a quote or a bare character. */
  lemma KeyBegins(s: string)
    requires ReadKey(s).Some?
    ensures s != [] && !Space(s[0]) && s[0] != '['
  {
    hide ReadString, ReadLiteral;
    if s != [] && s[0] != '\"' && s[0] != '\'' {
      assert BareLength(s) > 0;
    }
  }

  /** A line the reader takes begins with a bracket exactly when it is the header of a table. */
  lemma TableLines<V>(line: string, read: Reader<V>)
    requires ReadLine(line, read).Some?
    ensures AnyTable(line) <==> ReadLine(line, read).value.Table?
  {
    hide ReadKey;
    var s := SkipBlanks(line);
    if !Ends(s) {
      if s[0] != '[' {
        KeyBegins(s);
      }
      SkipSame(line);
    } else {
      EndsHere(line);
    }
  }

  lemma EndsHere(line: string)
    requires Ends(SkipBlanks(line))
    ensures !AnyTable(line)
  {
    var s := SkipBlanks(line);
    assert SkipBlanks(s) == s;
    SkipSame(line);
  }

  lemma HeaderIsTable<V>(line: string, read: Reader<V>)
    requires WebhookHeader(line) && ReadLine(line, read).Some?
    ensures ReadLine(line, read).value == Table([WEBHOOK])
  {
    hide ReadKeyPart;
    TableLines(line, read);
    var s := SkipBlanks(line);
    var t := SkipBlanks(s[1..]);
    if s[0] != '[' {
      KeyBegins(s);
    }
    SkipSame(line);
    KeyBegins(t);
    SkipSame(s[1..]);
    var rest := t[|WEBHOOK|..];
    assert t == WEBHOOK + rest;
    assert rest != [] && !BareChar(rest[0]);
    WebhookIsBare();
    WholeKey(WEBHOOK, rest);
    var u := SkipBlanks(rest);
    if u != [] && !Space(u[0]) {
      SkipSame(rest);
    }
    assert ReadKey(t) == Some(KeyRead([WEBHOOK], u));
  }

  lemma WebhookIsBare()
    ensures Bare(WEBHOOK)
  {
  }

  lemma {:induction false} LengthOfKey(k: string, t: string)
    requires forall i :: 0 <= i < |k| ==> BareChar(k[i])
    requires t == [] || !BareChar(t[0])
    ensures BareLength(k + t) == |k|
  {
    if k == [] {
      assert k + t == t;
    } else {
      assert (k + t)[1..] == k[1..] + t;
      LengthOfKey(k[1..], t);
    }
  }

  lemma WholeKey(k: string, t: string)
    requires Bare(k) && (t == [] || !BareChar(t[0]))
    ensures ReadKeyPart(k + t) == Some(Scanned(k, t))
  {
    LengthOfKey(k, t);
    assert (k + t)[0] == k[0];
    assert (k + t)[..|k|] == k && (k + t)[|k|..] == t;
  }

  // ----- a reading without the webhook table -----

  predicate Mine(k: Key) {
    k != [] && k[0] == WEBHOOK
  }

  function Others(keys: set<Key>): set<Key> {
    set k | k in keys && !Mine(k)
  }

  /** What was read, minus the webhook table. */
  function Minus<V>(d: Data<V>): Data<V> {
    Data(map k | k in d.values && !Mine(k) :: d.values[k], Others(d.tables))
  }

  /** q reads what r reads but the webhook table; skipping: r is in that table. */
  predicate Follows<V(==)>(r: Reading<V>, q: Reading<V>, skipping: bool) {
    && q.data == Minus(r.data)
    && (skipping <==> Mine(r.at))
    && (if skipping then q.fixed + q.later == Others(r.fixed + r.later)
        else q.at == r.at && q.fixed == Others(r.fixed) && q.later == Others(r.later))
  }

  lemma UnderSame<V>(d: Data<V>, k: Key)
    requires !Mine(k)
    ensures UnderValue(Minus(d), k) <==> UnderValue(d, k)
  {
    assert forall i :: 1 <= i <= |k| ==> k[..i][0] == k[0];
  }

  lemma PrefixesAreOthers(k: Key)
    ensures !Mine(k) ==> Others(Prefixes(k)) == Prefixes(k)
    ensures Mine(k) ==> Others(Prefixes(k)) == {}
  {
    assert forall i :: 1 <= i <= |k| ==> k[..i][0] == k[0];
  }

  lemma OthersJoin(a: set<Key>, b: set<Key>)
    ensures Others(a + b) == Others(a) + Others(b)
  {
  }

  /** Another table's header. */
  lemma OpensBoth<V>(r: Reading<V>, q: Reading<V>, skipping: bool, k: Key)
    requires Follows(r, q, skipping) && !Mine(k) && Opens(r, k).Some?
    ensures Opens(q, k).Some? && Follows(Opens(r, k).value, Opens(q, k).value, false)
  {
    UnderSame(r.data, k);
    OthersJoin(r.fixed, r.later);
    OthersJoin(r.fixed + r.later, {k});
    PrefixesAreOthers(k);
    OthersJoin(r.data.tables, Prefixes(k));
    assert Others({k}) == {k};
  }

  /** The header of the webhook table, which the stripped document does not have. */
  lemma OpensMine<V>(r: Reading<V>, q: Reading<V>, skipping: bool)
    requires Follows(r, q, skipping) && Opens(r, [WEBHOOK]).Some?
    ensures Follows(Opens(r, [WEBHOOK]).value, q, true)
  {
    OthersJoin(r.fixed, r.later);
    OthersJoin(r.fixed + r.later, {[WEBHOOK]});
    PrefixesAreOthers([WEBHOOK]);
    OthersJoin(r.data.tables, Prefixes([WEBHOOK]));
    var o := Opens(r, [WEBHOOK]).value;
    assert Others({[WEBHOOK]}) == {};
    assert o.fixed + o.later == (r.fixed + r.later) + {[WEBHOOK]};
    assert Minus(o.data) == Minus(r.data);
  }

  lemma PassedIs(at: Key, k: Key)
    ensures at != [] ==> forall p :: p in Passed(at, k) ==> p != [] && p[0] == at[0]
    ensures at == [] && k != [] ==> forall p :: p in Passed(at, k) ==> p != [] && p[0] == k[0]
  {
  }

  /** A key of another table. */
  lemma AssignsBoth<V>(r: Reading<V>, q: Reading<V>, k: Key, v: V)
    requires Follows(r, q, false) && k != [] && (r.at == [] ==> !Mine(k)) && Assigns(r, k, v).Some?
    ensures Assigns(q, k, v).Some? && Follows(Assigns(r, k, v).value, Assigns(q, k, v).value, false)
  {
    hide Passed, Prefixes, UnderValue;
    var within := Passed(r.at, k);
    var whole, parent := r.at + k, r.at + k[..|k| - 1];
    PassedIs(r.at, k);
    assert !Mine(whole) && !Mine(parent);
    assert Others(within) == within;
    UnderSame(r.data, parent);
    PrefixesAreOthers(parent);
    OthersJoin(r.data.tables, Prefixes(parent));
    OthersJoin(r.later, within);
    assert within * q.fixed == {};
    var s, t := Assigns(r, k, v).value, Assigns(q, k, v).value;
    assert t.data.values == Minus(s.data).values;
  }

  /** A key of the webhook table. */
  lemma AssignsMine<V>(r: Reading<V>, q: Reading<V>, k: Key, v: V)
    requires Follows(r, q, true) && k != [] && Assigns(r, k, v).Some?
    ensures Follows(Assigns(r, k, v).value, q, true)
  {
    hide Passed, Prefixes, UnderValue;
    var within := Passed(r.at, k);
    var whole, parent := r.at + k, r.at + k[..|k| - 1];
    PassedIs(r.at, k);
    assert Mine(whole) && Mine(parent);
    PrefixesAreOthers(parent);
    OthersJoin(r.data.tables, Prefixes(parent));
    OthersJoin(r.fixed, r.later);
    OthersJoin(r.fixed, r.later + within);
    OthersJoin(r.later, within);
    assert Others(within) == {};
    var s := Assigns(r, k, v).value;
    assert Others(s.fixed + s.later) == Others(r.fixed + r.later);
    assert Minus(s.data).values == Minus(r.data).values;
    assert Minus(s.data).tables == Minus(r.data).tables;
  }

  // ----- a whole document -----

  /** The only headers of the webhook table and of tables in it are lines the strip sees, and
      no key before the first header is the webhook's. */
  predicate Tidy<V>(lines: seq<string>, items: seq<Item<V>>, root: bool)
    requires |items| == |lines|
  {
    items == [] ||
    (match items[0]
     case Table(k) => (Mine(k) ==> WebhookHeader(lines[0])) && Tidy(lines[1..], items[1..], false)
     case Assign(k, _) => (root ==> !Mine(k)) && Tidy(lines[1..], items[1..], root)
     case Nothing => Tidy(lines[1..], items[1..], root))
  }

  lemma {:induction false} ItemsAreLines<V>(lines: seq<string>, read: Reader<V>)
    requires ItemsOf(lines, read).Some?
    ensures |ItemsOf(lines, read).value| == |lines|
    ensures forall i :: 0 <= i < |lines| ==> ReadLine(lines[i], read) == Some(ItemsOf(lines, read).value[i])
  {
    hide ReadLine;
    if lines != [] {
      ItemsAreLines(lines[1..], read);
      var items := ItemsOf(lines, read).value;
      assert items == [ReadLine(lines[0], read).value] + ItemsOf(lines[1..], read).value;
      forall i | 0 <= i < |lines| ensures ReadLine(lines[i], read) == Some(items[i]) {
        if i > 0 {
          assert lines[i] == lines[1..][i - 1];
        }
      }
    }
  }

  lemma {:induction false} StripFollows<V>(lines: seq<string>, read: Reader<V>, r: Reading<V>, q: Reading<V>, skipping: bool)
    requires ItemsOf(lines, read).Some? && Follows(r, q, skipping)
    requires |ItemsOf(lines, read).value| == |lines|
    requires Tidy(lines, ItemsOf(lines, read).value, r.at == [])
    requires ReadItems(r, ItemsOf(lines, read).value).Some?
    ensures ItemsOf(Stripped(lines, skipping), read).Some?
    ensures var e := ReadItems(q, ItemsOf(Stripped(lines, skipping), read).value);
            e.Some? && e.value.data == Minus(ReadItems(r, ItemsOf(lines, read).value).value.data)
  {
    hide ReadLine, WebhookHeader, AnyTable, Opens, Assigns, Follows, Mine;
    if lines == [] {
      FollowsData(r, q, skipping);
    } else {
      var items := ItemsOf(lines, read).value;
      var item := items[0];
      ItemsAreLines(lines, read);
      assert items[1..] == ItemsOf(lines[1..], read).value;
      var s := Reads(r, item).value;
      TableLines(lines[0], read);
      if WebhookHeader(lines[0]) {
        HeaderIsTable(lines[0], read);
        OpensMine(r, q, skipping);
        NotAtRoot(r, [WEBHOOK]);
        StripFollows(lines[1..], read, s, q, true);
      } else if skipping && !AnyTable(lines[0]) {
        FollowsAt(r, q, skipping);
        if item.Assign? {
          AssignsMine(r, q, item.key, item.value);
          AssignStays(r, item.key, item.value);
        }
        StripFollows(lines[1..], read, s, q, true);
      } else {
        KeptLine(r, q, skipping, item);
        var t := Reads(q, item).value;
        StripFollows(lines[1..], read, s, t, false);
        KeptItems(lines[0], Stripped(lines[1..], false), read, q);
      }
    }
  }

  lemma FollowsData<V>(r: Reading<V>, q: Reading<V>, skipping: bool)
    requires Follows(r, q, skipping)
    ensures q.data == Minus(r.data)
  {
  }

  lemma FollowsAt<V>(r: Reading<V>, q: Reading<V>, skipping: bool)
    requires Follows(r, q, skipping)
    ensures skipping ==> r.at != []
  {
  }

  lemma NotAtRoot<V>(r: Reading<V>, k: Key)
    requires Opens(r, k).Some? && k != []
    ensures Opens(r, k).value.at != []
  {
  }

  lemma AssignStays<V>(r: Reading<V>, k: Key, v: V)
    requires k != [] && Assigns(r, k, v).Some?
    ensures Assigns(r, k, v).value.at == r.at
  {
  }

  /** A line that stays in does to the one reading what it does to the other. */
  lemma KeptLine<V>(r: Reading<V>, q: Reading<V>, skipping: bool, item: Item<V>)
    requires Follows(r, q, skipping) && Reads(r, item).Some?
    requires skipping ==> item.Table?
    requires item.Table? ==> !Mine(item.key)
    requires item.Assign? && r.at == [] ==> !Mine(item.key)
    ensures Reads(q, item).Some? && Follows(Reads(r, item).value, Reads(q, item).value, false)
    ensures item.Table? ==> Reads(r, item).value.at == item.key
    ensures !item.Table? ==> Reads(r, item).value.at == r.at
  {
    hide Follows, Mine;
    match item {
      case Table(k) =>
        OpensBoth(r, q, skipping, k);
      case Assign(k, v) =>
        FollowsAt(r, q, skipping);
        if !skipping {
          AssignsBoth(r, q, k, v);
        }
      case Nothing =>
    }
  }

  lemma KeptItems<V>(line: string, rest: seq<string>, read: Reader<V>, q: Reading<V>)
    requires ReadLine(line, read).Some? && ItemsOf(rest, read).Some? && Reads(q, ReadLine(line, read).value).Some?
    ensures ItemsOf([line] + rest, read).Some?
    ensures ReadItems(q, ItemsOf([line] + rest, read).value) ==
            ReadItems(Reads(q, ReadLine(line, read).value).value, ItemsOf(rest, read).value)
  {
    hide ReadLine, Reads;
    assert ([line] + rest)[1..] == rest;
    var items := ItemsOf([line] + rest, read).value;
    assert items == [ReadLine(line, read).value] + ItemsOf(rest, read).value;
    assert items[1..] == ItemsOf(rest, read).value;
  }

  // ----- why a document that reads is tidy -----

  /** The webhook's name is taken: its header cannot come any more. */
  predicate Taken<V>(r: Reading<V>) {
    [WEBHOOK] in r.fixed + r.later || [WEBHOOK] in r.data.values
  }

  lemma {:induction false} TakenStays<V>(r: Reading<V>, items: seq<Item<V>>)
    requires Taken(r) && ReadItems(r, items).Some?
    ensures forall i :: 0 <= i < |items| ==> items[i] != Table([WEBHOOK])
    decreases |items|
  {
    if items != [] {
      var key := [WEBHOOK];
      assert key[..1] == key;
      TakenStays(Reads(r, items[0]).value, items[1..]);
      forall i | 0 <= i < |items| ensures items[i] != Table([WEBHOOK]) {
        if i > 0 {
          assert items[i] == items[1..][i - 1];
        }
      }
    }
  }

  /** No header of a table inside the webhook's. */
  predicate NoSubTables<V>(items: seq<Item<V>>) {
    forall i :: 0 <= i < |items| && items[i].Table? && Mine(items[i].key) ==> items[i].key == [WEBHOOK]
  }

  lemma OpenedIsTaken<V>(r: Reading<V>)
    requires Opens(r, [WEBHOOK]).Some?
    ensures Taken(Opens(r, [WEBHOOK]).value)
  {
  }

  lemma AssignedIsTaken<V>(r: Reading<V>, k: Key, v: V)
    requires r.at == [] && Mine(k) && Assigns(r, k, v).Some?
    ensures Taken(Assigns(r, k, v).value)
  {
    assert k[..1] == [WEBHOOK];
    assert r.at + k[..1] == [WEBHOOK] && r.at + k == k;
    if |k| == 1 {
      assert k == [WEBHOOK];
    } else {
      assert [WEBHOOK] in Passed(r.at, k);
    }
  }

  lemma {:induction false} TidyWithout<V>(lines: seq<string>, items: seq<Item<V>>)
    requires |items| == |lines|
    requires forall i :: 0 <= i < |items| && items[i].Table? ==> !Mine(items[i].key)
    ensures Tidy(lines, items, false)
  {
    if items != [] {
      assert forall i :: 0 <= i < |items[1..]| ==> items[1..][i] == items[i + 1];
      TidyWithout(lines[1..], items[1..]);
    }
  }

  lemma {:induction false} TidyWeakens<V>(lines: seq<string>, items: seq<Item<V>>)
    requires |items| == |lines|
    ensures Tidy(lines, items, true) ==> Tidy(lines, items, false)
  {
    if items != [] {
      TidyWeakens(lines[1..], items[1..]);
    }
  }

  lemma {:induction false} ReadsTidily<V>(lines: seq<string>, items: seq<Item<V>>, r: Reading<V>)
    requires |items| == |lines| && NoSubTables(items) && ReadItems(r, items).Some?
    requires exists h :: 0 <= h < |items| && items[h] == Table([WEBHOOK]) && WebhookHeader(lines[h])
    ensures Tidy(lines, items, r.at == [])
    decreases |items|
  {
    hide WebhookHeader;
    var h :| 0 <= h < |items| && items[h] == Table([WEBHOOK]) && WebhookHeader(lines[h]);
    var s := Reads(r, items[0]).value;
    if h == 0 {
      OpenedIsTaken(r);
      TakenStays(s, items[1..]);
      assert forall i :: 0 <= i < |items[1..]| ==> items[1..][i] == items[i + 1];
      TidyWithout(lines[1..], items[1..]);
    } else {
      assert items[1..][h - 1] == items[h] && lines[1..][h - 1] == lines[h];
      assert forall i :: 0 <= i < |items[1..]| ==> items[1..][i] == items[i + 1];
      ReadsTidily(lines[1..], items[1..], s);
      if items[0] == Table([WEBHOOK]) {
        OpenedIsTaken(r);
        TakenStays(s, items[1..]);
      } else if items[0].Assign? && r.at == [] && Mine(items[0].key) {
        AssignedIsTaken(r, items[0].key, items[0].value);
        TakenStays(s, items[1..]);
      } else if items[0].Table? {
        TidyWeakens(lines[1..], items[1..]);
      }
    }
  }

  /** What validate_answer asks of a document that defines the webhook table: that one of its
      lines is the header alone. */
  predicate ReplaceableWebhook<V>(lines: seq<string>, d: Data<V>) {
    (exists k :: (k in d.values.Keys + d.tables) && Mine(k)) ==> exists i :: 0 <= i < |lines| && WebhookHeader(lines[i])
  }

  /** Stripping a document that reads leaves one that reads as the original minus the webhook
      table - however its values look, when they sit on one line; when the document has no
      tables inside that one; and when it is one that validation lets in. */
  lemma StripRemovesTheTable<V>(lines: seq<string>, read: Reader<V>)
    requires ReadLines(lines, read).Some? && NoSubTables(ItemsOf(lines, read).value)
    requires ReplaceableWebhook(lines, ReadLines(lines, read).value)
    ensures ReadLines(Stripped(lines, false), read) == Some(Minus(ReadLines(lines, read).value))
  {
    hide ReadLine, WebhookHeader, AnyTable, ReadItems, Tidy;
    var items := ItemsOf(lines, read).value;
    ItemsAreLines(lines, read);
    var d := ReadLines(lines, read).value;
    if h :| 0 <= h < |lines| && WebhookHeader(lines[h]) {
      HeaderIsTable(lines[h], read);
      ReadsTidily(lines, items, Start());
      StartFollows<V>();
      StripFollows(lines, read, Start(), Start(), false);
    } else {
      NothingToStrip(lines);
      assert Minus(d).values == d.values;
      assert Minus(d).tables == d.tables;
    }
  }

  lemma StartFollows<V>()
    ensures Follows<V>(Start(), Start(), false)
  {
  }
}
