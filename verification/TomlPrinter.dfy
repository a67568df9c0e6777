/**
 The printer of the guided setup (pegaprox/api/auto_install.py, _toml_str and _emit_toml)
 and its inverse: what it writes reads back as what it was given.
 */
module TomlPrinter {
  import opened Wrappers
  import opened Toml

  /** A value of a section: itself, or one level of sub-table. */
  datatype Node = Leaf(value: Value) | Sub(entries: seq<(string, Value)>)

  /** Dicts, in the order they were filled in. */
  datatype Section = Section(name: string, entries: seq<(string, Node)>)

  function HexDigit(n: nat): char
    requires n < 16
  {
    if n < 10 then ('0' as int + n) as char else ('a' as int + n - 10) as char
  }

  /** How one character is written in a basic string. */
  function Escape(c: char): string {
    if c == '\\' then "\\\\"
    else if c == '\"' then "\\\""
    else if c == '\U{8}' then "\\b"
    else if c == '\t' then "\\t"
    else if c == '\n' then "\\n"
    else if c == '\U{c}' then "\\f"
    else if c == '\r' then "\\r"
    else if c < ' ' || c == '\U{7f}' then "\\u00" + [HexDigit(c as int / 16)] + [HexDigit(c as int % 16)]
    else [c]
  }

  function Escapes(s: string): string {
    if s == [] then [] else Escape(s[0]) + Escapes(s[1..])
  }

  /** A basic string. */
  function Quote(s: string): string {
    "\"" + Escapes(s) + "\""
  }

  function Quotes(items: seq<string>): string {
    if items == [] then []
    else if |items| == 1 then Quote(items[0])
    else Quote(items[0]) + ", " + Quotes(items[1..])
  }

  function Show(v: Value): string {
    match v
    case Str(s) => Quote(s)
    case List(items) => "[" + Quotes(items) + "]"
  }

  function SubLines(key: string, entries: seq<(string, Value)>): seq<string> {
    if entries == [] then []
    else [key + "." + entries[0].0 + " = " + Show(entries[0].1)] + SubLines(key, entries[1..])
  }

  function EntryLines(entries: seq<(string, Node)>): seq<string> {
    if entries == [] then []
    else
      (match entries[0].1
       case Leaf(v) => [entries[0].0 + " = " + Show(v)]
       case Sub(es) => SubLines(entries[0].0, es))
      + EntryLines(entries[1..])
  }

  function Lines(model: seq<Section>): seq<string> {
    if model == [] then []
    else ["[" + model[0].name + "]"] + EntryLines(model[0].entries) + [""] + Lines(model[1..])
  }

  function Emit(model: seq<Section>): string {
    Join(Lines(model))
  }

  // ----- what a model is -----

  predicate DistinctKeys<V>(entries: seq<(string, V)>) {
    forall i, j :: 0 <= i < j < |entries| ==> entries[i].0 != entries[j].0
  }

  /** Dicts have each key once; the keys here are bare. */
  predicate WellFormedEntries(entries: seq<(string, Node)>) {
    && DistinctKeys(entries)
    && (forall i :: 0 <= i < |entries| ==>
          Bare(entries[i].0)
          && (entries[i].1.Sub? ==>
                DistinctKeys(entries[i].1.entries)
                && forall j :: 0 <= j < |entries[i].1.entries| ==> Bare(entries[i].1.entries[j].0)))
  }

  predicate WellFormed(model: seq<Section>) {
    && (forall i, j :: 0 <= i < j < |model| ==> model[i].name != model[j].name)
    && (forall i :: 0 <= i < |model| ==> Bare(model[i].name) && WellFormedEntries(model[i].entries))
  }

  predicate NoEmptySub(model: seq<Section>) {
    forall i, j :: 0 <= i < |model| && 0 <= j < |model[i].entries| && model[i].entries[j].1.Sub? ==>
      model[i].entries[j].1.entries != []
  }

  /** values with those of the sub-table n.k put in. */
  function WithSub(values: map<Key, Value>, n: string, k: string, es: seq<(string, Value)>): map<Key, Value>
    decreases |es|
  {
    if es == [] then values else WithSub(values[[n, k, es[0].0] := es[0].1], n, k, es[1..])
  }

  function WithNode(values: map<Key, Value>, n: string, k: string, node: Node): map<Key, Value> {
    match node case Leaf(v) => values[[n, k] := v] case Sub(es) => WithSub(values, n, k, es)
  }

  function WithEntries(values: map<Key, Value>, n: string, entries: seq<(string, Node)>): map<Key, Value>
    decreases |entries|
  {
    if entries == [] then values else WithEntries(WithNode(values, n, entries[0].0, entries[0].1), n, entries[1..])
  }

  /** The sub-tables of a section; empty: the ones without a key too. */
  function SubTables(n: string, entries: seq<(string, Node)>, empty: bool): set<Key> {
    if entries == [] then {}
    else
      (if entries[0].1.Sub? && (empty || entries[0].1.entries != []) then {[n, entries[0].0]} else {})
      + SubTables(n, entries[1..], empty)
  }

  function DataFrom(d: Data<Value>, model: seq<Section>, empty: bool): Data<Value>
    decreases |model|
  {
    if model == [] then d
    else
      var s := model[0];
      DataFrom(Data(WithEntries(d.values, s.name, s.entries), d.tables + {[s.name]} + SubTables(s.name, s.entries, empty)),
               model[1..], empty)
  }

  /** The nested dicts of a model, by whole keys. */
  function AsData(model: seq<Section>): Data<Value> {
    DataFrom(Data(map[], {}), model, true)
  }

  // ----- strings read back -----

  lemma HexDigitReads(n: nat)
    requires n < 16
    ensures HexValue(HexDigit(n)) == Some(n)
  {
  }

  lemma HexReads(c: char, t: string)
    requires c < ' ' || c == '\U{7f}'
    ensures UnescapeHex("u00" + [HexDigit(c as int / 16)] + [HexDigit(c as int % 16)] + t, 4) == Some((c, 5))
  {
    var h, l := HexDigit(c as int / 16), HexDigit(c as int % 16);
    var s := "u00" + [h] + [l] + t;
    HexDigitReads(c as int / 16);
    HexDigitReads(c as int % 16);
    assert s[1..5] == ((([] + ['0']) + ['0']) + [h]) + [l];
    NoDigits();
    MoreDigits([], '0');
    MoreDigits([] + ['0'], '0');
    MoreDigits(([] + ['0']) + ['0'], h);
    MoreDigits((([] + ['0']) + ['0']) + [h], l);
    hide HexNumber, HexDigit;
    assert HexNumber(s[1..5]) == Some(c as int);
  }

  lemma NoDigits()
    ensures HexNumber([]) == Some(0) && HexValue('0') == Some(0)
  {
  }

  lemma MoreDigits(s: string, c: char)
    ensures HexNumber(s).Some? && HexValue(c).Some? ==> HexNumber(s + [c]) == Some(HexNumber(s).value * 16 + HexValue(c).value)
  {
    assert (s + [c])[..|s|] == s;
  }

  /** One written character reads back as itself, whatever follows. */
  lemma EscapeReads(c: char, t: string)
    ensures ReadString(Escape(c) + t) == Prepend(c, ReadString(t))
  {
    EscapeForms(c, t);
    hide Escape, Unescape, HexDigit, Control;
    var e := Escape(c);
    if |e| == 1 {
      PlainReads(c, t);
    } else if |e| == 2 {
      ShortReads(e[1], c, t);
      assert e == ['\\', e[1]];
    } else {
      LongReads(c, t);
    }
  }

  /** A character is written as itself, as a backslash and a letter, or by its number. */
  lemma EscapeForms(c: char, t: string)
    ensures var e := Escape(c);
            || (e == [c] && !Control(c) && c != '\"' && c != '\\')
            || (|e| == 2 && e[0] == '\\' && e[1] != 'u' && e[1] != 'U' && Unescape([e[1]] + t) == Some((c, 1)))
            || (|e| > 2 && e == "\\u00" + [HexDigit(c as int / 16)] + [HexDigit(c as int % 16)] && (c < ' ' || c == '\U{7f}'))
  {
    hide HexDigit, UnescapeHex;
    if |Escape(c)| == 2 {
      assert ([Escape(c)[1]] + t)[0] == Escape(c)[1];
    }
  }

  lemma PlainReads(c: char, t: string)
    requires !Control(c) && c != '\"' && c != '\\'
    ensures ReadString([c] + t) == Prepend(c, ReadString(t))
  {
    assert ([c] + t)[1..] == t;
  }

  lemma ShortReads(letter: char, c: char, t: string)
    requires letter != 'u' && letter != 'U' && Unescape([letter] + t) == Some((c, 1))
    ensures ReadString(['\\', letter] + t) == Prepend(c, ReadString(t))
  {
    hide Unescape;
    var s := ['\\', letter] + t;
    assert s[1..] == [letter] + t && s[2..] == t;
  }

  lemma LongReads(c: char, t: string)
    requires c < ' ' || c == '\U{7f}'
    ensures ReadString("\\u00" + [HexDigit(c as int / 16)] + [HexDigit(c as int % 16)] + t) == Prepend(c, ReadString(t))
  {
    HexReads(c, t);
    hide UnescapeHex, HexDigit;
    var u := "u00" + [HexDigit(c as int / 16)] + [HexDigit(c as int % 16)] + t;
    var s := "\\u00" + [HexDigit(c as int / 16)] + [HexDigit(c as int % 16)] + t;
    assert s[0] == '\\' && s[1..] == u && u[0] == 'u' && s[6..] == t;
    assert Unescape(u) == Some((c, 5));
  }

  /** Reading a written string followed by any text stops exactly at its closing quote and
      gives back the string: for every text of Unicode scalar values. */
  lemma {:induction false} StringReads(s: string, t: string)
    ensures ReadString(Escapes(s) + "\"" + t) == Some(Scanned(s, t))
  {
    hide Escape;
    if s == [] {
      assert Escapes(s) + "\"" + t == "\"" + t;
      assert ("\"" + t)[1..] == t;
    } else {
      var more := Escapes(s[1..]) + "\"" + t;
      assert Escapes(s) + "\"" + t == Escape(s[0]) + more;
      EscapeReads(s[0], more);
      StringReads(s[1..], t);
      assert [s[0]] + s[1..] == s;
    }
  }

  predicate OneLine(s: string) {
    forall i :: 0 <= i < |s| ==> s[i] != '\n' && s[i] != '\r'
  }

  lemma {:induction false} EscapesStayOnOneLine(s: string)
    ensures OneLine(Escapes(s))
  {
    if s != [] {
      EscapesStayOnOneLine(s[1..]);
      assert OneLine(Escape(s[0]));
    }
  }

  lemma QuoteReads(s: string, t: string)
    ensures Quote(s) + t != [] && (Quote(s) + t)[0] == '\"'
    ensures ReadString((Quote(s) + t)[1..]) == Some(Scanned(s, t))
    ensures OneLine(Quote(s))
  {
    assert (Quote(s) + t)[1..] == Escapes(s) + "\"" + t;
    StringReads(s, t);
    EscapesStayOnOneLine(s);
  }

  // ----- values read back -----

  lemma {:induction false} ListReads(items: seq<string>, t: string)
    ensures ReadList(Quotes(items) + "]" + t) == Some(ListRead(items, t))
    ensures OneLine(Quotes(items))
  {
    hide Quote, ReadString, ReadList;
    if items == [] {
      NoElement(t);
      assert "" + "]" + t == "]" + t;
    } else if |items| == 1 {
      QuoteReads(items[0], "]" + t);
      assert Quotes(items) + "]" + t == Quote(items[0]) + ("]" + t);
      assert ("]" + t)[1..] == t;
      assert items == [items[0]];
      OneElement(Quote(items[0]) + ("]" + t), items[0], "]" + t);
    } else {
      var more := Quotes(items[1..]) + "]" + t;
      assert Quotes(items) + "]" + t == Quote(items[0]) + (", " + more);
      QuoteReads(items[0], ", " + more);
      ListReads(items[1..], t);
      assert (", " + more)[1..] == " " + more;
      BlankIsSkipped(more);
      assert [items[0]] + items[1..] == items;
      OneElement(Quote(items[0]) + (", " + more), items[0], ", " + more);
    }
  }

  lemma NoElement(t: string)
    ensures ReadList("]" + t) == Some(ListRead([], t))
  {
    assert ("]" + t)[1..] == t;
  }

  /** An element, and what its array goes on with. */
  lemma OneElement(s: string, item: string, rest: string)
    requires s != [] && s[0] == '\"' && ReadString(s[1..]) == Some(Scanned(item, rest))
    requires rest != [] && (rest[0] == ']' || (rest[0] == ',' && ReadList(rest[1..]).Some?))
    ensures ReadList(s) == if rest[0] == ']' then Some(ListRead([item], rest[1..]))
                           else Some(ListRead([item] + ReadList(rest[1..]).value.items, ReadList(rest[1..]).value.rest))
  {
    hide ReadString;
    assert SkipBlanks(s) == s && SkipBlanks(rest) == rest;
  }

  /** A blank in front of an array element changes nothing. */
  lemma BlankIsSkipped(s: string)
    ensures ReadList(" " + s) == ReadList(s)
    ensures SkipBlanks(" " + s) == SkipBlanks(s)
  {
    assert (" " + s)[1..] == s;
  }

  lemma NoTriple(s: string)
    ensures !("\"\"\"" <= Quote(s))
  {
    var q := Quote(s);
    if s == [] {
      assert |q| == 2;
    } else {
      assert q[1] == Escape(s[0])[0];
    }
  }

  /** A printed value reads back. */
  lemma ValueReads(v: Value)
    ensures ReadValue(" " + Show(v)) == Some(v)
    ensures OneLine(Show(v))
  {
    hide Quote, Quotes, ReadString, ReadList;
    BlankIsSkipped(Show(v));
    match v {
      case Str(s) =>
        assert Quote(s) + [] == Quote(s);
        QuoteReads(s, []);
        NoTriple(s);
      case List(items) =>
        ListReads(items, []);
        assert Quotes(items) + "]" + [] == Quotes(items) + "]";
        assert Show(v)[1..] == Quotes(items) + "]";
    }
  }
}
