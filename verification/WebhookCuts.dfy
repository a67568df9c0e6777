/**
 Where the cut into lines breaks a printed answer file: str.splitlines cuts at three
 characters that TOML takes for text, and the printer writes those as they are.
 */
module WebhookCuts {
  import opened Wrappers
  import opened PythonText
  import opened Toml
  import opened TomlPrinter
  import opened TomlRoundTrip
  import opened Webhook
  import opened WebhookReads
  import opened WebhookText

  /** What str.splitlines cuts at and the printer does not escape. */
  predicate Separator(c: char) {
    c == '\U{85}' || c == '\U{2028}' || c == '\U{2029}'
  }

  predicate Unseparated(s: string) {
    forall i :: 0 <= i < |s| ==> !Separator(s[i])
  }

  // ----- the strings of a model -----

  predicate UnseparatedValue(v: Value) {
    match v
    case Str(s) => Unseparated(s)
    case List(items) => forall i :: 0 <= i < |items| ==> Unseparated(items[i])
  }

  predicate UnseparatedSub(es: seq<(string, Value)>) {
    forall i :: 0 <= i < |es| ==> UnseparatedValue(es[i].1)
  }

  predicate UnseparatedNode(node: Node) {
    match node
    case Leaf(v) => UnseparatedValue(v)
    case Sub(es) => UnseparatedSub(es)
  }

  predicate UnseparatedEntries(entries: seq<(string, Node)>) {
    forall i :: 0 <= i < |entries| ==> UnseparatedNode(entries[i].1)
  }

  /** No string of the model holds a separator. */
  predicate UnseparatedModel(model: seq<Section>) {
    forall i :: 0 <= i < |model| ==> UnseparatedEntries(model[i].entries)
  }

  // ----- up to the first cut -----

  /** s up to where str.splitlines cuts it first. */
  function BeforeCut(s: string): (r: string)
    ensures NoBoundary(r) && |r| <= |s| && r == s[..|r|]
    ensures |r| < |s| ==> Boundary(s[|r|])
  {
    if s == [] || Boundary(s[0]) then [] else [s[0]] + BeforeCut(s[1..])
  }

  lemma {:induction false} CutBehind(a: string, b: string)
    ensures BeforeCut(a + b) == if NoBoundary(a) then a + BeforeCut(b) else BeforeCut(a)
  {
    if a == [] {
      assert a + b == b;
    } else {
      assert (a + b)[1..] == a[1..] + b;
      CutBehind(a[1..], b);
      if !Boundary(a[0]) {
        assert [a[0]] + a[1..] == a;
        assert NoBoundary(a) <==> NoBoundary(a[1..]);
      }
    }
  }

  lemma BoundaryInParts(a: string, b: string)
    ensures NoBoundary(a + b) <==> NoBoundary(a) && NoBoundary(b)
  {
    assert forall i :: 0 <= i < |a| ==> (a + b)[i] == a[i];
    assert forall i :: 0 <= i < |b| ==> (a + b)[|a| + i] == b[i];
  }

  /** Of what the printer writes for a character only a separator is a cut. */
  lemma EscapeCuts(c: char)
    ensures NoBoundary(Escape(c)) <==> !Separator(c)
    ensures Separator(c) ==> Escape(c) == [c] && Boundary(c)
  {
    var e := Escape(c);
    if |e| > 2 {
      var h, l := HexDigit(c as int / 16), HexDigit(c as int % 16);
      DigitIsWhole(c as int / 16);
      DigitIsWhole(c as int % 16);
      assert e == "\\u00" + [h] + [l];
      BoundaryInParts("\\u00" + [h], [l]);
      BoundaryInParts("\\u00", [h]);
    } else if |e| == 2 {
      assert !Boundary(e[0]) && !Boundary(e[1]);
    } else {
      assert e[0] == c;
    }
  }

  lemma DigitIsWhole(n: nat)
    requires n < 16
    ensures NoBoundary([HexDigit(n)])
  {
  }

  lemma {:induction false} EscapesCut(s: string)
    ensures NoBoundary(Escapes(s)) <==> Unseparated(s)
  {
    hide Escape;
    if s != [] {
      EscapeCuts(s[0]);
      EscapesCut(s[1..]);
      BoundaryInParts(Escape(s[0]), Escapes(s[1..]));
      assert s == [s[0]] + s[1..];
    }
  }

  /** A string cut inside is not closed any more. */
  lemma {:induction false} CutStringIsOpen(s: string)
    requires !Unseparated(s)
    ensures ReadString(BeforeCut(Escapes(s))).None?
  {
    hide Escape, ReadString, BeforeCut;
    EscapeCuts(s[0]);
    CutBehind(Escape(s[0]), Escapes(s[1..]));
    if Separator(s[0]) {
      OpenAtOnce(s[0]);
    } else {
      assert s == [s[0]] + s[1..];
      CutStringIsOpen(s[1..]);
      EscapeReads(s[0], BeforeCut(Escapes(s[1..])));
    }
  }

  lemma OpenAtOnce(c: char)
    requires Boundary(c)
    ensures BeforeCut([c]) == [] && ReadString([]).None?
  {
  }

  /** The value w begins is not closed: a string or an array. */
  predicate Open(w: string) {
    && w != []
    && ((w[0] == '\"' && ReadString(w[1..]).None?) || (w[0] == '[' && ReadList(w[1..]).None?))
  }

  lemma OpenIsNoValue(w: string)
    requires Open(w)
    ensures ReadValue(" " + w).None?
  {
    hide ReadString, ReadList;
    assert (" " + w)[1..] == w;
    assert SkipBlanks(w) == w && SkipBlanks(" " + w) == w;
  }

  lemma QuoteCuts(s: string, t: string)
    ensures NoBoundary(Quote(s)) <==> Unseparated(s)
    ensures !Unseparated(s) ==>
              BeforeCut(Quote(s) + t) != [] && BeforeCut(Quote(s) + t)[0] == '\"' && ReadString(BeforeCut(Quote(s) + t)[1..]).None?
  {
    hide ReadString, Escapes;
    EscapesCut(s);
    BoundaryInParts("\"", Escapes(s));
    BoundaryInParts("\"" + Escapes(s), "\"");
    if !Unseparated(s) {
      CutStringIsOpen(s);
      CutBehind(Quote(s), t);
      CutBehind("\"" + Escapes(s), "\"");
      CutBehind("\"", Escapes(s));
      assert BeforeCut(Quote(s) + t) == "\"" + BeforeCut(Escapes(s));
    }
  }

  lemma {:induction false} QuotesCut(items: seq<string>)
    ensures NoBoundary(Quotes(items)) <==> forall i :: 0 <= i < |items| ==> Unseparated(items[i])
    ensures !NoBoundary(Quotes(items)) ==> ReadList(BeforeCut(Quotes(items))).None?
  {
    hide Quote, ReadString, ReadList, BeforeCut, NoBoundary, Unseparated;
    if items == [] {
      EmptyIsPrinted();
    } else if |items| == 1 {
      QuoteCuts(items[0], []);
      assert Quote(items[0]) + [] == Quote(items[0]);
      if !Unseparated(items[0]) {
        OpenElement(BeforeCut(Quote(items[0])));
      }
    } else {
      var rest := ", " + Quotes(items[1..]);
      assert Quotes(items) == Quote(items[0]) + rest;
      QuoteCuts(items[0], rest);
      QuotesCut(items[1..]);
      CommaIsWhole();
      BoundaryInParts(Quote(items[0]), rest);
      BoundaryInParts(", ", Quotes(items[1..]));
      assert items == [items[0]] + items[1..];
      if !Unseparated(items[0]) {
        OpenElement(BeforeCut(Quotes(items)));
      } else if !NoBoundary(Quotes(items)) {
        CutBehind(Quote(items[0]), rest);
        CutBehind(", ", Quotes(items[1..]));
        var more := BeforeCut(Quotes(items[1..]));
        assert BeforeCut(Quotes(items)) == Quote(items[0]) + (", " + more);
        QuoteReads(items[0], ", " + more);
        assert (", " + more)[1..] == " " + more;
        BlankIsSkipped(more);
        OpenBehind(Quote(items[0]) + (", " + more), items[0], ", " + more);
      }
    }
  }

  lemma CommaIsWhole()
    ensures NoBoundary(", ")
  {
  }

  lemma OpenElement(s: string)
    requires s != [] && s[0] == '\"' && ReadString(s[1..]).None?
    ensures ReadList(s).None?
  {
    hide ReadString;
    assert SkipBlanks(s) == s;
  }

  lemma OpenBehind(s: string, item: string, rest: string)
    requires s != [] && s[0] == '\"' && ReadString(s[1..]) == Some(Scanned(item, rest))
    requires rest != [] && rest[0] == ',' && ReadList(rest[1..]).None?
    ensures ReadList(s).None?
  {
    hide ReadString;
    assert SkipBlanks(s) == s && SkipBlanks(rest) == rest;
  }

  /** A printed value is cut exactly where a string of it holds a separator, and then it is open. */
  lemma ValueCuts(v: Value)
    ensures NoBoundary(Show(v)) <==> UnseparatedValue(v)
    ensures !UnseparatedValue(v) ==> Open(BeforeCut(Show(v)))
  {
    hide Quote, Quotes, ReadString, ReadList, BeforeCut, NoBoundary, Unseparated;
    match v {
      case Str(s) =>
        QuoteCuts(s, []);
        assert Quote(s) + [] == Quote(s);
      case List(items) =>
        QuotesCut(items);
        BracketsAreWhole();
        BoundaryInParts("[" + Quotes(items), "]");
        BoundaryInParts("[", Quotes(items));
        CutBehind("[" + Quotes(items), "]");
        CutBehind("[", Quotes(items));
        assert !UnseparatedValue(v) ==> BeforeCut(Show(v)) == "[" + BeforeCut(Quotes(items));
    }
  }

  lemma BracketsAreWhole()
    ensures NoBoundary("[") && NoBoundary("]")
  {
  }

  // ----- printed lines -----

  /** What a printed line has in front of its value. */
  predicate Left(pre: string, key: Key) {
    || (|key| == 1 && Bare(key[0]) && pre == key[0] + " = ")
    || (|key| == 2 && Bare(key[0]) && Bare(key[1]) && pre == key[0] + "." + key[1] + " = ")
  }

  /** A line with a key and a value that is not closed. */
  ghost predicate OpenLine(line: string) {
    exists pre, key, w :: Left(pre, key) && Open(w) && line == pre + w
  }

  lemma {:induction false} BareIsWhole(k: string)
    requires Bare(k)
    ensures NoBoundary(k)
  {
    assert forall i :: 0 <= i < |k| ==> BareChar(k[i]);
  }

  lemma LeftIsWhole(pre: string, key: Key)
    requires Left(pre, key)
    ensures NoBoundary(pre) && pre != [] && BareChar(pre[0])
  {
    var k := key[0];
    assert k != [] && BareChar(k[0]);
    hide Bare;
    BareIsWhole(k);
    assert NoBoundary(" = ") && NoBoundary(".");
    if |key| == 2 {
      BareIsWhole(key[1]);
      BoundaryInParts(k, ".");
      BoundaryInParts(k + ".", key[1]);
      BoundaryInParts(k + "." + key[1], " = ");
      assert pre[0] == k[0];
    } else {
      BoundaryInParts(k, " = ");
      assert pre[0] == k[0];
    }
  }

  lemma KeyIsNoHeader(line: string)
    requires line != [] && BareChar(line[0])
    ensures !WebhookHeader(line) && !AnyTable(line)
  {
    assert TrimLeft(line) == line;
  }

  lemma OpenLineReads(line: string)
    requires OpenLine(line)
    ensures ReadLine(line, ReadValue).None? && !WebhookHeader(line) && line != []
  {
    hide ReadKey, ReadValue, Open, Ends, Bare;
    var pre, key, w :| Left(pre, key) && Open(w) && line == pre + w;
    LeftIsWhole(pre, key);
    KeyIsNoHeader(line);
    OpenIsNoValue(w);
    var t := "= " + w;
    assert t[1..] == " " + w;
    var k := key[0];
    if |key| == 1 {
      assert line == k + " " + t;
      LineOfKey(line, k, " " + t);
      KeyReads(k, t);
    } else {
      assert line == k + "." + key[1] + " " + t;
      assert line == k + ("." + key[1] + " " + t);
      LineOfKey(line, k, "." + key[1] + " " + t);
      DottedKeyReads(k, key[1], t);
    }
  }

  /** A line of a printed model: no webhook header, and open where it is cut. */
  ghost predicate Printed(line: string) {
    !WebhookHeader(line) && (NoBoundary(line) || OpenLine(BeforeCut(line)))
  }

  lemma ValueLineCuts(pre: string, key: Key, v: Value)
    requires Left(pre, key)
    ensures Printed(pre + Show(v))
    ensures NoBoundary(pre + Show(v)) <==> UnseparatedValue(v)
  {
    hide Left, Open, Show, BeforeCut, UnseparatedValue, WebhookHeader;
    LeftIsWhole(pre, key);
    KeyIsNoHeader(pre + Show(v));
    ValueCuts(v);
    BoundaryInParts(pre, Show(v));
    CutBehind(pre, Show(v));
  }

  lemma SubSeparates(es: seq<(string, Value)>)
    ensures UnseparatedSub(es) <==> es == [] || (UnseparatedValue(es[0].1) && UnseparatedSub(es[1..]))
  {
    hide UnseparatedValue;
    if es != [] {
      assert es == [es[0]] + es[1..];
    }
  }

  lemma EntriesSeparate(entries: seq<(string, Node)>)
    ensures UnseparatedEntries(entries) <==>
            entries == [] || (UnseparatedNode(entries[0].1) && UnseparatedEntries(entries[1..]))
  {
    hide UnseparatedNode;
    if entries != [] {
      assert entries == [entries[0]] + entries[1..];
    }
  }

  lemma NoLineIsWhole()
    ensures WholeLines([])
  {
  }

  lemma {:induction false} SubLinesCut(k: string, es: seq<(string, Value)>)
    requires Bare(k) && forall j :: 0 <= j < |es| ==> Bare(es[j].0)
    ensures forall i :: 0 <= i < |SubLines(k, es)| ==> Printed(SubLines(k, es)[i])
    ensures WholeLines(SubLines(k, es)) <==> UnseparatedSub(es)
  {
    hide Show, NoBoundary, UnseparatedValue, Printed, UnseparatedSub, WholeLines;
    SubSeparates(es);
    NoLineIsWhole();
    if es != [] {
      SubLinesCut(k, es[1..]);
      var key := [k, es[0].0];
      var pre := k + "." + es[0].0 + " = ";
      assert Left(pre, key);
      ValueLineCuts(pre, key, es[0].1);
      OneWhole(pre + Show(es[0].1));
      WholeInParts([pre + Show(es[0].1)], SubLines(k, es[1..]));
    }
  }

  lemma OneWhole(line: string)
    ensures WholeLines([line]) <==> NoBoundary(line)
  {
    hide NoBoundary;
    assert [line][0] == line;
  }

  lemma WholeInParts(a: seq<string>, b: seq<string>)
    ensures WholeLines(a + b) <==> WholeLines(a) && WholeLines(b)
  {
    hide NoBoundary;
    assert forall i :: 0 <= i < |a| ==> (a + b)[i] == a[i];
    assert forall i :: 0 <= i < |b| ==> (a + b)[|a| + i] == b[i];
  }

  lemma {:induction false} EntryLinesCut(entries: seq<(string, Node)>)
    requires WellFormedEntries(entries)
    ensures forall i :: 0 <= i < |EntryLines(entries)| ==> Printed(EntryLines(entries)[i])
    ensures WholeLines(EntryLines(entries)) <==> UnseparatedEntries(entries)
  {
    hide Show, NoBoundary, UnseparatedValue, UnseparatedSub, Printed, SubLines, WellFormedEntries, Bare, WholeLines, UnseparatedEntries;
    EntriesSeparate(entries);
    NoLineIsWhole();
    if entries != [] {
      FirstWellFormed(entries);
      EntryLinesCut(entries[1..]);
      var k := entries[0].0;
      var own: seq<string>;
      match entries[0].1 {
        case Leaf(v) =>
          own := [k + " = " + Show(v)];
          assert Left(k + " = ", [k]);
          ValueLineCuts(k + " = ", [k], v);
          OneWhole(k + " = " + Show(v));
        case Sub(es) =>
          own := SubLines(k, es);
          SubLinesCut(k, es);
      }
      assert EntryLines(entries) == own + EntryLines(entries[1..]);
      WholeInParts(own, EntryLines(entries[1..]));
    }
  }

  lemma OtherHeader(name: string)
    requires Bare(name) && name != WEBHOOK
    ensures Printed("[" + name + "]") && NoBoundary("[" + name + "]")
  {
    var line := "[" + name + "]";
    BareIsWhole(name);
    BracketsAreWhole();
    BoundaryInParts("[", name);
    BoundaryInParts("[" + name, "]");
    OtherHeaderIsNone(name);
    hide WebhookHeader, NoBoundary, Bare;
  }

  lemma OtherHeaderIsNone(name: string)
    requires Bare(name) && name != WEBHOOK
    ensures !WebhookHeader("[" + name + "]")
  {
    hide *;
    HeaderLineReads(name, ReadValue);
    if WebhookHeader("[" + name + "]") {
      HeaderIsTable("[" + name + "]", ReadValue);
      assert false;
    }
  }

  lemma EmptyIsPrinted()
    ensures Printed("") && NoBoundary("")
  {
  }

  predicate NoWebhook(model: seq<Section>) {
    forall i :: 0 <= i < |model| ==> model[i].name != WEBHOOK
  }

  /** A printed file is cut inside a line exactly where a string holds a separator. */
  lemma {:induction false} LinesCut(model: seq<Section>)
    requires WellFormed(model) && NoWebhook(model)
    ensures forall i :: 0 <= i < |Lines(model)| ==> Printed(Lines(model)[i])
    ensures WholeLines(Lines(model)) <==> UnseparatedModel(model)
  {
    hide EntryLines, Printed, NoBoundary, WellFormedEntries, UnseparatedEntries, Bare;
    if model != [] {
      assert forall i :: 0 <= i < |model[1..]| ==> model[1..][i] == model[i + 1];
      LinesCut(model[1..]);
      var s := model[0];
      var header, own := ["[" + s.name + "]"], EntryLines(s.entries);
      OtherHeader(s.name);
      EntryLinesCut(s.entries);
      EmptyIsPrinted();
      WholeInParts(header, own);
      WholeInParts(header + own, [""]);
      WholeInParts(header + own + [""], Lines(model[1..]));
      assert model == [s] + model[1..];
    }
  }

  // ----- the stripped text -----

  /** Up to the first line with a cut the lines are those that were joined. */
  lemma {:induction false} SplitUpTo(lines: seq<string>, i: nat) returns (rest: seq<string>)
    requires i < |lines| && WholeLines(lines[..i]) && !NoBoundary(lines[i]) && OneLine(lines[i])
    ensures SplitLines(Join(lines)) == lines[..i] + [BeforeCut(lines[i])] + rest
  {
    hide SplitLines, NoBoundary;
    if i == 0 {
      var a := BeforeCut(lines[0]);
      assert lines[0][..|lines[0]|] == lines[0];
      assert |a| < |lines[0]|;
      var c := lines[0][|a|];
      var more := lines[0][|a| + 1..] + Join(lines)[|lines[0]|..];
      assert lines[0] == a + [c] + lines[0][|a| + 1..];
      JoinBegins(lines);
      assert Join(lines) == a + [c] + more;
      SplitFirst(a, c, more);
      rest := SplitLines(more);
      assert lines[..0] + [a] + rest == [a] + rest;
    } else {
      assert lines[1..][..i - 1] == lines[..i][1..];
      assert lines[0] == lines[..i][0];
      rest := SplitUpTo(lines[1..], i - 1);
      SplitFirst(lines[0], '\n', Join(lines[1..]));
      assert lines[0] + "\n" + Join(lines[1..]) == lines[0] + ['\n'] + Join(lines[1..]);
      assert [lines[0]] + lines[1..][..i - 1] == lines[..i];
      var cut := [BeforeCut(lines[i])];
      assert [lines[0]] + (lines[1..][..i - 1] + cut + rest) == ([lines[0]] + lines[1..][..i - 1]) + cut + rest;
    }
  }

  lemma JoinBegins(lines: seq<string>)
    requires lines != []
    ensures lines[0] <= Join(lines)
  {
  }

  lemma {:induction false} StripBehind(front: seq<string>, rest: seq<string>)
    requires forall i :: 0 <= i < |front| ==> !WebhookHeader(front[i])
    ensures Stripped(front + rest, false) == front + Stripped(rest, false)
  {
    hide WebhookHeader, AnyTable;
    if front == [] {
      assert front + rest == rest;
    } else {
      assert (front + rest)[1..] == front[1..] + rest;
      StripBehind(front[1..], rest);
      assert [front[0]] + (front[1..] + Stripped(rest, false)) == front + Stripped(rest, false);
    }
  }

  lemma LastLineIsEmpty(model: seq<Section>)
    requires model != []
    ensures Lines(model) != [] && Lines(model)[|Lines(model)| - 1] == ""
  {
    hide EntryLines;
    if |model| > 1 {
      LastLineIsEmpty(model[1..]);
    }
  }

  /** Without a separator stripping a printed file takes its last, empty line away. */
  lemma UnseparatedStrips(model: seq<Section>)
    requires WellFormed(model) && NoWebhook(model) && UnseparatedModel(model) && model != []
    ensures var n := |Lines(model)| - 1;
            n >= 0 && Lines(model) == Lines(model)[..n] + [""]
            && Stripped(SplitLines(Emit(model)), false) == Lines(model)[..n]
  {
    hide SplitLines, WebhookHeader, Lines, NoBoundary, WellFormed, UnseparatedModel, OpenLine;
    LinesCut(model);
    LastLineIsEmpty(model);
    var lines := Lines(model);
    SplitJoined(lines);
    assert forall i :: 0 <= i < |lines[..|lines| - 1]| ==> Printed(lines[i]);
    NothingToStrip(lines[..|lines| - 1]);
  }

  /** With one an open line is left in it. */
  lemma SeparatedStrips(model: seq<Section>) returns (i: nat)
    requires WellFormed(model) && NoWebhook(model) && !UnseparatedModel(model)
    ensures var out := Stripped(SplitLines(Emit(model)), false); i < |out| && OpenLine(out[i])
  {
    hide SplitLines, WebhookHeader, Lines, NoBoundary, WellFormed, UnseparatedModel, OpenLine, Stripped;
    LinesCut(model);
    LinesRead(model);
    var lines := Lines(model);
    i := FirstCut(lines);
    assert Printed(lines[i]);
    var rest := SplitUpTo(lines, i);
    var front := lines[..i] + [BeforeCut(lines[i])];
    forall j | 0 <= j < |front| ensures !WebhookHeader(front[j]) {
      if j < i {
        assert front[j] == lines[j] && Printed(lines[j]);
      } else {
        OpenLineReads(front[j]);
      }
    }
    StripBehind(front, rest);
    var out := Stripped(SplitLines(Emit(model)), false);
    assert out == front + Stripped(rest, false);
    assert out[i] == BeforeCut(lines[i]);
  }

  lemma {:induction false} FirstCut(lines: seq<string>) returns (i: nat)
    requires !WholeLines(lines)
    ensures i < |lines| && !NoBoundary(lines[i]) && WholeLines(lines[..i])
  {
    hide NoBoundary;
    if !NoBoundary(lines[0]) {
      i := 0;
    } else {
      assert lines == [lines[0]] + lines[1..];
      i := FirstCut(lines[1..]);
      assert lines[..i + 1] == [lines[0]] + lines[1..][..i];
      i := i + 1;
    }
  }

  lemma UnreadLine<V>(lines: seq<string>, i: nat, read: Reader<V>)
    requires i < |lines| && ReadLine(lines[i], read).None?
    ensures ItemsOf(lines, read).None?
  {
    hide ReadLine;
    if ItemsOf(lines, read).Some? {
      ItemsAreLines(lines, read);
      assert false;
    }
  }

  lemma NothingStrips()
    ensures StripText(Emit([])) == Emit([])
  {
  }

  /** Stripping a printed file leaves what it says exactly when no string of it holds a
      separator; with one it is no TOML any more. */
  lemma StrippedReadsIff(model: seq<Section>)
    requires WellFormed(model) && NoWebhook(model)
    ensures ReadText(StripText(Emit(model)), ReadValue) == ReadText(Emit(model), ReadValue) <==> UnseparatedModel(model)
    ensures ReadText(StripText(Emit(model)), ReadValue).Some? <==> UnseparatedModel(model)
  {
    hide SplitLines, WebhookHeader, ReadLine, ReadItems, Stripped, WellFormed, OpenLine, UnseparatedModel;
    var lines := Lines(model);
    var out := Stripped(SplitLines(Emit(model)), false);
    PrinterAndReaderAgree(model);
    if UnseparatedModel(model) {
      if model == [] {
        NothingStrips();
      } else {
        UnseparatedStrips(model);
        LinesRead(model);
        assert OneLiners(out);
        JoinedReads(lines, ReadValue);
        JoinedReads(out, ReadValue);
        BlankEnd(out, ReadValue);
      }
    } else {
      var i := SeparatedStrips(model);
      OpenLineReads(out[i]);
      UnreadLine(out, i, ReadValue);
      SplitsWhole(Emit(model));
      StripKeepsWhole(SplitLines(Emit(model)), false);
      assert OneLiners(out);
      JoinedReads(out, ReadValue);
    }
  }

  // ----- separators in the text itself -----

  /** s is cut at separators only. */
  predicate CutAtSeparators(s: string) {
    forall i :: 0 <= i < |s| && Boundary(s[i]) ==> Separator(s[i])
  }

  lemma CutsInParts(a: string, b: string)
    ensures CutAtSeparators(a) && CutAtSeparators(b) ==> CutAtSeparators(a + b)
    ensures NoBoundary(a) ==> CutAtSeparators(a)
  {
  }

  lemma {:induction false} EscapesAreCutAt(s: string)
    ensures CutAtSeparators(Escapes(s))
  {
    hide Escape;
    if s != [] {
      EscapeCuts(s[0]);
      EscapesAreCutAt(s[1..]);
      CutsInParts(Escape(s[0]), Escapes(s[1..]));
    }
  }

  lemma QuoteIsCutAt(s: string)
    ensures CutAtSeparators(Quote(s))
  {
    hide Escapes;
    EscapesAreCutAt(s);
    CutsInParts("\"", Escapes(s));
    CutsInParts("\"" + Escapes(s), "\"");
  }

  lemma {:induction false} QuotesAreCutAt(items: seq<string>)
    ensures CutAtSeparators(Quotes(items))
  {
    hide Quote;
    if items != [] {
      QuoteIsCutAt(items[0]);
      QuotesAreCutAt(items[1..]);
      CommaIsWhole();
      CutsInParts(Quote(items[0]), ", ");
      CutsInParts(", ", []);
      CutsInParts(Quote(items[0]) + ", ", Quotes(items[1..]));
    }
  }

  lemma LineIsCutAt(pre: string, v: Value)
    requires NoBoundary(pre)
    ensures CutAtSeparators(pre + Show(v))
  {
    hide Quote, Quotes, CutAtSeparators;
    CutsInParts(pre, Show(v));
    match v {
      case Str(s) => QuoteIsCutAt(s);
      case List(items) =>
        QuotesAreCutAt(items);
        BracketsAreWhole();
        CutsInParts("]", "[");
        CutsInParts("[", Quotes(items));
        CutsInParts("[" + Quotes(items), "]");
    }
  }

  predicate LinesCutAt(lines: seq<string>) {
    forall i :: 0 <= i < |lines| ==> CutAtSeparators(lines[i])
  }

  lemma {:induction false} SubLinesAreCutAt(k: string, es: seq<(string, Value)>)
    requires Bare(k) && forall j :: 0 <= j < |es| ==> Bare(es[j].0)
    ensures LinesCutAt(SubLines(k, es))
  {
    hide Show, CutAtSeparators;
    if es != [] {
      SubLinesAreCutAt(k, es[1..]);
      var pre := k + "." + es[0].0 + " = ";
      assert Left(pre, [k, es[0].0]);
      LeftIsWhole(pre, [k, es[0].0]);
      LineIsCutAt(pre, es[0].1);
    }
  }

  lemma {:induction false} EntryLinesAreCutAt(entries: seq<(string, Node)>)
    requires WellFormedEntries(entries)
    ensures LinesCutAt(EntryLines(entries))
  {
    hide Show, CutAtSeparators, SubLines, WellFormedEntries, Bare;
    if entries != [] {
      FirstWellFormed(entries);
      EntryLinesAreCutAt(entries[1..]);
      var k := entries[0].0;
      match entries[0].1 {
        case Leaf(v) =>
          assert Left(k + " = ", [k]);
          LeftIsWhole(k + " = ", [k]);
          LineIsCutAt(k + " = ", v);
        case Sub(es) => SubLinesAreCutAt(k, es);
      }
    }
  }

  lemma {:induction false} LinesAreCutAt(model: seq<Section>)
    requires WellFormed(model) && NoWebhook(model)
    ensures LinesCutAt(Lines(model))
  {
    hide EntryLines, CutAtSeparators, WellFormedEntries, Bare, Printed;
    if model != [] {
      assert forall i :: 0 <= i < |model[1..]| ==> model[1..][i] == model[i + 1];
      LinesAreCutAt(model[1..]);
      var header := "[" + model[0].name + "]";
      OtherHeader(model[0].name);
      EntryLinesAreCutAt(model[0].entries);
      EmptyIsPrinted();
      CutsInParts(header, []);
      CutsInParts("", []);
    }
  }

  lemma {:induction false} JoinSeparates(lines: seq<string>)
    ensures Unseparated(Join(lines)) <==> forall i :: 0 <= i < |lines| ==> Unseparated(lines[i])
  {
    if |lines| > 1 {
      JoinSeparates(lines[1..]);
      assert lines == [lines[0]] + lines[1..];
      SeparatedInParts(lines[0], "\n");
      SeparatedInParts(lines[0] + "\n", Join(lines[1..]));
    }
  }

  lemma SeparatedInParts(a: string, b: string)
    ensures Unseparated(a + b) <==> Unseparated(a) && Unseparated(b)
    ensures Unseparated("\n")
  {
    assert forall i :: 0 <= i < |a| ==> (a + b)[i] == a[i];
    assert forall i :: 0 <= i < |b| ==> (a + b)[|a| + i] == b[i];
  }

  /** The printed file holds a separator exactly when a string of the model does. */
  lemma SeparatorsShow(model: seq<Section>)
    requires WellFormed(model) && NoWebhook(model)
    ensures Unseparated(Emit(model)) <==> UnseparatedModel(model)
  {
    hide Lines, WellFormed, Printed, UnseparatedModel;
    LinesCut(model);
    LinesAreCutAt(model);
    var lines := Lines(model);
    JoinSeparates(lines);
    forall i | 0 <= i < |lines| ensures Unseparated(lines[i]) <==> NoBoundary(lines[i]) {
      assert CutAtSeparators(lines[i]);
    }
  }
}
