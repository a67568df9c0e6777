/**
 What render_answer makes of a printed answer file: when it reads, it is the file with the
 webhook table behind it.
 */
module RenderedModel {
  import opened Wrappers
  import opened PythonText
  import opened Toml
  import opened TomlPrinter
  import opened TomlRoundTrip
  import opened Webhook
  import opened WebhookReads
  import opened WebhookText
  import opened WebhookCuts
  import Render = WebhookRender

  // ----- an open line stays open -----

  lemma TrimmedPart(w: string) returns (gone: string)
    requires w != [] && !Space(w[0])
    ensures TrimRight(w) != [] && TrimRight(w)[0] == w[0]
    ensures w == TrimRight(w) + gone
  {
    var v := TrimRight(w);
    gone := w[|v|..];
    if v == [] {
      Render.AllSpace(w);
    }
    Render.TrimIsPrefix(w);
  }

  lemma StringGoesOn(s: string, t: string)
    ensures ReadString(s).Some? ==> ReadString(s + t).Some?
  {
    hide ReadString;
    if ReadString(s).Some? {
      var rest := ReadString(s).value.rest;
      Render.StringStops(s, rest + t);
      assert Render.Front(s, rest) + (rest + t) == s + t;
    }
  }

  lemma ListGoesOn(s: string, t: string)
    ensures ReadList(s).Some? ==> ReadList(s + t).Some?
  {
    hide ReadList;
    if ReadList(s).Some? {
      var rest := ReadList(s).value.rest;
      Render.ListStops(s, rest + t);
      assert Render.Front(s, rest) + (rest + t) == s + t;
    }
  }

  lemma OpenTrimmed(w: string)
    requires Open(w)
    ensures TrimRight(w) != [] && Open(TrimRight(w))
  {
    hide ReadString, ReadList;
    var gone := TrimmedPart(w);
    var v := TrimRight(w);
    assert w[1..] == v[1..] + gone;
    StringGoesOn(v[1..], gone);
    ListGoesOn(v[1..], gone);
  }

  lemma OpenLineTrimmed(line: string)
    requires OpenLine(line)
    ensures TrimRight(line) != [] && OpenLine(TrimRight(line))
  {
    hide Left, Open;
    var pre, key, w :| Left(pre, key) && Open(w) && line == pre + w;
    OpenTrimmed(w);
    Render.TrimKept(pre, w);
  }

  lemma {:induction false} TrimKeepsOpen(lines: seq<string>, i: nat)
    requires i < |lines| && OpenLine(lines[i])
    ensures i < |Render.TrimLines(lines)| && OpenLine(Render.TrimLines(lines)[i])
    decreases |lines|
  {
    hide OpenLine;
    var n := |lines| - 1;
    if i < n {
      if TrimRight(lines[n]) == [] {
        TrimKeepsOpen(lines[..n], i);
      }
    } else {
      OpenLineTrimmed(lines[n]);
    }
  }

  // ----- the first lines of a text -----

  lemma {:induction false} NewlinesBehind(s: string, t: string)
    requires forall i :: 0 <= i < |s| ==> s[i] != '\r'
    ensures Newlines(s + t) == s + Newlines(t)
  {
    if s == [] {
      assert s + t == t;
    } else {
      assert (s + t)[1..] == s[1..] + t;
      NewlinesBehind(s[1..], t);
      assert [s[0]] + (s[1..] + Newlines(t)) == s + Newlines(t);
    }
  }

  lemma OneLineBehind(line: string, t: string)
    requires OneLine(line)
    ensures LinesOf(line + "\n" + t) == [line] + LinesOf(t)
  {
    hide LinesOf;
    LinesAfterBreak(t, '\n');
    assert ['\n'] + t == "\n" + t;
    LineStays(line, "\n" + t);
    assert line + ("\n" + t) == line + "\n" + t;
    assert line + [] == line;
    assert ([[]] + LinesOf(t))[1..] == LinesOf(t);
  }

  lemma {:induction false} LinesBehind(lines: seq<string>, t: string)
    requires OneLiners(lines) && lines != []
    ensures LinesOf(Join(lines) + "\n" + t) == lines + LinesOf(t)
  {
    hide LinesOf, OneLine;
    if |lines| == 1 {
      OneLineBehind(lines[0], t);
    } else {
      var more := Join(lines[1..]) + "\n" + t;
      LinesBehind(lines[1..], t);
      OneLineBehind(lines[0], more);
      ThreeBehind(lines[0], Join(lines[1..]), t);
      assert [lines[0]] + (lines[1..] + LinesOf(t)) == lines + LinesOf(t);
    }
  }

  lemma ThreeBehind(a: string, b: string, c: string)
    ensures a + "\n" + (b + "\n" + c) == (a + "\n" + b) + "\n" + c
  {
  }

  lemma TextBehind(lines: seq<string>, t: string)
    requires OneLiners(lines) && lines != []
    ensures LinesOf(Newlines(Join(lines) + "\n" + t)) == lines + LinesOf(Newlines(t))
  {
    JoinHasNoReturns(lines);
    NewlinesBehind(Join(lines) + "\n", t);
    LinesBehind(lines, Newlines(t));
  }

  /** A text does not read with a line that does not. */
  lemma BadLineUnread(lines: seq<string>, i: nat)
    requires i < |lines| && ReadLine(lines[i], ReadValue).None?
    ensures ReadLines(lines, ReadValue).None?
  {
    UnreadLine(lines, i, ReadValue);
  }

  lemma OpenTextUnread(lines: seq<string>, i: nat, t: string)
    requires OneLiners(lines) && i < |lines| && OpenLine(lines[i])
    ensures ReadText(Join(lines) + "\n" + t, ReadValue).None?
  {
    hide ReadLine, OpenLine;
    TextBehind(lines, t);
    OpenLineReads(lines[i]);
    BadLineUnread(lines + LinesOf(Newlines(t)), i);
  }

  // ----- with a separator in a string -----

  lemma JoinBehind(line: string, lines: seq<string>)
    requires lines != []
    ensures Join([line] + lines) == line + "\n" + Join(lines)
  {
    assert ([line] + lines)[1..] == lines;
  }

  lemma JoinAlone(line: string)
    ensures Join([line]) == line
  {
  }

  /** The rendered text is a body of lines and what is written behind it. */
  lemma RenderedIs(answer: string, url: string, fp: string) returns (body: seq<string>, t: string)
    ensures body == Render.TrimLines(Stripped(SplitLines(answer), false)) && OneLiners(body)
    ensures Render.Rendered(answer, url, fp) == Join(body) + "\n" + t
    ensures t == if url == [] then "" else Join(Render.Section(url, fp)) + "\n"
  {
    hide SplitLines, Stripped, Join;
    var out := Stripped(SplitLines(answer), false);
    SplitsWhole(answer);
    StripKeepsWhole(SplitLines(answer), false);
    Render.TrimmedJoin(out);
    Render.TrimLinesStayWhole(out);
    body := Render.TrimLines(out);
    var section := Render.Section(url, fp);
    t := if url == [] then "" else Join(section) + "\n";
    if url != [] {
      var front := Join(body);
      JoinBehind(front, section);
      assert front + "\n" + Join(section) + "\n" == front + "\n" + (Join(section) + "\n");
    } else {
      assert Join(body) + "\n" + "" == Join(body) + "\n";
    }
  }

  lemma SeparatedRendersUnread(model: seq<Section>, url: string, fp: string)
    requires WellFormed(model) && NoWebhook(model) && !UnseparatedModel(model)
    ensures ReadText(Render.Rendered(Emit(model), url, fp), ReadValue).None?
  {
    hide SplitLines, Stripped, WellFormed, UnseparatedModel, OpenLine, Render.Rendered;
    var i := SeparatedStrips(model);
    var body, t := RenderedIs(Emit(model), url, fp);
    TrimKeepsOpen(Stripped(SplitLines(Emit(model)), false), i);
    OpenTextUnread(body, i, t);
  }

  // ----- without one -----

  /** The webhook table as a section of a model. */
  function WebhookSection(url: string, fp: string): Section {
    Section(WEBHOOK, [("url", Leaf(Str(url)))] + if fp == [] then [] else [("cert-fingerprint", Leaf(Str(fp)))])
  }

  /** The model with that section, when there is an address. */
  function Called(model: seq<Section>, url: string, fp: string): seq<Section> {
    if url == [] then model else model + [WebhookSection(url, fp)]
  }

  lemma CalledIs(model: seq<Section>, url: string, fp: string)
    ensures Called(model, url, fp) == if url == [] then model else model + [WebhookSection(url, fp)]
  {
  }

  lemma TableLinesAre(url: string, fp: string)
    ensures Render.Section(url, fp) != []
    ensures Render.Section(url, fp)[1..]
         == ["[" + WEBHOOK + "]"] + ([Render.UrlLine(url)] + if fp == [] then [] else [Render.FingerprintLine(fp)])
  {
    hide Render.UrlLine, Render.FingerprintLine;
  }

  lemma OneLinersInParts(a: seq<string>, b: seq<string>)
    requires OneLiners(a) && OneLiners(b)
    ensures OneLiners(a + b)
  {
    hide OneLine;
  }

  lemma EmptyIsOneLiner()
    ensures OneLiners([""])
  {
  }

  lemma OneLinerAlone(line: string)
    requires OneLine(line)
    ensures OneLiners([line])
  {
    hide OneLine;
  }

  lemma CalledIsFit(model: seq<Section>, url: string, fp: string)
    requires WellFormed(model) && NoWebhook(model) && NoEmptySub(model)
    ensures WellFormed(Called(model, url, fp)) && NoEmptySub(Called(model, url, fp))
  {
    WebhookIsBare();
    var es := WebhookSection(url, fp).entries;
    assert |"cert-fingerprint"| != |"url"|;
    assert Bare("url") && Bare("cert-fingerprint");
    assert WellFormedEntries(es);
    hide WellFormedEntries, Bare;
  }

  predicate EndsInText(line: string) {
    line != [] && !Space(line[|line| - 1])
  }

  lemma ValueEnds(pre: string, v: Value)
    ensures EndsInText(pre + Show(v))
  {
    var s := Show(v);
    assert s[|s| - 1] == '\"' || s[|s| - 1] == ']';
    assert (pre + s)[|pre + s| - 1] == s[|s| - 1];
  }

  lemma {:induction false} SubLinesEnd(k: string, es: seq<(string, Value)>)
    ensures forall i :: 0 <= i < |SubLines(k, es)| ==> EndsInText(SubLines(k, es)[i])
  {
    hide Show, EndsInText;
    if es != [] {
      SubLinesEnd(k, es[1..]);
      ValueEnds(k + "." + es[0].0 + " = ", es[0].1);
    }
  }

  lemma {:induction false} EntryLinesEnd(entries: seq<(string, Node)>)
    ensures forall i :: 0 <= i < |EntryLines(entries)| ==> EndsInText(EntryLines(entries)[i])
  {
    hide Show, EndsInText, SubLines;
    if entries != [] {
      EntryLinesEnd(entries[1..]);
      match entries[0].1 {
        case Leaf(v) => ValueEnds(entries[0].0 + " = ", v);
        case Sub(es) => SubLinesEnd(entries[0].0, es);
      }
    }
  }

  lemma HeaderEnds(name: string)
    ensures EndsInText("[" + name + "]")
  {
    var header := "[" + name + "]";
    assert header[|header| - 1] == ']';
  }

  /** The last line with something in it. */
  lemma {:induction false} LastLineEnds(model: seq<Section>)
    requires model != []
    ensures |Lines(model)| >= 2 && EndsInText(Lines(model)[|Lines(model)| - 2])
  {
    hide EntryLines, EndsInText;
    var header, own := "[" + model[0].name + "]", EntryLines(model[0].entries);
    var rest := Lines(model[1..]);
    assert Lines(model) == [header] + own + [""] + rest;
    if |model| > 1 {
      LastLineEnds(model[1..]);
      assert Lines(model)[|Lines(model)| - 2] == rest[|rest| - 2];
    } else {
      assert rest == [];
      EntryLinesEnd(model[0].entries);
      HeaderEnds(model[0].name);
    }
  }

  lemma NothingTrimmed(lines: seq<string>)
    requires lines != [] && EndsInText(lines[|lines| - 1])
    ensures Render.TrimLines(lines) == lines
  {
    assert lines[..|lines| - 1] + [lines[|lines| - 1]] == lines;
  }

  /** Without a separator the rendered text is the printed file, with the lines of the webhook
      table behind it. */
  lemma UnseparatedRenders(model: seq<Section>, url: string, fp: string)
    requires WellFormed(model) && NoWebhook(model) && UnseparatedModel(model) && model != []
    ensures Render.Rendered(Emit(model), url, fp) ==
            if url == [] then Emit(model)
            else Join(Lines(model) + Render.Section(url, fp)[1..]) + "\n"
  {
    hide SplitLines, Stripped, WellFormed, UnseparatedModel, Lines, Render.Rendered, Render.TrimLines, EndsInText;
    UnseparatedStrips(model);
    LastLineEnds(model);
    var lines := Lines(model);
    var front := lines[..|lines| - 1];
    NothingTrimmed(front);
    var body, t := RenderedIs(Emit(model), url, fp);
    assert body == front;
    Render.JoinSnoc(front, "");
    assert Join(front) + "\n" + "" == Join(front) + "\n";
    if url != [] {
      var section := Render.Section(url, fp);
      assert section == [""] + section[1..];
      assert lines + section[1..] == front + section;
      JoinTwo(front, section);
      assert Join(front) + "\n" + Join(section) + "\n" == Join(front) + "\n" + (Join(section) + "\n");
    }
  }

  lemma JoinTwo(a: seq<string>, b: seq<string>)
    requires a != [] && b != []
    ensures Join(a + b) == Join(a) + "\n" + Join(b)
  {
    Render.JoinNested(a, b);
    assert ([Join(a)] + b)[1..] == b;
  }

  // ----- the webhook table, read -----

  lemma AnyIsValue(line: string, k: Key, v: Value)
    requires ReadLine(line, Render.ReadAny) == Some(Assign(k, Render.Text(v)))
    ensures ReadLine(line, ReadValue) == Some(Assign(k, v))
  {
    hide ReadKey, ReadValue, Ends;
  }

  lemma BareIsOneLine(k: string)
    requires Bare(k)
    ensures OneLine(k)
  {
    assert forall i :: 0 <= i < |k| ==> BareChar(k[i]);
  }

  lemma WrittenReads(line: string, k: string, text: string)
    requires Bare(k) && Render.Printable(text) && text != []
    requires line == k + " = \"" + Render.SlightEscapes(text) + "\""
    ensures ItemsOf([line], ReadValue) == Some([Assign([k], Str(text))]) && OneLine(line)
  {
    hide ReadLine, ReadValue, Render.ReadAny, Bare, Render.SlightEscapes;
    Render.WrittenLineReads(line, k, text);
    AnyIsValue(line, [k], Str(text));
    ItemsOfOne(line, Assign([k], Str(text)), ReadValue);
    Render.EscapedIsOneLine(text);
    BareIsOneLine(k);
  }

  lemma {:induction false} ItemsInParts(a: seq<Section>, b: seq<Section>)
    ensures Items(a + b) == Items(a) + Items(b)
  {
    hide EntryItems;
    if a == [] {
      assert a + b == b;
    } else {
      assert (a + b)[1..] == a[1..] + b;
      ItemsInParts(a[1..], b);
      var x: seq<Item<Value>> := [Table([a[0].name])] + EntryItems(a[0].entries) + [Nothing];
      assert Items(a + b) == x + (Items(a[1..]) + Items(b)) == (x + Items(a[1..])) + Items(b);
    }
  }

  lemma WebhookItems(url: string, fp: string)
    ensures var two: seq<Item<Value>> := [Table([WEBHOOK]), Assign(["url"], Str(url))];
            Items([WebhookSection(url, fp)])
            == two + (if fp == [] then [] else [Assign(["cert-fingerprint"], Str(fp))]) + [Nothing]
  {
    var w := WebhookSection(url, fp);
    var u: (string, Node) := ("url", Leaf(Str(url)));
    var f: (string, Node) := ("cert-fingerprint", Leaf(Str(fp)));
    EntryItemsFrom(u, if fp == [] then [] else [f]);
    EntryItemsFrom(f, []);
    assert [w][1..] == [];
    assert [u] + [] == [u] && [f] + [] == [f];
    hide EntryItems;
    NoItems();
    var items: seq<Item<Value>> := [Assign(["url"], Str(url))];
    assert EntryItems(w.entries) == items + if fp == [] then [] else [Assign(["cert-fingerprint"], Str(fp))];
  }

  lemma NoItems()
    ensures EntryItems([]) == [] && Items([]) == []
  {
  }

  lemma EntryItemsFrom(e: (string, Node), rest: seq<(string, Node)>)
    ensures EntryItems([e] + rest) == NodeItems(e.0, e.1) + EntryItems(rest)
  {
    assert ([e] + rest)[1..] == rest;
  }

  lemma TableReads(url: string, fp: string)
    requires url != [] && Render.Printable(url) && Render.Printable(fp)
    ensures ItemsOf(Render.Section(url, fp)[1..] + [""], ReadValue) == Some(Items([WebhookSection(url, fp)]))
    ensures OneLiners(Render.Section(url, fp)[1..])
  {
    hide ReadLine, ReadValue, Render.SlightEscapes, ItemsOf, Items, Bare;
    var header := ["[" + WEBHOOK + "]"];
    var urlLine, fpLine := Render.UrlLine(url), Render.FingerprintLine(fp);
    WebhookIsBare();
    HeaderLineReads(WEBHOOK, ReadValue);
    ItemsOfOne(header[0], Table([WEBHOOK]), ReadValue);
    BareNames();
    WrittenReads(urlLine, "url", url) by { WrittenForms(url, fp); }
    ItemsAppend(header, [urlLine], ReadValue);
    EmptyLineReads(ReadValue);
    ItemsOfOne("", Nothing, ReadValue);
    WebhookItems(url, fp);
    var two := header + [urlLine];
    var items: seq<Item<Value>> := [Table([WEBHOOK])] + [Assign(["url"], Str(url))];
    var both: seq<Item<Value>> := [Table([WEBHOOK]), Assign(["url"], Str(url))];
    assert items == both;
    if fp == [] {
      assert Render.Section(url, fp)[1..] == two;
      ItemsAppend(two, [""], ReadValue);
      assert both + [] == both;
    } else {
      WrittenReads(fpLine, "cert-fingerprint", fp) by { WrittenForms(url, fp); }
      ItemsAppend(two, [fpLine], ReadValue);
      assert Render.Section(url, fp)[1..] == two + [fpLine];
      ItemsAppend(two + [fpLine], [""], ReadValue);
    }
  }

  lemma BareNames()
    ensures Bare("url") && Bare("cert-fingerprint")
  {
  }

  lemma WrittenForms(url: string, fp: string)
    ensures Render.UrlLine(url) == "url" + " = \"" + Render.SlightEscapes(url) + "\""
    ensures Render.FingerprintLine(fp) == "cert-fingerprint" + " = \"" + Render.SlightEscapes(fp) + "\""
  {
    hide Render.SlightEscapes;
    assert "url" + " = \"" == "url = \"";
    assert "cert-fingerprint" + " = \"" == "cert-fingerprint = \"";
  }

  /** A printable address and fingerprint are read as the webhook section of the model. */
  lemma CalledReads(model: seq<Section>, url: string, fp: string)
    requires WellFormed(model) && NoWebhook(model) && NoEmptySub(model) && UnseparatedModel(model) && model != []
    requires url == [] || (Render.Printable(url) && Render.Printable(fp))
    ensures ReadText(Render.Rendered(Emit(model), url, fp), ReadValue) == Some(AsData(Called(model, url, fp)))
  {
    hide *;
    UnseparatedRenders(model, url, fp);
    CalledIsFit(model, url, fp);
    CalledIs(model, url, fp);
    if url == [] {
      PrinterAndReaderAgree(model);
    } else {
      TableLinesAre(url, fp);
      var s2 := Render.Section(url, fp)[1..];
      var lines := Lines(model) + s2 + [""];
      LinesRead(model);
      TableReads(url, fp);
      assert lines == Lines(model) + (s2 + [""]);
      ItemsAppend(Lines(model), s2 + [""], ReadValue);
      ItemsInParts(model, [WebhookSection(url, fp)]);
      Render.JoinSnoc(Lines(model) + s2, "");
      LastLineIsEmpty(model);
      assert Join(Lines(model) + s2) + "\n" + "" == Join(Lines(model) + s2) + "\n";
      EmptyIsOneLiner();
      OneLinersInParts(s2, [""]);
      OneLinersInParts(Lines(model), s2 + [""]);
      JoinedReads(lines, ReadValue);
      ItemsReadAs(lines, model + [WebhookSection(url, fp)]);
    }
  }

  lemma ItemsReadAs(lines: seq<string>, model: seq<Section>)
    requires WellFormed(model) && NoEmptySub(model) && ItemsOf(lines, ReadValue) == Some(Items(model))
    ensures ReadLines(lines, ReadValue) == Some(AsData(model))
  {
    hide ReadLine, ReadValue, Items, ReadItems, ItemsOf;
    SectionsRead(Start(), model);
    EmptySubsDiffer(model);
  }

  // ----- an address that is not printable -----

  lemma FirstLineBehind(s: string, t: string)
    requires OneLine(s)
    ensures LinesOf(Newlines(s + t))[0] == s + LinesOf(Newlines(t))[0]
  {
    NewlinesBehind(s, t);
    LineStays(s, Newlines(t));
  }

  /** The line ends inside the string, or has a character no string may hold. */
  lemma {:induction false} UnprintableIsOpen(s: string, t: string)
    requires !Render.Printable(s)
    ensures ReadString(LinesOf(Newlines(Render.SlightEscapes(s) + t))[0]).None?
  {
    hide ReadString, LinesOf, Newlines;
    var more := Render.SlightEscapes(s[1..]) + t;
    if Control(s[0]) {
      assert Render.SlightEscapes(s) + t == [s[0]] + more;
      ControlEnds(s[0], more);
    } else {
      assert s == [s[0]] + s[1..];
      UnprintableIsOpen(s[1..], t);
      var line := LinesOf(Newlines(more))[0];
      if s[0] == '\\' || s[0] == '\"' {
        assert Render.SlightEscapes(s) + t == ['\\', s[0]] + more;
        FirstLineBehind(['\\', s[0]], more);
        Render.SelfEscapes(s[0], line);
        ShortReads(s[0], s[0], line);
      } else {
        assert Render.SlightEscapes(s) + t == [s[0]] + more;
        FirstLineBehind([s[0]], more);
        PlainReads(s[0], line);
      }
    }
  }

  lemma ControlEnds(c: char, t: string)
    requires Control(c)
    ensures ReadString(LinesOf(Newlines([c] + t))[0]).None?
  {
    var text := [c] + t;
    assert text[1..] == t;
    var lines := LinesOf(Newlines(text));
    if c == '\r' && t != [] && t[0] == '\n' {
      assert Newlines(text) == ['\n'] + Newlines(text[2..]);
      LinesAfterBreak(Newlines(text[2..]), '\n');
      assert lines[0] == [];
    } else {
      assert Newlines(text) == [c] + Newlines(t);
      LinesAfterBreak(Newlines(t), c);
      assert c == '\n' ==> lines[0] == [];
      assert c != '\n' ==> lines[0][0] == c;
    }
  }

  lemma UnprintableLineIsOpen(k: string, text: string, t: string)
    requires Bare(k) && !Render.Printable(text)
    ensures OpenLine(LinesOf(Newlines(k + " = \"" + Render.SlightEscapes(text) + t))[0])
  {
    hide ReadString, LinesOf, Newlines, Render.SlightEscapes, Bare;
    UnprintableIsOpen(text, t);
    var line := LinesOf(Newlines(Render.SlightEscapes(text) + t))[0];
    var pre := k + " = \"";
    BareIsOneLine(k);
    assert OneLine(pre);
    FirstLineBehind(pre, Render.SlightEscapes(text) + t);
    assert pre + (Render.SlightEscapes(text) + t) == k + " = \"" + Render.SlightEscapes(text) + t;
    var w := "\"" + line;
    assert w[1..] == line;
    assert Open(w);
    assert Left(k + " = ", [k]);
    assert (k + " = ") + w == pre + line;
  }

  /** Behind whole lines such a line makes the text one that does not read. */
  lemma UnprintableUnread(lines: seq<string>, k: string, text: string, t: string)
    requires OneLiners(lines) && lines != [] && Bare(k) && !Render.Printable(text)
    ensures ReadText(Join(lines) + "\n" + (k + " = \"" + Render.SlightEscapes(text) + t), ReadValue).None?
  {
    hide ReadLine, OpenLine, OneLiners, Bare, Render.Printable, Render.SlightEscapes, LinesOf, Newlines;
    var rest := k + " = \"" + Render.SlightEscapes(text) + t;
    TextBehind(lines, rest);
    UnprintableLineIsOpen(k, text, t);
    var all := lines + LinesOf(Newlines(rest));
    OpenLineReads(LinesOf(Newlines(rest))[0]);
    assert all[|lines|] == LinesOf(Newlines(rest))[0];
    BadLineUnread(all, |lines|);
  }

  lemma UnprintableRendersUnread(model: seq<Section>, url: string, fp: string)
    requires WellFormed(model) && NoWebhook(model) && UnseparatedModel(model) && model != []
    requires url != [] && !(Render.Printable(url) && Render.Printable(fp))
    ensures ReadText(Render.Rendered(Emit(model), url, fp), ReadValue).None?
  {
    hide *;
    UnseparatedRenders(model, url, fp);
    LinesRead(model);
    LastLineIsEmpty(model);
    BareNames();
    WrittenForms(url, fp);
    WebhookIsBare();
    HeaderLineReads(WEBHOOK, ReadValue);
    var header := ["[" + WEBHOOK + "]"];
    var front := Lines(model) + header;
    OneLinerAlone(header[0]);
    OneLinersInParts(Lines(model), header);
    TableLinesAre(url, fp);
    var urlLine, fpLine := Render.UrlLine(url), Render.FingerprintLine(fp);
    var more := if fp == [] then [] else [fpLine];
    assert Lines(model) + Render.Section(url, fp)[1..] == front + ([urlLine] + more);
    if Render.Printable(url) {
      NothingIsPrintable();
      WrittenReads(urlLine, "url", url);
      JoinTwo(front + [urlLine], [fpLine]);
      assert front + ([urlLine] + more) == (front + [urlLine]) + [fpLine];
      JoinAlone(fpLine);
      OneLinerAlone(urlLine);
      OneLinersInParts(front, [urlLine]);
      UnprintableUnread(front + [urlLine], "cert-fingerprint", fp, "\"\n");
      Pieces(Join(front + [urlLine]), "cert-fingerprint" + " = \"" + Render.SlightEscapes(fp), "");
      assert fpLine == "cert-fingerprint" + " = \"" + Render.SlightEscapes(fp) + "\"" + "";
    } else {
      JoinTwo(front, [urlLine] + more);
      var behind := if fp == [] then "" else "\n" + fpLine;
      if fp == [] {
        assert [urlLine] + more == [urlLine];
        JoinAlone(urlLine);
        assert urlLine + behind == urlLine;
      } else {
        JoinBehind(urlLine, [fpLine]);
        JoinAlone(fpLine);
        assert urlLine + behind == urlLine + "\n" + fpLine;
      }
      UnprintableUnread(front, "url", url, "\"" + behind + "\n");
      Pieces(Join(front), "url" + " = \"" + Render.SlightEscapes(url), behind);
    }
  }

  lemma NothingIsPrintable()
    ensures Render.Printable([])
  {
  }

  lemma Pieces(a: string, b: string, c: string)
    ensures a + "\n" + (b + "\"" + c) + "\n" == a + "\n" + (b + ("\"" + c + "\n"))
    ensures "\"" + "" + "\n" == "\"\n"
  {
    assert (b + "\"" + c) + "\n" == b + ("\"" + c + "\n");
  }

  /** The rendered text of a printed file reads exactly when no string of it holds a separator
      and what PegaProx writes is printable; then it says what the file said, and that. */
  lemma RenderedReadsIff(model: seq<Section>, url: string, fp: string)
    requires WellFormed(model) && NoWebhook(model) && NoEmptySub(model) && model != []
    ensures var read := ReadText(Render.Rendered(Emit(model), url, fp), ReadValue);
            && (read.Some? ==> read.value == AsData(Called(model, url, fp)))
            && (read.Some? <==> UnseparatedModel(model)
                                && (url == [] || (Render.Printable(url) && Render.Printable(fp))))
  {
    hide *;
    if !UnseparatedModel(model) {
      SeparatedRendersUnread(model, url, fp);
    } else if url == [] || (Render.Printable(url) && Render.Printable(fp)) {
      CalledReads(model, url, fp);
    } else {
      UnprintableRendersUnread(model, url, fp);
    }
  }
}
