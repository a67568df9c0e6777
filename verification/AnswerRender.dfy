/**
 From the guided setup to the file a machine is served: when what render_answer makes of a
 file build_answer gave back passes the check once more.
 */
module AnswerRender {
  import opened Wrappers
  import opened PythonText
  import opened Toml
  import opened TomlPrinter
  import opened AnswerRules
  import opened AnswerBuilder
  import opened AnswerChecker
  import opened AnswerAgreement
  import opened AnswerSize
  import opened Webhook
  import opened WebhookReads
  import opened WebhookText
  import opened WebhookCuts
  import opened RenderedModel
  import Render = WebhookRender

  lemma ThreeSections(p: Patterns, form: Form)
    ensures var m := Model(p, form);
            |m| == 3 && NoWebhook(m)
            && m[0] == Section("global", Global(p, form.g).entries)
            && m[1] == Section("network", Network(p, form.net, form.nicFilter).entries)
            && m[2] == Section("disk-setup", DiskSetup(p, form).entries)
  {
    hide Global, Network, DiskSetup;
    assert |WEBHOOK| == 25 && |"global"| == 6 && |"network"| == 7 && |"disk-setup"| == 10;
  }

  /** The sections of the form are judged the same with the webhook table behind them. */
  lemma CalledChecks(p: Patterns, form: Form, url: string, fp: string)
    requires WrongFields(p, form) == {}
    ensures var d := AsData(Called(Model(p, form), url, fp));
            GlobalErrors(p, d) == {} && NetworkErrors(d) == {} && DiskErrors(d) == {}
  {
    hide Global, Network, DiskSetup, WrongFields, WellFormed, NoEmptySub, ReadsAs, AsData, GlobalErrors, NetworkErrors, DiskErrors;
    var model := Model(p, form);
    var called := Called(model, url, fp);
    ModelIsFit(p, form);
    ThreeSections(p, form);
    CalledIsFit(model, url, fp);
    ModelReadsAs(called, 0);
    ModelReadsAs(called, 1);
    ModelReadsAs(called, 2);
    SectionChecks(p, form, AsData(called));
  }

  lemma {:induction false} SplitBehind(lines: seq<string>, t: string)
    requires WholeLines(lines) && lines != []
    ensures SplitLines(Join(lines) + "\n" + t) == lines + SplitLines(t)
  {
    hide SplitLines, NoBoundary;
    var first := lines[0];
    if |lines| == 1 {
      SplitFirst(first, '\n', t);
      assert Join(lines) + "\n" + t == first + ['\n'] + t;
    } else {
      var more := Join(lines[1..]) + "\n" + t;
      SplitBehind(lines[1..], t);
      SplitFirst(first, '\n', more);
      assert Join(lines) + "\n" + t == first + ['\n'] + more;
      assert [first] + (lines[1..] + SplitLines(t)) == lines + SplitLines(t);
    }
  }

  lemma HeaderIsSeen()
    ensures WebhookHeader("[" + WEBHOOK + "]") && NoBoundary("[" + WEBHOOK + "]")
  {
    var line := "[" + WEBHOOK + "]";
    assert line[1..] == WEBHOOK + "]";
    assert (WEBHOOK + "]")[|WEBHOOK|..] == "]";
    WebhookIsBare();
    BareIsWhole(WEBHOOK);
    BracketsAreWhole();
    BoundaryInParts("[", WEBHOOK);
    BoundaryInParts("[" + WEBHOOK, "]");
    assert "]"[1..] == [];
    assert TrimLeft(line) == line;
    assert TrimLeft(WEBHOOK + "]") == WEBHOOK + "]" by { assert (WEBHOOK + "]")[0] == 'p'; }
  }

  /** The rendered text has the header of the webhook table as a line of its own. */
  lemma HeaderIsThere(model: seq<Section>, url: string, fp: string)
    requires WellFormed(model) && NoWebhook(model) && UnseparatedModel(model) && model != [] && url != []
    ensures exists i :: 0 <= i < |SplitLines(Render.Rendered(Emit(model), url, fp))|
                        && WebhookHeader(SplitLines(Render.Rendered(Emit(model), url, fp))[i])
  {
    hide *;
    UnseparatedRenders(model, url, fp);
    LinesCut(model);
    LastLineIsEmpty(model);
    HeaderIsSeen();
    var header := ["[" + WEBHOOK + "]"];
    var front := Lines(model) + header;
    OneWhole(header[0]);
    WholeInParts(Lines(model), header);
    var rest := [Render.UrlLine(url)] + if fp == [] then [] else [Render.FingerprintLine(fp)];
    TableLinesAre(url, fp);
    assert Lines(model) + Render.Section(url, fp)[1..] == front + rest;
    JoinTwo(front, rest);
    SplitBehind(front, Join(rest) + "\n");
    assert Join(front) + "\n" + Join(rest) + "\n" == Join(front) + "\n" + (Join(rest) + "\n");
    assert (front + SplitLines(Join(rest) + "\n"))[|Lines(model)|] == header[0];
  }

  lemma NoErrorIn(p: Patterns, text: string)
    requires ValidateAnswer(p, text) == {}
    ensures |text| <= MAX_ANSWER && ReadText(text, ReadValue).Some?
  {
    hide ReadText, GlobalErrors, NetworkErrors, DiskErrors, ReplaceableWebhook, SplitLines, Space;
  }

  lemma NoErrors(p: Patterns, text: string, d: Data<Value>)
    requires text != [] && !Space(text[0]) && |text| <= MAX_ANSWER && ReadText(text, ReadValue) == Some(d)
    requires GlobalErrors(p, d) == {} && NetworkErrors(d) == {} && DiskErrors(d) == {}
    requires ReplaceableWebhook(SplitLines(text), d)
    ensures ValidateAnswer(p, text) == {}
  {
    hide ReadText, GlobalErrors, NetworkErrors, DiskErrors, ReplaceableWebhook, SplitLines, Space;
  }

  lemma RenderedBegins(model: seq<Section>, url: string, fp: string)
    requires WellFormed(model) && NoWebhook(model) && UnseparatedModel(model) && model != []
    ensures var out := Render.Rendered(Emit(model), url, fp); out != [] && !Space(out[0])
  {
    hide *;
    UnseparatedRenders(model, url, fp);
    FilesAreNotBlank(model);
    if url != [] {
      LinesBegin(model);
      TableLinesAre(url, fp);
      var rest := Render.Section(url, fp)[1..];
      JoinBegins(Lines(model) + rest);
      assert (Lines(model) + rest)[0] == Lines(model)[0];
    }
  }

  lemma LinesBegin(model: seq<Section>)
    requires model != []
    ensures var lines := Lines(model); lines != [] && lines[0] != [] && !Space(lines[0][0])
  {
    hide EntryLines;
    assert Lines(model)[0][0] == '[';
  }

  lemma BuiltIs(p: Patterns, fields: Json)
    requires BuildAnswer(p, fields).Answer?
    ensures Shape(fields).Some? && WrongFields(p, Shape(fields).value) == {}
    ensures BuildAnswer(p, fields).text == Emit(Model(p, Shape(fields).value))
  {
    hide Shape, WrongFields, Model, Emit;
  }

  lemma NothingToReplace(model: seq<Section>, lines: seq<string>)
    requires NoWebhook(model)
    ensures ReplaceableWebhook(lines, AsData(model))
  {
    NoWebhookThere(model, lines);
  }

  lemma HeaderReplaces(lines: seq<string>, d: Data<Value>)
    requires exists i :: 0 <= i < |lines| && WebhookHeader(lines[i])
    ensures ReplaceableWebhook(lines, d)
  {
    hide WebhookHeader;
  }

  /** Whatever a browser sent: what is served of a file the guided setup gave back passes the
      check exactly when that file holds no separator, the text is not over the size limit, and
      the address and the fingerprint are printable, or no address is written. */
  lemma RenderedFormPasses(p: Patterns, fields: Json, url: string, fp: string)
    requires BuildAnswer(p, fields).Answer?
    ensures var text := BuildAnswer(p, fields).text; var out := Render.Rendered(text, url, fp);
            ValidateAnswer(p, out) == {} <==>
              Unseparated(text) && |out| <= MAX_ANSWER && (url == [] || (Render.Printable(url) && Render.Printable(fp)))
  {
    hide *;
    BuiltIs(p, fields);
    var form := Shape(fields).value;
    var model := Model(p, form);
    var out := Render.Rendered(Emit(model), url, fp);
    ModelIsFit(p, form);
    ThreeSections(p, form);
    SeparatorsShow(model);
    RenderedReadsIff(model, url, fp);
    if ValidateAnswer(p, out) == {} {
      NoErrorIn(p, out);
    } else if UnseparatedModel(model) && |out| <= MAX_ANSWER && (url == [] || (Render.Printable(url) && Render.Printable(fp))) {
      var d := AsData(Called(model, url, fp));
      CalledChecks(p, form, url, fp);
      RenderedBegins(model, url, fp);
      if url == [] {
        CalledIs(model, url, fp);
        NothingToReplace(model, SplitLines(out));
      } else {
        HeaderIsThere(model, url, fp);
        HeaderReplaces(SplitLines(out), d);
      }
      NoErrors(p, out, d);
    }
  }

  lemma EmitHoldsKey(model: seq<Section>, key: string)
    requires model != [] && GlobalEntries(model[0].entries, [key]) && !Unseparated(key)
    ensures !UnseparatedModel(model)
  {
    hide Unseparated, ShortEntry;
    var v := List([key]);
    assert [key][0] == key;
    assert !UnseparatedValue(v);
    assert !UnseparatedNode(model[0].entries[6].1);
    assert !UnseparatedEntries(model[0].entries);
  }

  /** Any SSH key with a separator in its comment: the guided setup takes it, the check takes
      the file, and what is rendered of it is refused whatever address is written. */
  lemma SeparatorInAKey(p: Patterns, key: string, mail: string, hash: string)
    requires !Unseparated(key) && !Unprintable(key) && |key| <= MAX_SSH_KEY && p.sshKey(key)
    requires GoodField(mail) && MailOk(p, mail) && GoodField(hash) && p.crypt(hash) && p.timezone("UTC")
    ensures BuildAnswer(p, FormWith(1, key, mail, hash)).Answer?
    ensures var text := BuildAnswer(p, FormWith(1, key, mail, hash)).text;
            && ValidateAnswer(p, text) == {}
            && ReadText(StripText(text), ReadValue).None?
            && forall url, fp :: ValidateAnswer(p, Render.Rendered(text, url, fp)) != {}
  {
    assert key != [] && 1 <= MAX_SSH_KEYS;
    hide *;
    OneKeyFits(p, key, mail, hash);
    var fields := FormWith(1, key, mail, hash);
    BuiltIs(p, fields);
    var form := Shape(fields).value;
    var model := Model(p, form);
    ModelIsFit(p, form);
    ThreeSections(p, form);
    ShapeIs(1, key, mail, hash);
    GlobalIsRight(p, 1, key, mail, hash);
    CopyMore(1, key);
    CopyMore(0, key);
    assert Copies(1, key) == [key];
    EmitHoldsKey(model, key);
    StrippedReadsIff(model);
    SeparatorsShow(model);
    forall url, fp ensures ValidateAnswer(p, Render.Rendered(Emit(model), url, fp)) != {} {
      RenderedFormPasses(p, fields, url, fp);
    }
  }
}
