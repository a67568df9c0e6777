/** Why a file the guided setup built can still be too large for the check. */
module AnswerSize {
  import opened Wrappers
  import opened Toml
  import opened TomlPrinter
  import opened AnswerRules
  import opened AnswerBuilder
  import opened AnswerChecker
  import opened AnswerAgreement

  function Copies<T>(n: nat, x: T): seq<T> {
    seq(n, _ => x)
  }

  function GlobalFields(n: nat, key: string, mail: string, hash: string): map<string, Json> {
    map["keyboard" := Text("de"), "country" := Text("de"), "timezone" := Text("UTC"), "mailto" := Text(mail),
        "fqdn" := Text("a.b"), "root_password_hashed" := Text(hash), "root_ssh_keys" := Arr(Copies(n, Text(key)))]
  }

  function DiskFields(): map<string, Json> {
    map["filesystem" := Text("ext4"), "disk_list" := Arr([Text("sda")])]
  }

  function NetworkFields(): map<string, Json> {
    map["source" := Text("from-dhcp")]
  }

  /** A plain form with n SSH keys, all of them the same. */
  function FormWith(n: nat, key: string, mail: string, hash: string): Json {
    Obj(map["global" := Obj(GlobalFields(n, key, mail, hash)), "network" := Obj(NetworkFields()), "disk" := Obj(DiskFields())])
  }

  function TotalLength(items: seq<string>): nat {
    if items == [] then 0 else |items[0]| + TotalLength(items[1..])
  }

  lemma {:induction false} EscapesAreNoShorter(s: string)
    ensures |Escapes(s)| >= |s|
  {
    if s != [] {
      EscapesAreNoShorter(s[1..]);
    }
  }

  lemma {:induction false} QuotesAreLong(items: seq<string>)
    ensures |Quotes(items)| >= TotalLength(items)
  {
    if items != [] {
      EscapesAreNoShorter(items[0]);
      QuotesAreLong(items[1..]);
    }
  }

  lemma {:induction false} LinesAreInText(lines: seq<string>, i: nat)
    requires i < |lines|
    ensures |Join(lines)| >= |lines[i]|
  {
    if i > 0 {
      LinesAreInText(lines[1..], i - 1);
    }
  }

  lemma {:induction false} LeafIsALine(entries: Entries, i: nat)
    requires i < |entries| && entries[i].1.Leaf?
    ensures entries[i].0 + " = " + Show(entries[i].1.value) in EntryLines(entries)
  {
    hide Show, SubLines;
    FirstEntryLines(entries);
    if i > 0 {
      hide EntryLines;
      assert entries[1..][i - 1] == entries[i];
      LeafIsALine(entries[1..], i - 1);
    }
  }

  lemma FirstEntryLines(entries: Entries)
    requires entries != []
    ensures forall line :: line in EntryLines(entries[1..]) ==> line in EntryLines(entries)
    ensures entries[0].1.Leaf? ==> entries[0].0 + " = " + Show(entries[0].1.value) in EntryLines(entries)
  {
    hide Show, SubLines;
    if entries[0].1.Leaf? {
      assert entries[0].0 + " = " + Show(entries[0].1.value) in [entries[0].0 + " = " + Show(entries[0].1.value)];
    }
  }

  /** The file holds every SSH key of its list. */
  lemma FileHoldsKeys(model: seq<Section>, i: nat, keys: seq<string>)
    requires model != [] && i < |model[0].entries| && model[0].entries[i].1 == Leaf(List(keys))
    ensures |Emit(model)| >= TotalLength(keys)
  {
    hide Lines, EntryLines, Join, Quotes, TotalLength;
    var es := model[0].entries;
    LeafIsALine(es, i);
    var line := es[i].0 + " = " + Show(es[i].1.value);
    var k := EntryLineAt(model, line);
    LinesAreInText(Lines(model), k);
    QuotesAreLong(keys);
    assert Show(List(keys)) == "[" + Quotes(keys) + "]";
    assert |line| >= |Quotes(keys)|;
  }

  lemma EntryLineAt(model: seq<Section>, line: string) returns (k: nat)
    requires model != [] && line in EntryLines(model[0].entries)
    ensures k < |Lines(model)| && Lines(model)[k] == line
  {
    hide EntryLines;
    var own := EntryLines(model[0].entries);
    var j :| 0 <= j < |own| && own[j] == line;
    assert Lines(model) == ["[" + model[0].name + "]"] + (own + ([""] + Lines(model[1..])));
    k := 1 + j;
  }

  lemma CopyMore<T>(n: nat, x: T)
    ensures n > 0 ==> Copies(n, x) == [x] + Copies(n - 1, x) && Copies(n, x)[1..] == Copies(n - 1, x) && Copies(n, x)[0] == x
    ensures Copies(0, x) == [] && |Copies(n, x)| == n
  {
  }

  lemma {:induction false} CopiesAreLong(key: string, n: nat)
    ensures TotalLength(Copies(n, key)) == n * |key|
  {
    CopyMore(n, key);
    if n > 0 {
      CopiesAreLong(key, n - 1);
    }
  }

  lemma {:induction false} CopiesAreTexts(key: string, n: nat)
    requires key != ""
    ensures Texts(Copies(n, Text(key))) == Some(Copies(n, key))
    ensures NotBlank(Copies(n, key)) == Copies(n, key)
  {
    CopyMore(n, key);
    CopyMore(n, Text(key));
    if n > 0 {
      CopiesAreTexts(key, n - 1);
    }
  }

  lemma KeysPart(p: Patterns, n: nat, key: string)
    requires 0 < n <= MAX_SSH_KEYS
    requires key != "" && !Unprintable(key) && |key| <= MAX_SSH_KEY && p.sshKey(key)
    ensures SshKeys(p, Arr(Copies(n, Text(key)))) == Adds("root-ssh-keys", Leaf(List(Copies(n, key))))
  {
    hide Texts, NotBlank, Unprintable;
    CopiesAreTexts(key, n);
    CopyMore(n, key);
    CopyMore(n, Text(key));
    assert forall k :: k in Copies(n, key) ==> k == key;
  }

  predicate GoodField(s: string) {
    s != "" && !Unprintable(s) && |s| <= MAX_FIELD
  }

  lemma NoneBelow(m: map<string, Json>)
    requires "root_password" !in m && "root-password" !in m && forall k :: k in m ==> !HasPlaintextKey(m[k])
    ensures !HasPlaintextKey(Obj(m))
  {
  }

  lemma NothingInClear(n: nat, key: string, mail: string, hash: string)
    ensures !HasPlaintextKey(FormWith(n, key, mail, hash))
  {
    hide Copies;
    var keys := Arr(Copies(n, Text(key)));
    assert !HasPlaintextKey(keys) by {
      CopyMore(n, Text(key));
      forall i | 0 <= i < |keys.items| ensures !HasPlaintextKey(keys.items[i]) {
        OnlyCopies(n, Text(key), i);
      }
    }
    GlobalIsClear(n, key, mail, hash);
    RestIsClear();
    hide HasPlaintextKey, GlobalFields;
    NoneBelow(FormWith(n, key, mail, hash).fields);
  }

  lemma GlobalIsClear(n: nat, key: string, mail: string, hash: string)
    requires !HasPlaintextKey(Arr(Copies(n, Text(key))))
    ensures !HasPlaintextKey(Obj(GlobalFields(n, key, mail, hash)))
  {
    TextsAreClear();
    hide HasPlaintextKey, Copies;
    var g := GlobalFields(n, key, mail, hash);
    NoPasswordKey(n, key, mail, hash);
    NoneBelow(g);
  }

  lemma NoPasswordKey(n: nat, key: string, mail: string, hash: string)
    ensures "root_password" !in GlobalFields(n, key, mail, hash) && "root-password" !in GlobalFields(n, key, mail, hash)
  {
    hide Copies;
  }

  lemma RestIsClear()
    ensures !HasPlaintextKey(Obj(DiskFields())) && !HasPlaintextKey(Obj(NetworkFields()))
  {
    TextsAreClear();
    assert !HasPlaintextKey(Arr([Text("sda")]));
    hide HasPlaintextKey;
    NoneBelow(DiskFields());
    NoneBelow(NetworkFields());
  }

  lemma TextsAreClear()
    ensures forall s :: !HasPlaintextKey(Text(s))
  {
  }

  lemma OnlyCopies<T>(n: nat, x: T, i: nat)
    requires i < n
    ensures |Copies(n, x)| == n && Copies(n, x)[i] == x
  {
  }

  lemma ShapeIs(n: nat, key: string, mail: string, hash: string)
    ensures Shape(FormWith(n, key, mail, hash))
            == Some(Form(GlobalFields(n, key, mail, hash), NetworkFields(), DiskFields(), map[], map[], [Text("sda")]))
  {
    NothingInClear(n, key, mail, hash);
    hide HasPlaintextKey, Copies;
    var f := FormWith(n, key, mail, hash).fields;
    assert AnswerBuilder.Table(Obj(f), SECTIONS) == Some(f);
    assert AnswerBuilder.Table(Obj(GlobalFields(n, key, mail, hash)), GLOBAL_KEYS) == Some(GlobalFields(n, key, mail, hash));
    assert AnswerBuilder.Table(Obj(NetworkFields()), NETWORK_KEYS) == Some(NetworkFields());
    assert AnswerBuilder.Table(Obj(DiskFields()), DISK_KEYS) == Some(DiskFields());
  }

  lemma NamesAreGood()
    ensures FqdnOk("a.b", true) && KeyboardOk("de") && CountryOk("de")
    ensures GoodField("de") && GoodField("a.b") && GoodField("UTC")
    ensures !("Etc/" <= "UTC")
  {
    LabelsOfName();
    assert !AllDigits("a") by { assert "a"[0] == 'a'; }
    assert Label("a") && Label("b");
    hide Labels;
  }

  lemma LabelsOfName()
    ensures Labels("a.b") == ["a", "b"]
  {
    LabelsFrom('b', "");
    assert [""][1..] == [] && ['b'] + "" == "b" && ["b"] + [] == ["b"];
    LabelsFrom('.', "b");
    LabelsFrom('a', ".b");
    assert ['a'] + "" == "a" && ["", "b"][1..] == ["b"];
    assert ['a'] + ".b" == "a.b" && ['.'] + "b" == ".b";
    hide Labels;
    NoLabels();
  }

  lemma NoLabels()
    ensures Labels("") == [""]
  {
  }

  lemma LabelsFrom(c: char, s: string)
    ensures Labels([c] + s) == if c == '.' then [""] + Labels(s) else [[c] + Labels(s)[0]] + Labels(s)[1..]
  {
    assert ([c] + s)[1..] == s;
  }

  lemma UtcIsGood(p: Patterns)
    ensures TimezoneOk(p, "UTC") == p.timezone("UTC")
  {
    assert "Etc/" <= "UTC" ==> |"Etc/"| <= |"UTC"|;
  }

  lemma NeedIsGiven(key: string, field: string, v: Json, ok: string -> bool)
    requires v.Text? && GoodField(v.s) && ok(v.s)
    ensures var part := NeedEntry(key, field, v, AnswerBuilder.TextIs(v, ok));
            part.wrong == {} && part.entries == [(key, Leaf(Str(v.s)))]
  {
  }

  lemma FqdnIsGiven(v: Json)
    requires v.Text? && GoodField(v.s) && FqdnOk(v.s, true)
    ensures Fqdn(v).wrong == {} && Fqdn(v).entries == [("fqdn", Leaf(Str(v.s)))]
  {
    hide FqdnOk;
  }

  lemma FieldsAre(n: nat, key: string, mail: string, hash: string)
    ensures var g := GlobalFields(n, key, mail, hash);
            && Get(g, "keyboard") == Text("de") && Get(g, "country") == Text("de") && Get(g, "timezone") == Text("UTC")
            && Get(g, "mailto") == Text(mail) && Get(g, "fqdn") == Text("a.b") && Get(g, "root_password_hashed") == Text(hash)
            && Get(g, "root_ssh_keys") == Arr(Copies(n, Text(key)))
  {
    hide Copies;
  }

  /** An entry with a short key and a text the form lets in. */
  predicate ShortEntry(e: (string, Node)) {
    |e.0| <= 20 && e.1.Leaf? && e.1.value.Str? && |e.1.value.text| <= MAX_FIELD
  }

  /** Short entries, and the list of keys. */
  predicate GlobalEntries(es: Entries, keys: seq<string>) {
    |es| == 7 && es[6] == ("root-ssh-keys", Leaf(List(keys))) && forall i :: 0 <= i < 6 ==> ShortEntry(es[i])
  }

  predicate GoodText(v: Json, ok: string -> bool) {
    v.Text? && GoodField(v.s) && ok(v.s)
  }

  predicate OneShort(part: Part) {
    part.wrong == {} && |part.entries| == 1 && ShortEntry(part.entries[0])
  }

  lemma NeedIsShort(key: string, field: string, v: Json, ok: string -> bool)
    requires |key| <= 20 && GoodText(v, ok)
    ensures OneShort(NeedEntry(key, field, v, AnswerBuilder.TextIs(v, ok)))
  {
    NeedIsGiven(key, field, v, ok);
  }

  lemma FqdnIsShort(v: Json)
    requires GoodText(v, s => FqdnOk(s, true))
    ensures OneShort(Fqdn(v))
  {
    hide FqdnOk;
    FqdnIsGiven(v);
  }

  lemma SevenParts(a: Part, b: Part, c: Part, d: Part, e: Part, f: Part, keys: seq<string>)
    requires OneShort(a) && OneShort(b) && OneShort(c) && OneShort(d) && OneShort(e) && OneShort(f)
    ensures var all := Both(a, Both(b, Both(c, Both(d, Both(e, Both(f, Adds("root-ssh-keys", Leaf(List(keys)))))))));
            all.wrong == {} && GlobalEntries(all.entries, keys)
  {
    hide ShortEntry;
  }

  lemma GlobalAddsUp(p: Patterns, g: map<string, Json>, keys: seq<string>)
    requires GoodText(Get(g, "keyboard"), s => KeyboardOk(s)) && GoodText(Get(g, "country"), s => CountryOk(s))
    requires GoodText(Get(g, "fqdn"), s => FqdnOk(s, true))
    requires GoodText(Get(g, "mailto"), s => MailOk(p, s)) && GoodText(Get(g, "timezone"), s => TimezoneOk(p, s))
    requires GoodText(Get(g, "root_password_hashed"), p.crypt)
    requires SshKeys(p, Get(g, "root_ssh_keys")) == Adds("root-ssh-keys", Leaf(List(keys)))
    ensures var part := Global(p, g); part.wrong == {} && GlobalEntries(part.entries, keys)
  {
    hide Get, SshKeys, Fqdn, KeyboardOk, CountryOk, FqdnOk, TimezoneOk, MailOk, GoodText, NeedEntry, AnswerBuilder.TextIs, OneShort, GlobalEntries, Both;
    KeysAreShort();
    NeedIsShort("keyboard", "global.keyboard", Get(g, "keyboard"), s => KeyboardOk(s));
    NeedIsShort("country", "global.country", Get(g, "country"), s => CountryOk(s));
    FqdnIsShort(Get(g, "fqdn"));
    NeedIsShort("mailto", "global.mailto", Get(g, "mailto"), s => MailOk(p, s));
    NeedIsShort("timezone", "global.timezone", Get(g, "timezone"), s => TimezoneOk(p, s));
    NeedIsShort("root-password-hashed", "global.root_password_hashed", Get(g, "root_password_hashed"), p.crypt);
    SevenParts(NeedEntry("keyboard", "global.keyboard", Get(g, "keyboard"), AnswerBuilder.TextIs(Get(g, "keyboard"), s => KeyboardOk(s))),
               NeedEntry("country", "global.country", Get(g, "country"), AnswerBuilder.TextIs(Get(g, "country"), s => CountryOk(s))),
               Fqdn(Get(g, "fqdn")),
               NeedEntry("mailto", "global.mailto", Get(g, "mailto"), AnswerBuilder.TextIs(Get(g, "mailto"), s => MailOk(p, s))),
               NeedEntry("timezone", "global.timezone", Get(g, "timezone"), AnswerBuilder.TextIs(Get(g, "timezone"), s => TimezoneOk(p, s))),
               NeedEntry("root-password-hashed", "global.root_password_hashed", Get(g, "root_password_hashed"),
                         AnswerBuilder.TextIs(Get(g, "root_password_hashed"), p.crypt)),
               keys);
  }

  lemma KeysAreShort()
    ensures |"keyboard"| <= 20 && |"country"| <= 20 && |"fqdn"| <= 20 && |"mailto"| <= 20 && |"timezone"| <= 20
    ensures |"root-password-hashed"| <= 20
  {
  }

  lemma GlobalIsRight(p: Patterns, n: nat, key: string, mail: string, hash: string)
    requires 0 < n <= MAX_SSH_KEYS
    requires key != "" && !Unprintable(key) && |key| <= MAX_SSH_KEY && p.sshKey(key)
    requires GoodField(mail) && MailOk(p, mail) && GoodField(hash) && p.crypt(hash) && p.timezone("UTC")
    ensures var part := Global(p, GlobalFields(n, key, mail, hash));
            part.wrong == {} && GlobalEntries(part.entries, Copies(n, key))
  {
    NamesAreGood();
    KeysPart(p, n, key);
    FieldsAre(n, key, mail, hash);
    UtcIsGood(p);
    hide Global, Get, GlobalFields, SshKeys, Copies, KeyboardOk, CountryOk, FqdnOk, TimezoneOk, MailOk, GoodField, Unprintable;
    GlobalAddsUp(p, GlobalFields(n, key, mail, hash), Copies(n, key));
  }

  lemma RestIsRight(p: Patterns)
    ensures Network(p, NetworkFields(), map[]) == Adds("source", Leaf(Str("from-dhcp")))
    ensures forall g, net, nic :: DiskSetup(p, Form(g, net, DiskFields(), nic, map[], [Text("sda")]))
                                  == Part([("filesystem", Leaf(Str("ext4"))), ("disk-list", Leaf(List(["sda"])))], {})
  {
    var disks := [Text("sda")];
    assert disks[1..] == [] && Texts([]) == Some([]);
    assert Texts(disks) == Some(["sda"] + []) && ["sda"] + [] == ["sda"];
    assert DiskName("sda") && !DiskPath("sda");
  }

  /** The guided setup takes the form, whatever its keys hold. */
  lemma FormIsTaken(p: Patterns, n: nat, key: string, mail: string, hash: string)
    requires 0 < n <= MAX_SSH_KEYS
    requires key != "" && !Unprintable(key) && |key| <= MAX_SSH_KEY && p.sshKey(key)
    requires GoodField(mail) && MailOk(p, mail) && GoodField(hash) && p.crypt(hash) && p.timezone("UTC")
    ensures BuildAnswer(p, FormWith(n, key, mail, hash)).Answer?
    ensures exists es :: GlobalEntries(es, Copies(n, key))
              && BuildAnswer(p, FormWith(n, key, mail, hash)).text
                 == Emit([Section("global", es), Section("network", [("source", Leaf(Str("from-dhcp")))]),
                          Section("disk-setup", [("filesystem", Leaf(Str("ext4"))), ("disk-list", Leaf(List(["sda"])))])])
  {
    hide Shape, Global, Network, DiskSetup, Emit, Copies, Unprintable;
    ShapeIs(n, key, mail, hash);
    GlobalIsRight(p, n, key, mail, hash);
    RestIsRight(p);
    var form := Shape(FormWith(n, key, mail, hash)).value;
    assert GlobalEntries(Global(p, form.g).entries, Copies(n, key));
  }

  /** Fifty SSH keys of more than 5243 characters each, all within the limits of the form, and
      the guided setup builds a file that the check turns away. */
  lemma TooManyKeys(p: Patterns, key: string, mail: string, hash: string)
    requires 5243 <= |key| <= MAX_SSH_KEY && !Unprintable(key) && p.sshKey(key)
    requires GoodField(mail) && MailOk(p, mail) && GoodField(hash) && p.crypt(hash) && p.timezone("UTC")
    ensures BuildAnswer(p, FormWith(MAX_SSH_KEYS, key, mail, hash)).Answer?
    ensures ValidateAnswer(p, BuildAnswer(p, FormWith(MAX_SSH_KEYS, key, mail, hash)).text) != {}
  {
    hide BuildAnswer, ValidateAnswer, Emit, Copies, Unprintable, FormWith;
    var n := MAX_SSH_KEYS;
    FormIsTaken(p, n, key, mail, hash);
    var net, disk: Entries := [("source", Leaf(Str("from-dhcp")))], [("filesystem", Leaf(Str("ext4"))), ("disk-list", Leaf(List(["sda"])))];
    var es :| GlobalEntries(es, Copies(n, key))
              && BuildAnswer(p, FormWith(n, key, mail, hash)).text
                 == Emit([Section("global", es), Section("network", net), Section("disk-setup", disk)]);
    FileHoldsKeys([Section("global", es), Section("network", net), Section("disk-setup", disk)], 6, Copies(n, key));
    CopiesAreLong(key, n);
    BuilderAgreesWithCheck(p, FormWith(n, key, mail, hash));
  }

  // ----- a file that is not too large -----

  /** What lines take, each with its break. */
  function Size(lines: seq<string>): nat {
    if lines == [] then 0 else |lines[0]| + 1 + Size(lines[1..])
  }

  lemma {:induction false} SizeInParts(a: seq<string>, b: seq<string>)
    ensures Size(a + b) == Size(a) + Size(b)
  {
    if a == [] {
      assert a + b == b;
    } else {
      assert (a + b)[1..] == a[1..] + b;
      SizeInParts(a[1..], b);
    }
  }

  lemma {:induction false} JoinFits(lines: seq<string>)
    ensures |Join(lines)| <= Size(lines)
  {
    if |lines| > 1 {
      JoinFits(lines[1..]);
    }
  }

  lemma EscapeIsShort(c: char)
    ensures |Escape(c)| <= 6
  {
  }

  lemma {:induction false} EscapesAreShort(s: string)
    ensures |Escapes(s)| <= 6 * |s|
  {
    hide Escape;
    if s != [] {
      EscapeIsShort(s[0]);
      EscapesAreShort(s[1..]);
    }
  }

  lemma LineSize(line: string)
    ensures Size([line]) == |line| + 1
  {
    assert [line][1..] == [];
  }

  /** A short entry in front takes at most 1556 characters. */
  lemma ShortSize(e: (string, Node), rest: Entries)
    requires ShortEntry(e)
    ensures Size(EntryLines([e] + rest)) <= 1556 + Size(EntryLines(rest))
  {
    hide Size, Escapes;
    EscapesAreShort(e.1.value.text);
    var line := e.0 + " = " + Show(e.1.value);
    assert ([e] + rest)[1..] == rest;
    LineSize(line);
    SizeInParts([line], EntryLines(rest));
  }

  lemma ListSize(key: string, item: string, rest: Entries)
    requires |key| <= 20
    ensures Size(EntryLines([(key, Leaf(List([item])))] + rest)) <= 28 + 6 * |item| + Size(EntryLines(rest))
  {
    hide Size, Escapes;
    EscapesAreShort(item);
    var e: (string, Node) := (key, Leaf(List([item])));
    var line := key + " = " + Show(e.1.value);
    assert ([e] + rest)[1..] == rest;
    LineSize(line);
    SizeInParts([line], EntryLines(rest));
  }

  lemma NoSize()
    ensures Size(EntryLines([])) == 0 && Size(Lines([])) == 0
  {
  }

  lemma SectionSize(s: Section, rest: seq<Section>)
    requires |s.name| <= 20
    ensures Size(Lines([s] + rest)) <= 24 + Size(EntryLines(s.entries)) + Size(Lines(rest))
  {
    hide Size, EntryLines;
    assert ([s] + rest)[1..] == rest;
    var header := ["[" + s.name + "]"];
    LineSize(header[0]);
    LineSize("");
    SizeInParts(header, EntryLines(s.entries));
    SizeInParts(header + EntryLines(s.entries), [""]);
    SizeInParts(header + EntryLines(s.entries) + [""], Lines(rest));
  }

  lemma GlobalSize(es: Entries, key: string)
    requires GlobalEntries(es, [key])
    ensures Size(EntryLines(es)) <= 6 * 1556 + 28 + 6 * |key|
  {
    hide Size, EntryLines, ShortEntry;
    NoSize();
    ListSize("root-ssh-keys", key, []);
    assert es[6..] == [es[6]] + [];
    ShortSize(es[5], es[6..]);
    assert es[5..] == [es[5]] + es[6..];
    ShortSize(es[4], es[5..]);
    assert es[4..] == [es[4]] + es[5..];
    ShortSize(es[3], es[4..]);
    assert es[3..] == [es[3]] + es[4..];
    ShortSize(es[2], es[3..]);
    assert es[2..] == [es[2]] + es[3..];
    ShortSize(es[1], es[2..]);
    assert es[1..] == [es[1]] + es[2..];
    ShortSize(es[0], es[1..]);
    assert es == [es[0]] + es[1..];
  }

  lemma RestSize(net: Entries, disk: Entries)
    requires net == [("source", Leaf(Str("from-dhcp")))]
    requires disk == [("filesystem", Leaf(Str("ext4"))), ("disk-list", Leaf(List(["sda"])))]
    ensures Size(EntryLines(net)) + Size(EntryLines(disk)) <= 3158
  {
    hide Size, EntryLines;
    NoSize();
    ShortSize(net[0], []);
    assert net == [net[0]] + [];
    ListSize("disk-list", "sda", []);
    assert disk[1..] == [disk[1]] + [];
    ShortSize(disk[0], disk[1..]);
    assert disk == [disk[0]] + disk[1..];
  }

  /** A form with one key makes a file the check takes. */
  lemma OneKeyFits(p: Patterns, key: string, mail: string, hash: string)
    requires key != "" && !Unprintable(key) && |key| <= MAX_SSH_KEY && p.sshKey(key)
    requires GoodField(mail) && MailOk(p, mail) && GoodField(hash) && p.crypt(hash) && p.timezone("UTC")
    ensures BuildAnswer(p, FormWith(1, key, mail, hash)).Answer?
    ensures ValidateAnswer(p, BuildAnswer(p, FormWith(1, key, mail, hash)).text) == {}
  {
    hide BuildAnswer, ValidateAnswer, Lines, Unprintable, FormWith, Size, EntryLines, GlobalEntries, Join;
    FormIsTaken(p, 1, key, mail, hash);
    CopyMore(1, key);
    CopyMore(0, key);
    assert Copies(1, key) == [key];
    var net, disk: Entries := [("source", Leaf(Str("from-dhcp")))], [("filesystem", Leaf(Str("ext4"))), ("disk-list", Leaf(List(["sda"])))];
    var es :| GlobalEntries(es, [key])
              && BuildAnswer(p, FormWith(1, key, mail, hash)).text
                 == Emit([Section("global", es), Section("network", net), Section("disk-setup", disk)]);
    GlobalSize(es, key);
    RestSize(net, disk);
    NoSize();
    var a, b, c := Section("global", es), Section("network", net), Section("disk-setup", disk);
    SectionSize(c, []);
    assert [c] + [] == [c];
    SectionSize(b, [c]);
    assert [b] + [c] == [b, c];
    SectionSize(a, [b, c]);
    assert [a] + [b, c] == [a, b, c];
    JoinFits(Lines([a, b, c]));
    BuilderAgreesWithCheck(p, FormWith(1, key, mail, hash));
  }
}
