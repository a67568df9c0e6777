/** The guided setup and the check agree, and the guided setup never trips over itself. */
module AnswerAgreement {
  import opened Wrappers
  import opened PythonText
  import opened Toml
  import opened TomlPrinter
  import opened TomlRoundTrip
  import opened AnswerRules
  import opened AnswerBuilder
  import opened AnswerChecker
  import opened AnswerLookup
  import opened Webhook
  import opened WebhookReads

  type Entries = seq<(string, Node)>

  const FILTER_KEYS: seq<string> := NIC_FILTER_KEYS + DISK_FILTER_KEYS

  // ----- what the parts of a form without wrong fields add -----

  /** A sub-table the guided setup adds. */
  predicate FitSub(node: Node) {
    node.Sub? ==>
      && node.entries != []
      && DistinctKeys(node.entries)
      && forall i :: 0 <= i < |node.entries| ==> node.entries[i].0 in ["source", "domain", "raid"] + FILTER_KEYS
  }

  /** The host name of a file, from the form. */
  predicate FqdnNode(node: Node) {
    match node
    case Leaf(Str(s)) => s != "" && FqdnOk(s, true)
    case Sub(es) =>
      || es == [("source", Str("from-dhcp"))]
      || (|es| == 2 && es[0] == ("source", Str("from-dhcp")) && es[1].0 == "domain" && es[1].1.Str?
          && es[1].1.text != "" && FqdnOk(es[1].1.text, false))
    case _ => false
  }

  predicate TextNode(node: Node, ok: string -> bool) {
    node.Leaf? && node.value.Str? && node.value.text != "" && ok(node.value.text)
  }

  predicate KeysListed(es: Entries) {
    && |es| in [6, 7]
    && es[0].0 == "keyboard" && es[1].0 == "country" && es[2].0 == "fqdn" && es[3].0 == "mailto"
    && es[4].0 == "timezone" && es[5].0 == "root-password-hashed" && (|es| == 7 ==> es[6].0 == "root-ssh-keys")
  }

  predicate GlobalFit(p: Patterns, es: Entries) {
    && KeysListed(es)
    && TextNode(es[0].1, s => KeyboardOk(s)) && TextNode(es[1].1, s => CountryOk(s))
    && FqdnNode(es[2].1)
    && TextNode(es[3].1, s => MailOk(p, s)) && TextNode(es[4].1, s => TimezoneOk(p, s))
    && TextNode(es[5].1, p.crypt)
    && (|es| == 7 ==> es[6].1.Leaf?)
  }

  lemma NeedFits(key: string, field: string, v: Json, ok: string -> bool)
    requires NeedEntry(key, field, v, AnswerBuilder.TextIs(v, ok)).wrong == {}
    ensures var es := NeedEntry(key, field, v, AnswerBuilder.TextIs(v, ok)).entries;
            |es| == 1 && es[0].0 == key && TextNode(es[0].1, ok)
  {
  }

  lemma FqdnFits(v: Json)
    requires Fqdn(v).wrong == {}
    ensures var es := Fqdn(v).entries; |es| == 1 && es[0].0 == "fqdn" && FqdnNode(es[0].1)
  {
    hide FqdnOk;
  }

  lemma GlobalFits(p: Patterns, g: map<string, Json>)
    requires Global(p, g).wrong == {}
    ensures GlobalFit(p, Global(p, g).entries)
  {
    hide NeedEntry, Fqdn, SshKeys, KeyboardOk, CountryOk, MailOk, TimezoneOk, FqdnNode;
    NeedFits("keyboard", "global.keyboard", Get(g, "keyboard"), s => KeyboardOk(s));
    NeedFits("country", "global.country", Get(g, "country"), s => CountryOk(s));
    FqdnFits(Get(g, "fqdn"));
    NeedFits("mailto", "global.mailto", Get(g, "mailto"), s => MailOk(p, s));
    NeedFits("timezone", "global.timezone", Get(g, "timezone"), s => TimezoneOk(p, s));
    NeedFits("root-password-hashed", "global.root_password_hashed", Get(g, "root_password_hashed"), p.crypt);
    SshKeysFit(p, Get(g, "root_ssh_keys"));
  }

  lemma SshKeysFit(p: Patterns, v: Json)
    ensures var es := SshKeys(p, v).entries; es == [] || (|es| == 1 && es[0].0 == "root-ssh-keys" && es[0].1.Leaf?)
  {
  }

  predicate FilterNode(node: Node, names: seq<string>) {
    node.Sub? && |node.entries| == 1 && node.entries[0].0 in names
  }

  lemma FilterFits(field: string, names: seq<string>, filter: map<string, Json>, ok: (string, string) -> bool)
    requires Filter(field, names, filter, ok).wrong == {}
    ensures var es := Filter(field, names, filter, ok).entries;
            |es| == 1 && es[0].0 == "filter" && FilterNode(es[0].1, names)
  {
  }

  predicate NetworkFit(es: Entries) {
    || es == [("source", Leaf(Str("from-dhcp")))]
    || (&& |es| == 5 && es[0] == ("source", Leaf(Str("from-answer")))
        && es[1].0 == "cidr" && TextNode(es[1].1, s => true)
        && es[2].0 == "dns" && TextNode(es[2].1, s => true)
        && es[3].0 == "gateway" && TextNode(es[3].1, s => true)
        && es[4].0 == "filter" && FilterNode(es[4].1, NIC_FILTER_KEYS))
  }

  lemma NetworkFits(p: Patterns, net: map<string, Json>, filter: map<string, Json>)
    requires Network(p, net, filter).wrong == {}
    ensures NetworkFit(Network(p, net, filter).entries)
  {
    hide NeedEntry, Filter, FilterNode;
    if Get(net, "source") == Text("from-answer") {
      NeedFits("cidr", "network.cidr", Get(net, "cidr"), p.cidr);
      NeedFits("dns", "network.dns", Get(net, "dns"), p.ip);
      NeedFits("gateway", "network.gateway", Get(net, "gateway"), p.ip);
      FilterFits("network.filter", NIC_FILTER_KEYS, filter, (prop, s) => if prop == "ID_NET_NAME_MAC" then p.macGlob(s) else p.glob(s));
    }
  }

  /** The level of the filesystem a disk section is for. */
  predicate RaidFit(fs: Filesystem, level: Option<string>, es: Entries) {
    && |es| >= 1 && es[0] == ("filesystem", Leaf(Str(NameOf(fs))))
    && (if HasRaid(fs) then
          && level.Some? && RaidMin(fs, level.value).Some?
          && |es| == 2 && es[1] == (NameOf(fs), Sub([("raid", Str(level.value))]))
        else level == None && |es| == 1)
  }

  predicate DisksFit(fs: Filesystem, level: Option<string>, es: Entries) {
    && |es| == 1
    && ((es[0].0 == "filter" && FilterNode(es[0].1, DISK_FILTER_KEYS))
        || (&& es[0].0 == "disk-list" && es[0].1.Leaf? && es[0].1.value.List?
            && es[0].1.value.items != [] && DiskListOk(Some(fs), level, es[0].1.value.items)
            && forall d :: d in es[0].1.value.items ==> d != "" && !DiskPath(d)))
  }

  predicate DiskFit(fs: Filesystem, level: Option<string>, es: Entries) {
    && |es| >= 2 && RaidFit(fs, level, es[..|es| - 1]) && DisksFit(fs, level, es[|es| - 1..])
  }

  lemma {:induction false} TextsKept(items: seq<Json>)
    requires Texts(items).Some?
    ensures |Texts(items).value| == |items|
  {
    if items != [] {
      TextsKept(items[1..]);
    }
  }

  lemma DisksFits(p: Patterns, fs: Filesystem, level: Option<string>, disks: seq<Json>, filter: map<string, Json>)
    requires Disks(p, Some(fs), level, disks, filter).wrong == {}
    ensures DisksFit(fs, level, Disks(p, Some(fs), level, disks, filter).entries)
  {
    hide DiskListOk, FilterNode, DiskPath;
    if disks == [] {
      FilterFits("disk.filter", DISK_FILTER_KEYS, filter, (prop, s) => p.glob(s));
    } else {
      TextsKept(disks);
    }
  }

  lemma DiskFits(p: Patterns, form: Form)
    requires DiskSetup(p, form).wrong == {}
    ensures exists fs, level :: DiskFit(fs, level, DiskSetup(p, form).entries)
  {
    hide Disks, DisksFit, RaidMin;
    var known := FilesystemOf(Get(form.disk, "filesystem"));
    var raid := Get(form.disk, "raid");
    var fs := known.value;
    var level := LevelOf(fs, raid);
    NoLevelWithoutRaid(fs, raid);
    DisksFits(p, fs, level, form.disks, form.diskFilter);
    var a, b := Raid(known, raid).entries, Disks(p, known, level, form.disks, form.diskFilter).entries;
    OneDisks(fs, level, b);
    assert (a + b)[..|a|] == a && (a + b)[|a|..] == b;
    assert DiskFit(fs, level, a + b);
  }

  lemma OneDisks(fs: Filesystem, level: Option<string>, es: Entries)
    requires DisksFit(fs, level, es)
    ensures |es| == 1
  {
  }

  lemma NoLevelWithoutRaid(fs: Filesystem, v: Json)
    ensures !HasRaid(fs) ==> LevelOf(fs, v) == None
  {
  }

  // ----- what they add is fit for the printer -----

  predicate Fit(es: Entries) {
    WellFormedEntries(es) && forall i :: 0 <= i < |es| && es[i].1.Sub? ==> es[i].1.entries != []
  }

  lemma SubKeysAreBare(k: string)
    requires k in ["source", "domain", "raid"] + FILTER_KEYS
    ensures Bare(k)
  {
  }

  lemma SubIsFit(node: Node)
    requires FitSub(node) && node.Sub?
    ensures DistinctKeys(node.entries) && forall j :: 0 <= j < |node.entries| ==> Bare(node.entries[j].0)
  {
    forall j | 0 <= j < |node.entries| ensures Bare(node.entries[j].0) {
      SubKeysAreBare(node.entries[j].0);
    }
  }

  lemma AllFit(es: Entries)
    requires DistinctKeys(es) && forall i :: 0 <= i < |es| ==> Bare(es[i].0) && FitSub(es[i].1)
    ensures Fit(es)
  {
    forall i | 0 <= i < |es| && es[i].1.Sub?
      ensures DistinctKeys(es[i].1.entries) && forall j :: 0 <= j < |es[i].1.entries| ==> Bare(es[i].1.entries[j].0)
    {
      SubIsFit(es[i].1);
    }
  }

  lemma GlobalIsFit(p: Patterns, es: Entries)
    requires GlobalFit(p, es)
    ensures Fit(es)
  {
    hide KeyboardOk, CountryOk, MailOk, TimezoneOk, FqdnNode, FitSub, DistinctKeys, Bare;
    GlobalKeysAreDistinct(es);
    GlobalKeysAreBare(es);
    FqdnIsFit(es[2].1);
    LeavesFit(es);
    AllFit(es);
  }

  lemma LeavesFit(es: Entries)
    ensures forall i :: 0 <= i < |es| && es[i].1.Leaf? ==> FitSub(es[i].1)
  {
  }

  lemma FqdnIsFit(node: Node)
    requires FqdnNode(node)
    ensures FitSub(node)
  {
    hide FqdnOk;
  }

  lemma GlobalKeysAreDistinct(es: Entries)
    requires KeysListed(es)
    ensures DistinctKeys(es)
  {
  }

  lemma GlobalKeysAreBare(es: Entries)
    requires KeysListed(es)
    ensures forall i :: 0 <= i < |es| ==> Bare(es[i].0)
  {
    assert Bare("keyboard") && Bare("country") && Bare("fqdn") && Bare("mailto");
    assert Bare("timezone") && Bare("root-password-hashed") && Bare("root-ssh-keys");
  }

  lemma NetworkIsFit(es: Entries)
    requires NetworkFit(es)
    ensures Fit(es)
  {
    AllFit(es);
  }

  lemma DiskIsFit(fs: Filesystem, level: Option<string>, es: Entries)
    requires DiskFit(fs, level, es)
    ensures Fit(es)
  {
    hide DiskListOk, RaidMin, DiskPath;
    AllFit(es);
  }

  // ----- the check has nothing to say -----

  /** The section n of a file, read back, is es. */
  ghost predicate ReadsAs(d: Data<Value>, n: string, es: Entries) {
    [n] in d.tables && forall k :: At(d, n, k) == FoundOf(Lookup(es, k))
  }

  lemma TextFound(node: Node, ok: string -> bool)
    requires TextNode(node, ok)
    ensures Truthy(FoundOf(Some(node))) && AnswerChecker.TextIs(FoundOf(Some(node)), ok)
  {
  }

  lemma FqdnChecks(node: Node)
    requires FqdnNode(node)
    ensures FqdnErrors(FoundOf(Some(node))) == {}
  {
    hide FqdnOk;
    if node.Sub? && |node.entries| == 2 {
      var es := node.entries;
      assert es[..1] == [es[0]] && es[..1][..0] == [];
      assert DictOf(es[..1]) == map["source" := Str("from-dhcp")];
      assert DictOf(es) == map["source" := Str("from-dhcp"), "domain" := es[1].1];
    } else if node.Sub? {
      assert node.entries[..0] == [];
      assert DictOf(node.entries) == map["source" := Str("from-dhcp")];
    }
  }

  lemma NoPasswordInClear(es: Entries)
    requires KeysListed(es)
    ensures Lookup(es, "root-password") == None && Lookup(es, "root_password") == None && Lookup(es, "root_password_hashed") == None
  {
    hide Lookup;
    LookupIs(es, "root-password");
    LookupIs(es, "root_password");
    LookupIs(es, "root_password_hashed");
  }

  lemma GlobalLookups(es: Entries)
    requires KeysListed(es)
    ensures Lookup(es, "keyboard") == Some(es[0].1) && Lookup(es, "country") == Some(es[1].1) && Lookup(es, "fqdn") == Some(es[2].1)
    ensures Lookup(es, "mailto") == Some(es[3].1) && Lookup(es, "timezone") == Some(es[4].1)
    ensures Lookup(es, "root-password-hashed") == Some(es[5].1)
  {
    hide Lookup, DistinctKeys;
    GlobalKeysAreDistinct(es);
    DistinctLookup(es, 0);
    DistinctLookup(es, 1);
    DistinctLookup(es, 2);
    DistinctLookup(es, 3);
    DistinctLookup(es, 4);
    DistinctLookup(es, 5);
  }

  lemma GlobalChecks(p: Patterns, d: Data<Value>, es: Entries)
    requires GlobalFit(p, es) && ReadsAs(d, "global", es)
    ensures GlobalErrors(p, d) == {}
  {
    hide KeyboardOk, CountryOk, MailOk, TimezoneOk, FqdnNode, FqdnErrors, At, Lookup, FoundOf, TextNode, AnswerChecker.TextIs, Truthy;
    GlobalLookups(es);
    NoPasswordInClear(es);
    FqdnChecks(es[2].1);
    TextFound(es[0].1, s => KeyboardOk(s));
    TextFound(es[1].1, s => CountryOk(s));
    TextFound(es[3].1, s => MailOk(p, s));
    TextFound(es[4].1, s => TimezoneOk(p, s));
    TextFound(es[5].1, p.crypt);
    MissingIsFalse();
    assert At(d, "global", "root-password") == Missing && At(d, "global", "root_password") == Missing by { NothingFound(); }
    assert At(d, "global", "root_password_hashed") == Missing by { NothingFound(); }
  }

  lemma NothingFound()
    ensures FoundOf(None) == Missing
  {
  }

  lemma MissingIsFalse()
    ensures !Truthy(Missing)
  {
  }

  lemma FilterFound(node: Node, names: seq<string>)
    requires FilterNode(node, names)
    ensures Truthy(FoundOf(Some(node)))
  {
    var es := node.entries;
    assert es[..0] == [];
    assert es[0].0 in DictOf(es);
  }

  lemma NetworkLookups(es: Entries)
    requires NetworkFit(es)
    ensures Lookup(es, "source") == Some(es[0].1)
    ensures |es| == 1 ==> Lookup(es, "cidr") == None && Lookup(es, "dns") == None && Lookup(es, "gateway") == None && Lookup(es, "filter") == None
    ensures |es| == 5 ==> Lookup(es, "cidr") == Some(es[1].1) && Lookup(es, "dns") == Some(es[2].1)
                          && Lookup(es, "gateway") == Some(es[3].1) && Lookup(es, "filter") == Some(es[4].1)
  {
    hide Lookup;
    NetworkIsFit(es);
    DistinctLookup(es, 0);
    if |es| == 1 {
      LookupIs(es, "cidr");
      LookupIs(es, "dns");
      LookupIs(es, "gateway");
      LookupIs(es, "filter");
    } else {
      DistinctLookup(es, 1);
      DistinctLookup(es, 2);
      DistinctLookup(es, 3);
      DistinctLookup(es, 4);
    }
  }

  lemma NetworkChecks(d: Data<Value>, es: Entries)
    requires NetworkFit(es) && ReadsAs(d, "network", es)
    ensures NetworkErrors(d) == {}
  {
    hide At, Lookup, TextNode, FilterNode;
    NetworkLookups(es);
    if |es| == 5 {
      TextFound(es[1].1, s => true);
      TextFound(es[2].1, s => true);
      TextFound(es[3].1, s => true);
      FilterFound(es[4].1, NIC_FILTER_KEYS);
      assert At(d, "network", "source") == Is(Str("from-answer"));
    }
  }

  lemma LevelsAreLowerCase(fs: Filesystem, level: string)
    requires RaidMin(fs, level).Some?
    ensures RaidLevel(fs, level) == Some(level) && level != ""
  {
    assert Lower(level) == level;
  }

  lemma NamesComeBack(fs: Filesystem)
    ensures Filesystems(NameOf(fs)) == Some(fs) && NameOf(fs) != ""
  {
  }

  /** The keys of a disk section. */
  predicate DiskKeys(fs: Filesystem, es: Entries) {
    && (if HasRaid(fs) then |es| == 3 && es[1].0 == NameOf(fs) else |es| == 2)
    && es[0].0 == "filesystem" && es[|es| - 1].0 in ["filter", "disk-list"]
  }

  lemma DiskKeysAre(fs: Filesystem, level: Option<string>, es: Entries)
    requires DiskFit(fs, level, es)
    ensures DiskKeys(fs, es)
  {
    hide RaidMin, DiskListOk, DiskPath, FilterNode;
    var raid, disks := es[..|es| - 1], es[|es| - 1..];
    assert raid[0] == es[0] && disks[0] == es[|es| - 1];
    assert |raid| == 2 ==> raid[1] == es[1];
  }

  lemma DiskLookups(fs: Filesystem, es: Entries)
    requires DiskKeys(fs, es) && DistinctKeys(es)
    ensures Lookup(es, "filesystem") == Some(es[0].1)
    ensures Lookup(es, es[|es| - 1].0) == Some(es[|es| - 1].1)
    ensures HasRaid(fs) ==> Lookup(es, NameOf(fs)) == Some(es[1].1)
  {
    hide Lookup, DistinctKeys;
    DistinctLookup(es, 0);
    DistinctLookup(es, |es| - 1);
    DistinctLookup(es, 1);
  }

  lemma DiskLacks(fs: Filesystem, es: Entries)
    requires DiskKeys(fs, es)
    ensures es[|es| - 1].0 == "filter" ==> Lookup(es, "disk-list") == None
    ensures es[|es| - 1].0 == "disk-list" ==> Lookup(es, "filter") == None
    ensures forall t :: t in ["lvm", "zfs", "btrfs"] && t != OptionsOf(fs) ==> Lookup(es, t) == None
  {
    hide Lookup;
    LookupIs(es, "disk-list");
    LookupIs(es, "filter");
    forall t | t in ["lvm", "zfs", "btrfs"] && t != OptionsOf(fs) ensures Lookup(es, t) == None {
      LookupIs(es, t);
    }
  }

  lemma LevelFound(d: Data<Value>, fs: Filesystem, level: Option<string>, es: Entries)
    requires DiskFit(fs, level, es) && ReadsAs(d, "disk-setup", es)
    ensures LevelIn(d, fs) == level && (HasRaid(fs) ==> level.Some?)
  {
    hide Lookup, At, RaidMin, RaidLevel, DisksFit, DistinctKeys;
    if HasRaid(fs) {
      assert es[1] == es[..|es| - 1][1];
      DiskIsFit(fs, level, es);
      DiskKeysAre(fs, level, es);
      DiskLookups(fs, es);
      LevelsAreLowerCase(fs, level.value);
      var raid := [("raid", Str(level.value))];
      assert raid[..0] == [];
      assert DictOf(raid) == map["raid" := Str(level.value)];
    }
  }

  lemma DiskChecks(d: Data<Value>, fs: Filesystem, level: Option<string>, es: Entries)
    requires DiskFit(fs, level, es) && ReadsAs(d, "disk-setup", es)
    ensures DiskErrors(d) == {}
  {
    hide Lookup, At, LevelIn, RaidMin, DiskListOk, DiskPath, FilterNode, DistinctKeys;
    DiskIsFit(fs, level, es);
    DiskKeysAre(fs, level, es);
    DiskLookups(fs, es);
    DiskLacks(fs, es);
    LevelFound(d, fs, level, es);
    NamesComeBack(fs);
    var last := es[|es| - 1];
    assert es[|es| - 1..] == [last] && es[0] == es[..|es| - 1][0];
    if last.0 == "filter" {
      FilterFound(last.1, DISK_FILTER_KEYS);
    }
    assert KnownFilesystem(At(d, "disk-setup", "filesystem")) == Some(fs);
    forall t | t in ["lvm", "zfs", "btrfs"] && t != OptionsOf(fs) ensures At(d, "disk-setup", t).Missing? {
      assert FoundOf(Lookup(es, t)) == Missing;
    }
  }

  // ----- the two agree -----

  lemma ModelIsFit(p: Patterns, form: Form)
    requires WrongFields(p, form) == {}
    ensures WellFormed(Model(p, form)) && NoEmptySub(Model(p, form))
  {
    hide Global, Network, DiskSetup, WellFormed, NoEmptySub, GlobalFit, NetworkFit, DiskFit, Fit;
    GlobalFits(p, form.g);
    GlobalIsFit(p, Global(p, form.g).entries);
    NetworkFits(p, form.net, form.nicFilter);
    NetworkIsFit(Network(p, form.net, form.nicFilter).entries);
    DiskFits(p, form);
    var fs, level :| DiskFit(fs, level, DiskSetup(p, form).entries);
    DiskIsFit(fs, level, DiskSetup(p, form).entries);
    SectionsFit(Global(p, form.g).entries, Network(p, form.net, form.nicFilter).entries, DiskSetup(p, form).entries);
  }

  lemma SectionsFit(g: Entries, net: Entries, disk: Entries)
    requires Fit(g) && Fit(net) && Fit(disk)
    ensures var model := [Section("global", g), Section("network", net), Section("disk-setup", disk)];
            WellFormed(model) && NoEmptySub(model)
  {
    hide WellFormedEntries;
    assert Bare("global") && Bare("network") && Bare("disk-setup");
  }

  /** What the guided setup prints reads back as the model it printed, so the check on its
      own output that raises never does. */
  lemma BuilderReadsBack(p: Patterns, fields: Json)
    requires BuildAnswer(p, fields).Answer?
    ensures Shape(fields).Some?
    ensures ReadText(BuildAnswer(p, fields).text, ReadValue) == Some(AsData(Model(p, Shape(fields).value)))
  {
    hide WrongFields, Model, ReadText, Emit, Shape;
    var form := Shape(fields).value;
    ModelIsFit(p, form);
    PrinterAndReaderAgree(Model(p, form));
  }

  lemma ModelReadsAs(model: seq<Section>, i: nat)
    requires WellFormed(model) && i < |model|
    ensures ReadsAs(AsData(model), model[i].name, model[i].entries)
  {
    hide At, FoundOf, Lookup, Values, WellFormedEntries;
    var n := model[i].name;
    NamedSection(model, i);
    forall k ensures At(AsData(model), n, k) == FoundOf(Lookup(model[i].entries, k)) {
      FoundInModel(model, n, k);
    }
    DataHasTwoParts(Data(map[], {}), model, true);
    HeaderThere(model, i);
  }

  lemma {:induction false} HeaderThere(model: seq<Section>, i: nat)
    requires i < |model|
    ensures [model[i].name] in Tables(model, true)
  {
    if i > 0 {
      HeaderThere(model[1..], i - 1);
    }
  }

  /** No value of the file is in another table than its sections. */
  lemma {:induction false} ValuesAreInSections(values: map<Key, Value>, model: seq<Section>, n: string)
    requires forall i :: 0 <= i < |model| ==> model[i].name != n
    requires forall key :: key in values ==> key != [] && key[0] != n
    ensures forall key :: key in Values(values, model) ==> key != [] && key[0] != n
    decreases |model|
  {
    hide WithEntries;
    if model != [] {
      EntriesAreInSection(values, model[0].name, model[0].entries, n);
      assert forall i :: 0 <= i < |model[1..]| ==> model[1..][i] == model[i + 1];
      ValuesAreInSections(WithEntries(values, model[0].name, model[0].entries), model[1..], n);
    }
  }

  lemma {:induction false} EntriesAreInSection(values: map<Key, Value>, m: string, entries: Entries, n: string)
    requires m != n && forall key :: key in values ==> key != [] && key[0] != n
    ensures forall key :: key in WithEntries(values, m, entries) ==> key != [] && key[0] != n
    decreases |entries|
  {
    if entries != [] {
      var v := WithNode(values, m, entries[0].0, entries[0].1);
      match entries[0].1 {
        case Leaf(x) => assert forall key :: key in v ==> key in values || key == [m, entries[0].0];
        case Sub(es) => SubAdds(values, m, entries[0].0, es);
      }
      EntriesAreInSection(v, m, entries[1..], n);
    }
  }

  lemma NoWebhookThere(model: seq<Section>, lines: seq<string>)
    requires forall i :: 0 <= i < |model| ==> model[i].name != WEBHOOK
    ensures ReplaceableWebhook(lines, AsData(model))
  {
    hide Values, Tables, SubTables;
    DataHasTwoParts(Data(map[], {}), model, true);
    ValuesAreInSections(map[], model, WEBHOOK);
    TableIs(model, true);
    forall t | t in Tables(model, true) ensures !Mine(t) {
      var i :| 0 <= i < |model| && (t == [model[i].name] || t in SubTables(model[i].name, model[i].entries, true));
      SubTableIs(model[i].name, model[i].entries, true);
    }
    forall k | k in AsData(model).values.Keys + AsData(model).tables ensures !Mine(k) {
      assert k in AsData(model).values || k in Tables(model, true);
    }
  }

  lemma FilesAreNotBlank(model: seq<Section>)
    requires model != []
    ensures Emit(model) != [] && !Space(Emit(model)[0])
  {
    var lines := Lines(model);
    assert lines[0][0] == '[';
  }

  lemma SectionChecks(p: Patterns, form: Form, d: Data<Value>)
    requires WrongFields(p, form) == {}
    requires ReadsAs(d, "global", Global(p, form.g).entries)
    requires ReadsAs(d, "network", Network(p, form.net, form.nicFilter).entries)
    requires ReadsAs(d, "disk-setup", DiskSetup(p, form).entries)
    ensures GlobalErrors(p, d) == {} && NetworkErrors(d) == {} && DiskErrors(d) == {}
  {
    hide Global, Network, DiskSetup, ReadsAs, GlobalErrors, NetworkErrors, DiskErrors, GlobalFit, NetworkFit, DiskFit;
    GlobalFits(p, form.g);
    GlobalChecks(p, d, Global(p, form.g).entries);
    NetworkFits(p, form.net, form.nicFilter);
    NetworkChecks(d, Network(p, form.net, form.nicFilter).entries);
    DiskFits(p, form);
    var fs, level :| DiskFit(fs, level, DiskSetup(p, form).entries);
    DiskChecks(d, fs, level, DiskSetup(p, form).entries);
  }

  lemma ModelChecks(p: Patterns, form: Form, lines: seq<string>)
    requires WrongFields(p, form) == {}
    ensures var d := AsData(Model(p, form));
            GlobalErrors(p, d) == {} && NetworkErrors(d) == {} && DiskErrors(d) == {} && ReplaceableWebhook(lines, d)
  {
    hide Global, Network, DiskSetup, WrongFields, WellFormed, NoEmptySub, ReadsAs, AsData, GlobalErrors, NetworkErrors, DiskErrors, ReplaceableWebhook;
    var model := Model(p, form);
    ModelIsFit(p, form);
    ModelReadsAs(model, 0);
    ModelReadsAs(model, 1);
    ModelReadsAs(model, 2);
    SectionChecks(p, form, AsData(model));
    NoWebhookThere(model, lines);
  }

  /** Whatever a browser sends: an answer file the guided setup gives back passes the check
      exactly when it is not over the size limit.  The guided setup has no limit of its own:
      fifty SSH keys of 16 KB make a file that is too large. */
  lemma BuilderAgreesWithCheck(p: Patterns, fields: Json)
    requires BuildAnswer(p, fields).Answer?
    ensures ValidateAnswer(p, BuildAnswer(p, fields).text) == {} <==> |BuildAnswer(p, fields).text| <= MAX_ANSWER
  {
    hide WrongFields, Model, ReadText, Emit, AsData, GlobalErrors, NetworkErrors, DiskErrors, ReplaceableWebhook, Shape, SplitLines, Space;
    var form := Shape(fields).value;
    var text := BuildAnswer(p, fields).text;
    BuilderReadsBack(p, fields);
    ModelChecks(p, form, SplitLines(text));
    ModelIsThree(p, form);
    FilesAreNotBlank(Model(p, form));
  }

  lemma ModelIsThree(p: Patterns, form: Form)
    ensures Model(p, form) != []
  {
  }
}
