/**
 What an answer file has to hold to pass the check (pegaprox/api/auto_install.py,
 validate_answer), said of what is found in the parsed file: the check refuses every other one.
 */
module AnswerDemands {
  import opened Wrappers
  import opened PythonText
  import opened Toml
  import opened AnswerRules
  import opened AnswerChecker
  import opened Webhook
  import opened WebhookReads

  /** Nothing there, or something empty. */
  predicate Empty(f: Found) {
    f == Missing || f == Is(Str("")) || f == Is(List([])) || f == Dict(map[])
  }

  /** A text that is not empty. */
  predicate Written(f: Found) {
    f.Is? && f.value.Str? && f.value.text != ""
  }

  // ----- host names -----

  function Dotted(labels: seq<string>): string
    requires labels != []
  {
    if |labels| == 1 then labels[0] else labels[0] + "." + Dotted(labels[1..])
  }

  /** Letters, digits and hyphens, up to 63, no hyphen at either end. */
  predicate HostLabel(s: string) {
    && 1 <= |s| <= 63 && s[0] != '-' && s[|s| - 1] != '-'
    && forall i :: 0 <= i < |s| ==>
         'a' <= s[i] <= 'z' || 'A' <= s[i] <= 'Z' || '0' <= s[i] <= '9' || s[i] == '-'
  }

  predicate SomeNoDigit(s: string) {
    exists i :: 0 <= i < |s| && !('0' <= s[i] <= '9')
  }

  predicate HostLabels(labels: seq<string>) {
    forall i :: 0 <= i < |labels| ==> HostLabel(labels[i])
  }

  /** s is such labels with dots between them, of 253 characters at most. */
  ghost predicate DomainName(s: string) {
    |s| <= 253 && exists labels: seq<string> :: labels != [] && HostLabels(labels) && s == Dotted(labels)
  }

  /** Two of them at least, and the first is not a number. */
  ghost predicate HostName(s: string) {
    |s| <= 253 && exists labels: seq<string> :: |labels| >= 2 && HostLabels(labels) && SomeNoDigit(labels[0]) && s == Dotted(labels)
  }

  lemma {:induction false} LabelsJoin(s: string)
    ensures Dotted(Labels(s)) == s
    ensures forall i :: 0 <= i < |Labels(s)| ==> '.' !in Labels(s)[i]
  {
    if s != [] {
      LabelsJoin(s[1..]);
      var rest := Labels(s[1..]);
      var all := Labels(s);
      assert s == [s[0]] + s[1..];
      if s[0] == '.' {
        assert all == [[]] + rest && all[1..] == rest;
      } else {
        assert all == [[s[0]] + rest[0]] + rest[1..] && all[1..] == rest[1..];
        forall i | 0 <= i < |all| ensures '.' !in all[i] {
          if i > 0 {
            assert all[i] == rest[i];
          }
        }
      }
    }
  }

  lemma {:induction false} LabelsFirst(part: string, rest: string)
    requires '.' !in part
    ensures Labels(part) == [part]
    ensures Labels(part + "." + rest) == [part] + Labels(rest)
  {
    var s := part + "." + rest;
    if part == [] {
      assert s[0] == '.' && s[1..] == rest;
    } else {
      assert s[0] == part[0] && s[1..] == part[1..] + "." + rest;
      LabelsFirst(part[1..], rest);
      assert [part[0]] + part[1..] == part;
    }
  }

  lemma {:induction false} LabelsOf(labels: seq<string>)
    requires labels != [] && forall i :: 0 <= i < |labels| ==> '.' !in labels[i]
    ensures Labels(Dotted(labels)) == labels
  {
    if |labels| == 1 {
      LabelsFirst(labels[0], "");
      assert labels == [labels[0]];
    } else {
      LabelsOf(labels[1..]);
      LabelsFirst(labels[0], Dotted(labels[1..]));
      assert [labels[0]] + labels[1..] == labels;
    }
  }

  lemma LabelIs(s: string)
    ensures Label(s) <==> HostLabel(s)
    ensures HostLabel(s) ==> '.' !in s
  {
  }

  lemma DigitsIs(s: string)
    ensures AllDigits(s) <==> !SomeNoDigit(s)
  {
  }

  /** The rule for names takes exactly the domain names, and with a host the host names. */
  lemma FqdnIff(s: string)
    ensures FqdnOk(s, false) <==> DomainName(s)
    ensures FqdnOk(s, true) <==> HostName(s)
  {
    hide Label, HostLabel, Labels, Dotted, AllDigits, SomeNoDigit;
    var labels := Labels(s);
    LabelsJoin(s);
    forall i | 0 <= i < |labels| ensures Label(labels[i]) <==> HostLabel(labels[i]) {
      LabelIs(labels[i]);
    }
    DigitsIs(labels[0]);
    forall other: seq<string> | other != [] && HostLabels(other) && s == Dotted(other) ensures other == labels {
      forall i | 0 <= i < |other| ensures '.' !in other[i] {
        LabelIs(other[i]);
      }
      LabelsOf(other);
    }
  }

  // ----- [global] -----

  ghost predicate FqdnDemands(f: Found) {
    || (Written(f) && HostName(f.value.text))
    || (&& f.Dict? && "source" in f.entries && f.entries["source"] == Str("from-dhcp")
        && ("domain" in f.entries && !Empty(Is(f.entries["domain"])) ==>
              f.entries["domain"].Str? && DomainName(f.entries["domain"].text)))
  }

  /** The first of the two spellings that is not empty. */
  function FirstGiven(a: Found, b: Found): Found {
    if Empty(a) then b else a
  }

  /** Exactly one form of the root password: in clear, of 8 bytes at least, or hashed. */
  predicate PasswordDemands(p: Patterns, plain: Found, hashed: Found) {
    || (!Empty(plain) && Empty(hashed) && Written(plain) && Utf8Length(plain.value.text) >= 8)
    || (Empty(plain) && !Empty(hashed) && Written(hashed) && p.crypt(hashed.value.text))
  }

  ghost predicate GlobalDemands(p: Patterns, d: Data<Value>) {
    var keyboard, country := At(d, "global", "keyboard"), At(d, "global", "country");
    var mailto, timezone := At(d, "global", "mailto"), At(d, "global", "timezone");
    && ["global"] in d.tables
    && Written(keyboard) && keyboard.value.text in KEYBOARDS
    && Written(country) && |country.value.text| == 2 && (forall i :: 0 <= i < 2 ==> 'a' <= country.value.text[i] <= 'z')
    && Written(mailto) && p.mail(mailto.value.text) && mailto.value.text != "mail@example.invalid"
    && Written(timezone) && p.timezone(timezone.value.text) && !("Etc/" <= timezone.value.text)
    && FqdnDemands(At(d, "global", "fqdn"))
    && PasswordDemands(p, FirstGiven(At(d, "global", "root-password"), At(d, "global", "root_password")),
                       FirstGiven(At(d, "global", "root-password-hashed"), At(d, "global", "root_password_hashed")))
  }

  lemma EmptyIs(f: Found)
    ensures Truthy(f) <==> !Empty(f)
    ensures forall ok: string -> bool :: AnswerChecker.TextIs(f, ok) ==> f.Is? && f.value.Str? && ok(f.value.text)
  {
  }

  lemma FqdnAsked(f: Found)
    ensures FqdnErrors(f) == {} <==> FqdnDemands(f)
  {
    hide FqdnOk, HostName, DomainName;
    if Written(f) {
      FqdnIff(f.value.text);
    } else if f.Dict? && "domain" in f.entries && f.entries["domain"].Str? {
      FqdnIff(f.entries["domain"].text);
    }
  }

  lemma PasswordAsked(p: Patterns, a: Found, b: Found, x: Found, y: Found)
    ensures PasswordErrors(p, Or(a, b), Or(x, y)) == {} <==> PasswordDemands(p, FirstGiven(a, b), FirstGiven(x, y))
  {
    hide Utf8Length;
  }

  /** A key that has to hold a text of some kind. */
  lemma TextAsked(f: Found, ok: string -> bool)
    ensures !(!Truthy(f) || !AnswerChecker.TextIs(f, ok)) <==> Written(f) && ok(f.value.text)
  {
  }

  lemma GlobalAsked(p: Patterns, d: Data<Value>)
    ensures GlobalErrors(p, d) == {} <==> GlobalDemands(p, d)
  {
    hide At, Truthy, AnswerChecker.TextIs, FqdnErrors, PasswordErrors, FqdnDemands, PasswordDemands, Or, FirstGiven, Written;
    TextAsked(At(d, "global", "keyboard"), s => KeyboardOk(s));
    TextAsked(At(d, "global", "country"), s => CountryOk(s));
    TextAsked(At(d, "global", "mailto"), s => MailOk(p, s));
    TextAsked(At(d, "global", "timezone"), s => TimezoneOk(p, s));
    FqdnAsked(At(d, "global", "fqdn"));
    PasswordAsked(p, At(d, "global", "root-password"), At(d, "global", "root_password"),
                  At(d, "global", "root-password-hashed"), At(d, "global", "root_password_hashed"));
    var country, mailto, timezone := At(d, "global", "country"), At(d, "global", "mailto"), At(d, "global", "timezone");
    WrittenIsText(country);
    WrittenIsText(mailto);
    WrittenIsText(timezone);
    WrittenIsText(At(d, "global", "keyboard"));
    assert Written(country) && CountryOk(country.value.text) <==>
           Written(country) && |country.value.text| == 2 && (forall i :: 0 <= i < 2 ==> 'a' <= country.value.text[i] <= 'z');
    assert Written(mailto) && MailOk(p, mailto.value.text) <==>
           Written(mailto) && p.mail(mailto.value.text) && mailto.value.text != "mail@example.invalid";
    assert Written(timezone) && TimezoneOk(p, timezone.value.text) <==>
           Written(timezone) && p.timezone(timezone.value.text) && !("Etc/" <= timezone.value.text);
    assert GlobalErrors(p, d) == {} <==>
        && ["global"] in d.tables
        && !(!Truthy(At(d, "global", "keyboard")) || !AnswerChecker.TextIs(At(d, "global", "keyboard"), s => KeyboardOk(s)))
        && !(!Truthy(At(d, "global", "country")) || !AnswerChecker.TextIs(At(d, "global", "country"), s => CountryOk(s)))
        && !(!Truthy(At(d, "global", "mailto")) || !AnswerChecker.TextIs(At(d, "global", "mailto"), s => MailOk(p, s)))
        && !(!Truthy(At(d, "global", "timezone")) || !AnswerChecker.TextIs(At(d, "global", "timezone"), s => TimezoneOk(p, s)))
        && FqdnErrors(At(d, "global", "fqdn")) == {}
        && PasswordErrors(p, Or(At(d, "global", "root-password"), At(d, "global", "root_password")),
                          Or(At(d, "global", "root-password-hashed"), At(d, "global", "root_password_hashed"))) == {};
  }

  lemma WrittenIsText(f: Found)
    ensures Written(f) ==> f.Is? && f.value.Str?
  {
  }

  // ----- [network] -----

  /** By DHCP and with nothing left over from a static form, or with the whole of one. */
  predicate NetworkDemands(d: Data<Value>) {
    var (cidr, dns) := (At(d, "network", "cidr"), At(d, "network", "dns"));
    var (gateway, filter) := (At(d, "network", "gateway"), At(d, "network", "filter"));
    && ["network"] in d.tables
    && match At(d, "network", "source")
       case Is(Str("from-dhcp")) => cidr == Missing && dns == Missing && gateway == Missing && filter == Missing
       case Is(Str("from-answer")) => !Empty(cidr) && !Empty(dns) && !Empty(gateway) && !Empty(filter)
       case _ => false
  }

  lemma NetworkAsked(d: Data<Value>)
    ensures NetworkErrors(d) == {} <==> NetworkDemands(d)
  {
    hide At;
  }

  // ----- [disk-setup] -----

  /** The levels of zfs, of which btrfs has the first three. */
  predicate HasLevel(fs: string, level: string) {
    level in ["raid0", "raid1", "raid10"] || (fs == "zfs" && level in ["raidz-1", "raidz-2", "raidz-3"])
  }

  predicate EnoughDisks(level: string, disks: nat) {
    && (level == "raid1" ==> disks >= 2) && (level == "raid10" ==> disks >= 4 && disks % 2 == 0)
    && (level == "raidz-1" ==> disks >= 3) && (level == "raidz-2" ==> disks >= 4) && (level == "raidz-3" ==> disks >= 5)
    && (level == "raid0" ==> disks >= 1)
  }

  /** written is the level, in lower case or in upper case throughout. */
  predicate Spells(written: string, level: string) {
    written == level || written == Upper(level)
  }

  /** The level the filesystem's own table names. */
  predicate Level(d: Data<Value>, fs: string, level: string) {
    match At(d, "disk-setup", fs)
    case Dict(entries) => "raid" in entries && entries["raid"].Str? && HasLevel(fs, level) && Spells(entries["raid"].text, level)
    case _ => false
  }

  const LEVELS: seq<string> := ["raid0", "raid1", "raid10", "raidz-1", "raidz-2", "raidz-3"]

  /** A list of different disks by name, none of them under disk/, as many as the filesystem and
      its level take. */
  predicate ListDemands(d: Data<Value>, fs: Found, list: Found) {
    && list.Is? && list.value.List?
    && var names := list.value.items;
       && (forall i :: 0 <= i < |names| ==> names[i] != "" && !("disk/" <= names[i]) && !("/dev/disk/" <= names[i]))
       && (forall i, j :: 0 <= i < j < |names| ==> names[i] != names[j])
       && (fs == Is(Str("ext4")) || fs == Is(Str("xfs")) ==> |names| <= 1)
       && (fs == Is(Str("zfs")) || fs == Is(Str("btrfs")) ==>
             forall level :: level in LEVELS && Level(d, fs.value.text, level) ==> EnoughDisks(level, |names|))
  }

  predicate DiskDemands(d: Data<Value>) {
    var (fs, list, filter) := (At(d, "disk-setup", "filesystem"), At(d, "disk-setup", "disk-list"), At(d, "disk-setup", "filter"));
    && ["disk-setup"] in d.tables && !Empty(fs)
    && (Empty(list) <==> !Empty(filter)) && (!Empty(list) ==> ListDemands(d, fs, list))
    && (fs == Is(Str("zfs")) || fs == Is(Str("btrfs")) ==> exists level :: level in LEVELS && Level(d, fs.value.text, level))
    && (fs == Is(Str("ext4")) || fs == Is(Str("xfs")) ==> At(d, "disk-setup", "zfs") == At(d, "disk-setup", "btrfs") == Missing)
    && (fs == Is(Str("zfs")) ==> At(d, "disk-setup", "lvm") == At(d, "disk-setup", "btrfs") == Missing)
    && (fs == Is(Str("btrfs")) ==> At(d, "disk-setup", "lvm") == At(d, "disk-setup", "zfs") == Missing)
  }

  lemma KnownIs(f: Found)
    ensures KnownFilesystem(f) == Some(Ext4) <==> f == Is(Str("ext4"))
    ensures KnownFilesystem(f) == Some(Xfs) <==> f == Is(Str("xfs"))
    ensures KnownFilesystem(f) == Some(Zfs) <==> f == Is(Str("zfs"))
    ensures KnownFilesystem(f) == Some(Btrfs) <==> f == Is(Str("btrfs"))
  {
  }

  lemma LevelsSpelled(level: string)
    requires level in LEVELS
    ensures Lower(level) == level && Lower(Upper(level)) == level && level != "" && Upper(level) != ""
    ensures Upper(Upper(level)) == Upper(level)
  {
  }

  lemma HasLevelIs(fs: Filesystem, level: string)
    requires HasRaid(fs)
    ensures RaidMin(fs, level).Some? <==> HasLevel(NameOf(fs), level)
    ensures HasLevel(NameOf(fs), level) ==> level in LEVELS
    ensures RaidMin(fs, level).Some? ==> forall n: nat :: (n >= RaidMin(fs, level).value && (level == "raid10" ==> n % 2 == 0) <==> EnoughDisks(level, n))
  {
  }

  /** The level the check finds is the one that is spelled. */
  lemma LevelIs(d: Data<Value>, fs: Filesystem)
    requires HasRaid(fs)
    ensures forall level :: LevelIn(d, fs) == Some(level) <==> level in LEVELS && Level(d, NameOf(fs), level)
  {
    hide At, Lower, Upper;
    forall level ensures LevelIn(d, fs) == Some(level) <==> level in LEVELS && Level(d, NameOf(fs), level) {
      HasLevelIs(fs, level);
      if level in LEVELS {
        LevelsSpelled(level);
      }
      var raid := RaidValue(d, fs);
      if raid.Is? && raid.value.Str? {
        UpperOfLower(raid.value.text);
      }
    }
  }

  lemma UpperOfLower(s: string)
    ensures Upper(Lower(s)) == Upper(s)
  {
  }

  lemma PathIs(s: string)
    ensures DiskPath(s) <==> "disk/" <= s || "/dev/disk/" <= s
  {
    if "/dev/" <= s {
      assert s[..5] == "/dev/";
      assert "/dev/disk/"[..5] == "/dev/" && "/dev/disk/"[5..] == "disk/";
      assert s == s[..5] + s[5..];
      assert "/dev/disk/" <= s <==> "disk/" <= s[5..];
      assert s[0] == '/' && "disk/"[0] == 'd';
    } else {
      assert "/dev/disk/" <= s ==> "/dev/" <= s;
    }
  }

  /** What a list of disks has to be, by the level that is found. */
  lemma ListAsked(d: Data<Value>, fs: Found, list: Found)
    requires fs == At(d, "disk-setup", "filesystem") && !Empty(list)
    ensures var known := KnownFilesystem(fs);
            (DiskNames(list).Some? && !(exists x :: x in DiskNames(list).value && DiskPath(x))
             && DiskListOk(known, if known.Some? then LevelIn(d, known.value) else None, DiskNames(list).value))
            <==> ListDemands(d, fs, list)
  {
    hide At, LevelIn, Level, DiskPath, RaidMin, EnoughDisks, DiskListOk, LevelTakes, KnownFilesystem;
    KnownIs(fs);
    var known := KnownFilesystem(fs);
    if list.Is? && list.value.List? {
      var names := list.value.items;
      forall i | 0 <= i < |names| ensures DiskPath(names[i]) <==> "disk/" <= names[i] || "/dev/disk/" <= names[i] {
        PathIs(names[i]);
      }
      RaidAsked(d, fs, |names|);
      ListOkIs(d, known, names);
      NamesAre(list);
      assert (exists x :: x in names && DiskPath(x)) <==> exists i :: 0 <= i < |names| && DiskPath(names[i]);
    }
  }

  lemma NamesAre(list: Found)
    requires list.Is? && list.value.List?
    ensures DiskNames(list).Some? <==> forall i :: 0 <= i < |list.value.items| ==> list.value.items[i] != ""
    ensures DiskNames(list).Some? ==> DiskNames(list).value == list.value.items
  {
    var names := list.value.items;
    if forall i :: 0 <= i < |names| ==> names[i] != "" {
      forall x | x in names ensures x != "" {
        var i :| 0 <= i < |names| && names[i] == x;
      }
    } else {
      var i :| 0 <= i < |names| && names[i] == "";
      assert names[i] in names;
    }
  }

  lemma ListOkIs(d: Data<Value>, known: Option<Filesystem>, names: seq<string>)
    ensures DiskListOk(known, if known.Some? then LevelIn(d, known.value) else None, names) <==>
              && (forall i, j :: 0 <= i < j < |names| ==> names[i] != names[j])
              && (known == Some(Ext4) || known == Some(Xfs) ==> |names| <= 1)
              && LevelTakes(d, known, |names|)
  {
    hide LevelIn, RaidMin;
  }

  /** The part of it that the raid level decides. */
  predicate LevelTakes(d: Data<Value>, known: Option<Filesystem>, n: nat) {
    var level := if known.Some? then LevelIn(d, known.value) else None;
    known.Some? && level.Some? && RaidMin(known.value, level.value).Some? ==>
      n >= RaidMin(known.value, level.value).value && (level.value == "raid10" ==> n % 2 == 0)
  }

  lemma RaidAsked(d: Data<Value>, fs: Found, n: nat)
    ensures LevelTakes(d, KnownFilesystem(fs), n) <==>
            (fs == Is(Str("zfs")) || fs == Is(Str("btrfs")) ==>
               forall level :: level in LEVELS && Level(d, fs.value.text, level) ==> EnoughDisks(level, n))
  {
    hide At, LevelIn, Level, RaidMin, EnoughDisks;
    KnownIs(fs);
    var known := KnownFilesystem(fs);
    if known.Some? && HasRaid(known.value) {
      LevelIs(d, known.value);
      if LevelIn(d, known.value).Some? {
        LevelFits(d, known.value, n);
      }
    } else if known.Some? {
      NoLevel(d, known.value);
    }
  }

  lemma NoLevel(d: Data<Value>, fs: Filesystem)
    ensures !HasRaid(fs) ==> LevelIn(d, fs) == None
  {
    hide At;
  }

  lemma LevelFits(d: Data<Value>, fs: Filesystem, n: nat)
    requires HasRaid(fs) && LevelIn(d, fs).Some?
    ensures var level := LevelIn(d, fs).value;
            && RaidMin(fs, level).Some?
            && (n >= RaidMin(fs, level).value && (level == "raid10" ==> n % 2 == 0)
                <==> forall other :: other in LEVELS && Level(d, NameOf(fs), other) ==> EnoughDisks(other, n))
  {
    hide At, Level, EnoughDisks, RaidMin, LevelIn;
    LevelIs(d, fs);
    var level := LevelIn(d, fs).value;
    LevelInHas(d, fs);
    HasLevelIs(fs, level);
  }

  lemma LevelInHas(d: Data<Value>, fs: Filesystem)
    requires LevelIn(d, fs).Some?
    ensures RaidMin(fs, LevelIn(d, fs).value).Some?
  {
    hide At, RaidMin, Lower, Upper;
  }

  lemma DiskAsked(d: Data<Value>)
    ensures DiskErrors(d) == {} <==> DiskDemands(d)
  {
    hide At, LevelIn, Level, DiskPath, RaidMin, EnoughDisks, ListDemands, DiskListOk, DiskNames;
    var (fs, list, filter) := (At(d, "disk-setup", "filesystem"), At(d, "disk-setup", "disk-list"), At(d, "disk-setup", "filter"));
    var known := KnownFilesystem(fs);
    KnownIs(fs);
    EmptyIs(fs);
    EmptyIs(list);
    EmptyIs(filter);
    if !Empty(list) {
      ListAsked(d, fs, list);
    }
    if known.Some? {
      OptionsAre(d, known.value);
      if HasRaid(known.value) {
        LevelIs(d, known.value);
      }
    }
  }

  lemma OptionsAre(d: Data<Value>, fs: Filesystem)
    ensures !(exists t :: t in ["lvm", "zfs", "btrfs"] && t != OptionsOf(fs) && !At(d, "disk-setup", t).Missing?)
            <==> (OptionsOf(fs) != "lvm" ==> At(d, "disk-setup", "lvm") == Missing)
                 && (OptionsOf(fs) != "zfs" ==> At(d, "disk-setup", "zfs") == Missing)
                 && (OptionsOf(fs) != "btrfs" ==> At(d, "disk-setup", "btrfs") == Missing)
  {
    hide At;
    var all := ["lvm", "zfs", "btrfs"];
    assert "lvm" in all && "zfs" in all && "btrfs" in all;
  }

  // ----- the whole file -----

  /** The file has a webhook table, or a key in one. */
  predicate HasWebhook(d: Data<Value>) {
    exists k :: k in d.values.Keys + d.tables && k != [] && k[0] == "post-installation-webhook"
  }

  /** One of the lines is the header of that table. */
  predicate HasHeader(lines: seq<string>) {
    exists i :: 0 <= i < |lines| && WebhookHeader(lines[i])
  }

  /** A file passes the check exactly when it is not blank, of 262144 characters at most, TOML, and
      its [global], [network] and [disk-setup] say what they have to; and when a line of its text is
      the header of the webhook table, where it has one. */
  lemma PassesIff(p: Patterns, text: string)
    ensures ValidateAnswer(p, text) == {} <==>
              && (exists i :: 0 <= i < |text| && !Space(text[i])) && |text| <= 262144
              && ReadText(text, ReadValue).Some?
              && var d := ReadText(text, ReadValue).value;
                 && GlobalDemands(p, d) && NetworkDemands(d) && DiskDemands(d)
                 && (HasWebhook(d) ==> HasHeader(SplitLines(text)))
  {
    hide GlobalErrors, NetworkErrors, DiskErrors, GlobalDemands, NetworkDemands, DiskDemands, ReadText, SplitLines,
         WebhookHeader, Space, ReplaceableWebhook, HasWebhook, HasHeader;
    if ReadText(text, ReadValue).Some? {
      var d := ReadText(text, ReadValue).value;
      GlobalAsked(p, d);
      NetworkAsked(d);
      DiskAsked(d);
      WebhookAsked(SplitLines(text), d);
      NothingInFour(GlobalErrors(p, d), NetworkErrors(d), DiskErrors(d), If(!ReplaceableWebhook(SplitLines(text), d), "webhook"));
    }
  }

  lemma NothingInFour(a: set<string>, b: set<string>, c: set<string>, d: set<string>)
    ensures a + b + c + d == {} <==> a == {} && b == {} && c == {} && d == {}
  {
    if a + b + c + d == {} {
      forall x ensures x !in a && x !in b && x !in c && x !in d {
        assert x !in a + b + c + d;
      }
    }
  }

  lemma WebhookAsked(lines: seq<string>, d: Data<Value>)
    ensures ReplaceableWebhook(lines, d) <==> (HasWebhook(d) ==> HasHeader(lines))
  {
    hide WebhookHeader;
    if k :| k in d.values.Keys + d.tables && k != [] && k[0] == "post-installation-webhook" {
      assert Mine(k);
    }
    if k :| k in d.values.Keys + d.tables && Mine(k) {
      assert k != [] && k[0] == "post-installation-webhook";
    }
  }
}
