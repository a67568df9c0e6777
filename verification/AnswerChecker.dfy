/**
 The check of an answer file (pegaprox/api/auto_install.py, validate_answer), from the parsed
 file: the errors the installer would stop at.  It is for files that hold strings and lists
 of strings, as the guided setup writes them.
 */
module AnswerChecker {
  import opened Wrappers
  import opened PythonText
  import opened Toml
  import opened AnswerRules
  import opened Webhook
  import opened WebhookReads

  /** What dict.get finds. */
  datatype Found = Missing | Is(value: Value) | Dict(entries: map<string, Value>)

  function SubNames(d: Data<Value>): set<string> {
    set k | k in d.values && |k| == 3 :: k[2]
  }

  function SubDict(d: Data<Value>, section: string, key: string): map<string, Value> {
    map s | s in SubNames(d) && [section, key, s] in d.values :: d.values[[section, key, s]]
  }

  function At(d: Data<Value>, section: string, key: string): Found {
    if [section, key] in d.values then Is(d.values[[section, key]])
    else if [section, key] in d.tables then Dict(SubDict(d, section, key))
    else Missing
  }

  /** Python's truth of what was found. */
  predicate Truthy(f: Found) {
    match f
    case Missing => false
    case Is(Str(s)) => s != ""
    case Is(List(items)) => items != []
    case Dict(entries) => entries != map[]
  }

  predicate TextIs(f: Found, ok: string -> bool) {
    f.Is? && f.value.Str? && ok(f.value.text)
  }

  /** The error e, when wrong. */
  function If(wrong: bool, e: string): set<string> {
    if wrong then {e} else {}
  }

  function FqdnErrors(f: Found): set<string> {
    match f
    case Dict(entries) =>
      If(!("source" in entries && entries["source"] == Str("from-dhcp")), "fqdn.source")
      + If("domain" in entries && Truthy(Is(entries["domain"]))
           && !(entries["domain"].Str? && FqdnOk(entries["domain"].text, false)), "fqdn.domain")
    case Is(Str(s)) => if s == "" then {"fqdn"} else If(!FqdnOk(s, true), "fqdn")
    case _ => {"fqdn"}
  }

  /** g.get(a) or g.get(b) */
  function Or(a: Found, b: Found): Found {
    if Truthy(a) then a else b
  }

  predicate LongEnough(s: string) {
    Utf8Length(s) >= 8
  }

  function Utf8Length(s: string): nat {
    if s == [] then 0
    else (if s[0] < '\U{80}' then 1 else if s[0] < '\U{800}' then 2 else if s[0] < '\U{10000}' then 3 else 4)
         + Utf8Length(s[1..])
  }

  function PasswordErrors(p: Patterns, plain: Found, hashed: Found): set<string> {
    if !Truthy(plain) && !Truthy(hashed) then {"root-password"}
    else if Truthy(plain) && Truthy(hashed) then {"root-password"}
    else if Truthy(plain) then If(!TextIs(plain, s => LongEnough(s)), "root-password")
    else If(!TextIs(hashed, p.crypt), "root-password-hashed")
  }

  function GlobalErrors(p: Patterns, d: Data<Value>): set<string> {
    var keyboard, country := At(d, "global", "keyboard"), At(d, "global", "country");
    var mailto, timezone := At(d, "global", "mailto"), At(d, "global", "timezone");
    If(["global"] !in d.tables, "global")
    + If(!Truthy(keyboard) || !TextIs(keyboard, s => KeyboardOk(s)), "keyboard")
    + If(!Truthy(country) || !TextIs(country, s => CountryOk(s)), "country")
    + If(!Truthy(mailto) || !TextIs(mailto, s => MailOk(p, s)), "mailto")
    + If(!Truthy(timezone) || !TextIs(timezone, s => TimezoneOk(p, s)), "timezone")
    + FqdnErrors(At(d, "global", "fqdn"))
    + PasswordErrors(p, Or(At(d, "global", "root-password"), At(d, "global", "root_password")),
                     Or(At(d, "global", "root-password-hashed"), At(d, "global", "root_password_hashed")))
  }

  function NetworkErrors(d: Data<Value>): set<string> {
    var source := At(d, "network", "source");
    if ["network"] !in d.tables then {"network"}
    else if source == Is(Str("from-answer")) then
      If(!Truthy(At(d, "network", "cidr")), "cidr") + If(!Truthy(At(d, "network", "dns")), "dns")
      + If(!Truthy(At(d, "network", "gateway")), "gateway") + If(!Truthy(At(d, "network", "filter")), "network.filter")
    else if source == Is(Str("from-dhcp")) then
      If(!At(d, "network", "cidr").Missing? || !At(d, "network", "dns").Missing?
         || !At(d, "network", "gateway").Missing? || !At(d, "network", "filter").Missing?, "static")
    else {"network.source"}
  }

  function KnownFilesystem(f: Found): Option<Filesystem> {
    if f.Is? && f.value.Str? then Filesystems(f.value.text) else None
  }

  /** The raid value of the filesystem's own table. */
  function RaidValue(d: Data<Value>, fs: Filesystem): Found {
    match At(d, "disk-setup", NameOf(fs))
    case Dict(entries) => if "raid" in entries then Is(entries["raid"]) else Missing
    case _ => Missing
  }

  function LevelIn(d: Data<Value>, fs: Filesystem): Option<string> {
    if !HasRaid(fs) then None
    else
      var raid := RaidValue(d, fs);
      if raid.Is? && raid.value.Str? && raid.value.text != "" then RaidLevel(fs, raid.value.text) else None
  }

  /** The disk names of a list that holds names only. */
  function DiskNames(f: Found): Option<seq<string>> {
    if f.Is? && f.value.List? && forall x :: x in f.value.items ==> x != "" then Some(f.value.items) else None
  }

  function DiskErrors(d: Data<Value>): set<string> {
    var fs := At(d, "disk-setup", "filesystem");
    var known := KnownFilesystem(fs);
    var disks, filter := At(d, "disk-setup", "disk-list"), At(d, "disk-setup", "filter");
    if ["disk-setup"] !in d.tables then {"disk-setup"}
    else
      If(!Truthy(fs), "filesystem")
      + If(Truthy(disks) == Truthy(filter), "disk-list or filter")
      + If(Truthy(disks) && DiskNames(disks).None?, "disk-list")
      + If(Truthy(disks) && DiskNames(disks).Some? && exists x :: x in DiskNames(disks).value && DiskPath(x), "disk path")
      + If(known.Some? && HasRaid(known.value) && LevelIn(d, known.value).None?, "raid")
      + If(known.Some? && exists t :: t in ["lvm", "zfs", "btrfs"] && t != OptionsOf(known.value)
                                      && !At(d, "disk-setup", t).Missing?, "options")
      + If(Truthy(disks) && DiskNames(disks).Some?
           && !DiskListOk(known, if known.Some? then LevelIn(d, known.value) else None, DiskNames(disks).value), "disk list")
  }

  /** The errors of an answer file; none when it may be stored and served. */
  function ValidateAnswer(p: Patterns, text: string): set<string> {
    if forall i :: 0 <= i < |text| ==> Space(text[i]) then {"empty"}
    else if |text| > MAX_ANSWER then {"too large"}
    else match ReadText(text, ReadValue)
      case None => {"not TOML"}
      case Some(d) =>
        GlobalErrors(p, d) + NetworkErrors(d) + DiskErrors(d) + If(!ReplaceableWebhook(SplitLines(text), d), "webhook")
  }
}
