/**
 The guided setup (pegaprox/api/auto_install.py, build_answer): from the fields a browser
 sends to an answer file, or to the fields that are wrong.
 */
module AnswerBuilder {
  import opened Wrappers
  import opened Toml
  import opened TomlPrinter
  import opened AnswerRules

  datatype Json = Null | Bool(b: bool) | Num(n: int) | Text(s: string) | Arr(items: seq<Json>) | Obj(fields: map<string, Json>)

  /** Refused: Shape of the fields is None. */
  datatype Built = Refused | Wrong(fields: set<string>) | Answer(text: string)

  /** What one part of the form adds to the file, and which of its fields are wrong. */
  datatype Part = Part(entries: seq<(string, Node)>, wrong: set<string>)

  function Both(a: Part, b: Part): Part {
    Part(a.entries + b.entries, a.wrong + b.wrong)
  }

  const NOTHING: Part := Part([], {})

  function Adds(key: string, node: Node): Part {
    Part([(key, node)], {})
  }

  function Lacks(field: string): Part {
    Part([], {field})
  }

  function Get(m: map<string, Json>, k: string): Json {
    if k in m then m[k] else Null
  }

  /** _table: the dict there, {} when it was left out; None when it has another shape. */
  function Table(v: Json, allowed: seq<string>): Option<map<string, Json>> {
    match v
    case Null => Some(map[])
    case Obj(m) => if forall k :: k in m ==> k in allowed then Some(m) else None
    case _ => None
  }

  /** A clear-text password key anywhere. */
  predicate HasPlaintextKey(v: Json) {
    match v
    case Obj(m) => "root_password" in m || "root-password" in m || exists k :: k in m && HasPlaintextKey(m[k])
    case Arr(items) => exists i :: 0 <= i < |items| && HasPlaintextKey(items[i])
    case _ => false
  }

  /** need: a required single-line string. */
  function Need(v: Json, ok: bool): Option<string> {
    if v.Text? && v.s != "" && !Unprintable(v.s) && |v.s| <= MAX_FIELD && ok then Some(v.s) else None
  }

  function NeedEntry(key: string, field: string, v: Json, ok: bool): Part {
    match Need(v, ok) case Some(s) => Adds(key, Leaf(Str(s))) case None => Lacks(field)
  }

  predicate TextIs(v: Json, ok: string -> bool) {
    v.Text? && ok(v.s)
  }

  // ----- [global] -----

  function Fqdn(v: Json): Part {
    if v.Obj? then
      if Get(v.fields, "source") != Text("from-dhcp") then Lacks("global.fqdn")
      else
        var source := ("source", Str("from-dhcp"));
        match Get(v.fields, "domain")
        case Null => Adds("fqdn", Sub([source]))
        case Text(s) =>
          if s == "" then Adds("fqdn", Sub([source]))
          else if Unprintable(s) || !FqdnOk(s, false) then Both(Adds("fqdn", Sub([source])), Lacks("global.fqdn"))
          else Adds("fqdn", Sub([source, ("domain", Str(s))]))
        case _ => Both(Adds("fqdn", Sub([source])), Lacks("global.fqdn"))
    else NeedEntry("fqdn", "global.fqdn", v, TextIs(v, s => FqdnOk(s, true)))
  }

  /** The keys in an array of texts, blank ones aside; None when it is something else. */
  function Texts(items: seq<Json>): Option<seq<string>> {
    if items == [] then Some([])
    else if !items[0].Text? then None
    else match Texts(items[1..])
      case None => None
      case Some(rest) => Some([items[0].s] + rest)
  }

  function NotBlank(s: seq<string>): (r: seq<string>)
    ensures forall x :: x in r ==> x in s && x != ""
  {
    if s == [] then [] else (if s[0] == "" then [] else [s[0]]) + NotBlank(s[1..])
  }

  function SshKeys(p: Patterns, v: Json): Part {
    if v == Null || v == Arr([]) then NOTHING
    else if !v.Arr? || Texts(v.items).None? then Lacks("global.root_ssh_keys")
    else
      var keys := NotBlank(Texts(v.items).value);
      if |keys| > MAX_SSH_KEYS || exists k :: k in keys && (Unprintable(k) || |k| > MAX_SSH_KEY || !p.sshKey(k))
      then Lacks("global.root_ssh_keys")
      else if keys == [] then NOTHING
      else Adds("root-ssh-keys", Leaf(List(keys)))
  }

  function Global(p: Patterns, g: map<string, Json>): Part {
    var keyboard, country, mailto, timezone := Get(g, "keyboard"), Get(g, "country"), Get(g, "mailto"), Get(g, "timezone");
    var hashed := Get(g, "root_password_hashed");
    Both(NeedEntry("keyboard", "global.keyboard", keyboard, TextIs(keyboard, s => KeyboardOk(s))),
    Both(NeedEntry("country", "global.country", country, TextIs(country, s => CountryOk(s))),
    Both(Fqdn(Get(g, "fqdn")),
    Both(NeedEntry("mailto", "global.mailto", mailto, TextIs(mailto, s => MailOk(p, s))),
    Both(NeedEntry("timezone", "global.timezone", timezone, TextIs(timezone, s => TimezoneOk(p, s))),
    Both(NeedEntry("root-password-hashed", "global.root_password_hashed", hashed, TextIs(hashed, p.crypt)),
         SshKeys(p, Get(g, "root_ssh_keys"))))))))
  }

  // ----- [network] -----

  /** The first of these names that is a key of m. */
  function FirstKey(names: seq<string>, m: map<string, Json>): (r: Option<string>)
    ensures r.Some? ==> r.value in m && r.value in names
  {
    if names == [] then None else if names[0] in m then Some(names[0]) else FirstKey(names[1..], m)
  }

  /** one_filter: the single property a filter may hold, of these. */
  function Filter(field: string, names: seq<string>, filter: map<string, Json>, ok: (string, string) -> bool): Part {
    var prop := FirstKey(names, filter);
    if |filter| != 1 || prop.None? then Lacks(field)
    else
      var v := filter[prop.value];
      if v.Text? && !Unprintable(v.s) && ok(prop.value, v.s) then Adds("filter", Sub([(prop.value, Str(v.s))])) else Lacks(field)
  }

  function Network(p: Patterns, net: map<string, Json>, filter: map<string, Json>): Part {
    var source, cidr, dns, gateway := Get(net, "source"), Get(net, "cidr"), Get(net, "dns"), Get(net, "gateway");
    if source == Text("from-dhcp") then Adds("source", Leaf(Str("from-dhcp")))
    else if source == Text("from-answer") then
      Both(Adds("source", Leaf(Str("from-answer"))),
      Both(NeedEntry("cidr", "network.cidr", cidr, TextIs(cidr, p.cidr)),
      Both(NeedEntry("dns", "network.dns", dns, TextIs(dns, p.ip)),
      Both(NeedEntry("gateway", "network.gateway", gateway, TextIs(gateway, p.ip)),
           Filter("network.filter", NIC_FILTER_KEYS, filter, (prop, s) => if prop == "ID_NET_NAME_MAC" then p.macGlob(s) else p.glob(s))))))
    else Lacks("network.source")
  }

  // ----- [disk-setup] -----

  function FilesystemOf(v: Json): Option<Filesystem> {
    if v.Text? then Filesystems(v.s) else None
  }

  /** The raid level of the form, when it is one of the filesystem's. */
  function LevelOf(fs: Filesystem, v: Json): Option<string> {
    if v.Text? && RaidMin(fs, v.s).Some? then Some(v.s) else None
  }

  function Raid(fs: Option<Filesystem>, v: Json): Part {
    if fs.None? then Lacks("disk.filesystem")
    else
      var name := NameOf(fs.value);
      var entry := Adds("filesystem", Leaf(Str(name)));
      if !HasRaid(fs.value) then entry
      else match LevelOf(fs.value, v)
        case Some(level) => Both(entry, Adds(name, Sub([("raid", Str(level))])))
        case None => Both(entry, Lacks("disk.raid"))
  }

  function Disks(p: Patterns, fs: Option<Filesystem>, level: Option<string>, disks: seq<Json>, filter: map<string, Json>): Part {
    if disks != [] && filter != map[] then Lacks("disk.disk_list")
    else if disks != [] then
      (match Texts(disks)
       case None => Lacks("disk.disk_list")
       case Some(names) =>
         if |names| > MAX_DISKS || (exists d :: d in names && (!DiskName(d) || DiskPath(d))) || !DiskListOk(fs, level, names)
         then Lacks("disk.disk_list") else Adds("disk-list", Leaf(List(names))))
    else if filter != map[] then Filter("disk.filter", DISK_FILTER_KEYS, filter, (prop, s) => p.glob(s))
    else Lacks("disk.disk_list")
  }

  // ----- the file -----

  const SECTIONS: seq<string> := ["global", "network", "disk"]
  const GLOBAL_KEYS: seq<string> := ["keyboard", "country", "timezone", "mailto", "fqdn", "root_password_hashed", "root_ssh_keys"]
  const NETWORK_KEYS: seq<string> := ["source", "cidr", "gateway", "dns", "filter"]
  const DISK_KEYS: seq<string> := ["filesystem", "raid", "disk_list", "filter"]
  const FQDN_KEYS: seq<string> := ["source", "domain"]
  const NIC_FILTER_KEYS: seq<string> := ["ID_NET_NAME_MAC", "ID_NET_NAME"]
  const DISK_FILTER_KEYS: seq<string> := ["ID_SERIAL", "ID_SERIAL_SHORT", "ID_WWN", "ID_MODEL", "DEVNAME"]

  /** The dicts and lists a form is taken apart into. */
  datatype Form = Form(g: map<string, Json>, net: map<string, Json>, disk: map<string, Json>,
                       nicFilter: map<string, Json>, diskFilter: map<string, Json>, disks: seq<Json>)

  function Shape(v: Json): Option<Form> {
    if !v.Obj? || HasPlaintextKey(v) then None else
    match (Table(v, SECTIONS), Table(Get(v.fields, "global"), GLOBAL_KEYS), Table(Get(v.fields, "network"), NETWORK_KEYS),
           Table(Get(v.fields, "disk"), DISK_KEYS))
    case (Some(_), Some(g), Some(net), Some(disk)) =>
      var fqdn := Get(g, "fqdn");
      var disks := Get(disk, "disk_list");
      (match (Table(Get(net, "filter"), NIC_FILTER_KEYS), Table(Get(disk, "filter"), DISK_FILTER_KEYS))
       case (Some(nic), Some(df)) =>
         if (fqdn.Obj? && Table(fqdn, FQDN_KEYS).None?) || (!disks.Null? && !disks.Arr?) then None
         else Some(Form(g, net, disk, nic, df, if disks.Arr? then disks.items else []))
       case _ => None)
    case _ => None
  }

  function DiskSetup(p: Patterns, form: Form): Part {
    var fs := FilesystemOf(Get(form.disk, "filesystem"));
    var raid := Get(form.disk, "raid");
    var level := if fs.Some? then LevelOf(fs.value, raid) else None;
    Both(Raid(fs, raid), Disks(p, fs, level, form.disks, form.diskFilter))
  }

  function Model(p: Patterns, form: Form): seq<Section> {
    [Section("global", Global(p, form.g).entries),
     Section("network", Network(p, form.net, form.nicFilter).entries),
     Section("disk-setup", DiskSetup(p, form).entries)]
  }

  function WrongFields(p: Patterns, form: Form): set<string> {
    Global(p, form.g).wrong + Network(p, form.net, form.nicFilter).wrong + DiskSetup(p, form).wrong
  }

  function BuildAnswer(p: Patterns, fields: Json): Built {
    match Shape(fields)
    case None => Refused
    case Some(form) =>
      if WrongFields(p, form) != {} then Wrong(WrongFields(p, form)) else Answer(Emit(Model(p, form)))
  }
}
