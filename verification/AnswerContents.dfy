/**
 What the guided setup writes for a form: under each key the form's own value, and nothing else.
 Said of the fields a browser sends and of what is read back from the file.
 */
module AnswerContents {
  import opened Wrappers
  import opened Toml
  import opened TomlPrinter
  import opened TomlRoundTrip
  import opened AnswerRules
  import opened AnswerBuilder
  import opened AnswerAgreement

  type Entries = AnswerAgreement.Entries

  // ----- the file, from the fields -----

  function Field(v: Json, k: string): Json {
    if v.Obj? && k in v.fields then v.fields[k] else Null
  }

  /** A text of the form under a key of the file. */
  function Under(key: Key, v: Json): map<Key, Value> {
    if v.Text? then map[key := Str(v.s)] else map[]
  }

  /** The texts of a list that are not blank, in their order. */
  function Lines(items: seq<Json>): seq<string> {
    if items == [] then []
    else
      var n := |items| - 1;
      Lines(items[..n]) + if items[n].Text? && items[n].s != "" then [items[n].s] else []
  }

  function ListUnder(key: Key, v: Json): map<Key, Value> {
    if v.Arr? && Lines(v.items) != [] then map[key := List(Lines(v.items))] else map[]
  }

  /** The properties of a filter. */
  function FilterUnder(section: string, v: Json): map<Key, Value> {
    if v.Obj? then map k | k in v.fields && v.fields[k].Text? :: [section, "filter", k] := Str(v.fields[k].s) else map[]
  }

  function FqdnContents(v: Json): map<Key, Value> {
    if v.Obj? then
      map[["global", "fqdn", "source"] := Str("from-dhcp")]
      + if Field(v, "domain") == Text("") then map[] else Under(["global", "fqdn", "domain"], Field(v, "domain"))
    else Under(["global", "fqdn"], v)
  }

  function GlobalContents(g: Json): map<Key, Value> {
    Under(["global", "keyboard"], Field(g, "keyboard"))
    + (Under(["global", "country"], Field(g, "country"))
    + (FqdnContents(Field(g, "fqdn"))
    + (Under(["global", "mailto"], Field(g, "mailto"))
    + (Under(["global", "timezone"], Field(g, "timezone"))
    + (Under(["global", "root-password-hashed"], Field(g, "root_password_hashed"))
    + ListUnder(["global", "root-ssh-keys"], Field(g, "root_ssh_keys")))))))
  }

  /** By DHCP nothing but that is written, whatever else the form still holds. */
  function NetworkContents(net: Json): map<Key, Value> {
    if Field(net, "source") == Text("from-dhcp") then map[["network", "source"] := Str("from-dhcp")]
    else
      map[["network", "source"] := Str("from-answer")]
      + (Under(["network", "cidr"], Field(net, "cidr"))
      + (Under(["network", "dns"], Field(net, "dns"))
      + (Under(["network", "gateway"], Field(net, "gateway"))
      + FilterUnder("network", Field(net, "filter")))))
  }

  /** A raid level goes under the name of its filesystem, and for ext4 and xfs nowhere. */
  function RaidContents(fs: Json, raid: Json): map<Key, Value> {
    if fs == Text("zfs") || fs == Text("btrfs") then Under(["disk-setup", fs.s, "raid"], raid) else map[]
  }

  function DiskContents(disk: Json): map<Key, Value> {
    (Under(["disk-setup", "filesystem"], Field(disk, "filesystem"))
     + RaidContents(Field(disk, "filesystem"), Field(disk, "raid")))
    + (ListUnder(["disk-setup", "disk-list"], Field(disk, "disk_list"))
       + FilterUnder("disk-setup", Field(disk, "filter")))
  }

  function Contents(fields: Json): map<Key, Value> {
    GlobalContents(Field(fields, "global")) + NetworkContents(Field(fields, "network")) + DiskContents(Field(fields, "disk"))
  }

  /** The tables of a file with these values. */
  function TablesOf(values: map<Key, Value>): set<Key> {
    {["global"], ["network"], ["disk-setup"]} + set k | k in values && |k| == 3 :: k[..2]
  }

  // ----- the values of a model, put together -----

  function SubMap(n: string, k: string, es: seq<(string, Value)>): map<Key, Value> {
    if es == [] then map[] else map[[n, k, es[0].0] := es[0].1] + SubMap(n, k, es[1..])
  }

  function NodeMap(n: string, k: string, node: Node): map<Key, Value> {
    match node case Leaf(v) => map[[n, k] := v] case Sub(es) => SubMap(n, k, es)
  }

  function MapOf(n: string, es: Entries): map<Key, Value> {
    if es == [] then map[] else NodeMap(n, es[0].0, es[0].1) + MapOf(n, es[1..])
  }

  lemma {:induction false} SubAdded(values: map<Key, Value>, n: string, k: string, es: seq<(string, Value)>)
    ensures WithSub(values, n, k, es) == values + SubMap(n, k, es)
    decreases |es|
  {
    if es != [] {
      var one := map[[n, k, es[0].0] := es[0].1];
      SubAdded(values + one, n, k, es[1..]);
      assert values[[n, k, es[0].0] := es[0].1] == values + one;
      assert (values + one) + SubMap(n, k, es[1..]) == values + (one + SubMap(n, k, es[1..]));
    } else {
      assert values + map[] == values;
    }
  }

  lemma {:induction false} EntriesAdded(values: map<Key, Value>, n: string, es: Entries)
    ensures WithEntries(values, n, es) == values + MapOf(n, es)
    decreases |es|
  {
    hide NodeMap;
    if es != [] {
      var one := NodeMap(n, es[0].0, es[0].1);
      NodeAdded(values, n, es[0].0, es[0].1);
      EntriesAdded(values + one, n, es[1..]);
      assert (values + one) + MapOf(n, es[1..]) == values + (one + MapOf(n, es[1..]));
    } else {
      assert values + map[] == values;
    }
  }

  lemma NodeAdded(values: map<Key, Value>, n: string, k: string, node: Node)
    ensures WithNode(values, n, k, node) == values + NodeMap(n, k, node)
  {
    match node {
      case Leaf(v) => assert values[[n, k] := v] == values + map[[n, k] := v];
      case Sub(es) => SubAdded(values, n, k, es);
    }
  }

  lemma {:induction false} MapOfBoth(n: string, a: Entries, b: Entries)
    ensures MapOf(n, a + b) == MapOf(n, a) + MapOf(n, b)
  {
    hide NodeMap;
    if a == [] {
      assert a + b == b && map[] + MapOf(n, b) == MapOf(n, b);
    } else {
      var one := NodeMap(n, a[0].0, a[0].1);
      assert (a + b)[1..] == a[1..] + b;
      MapOfBoth(n, a[1..], b);
      assert one + (MapOf(n, a[1..]) + MapOf(n, b)) == (one + MapOf(n, a[1..])) + MapOf(n, b);
    }
  }

  lemma MapOfOne(n: string, k: string, node: Node)
    ensures MapOf(n, [(k, node)]) == NodeMap(n, k, node)
    ensures MapOf(n, []) == map[]
  {
    hide NodeMap;
    var es := [(k, node)];
    assert es[1..] == [];
    assert NodeMap(n, k, node) + map[] == NodeMap(n, k, node);
  }

  lemma SubMapOfOne(n: string, k: string, a: (string, Value), b: (string, Value))
    ensures SubMap(n, k, [a]) == map[[n, k, a.0] := a.1]
    ensures SubMap(n, k, [a, b]) == map[[n, k, a.0] := a.1] + map[[n, k, b.0] := b.1]
  {
    assert [a][1..] == [] && [a, b][1..] == [b] && [b][1..] == [];
    assert map[[n, k, a.0] := a.1] + map[] == map[[n, k, a.0] := a.1];
    assert map[[n, k, b.0] := b.1] + map[] == map[[n, k, b.0] := b.1];
  }

  lemma ThreeSections(g: Entries, net: Entries, disk: Entries)
    ensures Values(map[], [Section("global", g), Section("network", net), Section("disk-setup", disk)])
         == MapOf("global", g) + MapOf("network", net) + MapOf("disk-setup", disk)
  {
    hide MapOf, WithEntries;
    var model := [Section("global", g), Section("network", net), Section("disk-setup", disk)];
    assert model[1..] == [model[1], model[2]] && model[1..][1..] == [model[2]] && model[1..][1..][1..] == [];
    EntriesAdded(map[], "global", g);
    var one := MapOf("global", g);
    assert map[] + one == one;
    EntriesAdded(one, "network", net);
    var two := one + MapOf("network", net);
    EntriesAdded(two, "disk-setup", disk);
    var last := [model[2]];
    assert last[1..] == [];
    assert Values(two, last) == two + MapOf("disk-setup", disk);
    assert Values(one, model[1..]) == Values(two, last);
    assert Values(map[], model) == Values(one, model[1..]);
  }

  // ----- the parts of a form -----

  lemma NeedWrites(n: string, key: string, field: string, v: Json, ok: bool)
    requires NeedEntry(key, field, v, ok).wrong == {}
    ensures MapOf(n, NeedEntry(key, field, v, ok).entries) == Under([n, key], v)
  {
    MapOfOne(n, key, Leaf(Str(v.s)));
  }

  lemma FqdnWrites(v: Json)
    requires Fqdn(v).wrong == {}
    ensures MapOf("global", Fqdn(v).entries) == FqdnContents(v)
  {
    hide MapOf, FqdnOk, Unprintable;
    if v.Obj? {
      var source, domain := ("source", Str("from-dhcp")), Get(v.fields, "domain");
      var last := ("domain", if domain.Text? then Str(domain.s) else Str(""));
      MapOfOne("global", "fqdn", Sub([source]));
      MapOfOne("global", "fqdn", Sub([source, last]));
      SubMapOfOne("global", "fqdn", source, last);
      assert map[["global", "fqdn", "source"] := Str("from-dhcp")] + map[] == map[["global", "fqdn", "source"] := Str("from-dhcp")];
    } else {
      NeedWrites("global", "fqdn", "global.fqdn", v, AnswerBuilder.TextIs(v, s => FqdnOk(s, true)));
    }
  }

  lemma {:induction false} LinesAre(items: seq<Json>)
    requires Texts(items).Some?
    ensures Lines(items) == NotBlank(Texts(items).value)
  {
    if items != [] {
      LinesAre(items[1..]);
      LinesFrom(items[0], items[1..]);
      assert [items[0]] + items[1..] == items;
      var texts := Texts(items).value;
      assert texts[1..] == Texts(items[1..]).value;
    }
  }

  lemma {:induction false} LinesFrom(first: Json, rest: seq<Json>)
    ensures Lines([first] + rest) == (if first.Text? && first.s != "" then [first.s] else []) + Lines(rest)
  {
    var all := [first] + rest;
    if rest == [] {
      assert all[..0] == [] && all[0] == first;
    } else {
      var n := |rest| - 1;
      assert all[..|all| - 1] == [first] + rest[..n] && all[|all| - 1] == rest[n];
      LinesFrom(first, rest[..n]);
    }
  }

  lemma KeysAre(p: Patterns, v: Json)
    requires SshKeys(p, v).wrong == {}
    ensures v == Null || v.Arr?
    ensures v.Arr? ==> Texts(v.items).Some?
    ensures v.Arr? ==>
              SshKeys(p, v).entries == if NotBlank(Texts(v.items).value) == [] then []
                                       else [("root-ssh-keys", Leaf(List(NotBlank(Texts(v.items).value))))]
  {
    NoTexts();
    hide Texts, NotBlank, Unprintable;
  }

  lemma NoTexts()
    ensures Texts([]) == Some([]) && NotBlank([]) == []
  {
  }

  lemma KeysWritten(p: Patterns, v: Json)
    requires SshKeys(p, v).wrong == {}
    ensures MapOf("global", SshKeys(p, v).entries) == ListUnder(["global", "root-ssh-keys"], v)
  {
    KeysAre(p, v);
    MapOfOne("global", "root-ssh-keys", Leaf(List(if v.Arr? then Lines(v.items) else [])));
    if v.Arr? {
      LinesAre(v.items);
      hide MapOf, SshKeys, Texts, NotBlank, Lines;
    } else {
      hide MapOf;
    }
  }

  lemma BothWrites(n: string, a: Part, b: Part)
    ensures MapOf(n, Both(a, b).entries) == MapOf(n, a.entries) + MapOf(n, b.entries)
    ensures Both(a, b).wrong == {} <==> a.wrong == {} && b.wrong == {}
  {
    MapOfBoth(n, a.entries, b.entries);
  }

  lemma FilterWrites(n: string, field: string, names: seq<string>, filter: map<string, Json>, v: Json, ok: (string, string) -> bool)
    requires Filter(field, names, filter, ok).wrong == {}
    requires v == Obj(filter)
    ensures MapOf(n, Filter(field, names, filter, ok).entries) == FilterUnder(n, v)
  {
    hide MapOf, Unprintable;
    var prop := FirstKey(names, filter).value;
    var text := filter[prop].s;
    MapOfOne(n, "filter", Sub([(prop, Str(text))]));
    SubMapOfOne(n, "filter", (prop, Str(text)), (prop, Str(text)));
    OneKey(filter, prop);
    var under := FilterUnder(n, v);
    assert forall k :: k in under ==> k == [n, "filter", prop];
    assert [n, "filter", prop] in under;
    assert under == map[[n, "filter", prop] := Str(text)];
  }

  lemma OneKey(m: map<string, Json>, k: string)
    requires |m| == 1 && k in m
    ensures forall x :: x in m ==> x == k
  {
    forall x | x in m ensures x == k {
      assert |m.Keys - {k}| == 0;
    }
  }

  lemma SevenParts(n: string, a: Part, b: Part, c: Part, d: Part, e: Part, f: Part, g: Part)
    ensures var all := Both(a, Both(b, Both(c, Both(d, Both(e, Both(f, g))))));
            && (all.wrong == {} ==> a.wrong == b.wrong == c.wrong == d.wrong == e.wrong == f.wrong == g.wrong == {})
            && MapOf(n, all.entries) ==
               MapOf(n, a.entries) + (MapOf(n, b.entries) + (MapOf(n, c.entries) + (MapOf(n, d.entries)
               + (MapOf(n, e.entries) + (MapOf(n, f.entries) + MapOf(n, g.entries))))))
  {
    hide MapOf, Both;
    BothWrites(n, f, g);
    BothWrites(n, e, Both(f, g));
    BothWrites(n, d, Both(e, Both(f, g)));
    BothWrites(n, c, Both(d, Both(e, Both(f, g))));
    BothWrites(n, b, Both(c, Both(d, Both(e, Both(f, g)))));
    BothWrites(n, a, Both(b, Both(c, Both(d, Both(e, Both(f, g))))));
  }

  lemma GlobalWrites(p: Patterns, g: map<string, Json>, v: Json)
    requires Global(p, g).wrong == {}
    requires forall k :: Field(v, k) == Get(g, k)
    ensures MapOf("global", Global(p, g).entries) == GlobalContents(v)
  {
    hide MapOf, NeedEntry, Fqdn, SshKeys, Under, FqdnContents, ListUnder, KeyboardOk, CountryOk, MailOk, TimezoneOk, Field, Get, Both;
    var keyboard := AnswerBuilder.TextIs(Get(g, "keyboard"), s => KeyboardOk(s));
    var country := AnswerBuilder.TextIs(Get(g, "country"), s => CountryOk(s));
    var mailto := AnswerBuilder.TextIs(Get(g, "mailto"), s => MailOk(p, s));
    var timezone := AnswerBuilder.TextIs(Get(g, "timezone"), s => TimezoneOk(p, s));
    var hashed := AnswerBuilder.TextIs(Get(g, "root_password_hashed"), p.crypt);
    SevenParts("global",
               NeedEntry("keyboard", "global.keyboard", Get(g, "keyboard"), keyboard),
               NeedEntry("country", "global.country", Get(g, "country"), country),
               Fqdn(Get(g, "fqdn")),
               NeedEntry("mailto", "global.mailto", Get(g, "mailto"), mailto),
               NeedEntry("timezone", "global.timezone", Get(g, "timezone"), timezone),
               NeedEntry("root-password-hashed", "global.root_password_hashed", Get(g, "root_password_hashed"), hashed),
               SshKeys(p, Get(g, "root_ssh_keys")));
    NeedWrites("global", "keyboard", "global.keyboard", Get(g, "keyboard"), keyboard);
    NeedWrites("global", "country", "global.country", Get(g, "country"), country);
    FqdnWrites(Get(g, "fqdn"));
    NeedWrites("global", "mailto", "global.mailto", Get(g, "mailto"), mailto);
    NeedWrites("global", "timezone", "global.timezone", Get(g, "timezone"), timezone);
    NeedWrites("global", "root-password-hashed", "global.root_password_hashed", Get(g, "root_password_hashed"), hashed);
    KeysWritten(p, Get(g, "root_ssh_keys"));
  }

  lemma FiveParts(n: string, a: Part, b: Part, c: Part, d: Part, e: Part)
    ensures var all := Both(a, Both(b, Both(c, Both(d, e))));
            && (all.wrong == {} ==> a.wrong == b.wrong == c.wrong == d.wrong == e.wrong == {})
            && MapOf(n, all.entries) ==
               MapOf(n, a.entries) + (MapOf(n, b.entries) + (MapOf(n, c.entries) + (MapOf(n, d.entries) + MapOf(n, e.entries))))
  {
    hide MapOf, Both;
    BothWrites(n, d, e);
    BothWrites(n, c, Both(d, e));
    BothWrites(n, b, Both(c, Both(d, e)));
    BothWrites(n, a, Both(b, Both(c, Both(d, e))));
  }

  lemma NetworkIs(p: Patterns, net: map<string, Json>, filter: map<string, Json>, v: Json)
    requires Network(p, net, filter).wrong == {} && Field(v, "source") == Get(net, "source")
    ensures Get(net, "source") == Text("from-dhcp") || Get(net, "source") == Text("from-answer")
    ensures Get(net, "source") == Text("from-dhcp") ==>
              Network(p, net, filter).entries == [("source", Leaf(Str("from-dhcp")))]
              && NetworkContents(v) == map[["network", "source"] := Str("from-dhcp")]
    ensures Get(net, "source") == Text("from-answer") ==>
              var (cidr, dns, gateway) := (Get(net, "cidr"), Get(net, "dns"), Get(net, "gateway"));
              Network(p, net, filter) ==
              Both(Adds("source", Leaf(Str("from-answer"))),
                   Both(NeedEntry("cidr", "network.cidr", cidr, AnswerBuilder.TextIs(cidr, p.cidr)),
                   Both(NeedEntry("dns", "network.dns", dns, AnswerBuilder.TextIs(dns, p.ip)),
                   Both(NeedEntry("gateway", "network.gateway", gateway, AnswerBuilder.TextIs(gateway, p.ip)),
                        Filter("network.filter", NIC_FILTER_KEYS, filter, (prop, s) => if prop == "ID_NET_NAME_MAC" then p.macGlob(s) else p.glob(s))))))
    ensures Get(net, "source") == Text("from-answer") ==>
              NetworkContents(v) ==
              map[["network", "source"] := Str("from-answer")]
              + (Under(["network", "cidr"], Field(v, "cidr"))
              + (Under(["network", "dns"], Field(v, "dns"))
              + (Under(["network", "gateway"], Field(v, "gateway"))
              + FilterUnder("network", Field(v, "filter")))))
  {
    hide NeedEntry, Under, Both, Filter, FilterUnder, Get, Field, AnswerBuilder.TextIs;
  }

  lemma NetworkWrites(p: Patterns, net: map<string, Json>, filter: map<string, Json>, v: Json)
    requires Network(p, net, filter).wrong == {}
    requires forall k :: Field(v, k) == Get(net, k)
    requires Get(net, "filter") == Obj(filter) || (Get(net, "filter") == Null && filter == map[])
    ensures MapOf("network", Network(p, net, filter).entries) == NetworkContents(v)
  {
    hide MapOf, NeedEntry, Under, Both, Filter, FilterUnder, Get, Field, Network, NetworkContents, AnswerBuilder.TextIs;
    NetworkIs(p, net, filter, v);
    MapOfOne("network", "source", Leaf(Str("from-dhcp")));
    if Get(net, "source") == Text("from-answer") {
      var cidr, dns := AnswerBuilder.TextIs(Get(net, "cidr"), p.cidr), AnswerBuilder.TextIs(Get(net, "dns"), p.ip);
      var gateway := AnswerBuilder.TextIs(Get(net, "gateway"), p.ip);
      StaticWrites(Get(net, "cidr"), Get(net, "dns"), Get(net, "gateway"), cidr, dns, gateway,
                   Filter("network.filter", NIC_FILTER_KEYS, filter, (prop, s) => if prop == "ID_NET_NAME_MAC" then p.macGlob(s) else p.glob(s)));
      NoFilter("network.filter", NIC_FILTER_KEYS, (prop, s) => if prop == "ID_NET_NAME_MAC" then p.macGlob(s) else p.glob(s));
      FilterWrites("network", "network.filter", NIC_FILTER_KEYS, filter, Get(net, "filter"),
                   (prop, s) => if prop == "ID_NET_NAME_MAC" then p.macGlob(s) else p.glob(s));
    }
  }

  lemma StaticWrites(cidr: Json, dns: Json, gateway: Json, a: bool, b: bool, c: bool, picked: Part)
    requires var all := Both(Adds("source", Leaf(Str("from-answer"))), Both(NeedEntry("cidr", "network.cidr", cidr, a),
                        Both(NeedEntry("dns", "network.dns", dns, b), Both(NeedEntry("gateway", "network.gateway", gateway, c), picked))));
             all.wrong == {}
    ensures var all := Both(Adds("source", Leaf(Str("from-answer"))), Both(NeedEntry("cidr", "network.cidr", cidr, a),
                       Both(NeedEntry("dns", "network.dns", dns, b), Both(NeedEntry("gateway", "network.gateway", gateway, c), picked))));
            && picked.wrong == {}
            && MapOf("network", all.entries) ==
               map[["network", "source"] := Str("from-answer")]
               + (Under(["network", "cidr"], cidr) + (Under(["network", "dns"], dns) + (Under(["network", "gateway"], gateway)
               + MapOf("network", picked.entries))))
  {
    hide MapOf, NeedEntry, Under, Both;
    MapOfOne("network", "source", Leaf(Str("from-answer")));
    FiveParts("network", Adds("source", Leaf(Str("from-answer"))),
              NeedEntry("cidr", "network.cidr", cidr, a), NeedEntry("dns", "network.dns", dns, b),
              NeedEntry("gateway", "network.gateway", gateway, c), picked);
    NeedWrites("network", "cidr", "network.cidr", cidr, a);
    NeedWrites("network", "dns", "network.dns", dns, b);
    NeedWrites("network", "gateway", "network.gateway", gateway, c);
  }

  lemma NoFilter(field: string, names: seq<string>, ok: (string, string) -> bool)
    ensures Filter(field, names, map[], ok).wrong != {}
  {
  }

  lemma RaidWrites(fs: Json, raid: Json)
    requires Raid(FilesystemOf(fs), raid).wrong == {}
    ensures MapOf("disk-setup", Raid(FilesystemOf(fs), raid).entries) == Under(["disk-setup", "filesystem"], fs) + RaidContents(fs, raid)
    ensures fs.Text?
  {
    hide MapOf, RaidMin;
    var known := FilesystemOf(fs).value;
    var name, entry := NameOf(known), Adds("filesystem", Leaf(Str(NameOf(known))));
    assert fs == Text(name);
    MapOfOne("disk-setup", "filesystem", Leaf(Str(name)));
    if HasRaid(known) {
      var level := ("raid", Str(raid.s));
      BothWrites("disk-setup", entry, Adds(name, Sub([level])));
      MapOfOne("disk-setup", name, Sub([level]));
      SubMapOfOne("disk-setup", name, level, level);
    } else {
      assert Under(["disk-setup", "filesystem"], fs) + map[] == Under(["disk-setup", "filesystem"], fs);
    }
  }

  lemma {:induction false} NoneBlank(s: seq<string>)
    requires forall i :: 0 <= i < |s| ==> s[i] != ""
    ensures NotBlank(s) == s
  {
    if s != [] {
      NoneBlank(s[1..]);
      assert [s[0]] + s[1..] == s;
    }
  }

  lemma ListIsTaken(p: Patterns, known: Option<Filesystem>, level: Option<string>, disks: seq<Json>, filter: map<string, Json>)
    requires Disks(p, known, level, disks, filter).wrong == {} && disks != []
    ensures filter == map[] && Texts(disks).Some?
    ensures forall d :: d in Texts(disks).value ==> DiskName(d)
    ensures Disks(p, known, level, disks, filter).entries == [("disk-list", Leaf(List(Texts(disks).value)))]
  {
    hide DiskListOk, Filter, DiskName, Texts;
  }

  lemma NamesAreText(names: seq<string>)
    requires forall d :: d in names ==> DiskName(d)
    ensures forall i :: 0 <= i < |names| ==> names[i] != ""
  {
    forall i | 0 <= i < |names| ensures names[i] != "" {
      assert names[i] in names && DiskName(names[i]);
    }
  }

  lemma ListWrites(p: Patterns, known: Option<Filesystem>, level: Option<string>, disks: seq<Json>, filter: map<string, Json>, v: Json)
    requires Disks(p, known, level, disks, filter).wrong == {} && disks != []
    requires v == Obj(filter) || v == Null
    ensures MapOf("disk-setup", Disks(p, known, level, disks, filter).entries)
         == ListUnder(["disk-setup", "disk-list"], Arr(disks)) + FilterUnder("disk-setup", v)
  {
    hide Disks, MapOf, DiskName, Texts, Lines;
    ListIsTaken(p, known, level, disks, filter);
    var names := Texts(disks).value;
    NamesAreText(names);
    NoneBlank(names);
    LinesAre(disks);
    NamesThere(disks);
    MapOfOne("disk-setup", "disk-list", Leaf(List(names)));
    NoProperties("disk-setup", v);
    assert map[["disk-setup", "disk-list"] := List(names)] + map[] == map[["disk-setup", "disk-list"] := List(names)];
  }

  lemma NoProperties(section: string, v: Json)
    requires v.Obj? ==> v.fields == map[]
    ensures FilterUnder(section, v) == map[]
  {
  }

  lemma DisksWrite(p: Patterns, known: Option<Filesystem>, level: Option<string>, disks: seq<Json>, filter: map<string, Json>, list: Json, v: Json)
    requires Disks(p, known, level, disks, filter).wrong == {}
    requires (list == Null && disks == []) || list == Arr(disks)
    requires v == Obj(filter) || (v == Null && filter == map[])
    ensures MapOf("disk-setup", Disks(p, known, level, disks, filter).entries)
         == ListUnder(["disk-setup", "disk-list"], list) + FilterUnder("disk-setup", v)
  {
    hide MapOf, DiskListOk, Filter;
    if disks != [] {
      ListWrites(p, known, level, disks, filter, v);
    } else {
      assert ListUnder(["disk-setup", "disk-list"], list) == map[];
      NoFilter("disk.filter", DISK_FILTER_KEYS, (prop, s) => p.glob(s));
      FilterWrites("disk-setup", "disk.filter", DISK_FILTER_KEYS, filter, v, (prop, s) => p.glob(s));
      assert map[] + FilterUnder("disk-setup", v) == FilterUnder("disk-setup", v);
    }
  }

  lemma NamesThere(disks: seq<Json>)
    requires disks != [] && Texts(disks).Some?
    ensures Texts(disks).value != []
  {
  }

  /** The dicts of a form are those of the fields. */
  lemma FormIs(fields: Json)
    requires Shape(fields).Some?
    ensures var form := Shape(fields).value;
            && (forall k :: Field(Field(fields, "global"), k) == Get(form.g, k))
            && (forall k :: Field(Field(fields, "network"), k) == Get(form.net, k))
            && (forall k :: Field(Field(fields, "disk"), k) == Get(form.disk, k))
            && (Get(form.net, "filter") == Obj(form.nicFilter) || (Get(form.net, "filter") == Null && form.nicFilter == map[]))
            && (Get(form.disk, "filter") == Obj(form.diskFilter) || (Get(form.disk, "filter") == Null && form.diskFilter == map[]))
            && ((Get(form.disk, "disk_list") == Null && form.disks == []) || Get(form.disk, "disk_list") == Arr(form.disks))
  {
    hide HasPlaintextKey;
  }

  lemma DiskWrites(p: Patterns, form: Form, v: Json)
    requires DiskSetup(p, form).wrong == {}
    requires forall k :: Field(v, k) == Get(form.disk, k)
    requires Get(form.disk, "filter") == Obj(form.diskFilter) || (Get(form.disk, "filter") == Null && form.diskFilter == map[])
    requires (Get(form.disk, "disk_list") == Null && form.disks == []) || Get(form.disk, "disk_list") == Arr(form.disks)
    ensures MapOf("disk-setup", DiskSetup(p, form).entries) == DiskContents(v)
  {
    hide MapOf, Under, Field, Get, Both, FilterUnder, ListUnder, RaidContents, Raid, Disks, FilesystemOf, LevelOf;
    var fs := FilesystemOf(Get(form.disk, "filesystem"));
    var raid := Get(form.disk, "raid");
    var level := if fs.Some? then LevelOf(fs.value, raid) else None;
    BothWrites("disk-setup", Raid(fs, raid), Disks(p, fs, level, form.disks, form.diskFilter));
    RaidWrites(Get(form.disk, "filesystem"), raid);
    DisksWrite(p, fs, level, form.disks, form.diskFilter, Get(form.disk, "disk_list"), Get(form.disk, "filter"));
  }

  // ----- the tables -----

  /** The tables the keys of three parts lie in. */
  function Inner(values: map<Key, Value>): set<Key> {
    set k | k in values && |k| == 3 :: k[..2]
  }

  lemma InnerOfBoth(a: map<Key, Value>, b: map<Key, Value>)
    ensures Inner(a + b) == Inner(a) + Inner(b)
  {
    forall t | t in Inner(a) + Inner(b) ensures t in Inner(a + b) {
      if t in Inner(a) {
        var k :| k in a && |k| == 3 && t == k[..2];
        assert k in a + b;
      } else {
        var k :| k in b && |k| == 3 && t == k[..2];
        assert k in a + b;
      }
    }
  }

  lemma {:induction false} InnerOfSub(n: string, k: string, es: seq<(string, Value)>)
    ensures Inner(SubMap(n, k, es)) == if es == [] then {} else {[n, k]}
  {
    if es != [] {
      var one := map[[n, k, es[0].0] := es[0].1];
      InnerOfSub(n, k, es[1..]);
      InnerOfBoth(one, SubMap(n, k, es[1..]));
      assert [n, k, es[0].0] in one && [n, k, es[0].0][..2] == [n, k];
      assert Inner(one) == {[n, k]};
    }
  }

  lemma {:induction false} InnerOfEntries(n: string, es: Entries)
    requires forall i :: 0 <= i < |es| && es[i].1.Sub? ==> es[i].1.entries != []
    ensures SubTables(n, es, true) == Inner(MapOf(n, es))
  {
    hide Inner;
    if es == [] {
      NothingInner();
    } else {
      assert forall i :: 0 <= i < |es[1..]| ==> es[1..][i] == es[i + 1];
      InnerOfEntries(n, es[1..]);
      InnerOfBoth(NodeMap(n, es[0].0, es[0].1), MapOf(n, es[1..]));
      match es[0].1 {
        case Leaf(v) => InnerOfLeaf(n, es[0].0, v);
        case Sub(sub) => InnerOfSub(n, es[0].0, sub);
      }
    }
  }

  lemma NothingInner()
    ensures Inner(map[]) == {}
  {
  }

  lemma InnerOfLeaf(n: string, k: string, v: Value)
    ensures Inner(map[[n, k] := v]) == {}
  {
  }

  lemma SubsAreFilled(p: Patterns, form: Form)
    requires WrongFields(p, form) == {}
    ensures forall i :: 0 <= i < |Global(p, form.g).entries| && Global(p, form.g).entries[i].1.Sub? ==> Global(p, form.g).entries[i].1.entries != []
    ensures var es := Network(p, form.net, form.nicFilter).entries;
            forall i :: 0 <= i < |es| && es[i].1.Sub? ==> es[i].1.entries != []
    ensures var es := DiskSetup(p, form).entries; forall i :: 0 <= i < |es| && es[i].1.Sub? ==> es[i].1.entries != []
  {
    hide Global, Network, DiskSetup, GlobalFit, NetworkFit, DiskFit, WellFormedEntries;
    GlobalFits(p, form.g);
    GlobalIsFit(p, Global(p, form.g).entries);
    NetworkFits(p, form.net, form.nicFilter);
    NetworkIsFit(Network(p, form.net, form.nicFilter).entries);
    DiskFits(p, form);
    var fs, level :| DiskFit(fs, level, DiskSetup(p, form).entries);
    DiskIsFit(fs, level, DiskSetup(p, form).entries);
  }

  lemma ThreeTables(g: Entries, net: Entries, disk: Entries)
    ensures Tables([Section("global", g), Section("network", net), Section("disk-setup", disk)], true)
         == {["global"], ["network"], ["disk-setup"]}
            + (SubTables("global", g, true) + SubTables("network", net, true) + SubTables("disk-setup", disk, true))
  {
    hide SubTables;
    var model := [Section("global", g), Section("network", net), Section("disk-setup", disk)];
    var last := [model[2]];
    assert model[1..] == [model[1], model[2]] && model[1..][1..] == last && last[1..] == [];
    assert Tables(last, true) == {["disk-setup"]} + SubTables("disk-setup", disk, true) + {};
    assert Tables(model[1..], true) == {["network"]} + SubTables("network", net, true) + Tables(last, true);
    assert Tables(model, true) == {["global"]} + SubTables("global", g, true) + Tables(model[1..], true);
  }

  // ----- the file -----

  /** The answer file the guided setup gives back for a form reads as the form's own values, each
      under its key, and nothing else. */
  lemma AnswerHoldsTheForm(p: Patterns, fields: Json)
    requires BuildAnswer(p, fields).Answer?
    ensures ReadText(BuildAnswer(p, fields).text, ReadValue) == Some(Data(Contents(fields), TablesOf(Contents(fields))))
  {
    hide MapOf, GlobalContents, NetworkContents, DiskContents, Global, Network, DiskSetup, Shape, Values, Tables, SubTables, Emit, ReadText, Field, Inner;
    BuilderReadsBack(p, fields);
    FormIs(fields);
    var form := Shape(fields).value;
    GlobalWrites(p, form.g, Field(fields, "global"));
    NetworkWrites(p, form.net, form.nicFilter, Field(fields, "network"));
    DiskWrites(p, form, Field(fields, "disk"));
    SubsAreFilled(p, form);
    var g, net, disk := Global(p, form.g).entries, Network(p, form.net, form.nicFilter).entries, DiskSetup(p, form).entries;
    DataHasTwoParts(Data(map[], {}), Model(p, form), true);
    ThreeSections(g, net, disk);
    ThreeTables(g, net, disk);
    InnerOfEntries("global", g);
    InnerOfEntries("network", net);
    InnerOfEntries("disk-setup", disk);
    InnerOfBoth(MapOf("global", g), MapOf("network", net));
    InnerOfBoth(MapOf("global", g) + MapOf("network", net), MapOf("disk-setup", disk));
    InnerIs(Contents(fields));
    assert {} + Tables(Model(p, form), true) == Tables(Model(p, form), true);
    assert AsData(Model(p, form)).values == Contents(fields);
    assert AsData(Model(p, form)).tables == TablesOf(Contents(fields));
  }

  lemma InnerIs(values: map<Key, Value>)
    ensures TablesOf(values) == {["global"], ["network"], ["disk-setup"]} + Inner(values)
  {
  }
}
