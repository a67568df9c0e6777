/**
 Which forms the guided setup takes, field by field: said of what a browser sends.
 */
module AnswerFields {
  import opened Wrappers
  import Printer = TomlPrinter
  import opened AnswerRules
  import opened AnswerBuilder
  import opened AnswerContents
  import Demands = AnswerDemands

  // ----- forms that are refused -----

  /** A step from a value into one it holds. */
  datatype Hop = Into(key: string) | Nth(i: nat)

  function ValueAt(v: Json, path: seq<Hop>): Option<Json>
    decreases |path|
  {
    if path == [] then Some(v)
    else match (path[0], v)
      case (Into(k), Obj(m)) => if k in m then ValueAt(m[k], path[1..]) else None
      case (Nth(i), Arr(items)) => if i < |items| then ValueAt(items[i], path[1..]) else None
      case _ => None
  }

  predicate NamesAPassword(v: Option<Json>) {
    v.Some? && v.value.Obj? && ("root_password" in v.value.fields || "root-password" in v.value.fields)
  }

  lemma {:induction false} PathIsFound(v: Json, path: seq<Hop>)
    requires NamesAPassword(ValueAt(v, path))
    ensures HasPlaintextKey(v)
    decreases |path|
  {
    if path != [] {
      match v {
        case Obj(m) => PathIsFound(m[path[0].key], path[1..]);
        case Arr(items) => PathIsFound(items[path[0].i], path[1..]);
        case _ =>
      }
    }
  }

  lemma {:induction false} FoundHasPath(v: Json) returns (path: seq<Hop>)
    requires HasPlaintextKey(v)
    ensures NamesAPassword(ValueAt(v, path))
  {
    if NamesAPassword(Some(v)) {
      return [];
    }
    match v {
      case Obj(m) =>
        var k :| k in m && HasPlaintextKey(m[k]);
        var rest := FoundHasPath(m[k]);
        path := [Into(k)] + rest;
        assert path[1..] == rest;
      case Arr(items) =>
        var i :| 0 <= i < |items| && HasPlaintextKey(items[i]);
        var rest := FoundHasPath(items[i]);
        path := [Nth(i)] + rest;
        assert path[1..] == rest;
      case _ =>
    }
  }

  /** A password in clear is found exactly where a dict at any depth, through dicts and lists, has
      such a key. */
  lemma PlaintextIff(v: Json)
    ensures HasPlaintextKey(v) <==> exists path :: NamesAPassword(ValueAt(v, path))
  {
    hide ValueAt, NamesAPassword, HasPlaintextKey;
    if HasPlaintextKey(v) {
      var path := FoundHasPath(v);
      assert NamesAPassword(ValueAt(v, path));
    }
    forall path | NamesAPassword(ValueAt(v, path)) ensures HasPlaintextKey(v) {
      PathIsFound(v, path);
    }
  }

  /** Left out, or a dict with these keys only. */
  predicate Keyed(v: Json, allowed: set<string>) {
    v.Null? || (v.Obj? && v.fields.Keys <= allowed)
  }

  /** A form is refused as a whole exactly when it is no dict, names a password in clear anywhere,
      or has a part of another shape than the guided setup sends. */
  lemma RefusedIff(p: Patterns, fields: Json)
    ensures !BuildAnswer(p, fields).Refused? <==>
              && fields.Obj? && (forall path :: !NamesAPassword(ValueAt(fields, path)))
              && Keyed(fields, {"global", "network", "disk"})
              && Keyed(Field(fields, "global"),
                       {"keyboard", "country", "timezone", "mailto", "fqdn", "root_password_hashed", "root_ssh_keys"})
              && Keyed(Field(fields, "network"), {"source", "cidr", "gateway", "dns", "filter"})
              && Keyed(Field(fields, "disk"), {"filesystem", "raid", "disk_list", "filter"})
              && Keyed(Field(Field(fields, "network"), "filter"), {"ID_NET_NAME_MAC", "ID_NET_NAME"})
              && Keyed(Field(Field(fields, "disk"), "filter"), {"ID_SERIAL", "ID_SERIAL_SHORT", "ID_WWN", "ID_MODEL", "DEVNAME"})
              && var (fqdn, disks) := (Field(Field(fields, "global"), "fqdn"), Field(Field(fields, "disk"), "disk_list"));
                 (fqdn.Obj? ==> Keyed(fqdn, {"source", "domain"})) && (disks.Null? || disks.Arr?)
  {
    hide HasPlaintextKey, WrongFields, Model, Printer.Emit, ValueAt, Table, Shape, Field, Keyed;
    PlaintextIff(fields);
    ShapeIs(fields);
    TableIff(fields, SECTIONS, {"global", "network", "disk"});
    var g, net, disk := Field(fields, "global"), Field(fields, "network"), Field(fields, "disk");
    TableIff(g, GLOBAL_KEYS, {"keyboard", "country", "timezone", "mailto", "fqdn", "root_password_hashed", "root_ssh_keys"});
    TableIff(net, NETWORK_KEYS, {"source", "cidr", "gateway", "dns", "filter"});
    TableIff(disk, DISK_KEYS, {"filesystem", "raid", "disk_list", "filter"});
    TableIff(Field(net, "filter"), NIC_FILTER_KEYS, {"ID_NET_NAME_MAC", "ID_NET_NAME"});
    TableIff(Field(disk, "filter"), DISK_FILTER_KEYS, {"ID_SERIAL", "ID_SERIAL_SHORT", "ID_WWN", "ID_MODEL", "DEVNAME"});
    TableIff(Field(g, "fqdn"), FQDN_KEYS, {"source", "domain"});
  }

  lemma ShapeIs(fields: Json)
    ensures var g, net, disk := Field(fields, "global"), Field(fields, "network"), Field(fields, "disk");
            Shape(fields).Some? <==>
              && fields.Obj? && !HasPlaintextKey(fields) && Table(fields, SECTIONS).Some?
              && Table(g, GLOBAL_KEYS).Some? && Table(net, NETWORK_KEYS).Some? && Table(disk, DISK_KEYS).Some?
              && Table(Field(net, "filter"), NIC_FILTER_KEYS).Some? && Table(Field(disk, "filter"), DISK_FILTER_KEYS).Some?
              && (Field(g, "fqdn").Obj? ==> Table(Field(g, "fqdn"), FQDN_KEYS).Some?)
              && (Field(disk, "disk_list").Null? || Field(disk, "disk_list").Arr?)
  {
    hide HasPlaintextKey, Table;
    var g, net, disk := Field(fields, "global"), Field(fields, "network"), Field(fields, "disk");
    TableGets(g, GLOBAL_KEYS);
    TableGets(net, NETWORK_KEYS);
    TableGets(disk, DISK_KEYS);
  }

  lemma TableIff(v: Json, names: seq<string>, allowed: set<string>)
    requires forall k :: k in names <==> k in allowed
    ensures Table(v, names).Some? <==> Keyed(v, allowed)
  {
  }

  lemma TableGets(v: Json, names: seq<string>)
    ensures Table(v, names).Some? ==> forall k :: Get(Table(v, names).value, k) == Field(v, k)
  {
  }

  // ----- fields that are wrong -----

  predicate Printable(s: string) {
    forall i :: 0 <= i < |s| ==> s[i] >= ' ' && s[i] != '\U{7f}'
  }

  /** A text of up to 255 characters without control characters. */
  predicate OneText(v: Json) {
    v.Text? && 1 <= |v.s| <= 255 && Printable(v.s)
  }

  ghost predicate GoodFqdn(v: Json) {
    if v.Obj? then
      && Field(v, "source") == Text("from-dhcp")
      && match Field(v, "domain")
         case Null => true
         case Text(s) => s == "" || Demands.DomainName(s)
         case _ => false
    else OneText(v) && Demands.HostName(v.s)
  }

  /** Nothing, or a list of texts: up to 50 that are not blank, each a public key of up to 16384
      characters. */
  predicate GoodKeys(p: Patterns, v: Json) {
    v == Null
    || (&& v.Arr? && (forall i :: 0 <= i < |v.items| ==> v.items[i].Text?)
        && |Lines(v.items)| <= 50
        && forall i :: 0 <= i < |v.items| && v.items[i].s != "" ==>
             Printable(v.items[i].s) && |v.items[i].s| <= 16384 && p.sshKey(v.items[i].s))
  }

  /** One property, of these, with a text its pattern takes. */
  predicate GoodFilter(v: Json, names: set<string>, ok: (string, string) -> bool) {
    && v.Obj? && |v.fields| == 1
    && forall k :: k in v.fields ==> k in names && v.fields[k].Text? && Printable(v.fields[k].s) && ok(k, v.fields[k].s)
  }

  /** The field, unless it is good. */
  function Unless(good: bool, field: string): set<string> {
    if good then {} else {field}
  }

  predicate GoodCountry(v: Json) {
    v.Text? && |v.s| == 2 && 'a' <= v.s[0] <= 'z' && 'a' <= v.s[1] <= 'z'
  }

  ghost function WrongGlobal(p: Patterns, g: Json): set<string> {
    var (keyboard, mailto, timezone, hashed) :=
      (Field(g, "keyboard"), Field(g, "mailto"), Field(g, "timezone"), Field(g, "root_password_hashed"));
    Unless(OneText(keyboard) && keyboard.s in KEYBOARDS, "global.keyboard")
    + Unless(GoodCountry(Field(g, "country")), "global.country")
    + Unless(GoodFqdn(Field(g, "fqdn")), "global.fqdn")
    + Unless(OneText(mailto) && p.mail(mailto.s) && mailto.s != "mail@example.invalid", "global.mailto")
    + Unless(OneText(timezone) && p.timezone(timezone.s) && !("Etc/" <= timezone.s), "global.timezone")
    + Unless(OneText(hashed) && p.crypt(hashed.s), "global.root_password_hashed")
    + Unless(GoodKeys(p, Field(g, "root_ssh_keys")), "global.root_ssh_keys")
  }

  lemma NeedAsks(key: string, field: string, v: Json, ok: string -> bool)
    ensures NeedEntry(key, field, v, AnswerBuilder.TextIs(v, ok)).wrong == Unless(OneText(v) && ok(v.s), field)
    ensures OneText(v) ==> v.Text?
  {
  }

  lemma FqdnAsks(v: Json)
    ensures Fqdn(v).wrong == Unless(GoodFqdn(v), "global.fqdn")
  {
    hide FqdnOk, Demands.HostName, Demands.DomainName;
    if v.Obj? {
      var domain := Get(v.fields, "domain");
      if domain.Text? {
        Demands.FqdnIff(domain.s);
        NamesArePrintable(domain.s);
      }
    } else {
      NeedAsks("fqdn", "global.fqdn", v, s => FqdnOk(s, true));
      if v.Text? {
        Demands.FqdnIff(v.s);
      }
    }
  }

  lemma NamesArePrintable(s: string)
    ensures FqdnOk(s, false) ==> Printable(s)
    ensures Printable(s) <==> !Unprintable(s)
  {
    if !Printable(s) {
      UnprintablePart(s);
      var i :| 0 <= i < |Labels(s)| && !Printable(Labels(s)[i]);
      UnprintableLabel(Labels(s)[i]);
    }
  }

  lemma {:induction false} UnprintablePart(s: string)
    requires !Printable(s)
    ensures exists i :: 0 <= i < |Labels(s)| && !Printable(Labels(s)[i])
  {
    var rest := Labels(s[1..]);
    assert s == [s[0]] + s[1..];
    if s[0] < ' ' || s[0] == '\U{7f}' {
      assert Labels(s)[0][0] == s[0];
    } else {
      UnprintablePart(s[1..]);
      var i :| 0 <= i < |rest| && !Printable(rest[i]);
      if s[0] == '.' {
        assert Labels(s)[i + 1] == rest[i];
      } else if i == 0 {
        assert Labels(s)[0][1..] == rest[0];
      } else {
        assert Labels(s)[i] == rest[i];
      }
    }
  }

  lemma UnprintableLabel(s: string)
    requires !Printable(s)
    ensures !Label(s)
  {
  }

  lemma {:induction false} TextsIff(items: seq<Json>)
    ensures Texts(items).Some? <==> forall i :: 0 <= i < |items| ==> items[i].Text?
    ensures Texts(items).Some? ==> |Texts(items).value| == |items| && forall i :: 0 <= i < |items| ==> items[i] == Text(Texts(items).value[i])
  {
    if items != [] {
      TextsIff(items[1..]);
      assert forall i :: 0 <= i < |items[1..]| ==> items[1..][i] == items[i + 1];
      assert forall i :: 0 < i < |items| ==> items[i] == items[1..][i - 1];
    }
  }

  lemma {:induction false} BlanksAside(s: seq<string>, x: string)
    ensures x in NotBlank(s) <==> x in s && x != ""
  {
    if s != [] {
      BlanksAside(s[1..], x);
      assert s == [s[0]] + s[1..];
    }
  }

  predicate BadKey(p: Patterns, k: string) {
    Unprintable(k) || |k| > MAX_SSH_KEY || !p.sshKey(k)
  }

  lemma KeysAsk(p: Patterns, v: Json)
    ensures SshKeys(p, v).wrong == Unless(GoodKeys(p, v), "global.root_ssh_keys")
  {
    if v.Arr? {
      TextsIff(v.items);
      if Texts(v.items).Some? {
        LinesAre(v.items);
        EachKey(p, v.items);
        ManyKeys(p, v.items);
      } else {
        hide Lines, Texts;
      }
    }
  }

  lemma ManyKeys(p: Patterns, items: seq<Json>)
    requires Texts(items).Some?
    ensures SshKeys(p, Arr(items)).wrong ==
            Unless(|NotBlank(Texts(items).value)| <= 50 && forall k :: k in NotBlank(Texts(items).value) ==> !BadKey(p, k),
                   "global.root_ssh_keys")
  {
    hide Texts, NotBlank, Unprintable;
    if items == [] {
      NoTexts();
    }
  }

  lemma EachKey(p: Patterns, items: seq<Json>)
    requires Texts(items).Some?
    ensures forall i :: 0 <= i < |items| ==> items[i].Text?
    ensures (forall k :: k in NotBlank(Texts(items).value) ==> !BadKey(p, k)) <==>
            (forall i :: 0 <= i < |items| && items[i].s != "" ==>
               Printable(items[i].s) && |items[i].s| <= 16384 && p.sshKey(items[i].s))
  {
    hide Texts, NotBlank;
    TextsIff(items);
    var texts := Texts(items).value;
    forall i | 0 <= i < |items| && items[i].s != "" ensures items[i].s in NotBlank(texts) {
      assert texts[i] in texts;
      BlanksAside(texts, texts[i]);
    }
    forall k | k in NotBlank(texts) ensures exists i :: 0 <= i < |items| && items[i].s == k && k != "" {
      BlanksAside(texts, k);
      var i :| 0 <= i < |texts| && texts[i] == k;
      assert items[i].s == k;
    }
    forall k: string ensures BadKey(p, k) <==> !(Printable(k) && |k| <= 16384 && p.sshKey(k)) {
    }
    hide BadKey, Printable;
  }

  lemma SevenWrong(a: Part, b: Part, c: Part, d: Part, e: Part, f: Part, g: Part)
    ensures Both(a, Both(b, Both(c, Both(d, Both(e, Both(f, g)))))).wrong
         == a.wrong + b.wrong + c.wrong + d.wrong + e.wrong + f.wrong + g.wrong
  {
  }

  lemma NeedAsksIf(key: string, field: string, v: Json, ok: bool)
    ensures NeedEntry(key, field, v, ok).wrong == Unless(OneText(v) && ok, field)
  {
  }

  /** The wrong fields of [global]. */
  lemma GlobalAsks(p: Patterns, g: map<string, Json>, v: Json)
    requires forall k :: Field(v, k) == Get(g, k)
    ensures Global(p, g).wrong == WrongGlobal(p, v)
  {
    hide NeedEntry, Fqdn, SshKeys, GoodFqdn, GoodKeys, OneText, Field, Get, GoodCountry, Unless, Both;
    var (keyboard, country, mailto) := (Get(g, "keyboard"), Get(g, "country"), Get(g, "mailto"));
    var (timezone, hashed) := (Get(g, "timezone"), Get(g, "root_password_hashed"));
    var keyboardOk := AnswerBuilder.TextIs(keyboard, s => KeyboardOk(s));
    var countryOk := AnswerBuilder.TextIs(country, s => CountryOk(s));
    var mailtoOk := AnswerBuilder.TextIs(mailto, s => MailOk(p, s));
    var timezoneOk := AnswerBuilder.TextIs(timezone, s => TimezoneOk(p, s));
    var hashedOk := AnswerBuilder.TextIs(hashed, p.crypt);
    SevenWrong(NeedEntry("keyboard", "global.keyboard", keyboard, keyboardOk),
               NeedEntry("country", "global.country", country, countryOk),
               Fqdn(Get(g, "fqdn")),
               NeedEntry("mailto", "global.mailto", mailto, mailtoOk),
               NeedEntry("timezone", "global.timezone", timezone, timezoneOk),
               NeedEntry("root-password-hashed", "global.root_password_hashed", hashed, hashedOk),
               SshKeys(p, Get(g, "root_ssh_keys")));
    NeedAsksIf("keyboard", "global.keyboard", keyboard, keyboardOk);
    NeedAsksIf("country", "global.country", country, countryOk);
    CountryIsText(country);
    FqdnAsks(Get(g, "fqdn"));
    NeedAsksIf("mailto", "global.mailto", mailto, mailtoOk);
    NeedAsksIf("timezone", "global.timezone", timezone, timezoneOk);
    NeedAsksIf("root-password-hashed", "global.root_password_hashed", hashed, hashedOk);
    KeysAsk(p, Get(g, "root_ssh_keys"));
    RulesAre(p, keyboard, mailto, timezone);
    TextsAre(keyboard);
    TextsAre(country);
    TextsAre(mailto);
    TextsAre(timezone);
    TextsAre(hashed);
  }

  lemma TextsAre(v: Json)
    ensures OneText(v) ==> v.Text?
  {
  }

  lemma RulesAre(p: Patterns, keyboard: Json, mailto: Json, timezone: Json)
    ensures OneText(keyboard) ==> (KeyboardOk(keyboard.s) <==> keyboard.s in KEYBOARDS)
    ensures OneText(mailto) ==> (MailOk(p, mailto.s) <==> p.mail(mailto.s) && mailto.s != "mail@example.invalid")
    ensures OneText(timezone) ==> (TimezoneOk(p, timezone.s) <==> p.timezone(timezone.s) && !("Etc/" <= timezone.s))
  {
  }

  lemma CountryIsText(v: Json)
    ensures OneText(v) && CountryOk(v.s) <==> GoodCountry(v)
  {
  }

  function WrongNetwork(p: Patterns, net: Json): set<string> {
    var (cidr, dns, gateway) := (Field(net, "cidr"), Field(net, "dns"), Field(net, "gateway"));
    match Field(net, "source")
    case Text("from-dhcp") => {}
    case Text("from-answer") =>
      Unless(OneText(cidr) && p.cidr(cidr.s), "network.cidr")
      + Unless(OneText(dns) && p.ip(dns.s), "network.dns")
      + Unless(OneText(gateway) && p.ip(gateway.s), "network.gateway")
      + Unless(GoodFilter(Field(net, "filter"), {"ID_NET_NAME_MAC", "ID_NET_NAME"},
                          (prop, s) => if prop == "ID_NET_NAME_MAC" then p.macGlob(s) else p.glob(s)), "network.filter")
    case _ => {"network.source"}
  }

  lemma {:induction false} FirstOf(names: seq<string>, m: map<string, Json>)
    ensures FirstKey(names, m).None? ==> forall k :: k in names ==> k !in m
  {
    if names != [] {
      FirstOf(names[1..], m);
    }
  }

  lemma FilterAsks(field: string, names: seq<string>, allowed: set<string>, filter: map<string, Json>, v: Json, ok: (string, string) -> bool)
    requires (forall k :: k in names <==> k in allowed) && (v == Obj(filter) || (v == Null && filter == map[]))
    ensures Filter(field, names, filter, ok).wrong == Unless(GoodFilter(v, allowed, ok), field)
  {
    hide Printable, Unprintable;
    FirstOf(names, filter);
    var prop := FirstKey(names, filter);
    if |filter| == 1 && prop.Some? {
      OneKey(filter, prop.value);
      if filter[prop.value].Text? {
        PrintableIs(filter[prop.value].s);
      }
    } else if |filter| == 1 {
      var k :| k in filter;
    }
  }

  lemma PrintableIs(s: string)
    ensures Printable(s) <==> !Unprintable(s)
  {
  }

  lemma FiveWrong(a: Part, b: Part, c: Part, d: Part, e: Part)
    ensures Both(a, Both(b, Both(c, Both(d, e)))).wrong == a.wrong + b.wrong + c.wrong + d.wrong + e.wrong
  {
  }

  lemma StaticAsks(cidr: Json, dns: Json, gateway: Json, a: bool, b: bool, c: bool, picked: Part)
    ensures Both(Adds("source", Printer.Leaf(Toml.Str("from-answer"))), Both(NeedEntry("cidr", "network.cidr", cidr, a),
              Both(NeedEntry("dns", "network.dns", dns, b), Both(NeedEntry("gateway", "network.gateway", gateway, c), picked)))).wrong
         == Unless(OneText(cidr) && a, "network.cidr") + Unless(OneText(dns) && b, "network.dns")
            + Unless(OneText(gateway) && c, "network.gateway") + picked.wrong
  {
    hide NeedEntry, OneText, Unless, Both;
    var source := Adds("source", Printer.Leaf(Toml.Str("from-answer")));
    FiveWrong(source, NeedEntry("cidr", "network.cidr", cidr, a), NeedEntry("dns", "network.dns", dns, b),
              NeedEntry("gateway", "network.gateway", gateway, c), picked);
    NeedAsksIf("cidr", "network.cidr", cidr, a);
    NeedAsksIf("dns", "network.dns", dns, b);
    NeedAsksIf("gateway", "network.gateway", gateway, c);
  }

  lemma MatchesIs(v: Json, ok: string -> bool)
    ensures OneText(v) ==> v.Text? && (AnswerBuilder.TextIs(v, ok) <==> ok(v.s))
  {
  }

  lemma StaticIs(p: Patterns, net: map<string, Json>, filter: map<string, Json>, v: Json)
    requires Get(net, "source") == Text("from-answer") && Field(v, "source") == Text("from-answer")
    ensures var (cidr, dns, gateway) := (Get(net, "cidr"), Get(net, "dns"), Get(net, "gateway"));
            Network(p, net, filter) ==
            Both(Adds("source", Printer.Leaf(Toml.Str("from-answer"))),
                 Both(NeedEntry("cidr", "network.cidr", cidr, AnswerBuilder.TextIs(cidr, p.cidr)),
                 Both(NeedEntry("dns", "network.dns", dns, AnswerBuilder.TextIs(dns, p.ip)),
                 Both(NeedEntry("gateway", "network.gateway", gateway, AnswerBuilder.TextIs(gateway, p.ip)),
                      Filter("network.filter", NIC_FILTER_KEYS, filter, (prop, s) => if prop == "ID_NET_NAME_MAC" then p.macGlob(s) else p.glob(s))))))
    ensures var (cidr, dns, gateway) := (Field(v, "cidr"), Field(v, "dns"), Field(v, "gateway"));
            WrongNetwork(p, v) ==
            Unless(OneText(cidr) && p.cidr(cidr.s), "network.cidr") + Unless(OneText(dns) && p.ip(dns.s), "network.dns")
            + Unless(OneText(gateway) && p.ip(gateway.s), "network.gateway")
            + Unless(GoodFilter(Field(v, "filter"), {"ID_NET_NAME_MAC", "ID_NET_NAME"},
                                (prop, s) => if prop == "ID_NET_NAME_MAC" then p.macGlob(s) else p.glob(s)), "network.filter")
  {
    hide NeedEntry, OneText, Field, Get, Unless, Both, Filter, GoodFilter, AnswerBuilder.TextIs;
  }

  lemma OthersAsk(p: Patterns, net: map<string, Json>, filter: map<string, Json>, v: Json)
    requires Get(net, "source") != Text("from-answer") && Field(v, "source") == Get(net, "source")
    ensures Network(p, net, filter).wrong == WrongNetwork(p, v)
  {
    hide NeedEntry, OneText, Field, Get, Filter, GoodFilter, AnswerBuilder.TextIs;
  }

  lemma FromAnswerAsks(p: Patterns, net: map<string, Json>, filter: map<string, Json>, v: Json)
    requires forall k :: Field(v, k) == Get(net, k)
    requires Get(net, "filter") == Obj(filter) || (Get(net, "filter") == Null && filter == map[])
    requires Get(net, "source") == Text("from-answer")
    ensures Network(p, net, filter).wrong == WrongNetwork(p, v)
  {
    hide NeedEntry, OneText, Field, Get, Unless, Both, Filter, GoodFilter, AnswerBuilder.TextIs, Network, WrongNetwork;
    var (cidr, dns, gateway) := (Get(net, "cidr"), Get(net, "dns"), Get(net, "gateway"));
    StaticIs(p, net, filter, v);
    MatchesIs(cidr, p.cidr);
    MatchesIs(dns, p.ip);
    MatchesIs(gateway, p.ip);
    FilterAsks("network.filter", NIC_FILTER_KEYS, {"ID_NET_NAME_MAC", "ID_NET_NAME"}, filter, Get(net, "filter"),
               (prop, s) => if prop == "ID_NET_NAME_MAC" then p.macGlob(s) else p.glob(s));
    StaticAsks(cidr, dns, gateway, AnswerBuilder.TextIs(cidr, p.cidr), AnswerBuilder.TextIs(dns, p.ip), AnswerBuilder.TextIs(gateway, p.ip),
               Filter("network.filter", NIC_FILTER_KEYS, filter, (prop, s) => if prop == "ID_NET_NAME_MAC" then p.macGlob(s) else p.glob(s)));
  }

  /** The wrong fields of [network]. */
  lemma NetworkAsks(p: Patterns, net: map<string, Json>, filter: map<string, Json>, v: Json)
    requires forall k :: Field(v, k) == Get(net, k)
    requires Get(net, "filter") == Obj(filter) || (Get(net, "filter") == Null && filter == map[])
    ensures Network(p, net, filter).wrong == WrongNetwork(p, v)
  {
    hide NeedEntry, OneText, Field, Get, Unless, Both, Filter, GoodFilter, AnswerBuilder.TextIs, Network, WrongNetwork;
    if Get(net, "source") != Text("from-answer") {
      OthersAsk(p, net, filter, v);
    } else {
      FromAnswerAsks(p, net, filter, v);
    }
  }

  predicate HasLevel(fs: Json, raid: Json) {
    raid.Text? && (fs == Text("zfs") || fs == Text("btrfs")) && Demands.HasLevel(fs.s, raid.s)
  }

  predicate LetterOrDigit(c: char) {
    'a' <= c <= 'z' || 'A' <= c <= 'Z' || '0' <= c <= '9'
  }

  /** A disk as the kernel names it, no path under disk/. */
  predicate GoodDisk(s: string) {
    && 1 <= |s| <= 64 && LetterOrDigit(s[0]) && (forall i :: 0 <= i < |s| ==> LetterOrDigit(s[i]) || s[i] in "_.:-/")
    && !("disk/" <= s) && !("/dev/disk/" <= s)
  }

  /** Up to 64 different disks, as many as the filesystem and its level take. */
  predicate GoodList(fs: Json, raid: Json, disks: seq<Json>) {
    && |disks| <= 64
    && (forall i :: 0 <= i < |disks| ==> disks[i].Text? && GoodDisk(disks[i].s))
    && (forall i, j :: 0 <= i < j < |disks| ==> disks[i] != disks[j])
    && (fs == Text("ext4") || fs == Text("xfs") ==> |disks| <= 1)
    && (HasLevel(fs, raid) ==> Demands.EnoughDisks(raid.s, |disks|))
  }

  function WrongDisks(p: Patterns, disk: Json): set<string> {
    var (list, filter) := (Field(disk, "disk_list"), Field(disk, "filter"));
    var (listed, filtered) := (list.Arr? && list.items != [], filter.Obj? && filter.fields != map[]);
    if listed && !filtered then Unless(GoodList(Field(disk, "filesystem"), Field(disk, "raid"), list.items), "disk.disk_list")
    else if filtered && !listed then
      Unless(GoodFilter(filter, {"ID_SERIAL", "ID_SERIAL_SHORT", "ID_WWN", "ID_MODEL", "DEVNAME"}, (prop, s) => p.glob(s)), "disk.filter")
    else {"disk.disk_list"}
  }

  function WrongDisk(p: Patterns, disk: Json): set<string> {
    var (fs, raid) := (Field(disk, "filesystem"), Field(disk, "raid"));
    Unless(fs in {Text("ext4"), Text("xfs"), Text("zfs"), Text("btrfs")}, "disk.filesystem")
    + Unless(fs == Text("zfs") || fs == Text("btrfs") ==> HasLevel(fs, raid), "disk.raid")
    + WrongDisks(p, disk)
  }

  lemma RaidAsks(fs: Json, raid: Json)
    ensures Raid(FilesystemOf(fs), raid).wrong ==
            Unless(fs in {Text("ext4"), Text("xfs"), Text("zfs"), Text("btrfs")}, "disk.filesystem")
            + Unless(fs == Text("zfs") || fs == Text("btrfs") ==> HasLevel(fs, raid), "disk.raid")
    ensures var known := FilesystemOf(fs);
            && (known == Some(Ext4) <==> fs == Text("ext4")) && (known == Some(Xfs) <==> fs == Text("xfs"))
            && (known.Some? && LevelOf(known.value, raid).Some? <==> HasLevel(fs, raid))
            && (HasLevel(fs, raid) ==> HasRaid(known.value) && NameOf(known.value) == fs.s && LevelOf(known.value, raid) == Some(raid.s))
  {
  }

  lemma DiskIs(s: string)
    ensures DiskName(s) && !DiskPath(s) <==> GoodDisk(s)
  {
    hide DiskPath;
    Demands.PathIs(s);
  }

  /** How many disks there may be, and no two the same. */
  lemma NumberAsks(fs: Json, raid: Json, names: seq<string>)
    ensures var known := FilesystemOf(fs);
            DiskListOk(known, if known.Some? then LevelOf(known.value, raid) else None, names) <==>
              && (forall i, j :: 0 <= i < j < |names| ==> names[i] != names[j])
              && (fs == Text("ext4") || fs == Text("xfs") ==> |names| <= 1)
              && (HasLevel(fs, raid) ==> Demands.EnoughDisks(raid.s, |names|))
  {
    hide HasLevel, RaidMin, Demands.EnoughDisks, FilesystemOf, LevelOf;
    RaidAsks(fs, raid);
    if HasLevel(fs, raid) {
      HasLevelIs(fs, raid);
      Demands.HasLevelIs(FilesystemOf(fs).value, raid.s);
    }
  }

  /** The rule for lists of the builder, on names. */
  lemma ListAsks(p: Patterns, fs: Json, raid: Json, disks: seq<Json>)
    requires disks != []
    ensures var known := FilesystemOf(fs);
            var level := if known.Some? then LevelOf(known.value, raid) else None;
            Disks(p, known, level, disks, map[]).wrong == Unless(GoodList(fs, raid, disks), "disk.disk_list")
  {
    hide DiskName, DiskPath, GoodDisk, HasLevel, Demands.EnoughDisks, FilesystemOf, LevelOf, DiskListOk;
    TextsIff(disks);
    if Texts(disks).Some? {
      var names := Texts(disks).value;
      NumberAsks(fs, raid, names);
      forall i | 0 <= i < |names| ensures DiskName(names[i]) && !DiskPath(names[i]) <==> GoodDisk(disks[i].s) {
        DiskIs(names[i]);
      }
      NamesAsk(names);
    }
    hide Texts;
  }

  lemma HasLevelIs(fs: Json, raid: Json)
    requires HasLevel(fs, raid)
    ensures fs.Text? && raid.Text? && Demands.HasLevel(fs.s, raid.s)
  {
  }

  lemma NamesAsk(names: seq<string>)
    ensures (exists d :: d in names && (!DiskName(d) || DiskPath(d))) <==> !(forall i :: 0 <= i < |names| ==> DiskName(names[i]) && !DiskPath(names[i]))
  {
    hide DiskName, DiskPath;
  }

  lemma DisksAsk(p: Patterns, fs: Json, raid: Json, disks: seq<Json>, filter: map<string, Json>, v: Json)
    requires Field(v, "filesystem") == fs && Field(v, "raid") == raid
    requires Field(v, "filter") == Obj(filter) || (Field(v, "filter") == Null && filter == map[])
    requires (Field(v, "disk_list") == Null && disks == []) || Field(v, "disk_list") == Arr(disks)
    ensures var known := FilesystemOf(fs);
            Disks(p, known, if known.Some? then LevelOf(known.value, raid) else None, disks, filter).wrong == WrongDisks(p, v)
  {
    hide Field, Unless, Filter, GoodFilter, FilesystemOf, LevelOf, GoodList, DiskListOk, DiskName, DiskPath, Texts;
    if disks != [] && filter == map[] {
      ListAsks(p, fs, raid, disks);
    } else if disks == [] && filter != map[] {
      FilterAsks("disk.filter", DISK_FILTER_KEYS, {"ID_SERIAL", "ID_SERIAL_SHORT", "ID_WWN", "ID_MODEL", "DEVNAME"}, filter,
                 Field(v, "filter"), (prop, s) => p.glob(s));
    }
  }

  /** The wrong fields of [disk-setup]. */
  lemma DiskAsks(p: Patterns, form: Form, v: Json)
    requires forall k :: Field(v, k) == Get(form.disk, k)
    requires Get(form.disk, "filter") == Obj(form.diskFilter) || (Get(form.disk, "filter") == Null && form.diskFilter == map[])
    requires (Get(form.disk, "disk_list") == Null && form.disks == []) || Get(form.disk, "disk_list") == Arr(form.disks)
    ensures DiskSetup(p, form).wrong == WrongDisk(p, v)
  {
    hide Field, Get, Unless, Raid, FilesystemOf, LevelOf, HasLevel, Disks, WrongDisks;
    RaidAsks(Get(form.disk, "filesystem"), Get(form.disk, "raid"));
    DisksAsk(p, Get(form.disk, "filesystem"), Get(form.disk, "raid"), form.disks, form.diskFilter, v);
  }

  // ----- the whole form -----

  /** The fields of a form that are wrong. */
  ghost function WrongIn(p: Patterns, fields: Json): set<string> {
    WrongGlobal(p, Field(fields, "global")) + WrongNetwork(p, Field(fields, "network")) + WrongDisk(p, Field(fields, "disk"))
  }

  /** A form that is not refused comes back with exactly its wrong fields, and as an answer file
      exactly when it has none. */
  lemma FieldsAreWrongIff(p: Patterns, fields: Json)
    requires !BuildAnswer(p, fields).Refused?
    ensures BuildAnswer(p, fields).Answer? <==> WrongIn(p, fields) == {}
    ensures BuildAnswer(p, fields).Wrong? ==> BuildAnswer(p, fields).fields == WrongIn(p, fields)
  {
    hide Shape, Global, Network, DiskSetup, Model, Printer.Emit, WrongGlobal, WrongNetwork, WrongDisk, Field, Get;
    FormIs(fields);
    var form := Shape(fields).value;
    GlobalAsks(p, form.g, Field(fields, "global"));
    NetworkAsks(p, form.net, form.nicFilter, Field(fields, "network"));
    DiskAsks(p, form, Field(fields, "disk"));
  }
}
