/**
 The part of TOML v1.0.0 an answer file is written in, line by line: tables, keys, and values
 that sit on one line.  The reader keeps the rules on tables and dotted keys; what a value
 looks like is a parameter of it, so what is proved about lines holds for every kind of
 value.  Strings and arrays of strings are read here.
 */
module Toml {
  import opened Wrappers

  type Key = seq<string>

  // ----- strings -----

  datatype Scanned = Scanned(text: string, rest: string)

  function HexValue(c: char): Option<nat> {
    if '0' <= c <= '9' then Some(c as int - '0' as int)
    else if 'a' <= c <= 'f' then Some(c as int - 'a' as int + 10)
    else if 'A' <= c <= 'F' then Some(c as int - 'A' as int + 10)
    else None
  }

  function HexNumber(s: string): Option<nat> {
    if s == [] then Some(0)
    else match (HexNumber(s[..|s| - 1]), HexValue(s[|s| - 1]))
      case (Some(high), Some(low)) => Some(high * 16 + low)
      case _ => None
  }

  /** The character of a code point, None for one that is no Unicode scalar value. */
  function Scalar(n: nat): Option<char> {
    if n < 0xD800 || 0xE000 <= n < 0x110000 then Some(n as char) else None
  }

  predicate Control(c: char) {
    (c < ' ' && c != '\t') || c == '\U{7f}'
  }

  /** What the escape after a backslash stands for, and how many characters it takes. */
  function Unescape(s: string): (r: Option<(char, nat)>)
    requires s != []
    ensures r.Some? ==> 1 <= r.value.1 <= |s|
  {
    match s[0]
    case 'b' => Some(('\U{8}', 1))
    case 't' => Some(('\t', 1))
    case 'n' => Some(('\n', 1))
    case 'f' => Some(('\U{c}', 1))
    case 'r' => Some(('\r', 1))
    case '\"' => Some(('\"', 1))
    case '\\' => Some(('\\', 1))
    case 'u' => UnescapeHex(s, 4)
    case 'U' => UnescapeHex(s, 8)
    case _ => None
  }

  function UnescapeHex(s: string, digits: nat): (r: Option<(char, nat)>)
    requires s != []
    ensures r.Some? ==> r.value.1 <= |s|
  {
    if |s| < 1 + digits then None
    else match HexNumber(s[1..1 + digits])
      case None => None
      case Some(n) => match Scalar(n)
        case None => None
        case Some(c) => Some((c, 1 + digits))
  }

  /** A basic string, from behind its opening quote on: what it says, and what follows it. */
  function ReadString(s: string): (r: Option<Scanned>)
    ensures r.Some? ==> |r.value.rest| < |s|
    decreases |s|
  {
    if s == [] then None
    else if s[0] == '\"' then Some(Scanned([], s[1..]))
    else if s[0] == '\\' then
      if |s| < 2 then None
      else match Unescape(s[1..])
        case None => None
        case Some((c, n)) => Prepend(c, ReadString(s[1 + n..]))
    else if Control(s[0]) then None
    else Prepend(s[0], ReadString(s[1..]))
  }

  function Prepend(c: char, r: Option<Scanned>): Option<Scanned> {
    match r case None => None case Some(x) => Some(Scanned([c] + x.text, x.rest))
  }

  // ----- keys -----

  predicate BareChar(c: char) {
    'a' <= c <= 'z' || 'A' <= c <= 'Z' || '0' <= c <= '9' || c == '_' || c == '-'
  }

  predicate Bare(k: string) {
    k != [] && forall i :: 0 <= i < |k| ==> BareChar(k[i])
  }

  predicate Blank(c: char) {
    c == ' ' || c == '\t'
  }

  function SkipBlanks(s: string): (r: string)
    ensures |r| <= |s|
    ensures r != [] ==> !Blank(r[0])
  {
    if s != [] && Blank(s[0]) then SkipBlanks(s[1..]) else s
  }

  function BareLength(s: string): (n: nat)
    ensures n <= |s|
    ensures forall i :: 0 <= i < n ==> BareChar(s[i])
    ensures n < |s| ==> !BareChar(s[n])
  {
    if s == [] || !BareChar(s[0]) then 0 else 1 + BareLength(s[1..])
  }

  /** A bare key, or one in quotes. */
  function ReadKeyPart(s: string): (r: Option<Scanned>)
    ensures r.Some? ==> |r.value.rest| < |s|
  {
    if s == [] then None
    else if s[0] == '\"' then ReadString(s[1..])
    else if s[0] == '\'' then ReadLiteral(s[1..])
    else
      var n := BareLength(s);
      if n == 0 then None else Some(Scanned(s[..n], s[n..]))
  }

  function ReadLiteral(s: string): (r: Option<Scanned>)
    ensures r.Some? ==> |r.value.rest| < |s|
  {
    if s == [] || Control(s[0]) then None
    else if s[0] == '\'' then Some(Scanned([], s[1..]))
    else Prepend(s[0], ReadLiteral(s[1..]))
  }

  datatype KeyRead = KeyRead(key: Key, rest: string)

  /** A key, dotted or not, and what follows it and the blanks behind it. */
  function ReadKey(s: string): (r: Option<KeyRead>)
    ensures r.Some? ==> r.value.key != [] && |r.value.rest| < |s|
    decreases |s|
  {
    match ReadKeyPart(s)
    case None => None
    case Some(part) =>
      var rest := SkipBlanks(part.rest);
      if rest != [] && rest[0] == '.' then
        match ReadKey(SkipBlanks(rest[1..]))
        case None => None
        case Some(more) => Some(KeyRead([part.text] + more.key, more.rest))
      else Some(KeyRead([part.text], rest))
  }

  // ----- lines -----

  datatype Item<V> = Nothing | Table(key: Key) | Assign(key: Key, value: V)

  /** The end of a line: blanks, and a comment maybe. */
  predicate Ends(s: string) {
    var rest := SkipBlanks(s);
    rest == [] || (rest[0] == '#' && forall i :: 0 <= i < |rest| ==> !Control(rest[i]))
  }

  /** How a value is read from what follows the equals sign, to the end of the line. */
  type Reader<V> = string -> Option<V>

  function ReadLine<V>(line: string, read: Reader<V>): (r: Option<Item<V>>)
    ensures r.Some? && !r.value.Nothing? ==> r.value.key != []
  {
    var s := SkipBlanks(line);
    if Ends(s) then Some(Nothing)
    else if s[0] == '[' then
      match ReadKey(SkipBlanks(s[1..]))
      case None => None
      case Some(k) => if k.rest != [] && k.rest[0] == ']' && Ends(k.rest[1..]) then Some(Table(k.key)) else None
    else
      match ReadKey(s)
      case None => None
      case Some(k) =>
        if k.rest == [] || k.rest[0] != '=' then None
        else match read(k.rest[1..])
          case None => None
          case Some(v) => Some(Assign(k.key, v))
  }

  // ----- tables -----

  /** What was read: the values and the tables, by their whole keys. */
  datatype Data<V> = Data(values: map<Key, V>, tables: set<Key>)

  /** fixed: tables no header and no dotted key may open again; later: the ones dotted keys
      made, fixed from the next header on; at: the table the next keys go into. */
  datatype Reading<V> = Reading(data: Data<V>, fixed: set<Key>, later: set<Key>, at: Key)

  function Start<V>(): Reading<V> {
    Reading(Data(map[], {}), {}, {}, [])
  }

  function Prefixes(k: Key): set<Key> {
    set i | 1 <= i <= |k| :: k[..i]
  }

  predicate UnderValue<V>(d: Data<V>, k: Key) {
    exists i :: 1 <= i <= |k| && k[..i] in d.values
  }

  function Opens<V>(r: Reading<V>, k: Key): Option<Reading<V>> {
    var fixed := r.fixed + r.later;
    if k in fixed || UnderValue(r.data, k) then None
    else Some(Reading(r.data.(tables := r.data.tables + Prefixes(k)), fixed + {k}, {}, k))
  }

  /** The tables a dotted key passes through below at. */
  function Passed(at: Key, k: Key): set<Key> {
    set i | 1 <= i < |k| :: at + k[..i]
  }

  function Assigns<V>(r: Reading<V>, k: Key, v: V): Option<Reading<V>>
    requires k != []
  {
    var within := Passed(r.at, k);
    var whole := r.at + k;
    var parent := r.at + k[..|k| - 1];
    if within * r.fixed != {} || UnderValue(r.data, parent) || whole in r.data.values || whole in r.data.tables then None
    else Some(Reading(Data(r.data.values[whole := v], r.data.tables + Prefixes(parent)), r.fixed, r.later + within, r.at))
  }

  function Reads<V>(r: Reading<V>, item: Item<V>): Option<Reading<V>> {
    match item
    case Nothing => Some(r)
    case Table(k) => Opens(r, k)
    case Assign(k, v) => if k == [] then None else Assigns(r, k, v)
  }

  function ReadItems<V>(r: Reading<V>, items: seq<Item<V>>): Option<Reading<V>>
    decreases |items|
  {
    if items == [] then Some(r)
    else match Reads(r, items[0])
      case None => None
      case Some(r') => ReadItems(r', items[1..])
  }

  function ItemsOf<V>(lines: seq<string>, read: Reader<V>): Option<seq<Item<V>>> {
    if lines == [] then Some([])
    else match (ReadLine(lines[0], read), ItemsOf(lines[1..], read))
      case (Some(item), Some(rest)) => Some([item] + rest)
      case _ => None
  }

  function ReadLines<V>(lines: seq<string>, read: Reader<V>): Option<Data<V>> {
    match ItemsOf(lines, read)
    case None => None
    case Some(items) => match ReadItems(Start(), items)
      case None => None
      case Some(r) => Some(r.data)
  }

  // ----- text -----

  /** A CRLF is a line end like a LF. */
  function Newlines(text: string): string {
    if text == [] then []
    else if |text| >= 2 && text[0] == '\r' && text[1] == '\n' then ['\n'] + Newlines(text[2..])
    else [text[0]] + Newlines(text[1..])
  }

  function LinesOf(text: string): (r: seq<string>)
    ensures r != []
  {
    if text == [] then [[]]
    else
      var rest := LinesOf(text[1..]);
      if text[0] == '\n' then [[]] + rest else [[text[0]] + rest[0]] + rest[1..]
  }

  function Join(lines: seq<string>): string {
    if lines == [] then []
    else if |lines| == 1 then lines[0]
    else lines[0] + "\n" + Join(lines[1..])
  }

  function ReadText<V>(text: string, read: Reader<V>): Option<Data<V>> {
    ReadLines(LinesOf(Newlines(text)), read)
  }

  // ----- values -----

  datatype Value = Str(text: string) | List(items: seq<string>)

  datatype ListRead = ListRead(items: seq<string>, rest: string)

  /** The rest of an array of strings, at an element or its closing bracket. */
  function ReadList(s: string): (r: Option<ListRead>)
    decreases |s|
  {
    var t := SkipBlanks(s);
    if t == [] then None
    else if t[0] == ']' then Some(ListRead([], t[1..]))
    else if t[0] != '\"' then None
    else match ReadString(t[1..])
      case None => None
      case Some(x) =>
        var u := SkipBlanks(x.rest);
        if u == [] then None
        else if u[0] == ']' then Some(ListRead([x.text], u[1..]))
        else if u[0] != ',' then None
        else match ReadList(u[1..])
          case None => None
          case Some(more) => Some(ListRead([x.text] + more.items, more.rest))
  }

  /** A basic string or an array of them, to the end of the line. */
  function ReadValue(s: string): Option<Value> {
    var t := SkipBlanks(s);
    if t == [] || "\"\"\"" <= t then None
    else if t[0] == '\"' then
      match ReadString(t[1..])
      case None => None
      case Some(x) => if Ends(x.rest) then Some(Str(x.text)) else None
    else if t[0] == '[' then
      match ReadList(t[1..])
      case None => None
      case Some(x) => if Ends(x.rest) then Some(List(x.items)) else None
    else None
  }
}
