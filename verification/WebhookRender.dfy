/** The rendered answer file (pegaprox/api/auto_install.py, render_answer): the stored one
    without its webhook table, and with the one PegaProx writes. */
module WebhookRender {
  import opened Wrappers
  import opened PythonText
  import opened Toml
  import opened TomlPrinter
  import opened TomlRoundTrip
  import opened Webhook
  import opened WebhookReads
  import opened WebhookText

  // ----- values of a stored document -----

  /** A string, a list of strings, or a number, truth value or date as it is written. */
  datatype Any = Text(value: Value) | Scalar(text: string)

  predicate ScalarChar(c: char) {
    BareChar(c) || c == '+' || c == '.' || c == ':'
  }

  function ScalarLength(s: string): (n: nat)
    ensures n <= |s|
    ensures forall i :: 0 <= i < n ==> ScalarChar(s[i])
    ensures n < |s| ==> !ScalarChar(s[n])
  {
    if s == [] || !ScalarChar(s[0]) then 0 else 1 + ScalarLength(s[1..])
  }

  function ReadAny(s: string): Option<Any> {
    match ReadValue(s)
    case Some(v) => Some(Text(v))
    case None =>
      var t := SkipBlanks(s);
      var n := ScalarLength(t);
      if n > 0 && Ends(t[n..]) then Some(Scalar(t[..n])) else None
  }

  // ----- rendering -----

  /** _toml_escape: the backslash and the quote, nothing else. */
  function SlightEscapes(s: string): string {
    if s == [] then []
    else (if s[0] == '\\' then "\\\\" else if s[0] == '\"' then "\\\"" else [s[0]]) + SlightEscapes(s[1..])
  }

  function UrlLine(url: string): string {
    "url = \"" + SlightEscapes(url) + "\""
  }

  function FingerprintLine(fp: string): string {
    "cert-fingerprint = \"" + SlightEscapes(fp) + "\""
  }

  /** The webhook table as PegaProx writes it. */
  function Section(url: string, fp: string): seq<string> {
    ["", "[" + WEBHOOK + "]", UrlLine(url)] + if fp == [] then [] else [FingerprintLine(fp)]
  }

  /** render_answer, up to the check of what it made. */
  function Rendered(answer: string, url: string, fp: string): string {
    var body := TrimRight(StripText(answer));
    (if url == [] then body else Join([body] + Section(url, fp))) + "\n"
  }

  /** The webhook table in a parsed document. */
  function WithWebhook(d: Data<Any>, url: string, fp: string): Data<Any> {
    var values := d.values[[WEBHOOK, "url"] := Text(Str(url))];
    Data(if fp == [] then values else values[[WEBHOOK, "cert-fingerprint"] := Text(Str(fp))],
         d.tables + {[WEBHOOK]})
  }

  // ----- reading does not look past the end of what it reads -----

  lemma StringIs(s: string)
    ensures ReadString(s) ==
            if s == [] then None
            else if s[0] == '\"' then Some(Scanned([], s[1..]))
            else if s[0] == '\\' then
              (if |s| < 2 then None
               else match Unescape(s[1..])
                 case None => None
                 case Some((c, n)) => Prepend(c, ReadString(s[1 + n..])))
            else if Control(s[0]) then None
            else Prepend(s[0], ReadString(s[1..]))
  {
  }

  lemma EscapeStops(s: string, n: nat, rest: string, t: string)
    requires |s| > 1 && s[0] == '\\' && Unescape(s[1..]).Some? && Unescape(s[1..]).value.1 == n
    requires |rest| <= |s[1 + n..]|
    ensures var q := Front(s[1 + n..], rest); var p := Front(s, rest);
            && p == s[..1 + n] + q && (p + t)[1 + n..] == q + t && |p + t| > 1 && (p + t)[0] == '\\'
            && Unescape((p + t)[1..]) == Unescape(s[1..])
  {
    hide Unescape;
    var q := Front(s[1 + n..], rest);
    var a := s[..1 + n];
    UnescapeStops(s[1..], n, q + t);
    assert Front(s, rest) == a + q;
    assert Front(s, rest) + t == a + (q + t) && a[1..] == s[1..][..n];
    assert (a + (q + t))[1..] == a[1..] + (q + t);
  }

  lemma FrontFollows(s: string, rest: string, t: string)
    requires s != [] && |rest| < |s|
    ensures Front(s, rest) == [s[0]] + Front(s[1..], rest)
    ensures (Front(s, rest) + t)[0] == s[0] && (Front(s, rest) + t)[1..] == Front(s[1..], rest) + t
  {
    assert Front(s, rest) == [s[0]] + Front(s[1..], rest);
  }

  lemma QuoteInFront(s: string, t: string)
    requires s != []
    ensures Front(s, s[1..]) == [s[0]] && (Front(s, s[1..]) + t)[0] == s[0] && (Front(s, s[1..]) + t)[1..] == t
    ensures s == Front(s, s[1..]) + s[1..]
  {
    assert Front(s, s[1..]) == s[..1];
  }

  lemma {:induction false} StringStops(s: string, t: string)
    requires ReadString(s).Some?
    ensures var x := ReadString(s).value; var p := Front(s, x.rest);
            && s == p + x.rest && p != [] && p[|p| - 1] == '\"'
            && ReadString(p + t) == Some(Scanned(x.text, t))
    decreases |s|
  {
    hide ReadString, Unescape, Front, Control;
    StringIs(s);
    var x := ReadString(s).value;
    var p := Front(s, x.rest);
    StringIs(p + t);
    if s[0] == '\"' {
      QuoteInFront(s, t);
    } else if s[0] == '\\' {
      var n := Unescape(s[1..]).value.1;
      StringStops(s[1 + n..], t);
      EscapeStops(s, n, x.rest, t);
    } else {
      StringStops(s[1..], t);
      var q := Front(s[1..], x.rest);
      FrontFollows(s, x.rest, t);
    }
  }

  lemma UnescapeStops(s: string, n: nat, t: string)
    requires s != [] && Unescape(s).Some? && Unescape(s).value.1 == n
    ensures 1 <= n <= |s| && Unescape(s[..n] + t) == Unescape(s)
  {
    var u := s[..n] + t;
    assert u[0] == s[0];
    if s[0] == 'u' || s[0] == 'U' {
      assert u[1..n] == s[1..n];
    }
  }

  lemma {:induction false} LiteralStops(s: string, t: string)
    requires ReadLiteral(s).Some?
    ensures var x := ReadLiteral(s).value; var p := s[..|s| - |x.rest|];
            s == p + x.rest && p != [] && ReadLiteral(p + t) == Some(Scanned(x.text, t))
    decreases |s|
  {
    var x := ReadLiteral(s).value;
    var p := s[..|s| - |x.rest|];
    if s[0] == '\'' {
      assert p == s[..1] && (p + t)[1..] == t;
    } else {
      LiteralStops(s[1..], t);
      var q := s[1..][..|s[1..]| - |x.rest|];
      assert p == [s[0]] + q;
      assert (p + t)[1..] == q + t;
    }
  }

  /** The part of s in front of its end rest. */
  function Front(s: string, rest: string): string
    requires |rest| <= |s|
  {
    s[..|s| - |rest|]
  }

  lemma {:induction false} BlanksStop(s: string, t: string)
    requires t != [] && !Blank(t[0]) && SkipBlanks(s) != []
    ensures s == Front(s, SkipBlanks(s)) + SkipBlanks(s)
    ensures SkipBlanks(Front(s, SkipBlanks(s)) + t) == t
  {
    var p := Front(s, SkipBlanks(s));
    if Blank(s[0]) {
      BlanksStop(s[1..], t);
      var q := Front(s[1..], SkipBlanks(s[1..]));
      assert p == [s[0]] + q;
      assert (p + t)[1..] == q + t;
    } else {
      assert p == [] && p + t == t;
    }
  }

  lemma QuotedPartStops(s: string, t: string)
    requires ReadKeyPart(s).Some? && (s[0] == '\"' || s[0] == '\'')
    ensures var x := ReadKeyPart(s).value;
            s == Front(s, x.rest) + x.rest && ReadKeyPart(Front(s, x.rest) + t) == Some(Scanned(x.text, t))
  {
    hide ReadString, ReadLiteral;
    var x := ReadKeyPart(s).value;
    var p := Front(s, x.rest);
    if s[0] == '\"' {
      StringStops(s[1..], t);
    } else {
      LiteralStops(s[1..], t);
    }
    assert p[1..] == Front(s[1..], x.rest) && (p + t)[1..] == p[1..] + t;
  }

  lemma PartStops(s: string, t: string)
    requires ReadKeyPart(s).Some?
    requires t != [] && !BareChar(t[0])
    ensures var x := ReadKeyPart(s).value;
            s == Front(s, x.rest) + x.rest && ReadKeyPart(Front(s, x.rest) + t) == Some(Scanned(x.text, t))
  {
    hide ReadString, ReadLiteral;
    if s[0] == '\"' || s[0] == '\'' {
      QuotedPartStops(s, t);
    } else {
      var n := BareLength(s);
      var p := s[..n];
      assert Front(s, ReadKeyPart(s).value.rest) == p;
      WholeKey(p, t);
    }
  }

  /** A dotted key goes on behind its dot. */
  predicate Dotted(rest: string) {
    rest != [] && rest[0] == '.'
  }

  lemma KeyIs(s: string, x: Scanned)
    requires ReadKeyPart(s) == Some(x)
    ensures var rest := SkipBlanks(x.rest);
            ReadKey(s) ==
            if Dotted(rest) then
              (match ReadKey(SkipBlanks(rest[1..]))
               case None => None
               case Some(more) => Some(KeyRead([x.text] + more.key, more.rest)))
            else Some(KeyRead([x.text], rest))
  {
  }

  /** A key ends where it ends, whatever stands behind the character that ends it. */
  lemma {:induction false} KeyStops(s: string, t: string)
    requires ReadKey(s).Some? && ReadKey(s).value.rest != []
    requires t != [] && t[0] == ReadKey(s).value.rest[0] && !BareChar(t[0])
    ensures var k := ReadKey(s).value;
            && s == Front(s, k.rest) + k.rest && !Blank(k.rest[0]) && k.rest[0] != '.'
            && ReadKey(Front(s, k.rest) + t) == Some(KeyRead(k.key, t))
    decreases |s|
  {
    KeyHasPart(s);
    hide ReadKeyPart, ReadKey, SkipBlanks;
    var part := ReadKeyPart(s).value;
    var rest := SkipBlanks(part.rest);
    var k := ReadKey(s).value;
    KeyIs(s, part);
    if Dotted(rest) {
      var s2 := SkipBlanks(rest[1..]);
      KeyStops(s2, t);
      DottedStops(s, part, s2, k.rest, t);
    } else {
      BlanksStop(part.rest, t);
      var t0 := Front(part.rest, rest) + t;
      NotBareAfter(part.rest, rest, t);
      PartStops(s, t0);
      assert Front(s, k.rest) + t == Front(s, part.rest) + t0;
      KeyIs(Front(s, part.rest) + t0, Scanned(part.text, t0));
    }
  }

  lemma KeyHasPart(s: string)
    requires ReadKey(s).Some?
    ensures ReadKeyPart(s).Some?
  {
    hide ReadKeyPart;
  }

  lemma DottedStops(s: string, part: Scanned, s2: string, end: string, t: string)
    requires ReadKeyPart(s) == Some(part) && Dotted(SkipBlanks(part.rest))
    requires s2 == SkipBlanks(SkipBlanks(part.rest)[1..]) && ReadKey(s2).Some? && end == ReadKey(s2).value.rest
    requires ReadKey(Front(s2, end) + t) == Some(KeyRead(ReadKey(s2).value.key, t))
    ensures ReadKey(Front(s, end) + t) == Some(KeyRead([part.text] + ReadKey(s2).value.key, t))
    ensures s2 == Front(s2, end) + end ==> s == Front(s, end) + end
  {
    hide ReadKeyPart, ReadKey, SkipBlanks;
    var rest := SkipBlanks(part.rest);
    KeyStart(s2);
    var t2 := Front(s2, end) + t;
    assert t2[0] == s2[0];
    BlanksStop(rest[1..], t2);
    var t1 := ['.'] + (Front(rest[1..], s2) + t2);
    assert t1[1..] == Front(rest[1..], s2) + t2;
    BlanksStop(part.rest, t1);
    var t0 := Front(part.rest, rest) + t1;
    NotBareAfter(part.rest, rest, t1);
    PartStops(s, t0);
    KeyIs(Front(s, part.rest) + t0, Scanned(part.text, t0));
    var a, b, c := Front(s, part.rest), Front(part.rest, rest), Front(rest[1..], s2);
    FrontBehind(c, s2, end);
    FrontBehind(['.'], rest[1..], end);
    assert rest == ['.'] + rest[1..];
    FrontBehind(b, rest, end);
    FrontBehind(a, part.rest, end);
    FivePieces(a, b, c, Front(s2, end), t);
    FivePieces(a, b, c, Front(s2, end), end);
  }

  lemma FrontBehind(p: string, u: string, end: string)
    requires |end| <= |u|
    ensures Front(p + u, end) == p + Front(u, end)
  {
  }

  lemma FivePieces(a: string, b: string, c: string, d: string, t: string)
    ensures (a + (b + (['.'] + (c + d)))) + t == a + (b + (['.'] + (c + (d + t))))
  {
    assert (c + d) + t == c + (d + t);
    assert (['.'] + (c + d)) + t == ['.'] + ((c + d) + t);
    assert (b + (['.'] + (c + d))) + t == b + ((['.'] + (c + d)) + t);
  }

  lemma KeyStart(s: string)
    requires ReadKey(s).Some?
    ensures s != [] && !Blank(s[0])
  {
    KeyBegins(s);
  }

  /** Behind a key part comes a blank, or what ends it. */
  lemma NotBareAfter(s: string, rest: string, t: string)
    requires rest == SkipBlanks(s) && t != [] && !BareChar(t[0])
    ensures Front(s, rest) + t != [] && !BareChar((Front(s, rest) + t)[0])
  {
    if s != [] && Blank(s[0]) {
      assert Front(s, rest)[0] == s[0];
    } else {
      assert Front(s, rest) == [];
    }
  }

  // ----- white space at the end of a line -----

  lemma {:induction false} TrimAppended(p: string, rest: string)
    requires p != [] && !Space(p[|p| - 1])
    ensures TrimRight(p + rest) == p + TrimRight(rest)
    decreases |rest|
  {
    var s := p + rest;
    if rest == [] {
      assert s == p;
    } else if Space(rest[|rest| - 1]) {
      assert s[..|s| - 1] == p + rest[..|rest| - 1];
      TrimAppended(p, rest[..|rest| - 1]);
    }
  }

  lemma {:induction false} BlanksAreSpace(s: string)
    ensures SkipBlanks(s) == [] ==> TrimRight(s) == []
    ensures s == Front(s, SkipBlanks(s)) + SkipBlanks(s)
    ensures forall i :: 0 <= i < |Front(s, SkipBlanks(s))| ==> Blank(Front(s, SkipBlanks(s))[i])
  {
    SkippedIsBlank(s);
    if SkipBlanks(s) == [] {
      assert Front(s, []) == s;
      AllSpaceGoes(s);
    }
  }

  lemma {:induction false} SkippedIsBlank(s: string)
    ensures s == Front(s, SkipBlanks(s)) + SkipBlanks(s)
    ensures forall i :: 0 <= i < |Front(s, SkipBlanks(s))| ==> Blank(Front(s, SkipBlanks(s))[i])
  {
    if s != [] && Blank(s[0]) {
      SkippedIsBlank(s[1..]);
      var rest := SkipBlanks(s[1..]);
      hide SkipBlanks, Blank;
      assert s == [s[0]] + s[1..];
      assert Front(s, rest) == [s[0]] + Front(s[1..], rest);
    }
  }

  lemma {:induction false} AllSpaceGoes(s: string)
    requires forall i :: 0 <= i < |s| ==> Space(s[i])
    ensures TrimRight(s) == []
  {
    if s != [] {
      AllSpaceGoes(s[..|s| - 1]);
    }
  }

  lemma {:induction false} SkipFirst(b: string, t: string)
    requires (forall i :: 0 <= i < |b| ==> Blank(b[i])) && (t == [] || !Blank(t[0]))
    ensures SkipBlanks(b + t) == t
  {
    if b == [] {
      assert b + t == t;
    } else {
      assert (b + t)[1..] == b[1..] + t;
      SkipFirst(b[1..], t);
    }
  }

  lemma CommentEnds(b: string, text: string)
    requires (forall i :: 0 <= i < |b| ==> Blank(b[i])) && forall i :: 0 <= i < |text| ==> !Control(text[i])
    ensures Ends(b + (['#'] + text))
  {
    SkipFirst(b, ['#'] + text);
  }

  lemma EmptyEnds()
    ensures Ends([])
  {
  }

  /** Blanks, and a comment maybe, cut off anywhere from the right. */
  lemma EndsTrimmed(s: string)
    requires Ends(s)
    ensures Ends(TrimRight(s))
  {
    EmptyEnds();
    var rest := SkipBlanks(s);
    BlanksAreSpace(s);
    if rest != [] {
      var text := rest[1..];
      assert forall i :: 0 <= i < |text| ==> text[i] == rest[i + 1];
      assert rest == ['#'] + text;
      CommentTrims(s, Front(s, rest), text);
    }
  }

  lemma CommentTrims(s: string, b: string, text: string)
    requires s == b + (['#'] + text)
    requires (forall i :: 0 <= i < |b| ==> Blank(b[i])) && forall i :: 0 <= i < |text| ==> !Control(text[i])
    ensures Ends(TrimRight(s))
  {
    hide Ends, TrimRight, SkipBlanks;
    var p := b + ['#'];
    assert s == p + text;
    TrimAppended(p, text);
    var cut := TrimRight(text);
    assert p + cut == b + (['#'] + cut);
    assert forall i :: 0 <= i < |cut| ==> cut[i] == text[..|cut|][i] == text[i];
    CommentEnds(b, cut);
  }

  /** A reader to which white space at the end of the line means nothing. */
  ghost predicate Tolerant<V(!new)>(read: Reader<V>) {
    forall s :: read(s).Some? ==> TrimRight(s) != [] && read(TrimRight(s)) == read(s)
  }

  /** What a line with a key is read as. */
  lemma KeyLineIs<V>(line: string, read: Reader<V>, s: string, k: KeyRead)
    requires s == SkipBlanks(line) && !Ends(s) && s != [] && s[0] != '[' && ReadKey(s) == Some(k)
    requires k.rest != [] && k.rest[0] == '='
    ensures ReadLine(line, read) ==
            match read(k.rest[1..]) case None => None case Some(v) => Some(Assign(k.key, v))
  {
    hide ReadKey, Ends;
  }

  lemma HeaderLineIs<V>(line: string, read: Reader<V>, s: string, k: KeyRead)
    requires s == SkipBlanks(line) && s != [] && s[0] == '[' && ReadKey(SkipBlanks(s[1..])) == Some(k)
    requires k.rest != [] && k.rest[0] == ']' && Ends(k.rest[1..])
    ensures ReadLine(line, read) == Some(Table(k.key))
  {
    hide ReadKey;
    BracketIsNoEnd(s);
  }

  lemma NothingLineIs<V>(line: string, read: Reader<V>)
    requires Ends(SkipBlanks(line))
    ensures ReadLine(line, read) == Some(Nothing)
  {
  }

  /** The three forms of a line. */
  lemma LineForms<V>(line: string, read: Reader<V>)
    requires ReadLine(line, read).Some?
    ensures var s := SkipBlanks(line);
            || Ends(s)
            || (s != [] && s[0] == '[' && ReadKey(SkipBlanks(s[1..])).Some?
                && var k := ReadKey(SkipBlanks(s[1..])).value; k.rest != [] && k.rest[0] == ']' && Ends(k.rest[1..]))
            || (s != [] && s[0] != '[' && ReadKey(s).Some?
                && var k := ReadKey(s).value; k.rest != [] && k.rest[0] == '=' && read(k.rest[1..]).Some?)
  {
    hide ReadKey;
    EmptyEnds();
  }

  /** A line the reader takes reads the same with the white space at its end cut off. */
  lemma LineTrimmed<V(!new)>(line: string, read: Reader<V>)
    requires Tolerant(read) && ReadLine(line, read).Some?
    ensures ReadLine(TrimRight(line), read) == ReadLine(line, read)
  {
    hide ReadKey, Ends, TrimRight, ReadLine, SkipBlanks;
    LineForms(line, read);
    var s := SkipBlanks(line);
    EmptyEnds();
    if Ends(s) {
      CommentTrimmed(line);
      NothingLineIs(line, read);
      NothingLineIs(TrimRight(line), read);
    } else if s[0] == '[' {
      HeaderTrimmed(line, read);
    } else {
      KeyLineTrimmed(line, read);
    }
  }

  lemma KeyPieces(line: string, b: string, f: string, rest: string)
    requires line == b + (f + rest) && rest != [] && rest[0] == '='
    ensures TrimRight(line) == b + (f + (['='] + TrimRight(rest[1..])))
  {
    hide TrimRight;
    var p := b + (f + ['=']);
    assert line == p + rest[1..];
    TrimAppended(p, rest[1..]);
    assert p + TrimRight(rest[1..]) == b + (f + (['='] + TrimRight(rest[1..])));
  }

  lemma KeyLineTrimmed<V(!new)>(line: string, read: Reader<V>)
    requires Tolerant(read)
    requires var s := SkipBlanks(line);
             !Ends(s) && s != [] && s[0] != '[' && ReadKey(s).Some?
             && var k := ReadKey(s).value; k.rest != [] && k.rest[0] == '=' && read(k.rest[1..]).Some?
    ensures ReadLine(TrimRight(line), read) == ReadLine(line, read)
  {
    hide ReadKey, Ends, TrimRight, ReadLine, SkipBlanks;
    var s := SkipBlanks(line);
    BlanksAreSpace(line);
    var b := Front(line, s);
    var k := ReadKey(s).value;
    var value := k.rest[1..];
    var t := ['='] + TrimRight(value);
    KeyStops(s, t);
    var cut := Front(s, k.rest) + t;
    KeyPieces(line, b, Front(s, k.rest), k.rest);
    FrontFirst(s, k.rest, t);
    KeyStart(s);
    SkipFirst(b, cut);
    KeyLineEnds(s, cut);
    assert t[1..] == TrimRight(value);
    KeyLineIs(line, read, s, k);
    KeyLineIs(b + cut, read, cut, KeyRead(k.key, t));
  }

  lemma CommentTrimmed(line: string)
    requires Ends(SkipBlanks(line))
    ensures Ends(SkipBlanks(TrimRight(line)))
  {
    hide TrimRight;
    SkipTwice(line);
    EndsTrimmed(line);
    SkipTwice(TrimRight(line));
  }

  lemma SkipTwice(s: string)
    ensures SkipBlanks(SkipBlanks(s)) == SkipBlanks(s)
  {
  }

  lemma FrontFirst(s: string, rest: string, t: string)
    requires |rest| < |s| && s != []
    ensures Front(s, rest) != [] && (Front(s, rest) + t)[0] == s[0]
  {
  }

  /** A line that begins with a key is no blank line and no comment. */
  lemma KeyLineEnds(s: string, cut: string)
    requires s != [] && cut != [] && cut[0] == s[0] && !Ends(s) && !Blank(s[0])
    requires ReadKey(s).Some?
    ensures !Ends(cut)
  {
    KeyIsNoComment(s);
  }

  lemma KeyIsNoComment(s: string)
    requires ReadKey(s).Some?
    ensures s != [] && s[0] != '#'
  {
    hide ReadString, ReadLiteral;
  }

  lemma HeaderTrimmed<V>(line: string, read: Reader<V>)
    requires var s := SkipBlanks(line);
             s != [] && s[0] == '[' && ReadKey(SkipBlanks(s[1..])).Some?
             && var k := ReadKey(SkipBlanks(s[1..])).value; k.rest != [] && k.rest[0] == ']' && Ends(k.rest[1..])
    ensures ReadLine(TrimRight(line), read) == ReadLine(line, read)
  {
    hide ReadKey, Ends, TrimRight, ReadLine, SkipBlanks;
    var s := SkipBlanks(line);
    var s1 := SkipBlanks(s[1..]);
    var k := ReadKey(s1).value;
    var tail := k.rest[1..];
    var t := [']'] + TrimRight(tail);
    KeyStops(s1, t);
    EndsTrimmed(tail);
    assert t[1..] == TrimRight(tail);
    HeaderLineIs(line, read, s, k);
    var f := Front(s1, k.rest);
    HeaderPieces(line, s, s1, f, k.rest, tail);
    var b, b1 := Front(line, s), Front(s[1..], s1);
    var cut := ['['] + (b1 + (f + t));
    assert cut[1..] == b1 + (f + t);
    FrontFirst(s1, k.rest, t);
    KeyStart(s1);
    BlanksAreSpace(line);
    BlanksAreSpace(s[1..]);
    SkipFirst(b1, f + t);
    SkipFirst(b, cut);
    HeaderLineIs(b + cut, read, cut, KeyRead(k.key, t));
  }

  lemma HeaderPieces(line: string, s: string, s1: string, f: string, rest: string, tail: string)
    requires s == SkipBlanks(line) && s != [] && s[0] == '[' && s1 == SkipBlanks(s[1..])
    requires s1 == f + rest && rest != [] && rest[0] == ']' && tail == rest[1..]
    ensures var b, b1 := Front(line, s), Front(s[1..], s1);
            TrimRight(line) == b + (['['] + (b1 + (f + ([']'] + TrimRight(tail)))))
  {
    hide TrimRight, SkipBlanks;
    BlanksAreSpace(line);
    BlanksAreSpace(s[1..]);
    var b, b1 := Front(line, s), Front(s[1..], s1);
    var p := b + (['['] + (b1 + (f + [']'])));
    assert rest == [']'] + tail;
    assert s == ['['] + s[1..];
    InPieces(b, b1, f, tail);
    assert line == p + tail;
    assert p[|p| - 1] == ']';
    TrimAppended(p, tail);
    InPieces(b, b1, f, TrimRight(tail));
  }

  lemma InPieces(b: string, b1: string, f: string, tail: string)
    ensures (b + (['['] + (b1 + (f + [']'])))) + tail == b + (['['] + (b1 + (f + ([']'] + tail))))
  {
    assert (f + [']']) + tail == f + ([']'] + tail);
    assert (b1 + (f + [']'])) + tail == b1 + ((f + [']']) + tail);
    assert (['['] + (b1 + (f + [']']))) + tail == ['['] + ((b1 + (f + [']'])) + tail);
  }

  lemma BracketIsNoEnd(s: string)
    requires s != [] && s[0] == '['
    ensures !Ends(s)
  {
  }

  // ----- the values of a stored document ignore it too -----

  lemma ListIs(s: string)
    ensures ReadList(s) ==
            var t := SkipBlanks(s);
            if t == [] then None
            else if t[0] == ']' then Some(ListRead([], t[1..]))
            else if t[0] != '\"' then None
            else match ReadString(t[1..])
              case None => None
              case Some(x) =>
                var u := SkipBlanks(x.rest);
                if u == [] then None
                else if u[0] == ']' then Some(ListRead([x.text], u[1..]))
                else if u[0] != ',' then None
                else match ReadList(u[1..])
                  case None => None
                  case Some(more) => Some(ListRead([x.text] + more.items, more.rest))
  {
  }

  /** An array ends at its closing bracket, whatever follows. */
  lemma {:induction false} ListStops(s: string, t: string)
    requires ReadList(s).Some?
    ensures var x := ReadList(s).value;
            && |x.rest| < |s| && s == Front(s, x.rest) + x.rest && Front(s, x.rest)[|Front(s, x.rest)| - 1] == ']'
            && ReadList(Front(s, x.rest) + t) == Some(ListRead(x.items, t))
    decreases |s|
  {
    hide ReadList, ReadString, SkipBlanks;
    ListIs(s);
    var rest := ReadList(s).value.rest;
    var s1 := SkipBlanks(s);
    if s1[0] == ']' {
      var t1 := [']'] + t;
      BlanksStop(s, t1);
      assert Front(s, rest) + t == Front(s, s1) + t1;
      ListIs(Front(s, s1) + t1);
      assert t1[1..] == t;
      assert Front(s, rest)[|s| - |rest| - 1] == s[|s| - |s1|] == (Front(s, s1) + s1)[|s| - |s1|];
    } else {
      var x := ReadString(s1[1..]).value;
      var u := SkipBlanks(x.rest);
      if u[0] == ']' {
        ElementStops(s, x, u, rest, t);
      } else {
        ListStops(u[1..], t);
        MoreStops(s, x, u, rest, t);
      }
    }
  }

  /** The last element. */
  lemma ElementStops(s: string, x: Scanned, u: string, rest: string, t: string)
    requires SkipBlanks(s) != [] && SkipBlanks(s)[0] == '\"' && ReadString(SkipBlanks(s)[1..]) == Some(x)
    requires u == SkipBlanks(x.rest) && u != [] && u[0] == ']' && rest == u[1..]
    ensures s == Front(s, rest) + rest && Front(s, rest) != [] && Front(s, rest)[|Front(s, rest)| - 1] == ']'
    ensures ReadList(Front(s, rest) + t) == Some(ListRead([x.text], t))
  {
    hide ReadList, ReadString, SkipBlanks;
    var t1 := [']'] + t;
    Elements(s, x, u, t1);
    assert t1[1..] == t;
    assert Front(s, rest) + t == Front(s, u) + t1;
    assert u == [']'] + rest;
  }

  /** An element with more behind it. */
  lemma MoreStops(s: string, x: Scanned, u: string, rest: string, t: string)
    requires SkipBlanks(s) != [] && SkipBlanks(s)[0] == '\"' && ReadString(SkipBlanks(s)[1..]) == Some(x)
    requires u == SkipBlanks(x.rest) && u != [] && u[0] == ',' && ReadList(u[1..]).Some?
    requires var m := ReadList(u[1..]).value;
             && m.rest == rest && |rest| < |u[1..]| && u[1..] == Front(u[1..], rest) + rest
             && Front(u[1..], rest)[|Front(u[1..], rest)| - 1] == ']'
             && ReadList(Front(u[1..], rest) + t) == Some(ListRead(m.items, t))
    ensures |rest| < |s| && s == Front(s, rest) + rest && Front(s, rest)[|Front(s, rest)| - 1] == ']'
    ensures ReadList(Front(s, rest) + t) == Some(ListRead([x.text] + ReadList(u[1..]).value.items, t))
  {
    hide ReadList, ReadString, SkipBlanks;
    var f := Front(u[1..], rest);
    var t1 := [','] + (f + t);
    Elements(s, x, u, t1);
    assert t1[1..] == f + t;
    assert u == [','] + u[1..];
    assert [','] + (f + rest) == ([','] + f) + rest;
    assert ([','] + f) + t == t1;
    FrontGrows(s, u, [','] + f, rest, t);
  }

  /** What stands in front of rest is what stands in front of u and the piece between them. */
  lemma FrontGrows(s: string, u: string, piece: string, rest: string, t: string)
    requires |u| <= |s| && s == Front(s, u) + u && piece != [] && u == piece + rest
    ensures |rest| <= |s| && Front(s, rest) == Front(s, u) + piece && s == Front(s, rest) + rest
    ensures Front(s, rest) != [] && Front(s, rest)[|Front(s, rest)| - 1] == piece[|piece| - 1]
    ensures Front(s, rest) + t == Front(s, u) + (piece + t)
  {
    var a := Front(s, u);
    assert a + (piece + rest) == (a + piece) + rest;
    assert s[..|s| - |rest|] == a + piece;
    assert (a + piece) + t == a + (piece + t);
  }

  /** From the blanks in front of an element to what stands behind it and its blanks. */
  lemma Elements(s: string, x: Scanned, u: string, t1: string)
    requires SkipBlanks(s) != [] && SkipBlanks(s)[0] == '\"' && ReadString(SkipBlanks(s)[1..]) == Some(x)
    requires u == SkipBlanks(x.rest) && u != [] && t1 != [] && t1[0] == u[0]
    ensures |u| < |s| && s == Front(s, u) + u
    ensures ReadList(Front(s, u) + t1) ==
            if t1[0] == ']' then Some(ListRead([x.text], t1[1..]))
            else if t1[0] != ',' then None
            else match ReadList(t1[1..])
              case None => None
              case Some(more) => Some(ListRead([x.text] + more.items, more.rest))
  {
    hide ReadList, ReadString, SkipBlanks;
    var s1 := SkipBlanks(s);
    NotBlank(x.rest);
    BlanksStop(x.rest, t1);
    var t2 := Front(x.rest, u) + t1;
    StringStops(s1[1..], t2);
    var p := Front(s1[1..], x.rest);
    var t3 := ['\"'] + (p + t2);
    assert t3[1..] == p + t2;
    BlanksStop(s, t3);
    ElementPieces(s, s1, p, x.rest, u, t1);
    ListIs(Front(s, s1) + t3);
  }

  lemma ElementPieces(s: string, s1: string, p: string, r: string, u: string, t1: string)
    requires |s1| <= |s| && s == Front(s, s1) + s1 && s1 != [] && s1[0] == '\"' && s1[1..] == p + r
    requires |u| <= |r| && r == Front(r, u) + u
    ensures |u| < |s| && s == Front(s, u) + u
    ensures Front(s, u) + t1 == Front(s, s1) + (['\"'] + (p + (Front(r, u) + t1)))
  {
    var f := Front(s, s1) + (['\"'] + (p + Front(r, u)));
    assert s1 == ['\"'] + s1[1..];
    assert s == f + u;
    assert Front(s, u) == f;
  }

  lemma NotBlank(s: string)
    ensures SkipBlanks(s) != [] ==> !Blank(SkipBlanks(s)[0])
  {
  }

  lemma ValueForms(s: string)
    requires ReadValue(s).Some?
    ensures var t := SkipBlanks(s);
            && t != [] && !("\"\"\"" <= t)
            && ((t[0] == '\"' && ReadString(t[1..]).Some? && Ends(ReadString(t[1..]).value.rest)
                 && ReadValue(s) == Some(Str(ReadString(t[1..]).value.text)))
                || (t[0] == '[' && ReadList(t[1..]).Some? && Ends(ReadList(t[1..]).value.rest)
                    && ReadValue(s) == Some(List(ReadList(t[1..]).value.items))))
  {
    hide ReadString, ReadList, Ends;
  }

  lemma StringValueIs(s: string, t: string, x: Scanned)
    requires t == SkipBlanks(s) && t != [] && !("\"\"\"" <= t) && t[0] == '\"' && ReadString(t[1..]) == Some(x) && Ends(x.rest)
    ensures ReadValue(s) == Some(Str(x.text))
  {
    hide ReadString, ReadList, Ends;
  }

  lemma ListValueIs(s: string, t: string, x: ListRead)
    requires t == SkipBlanks(s) && t != [] && t[0] == '[' && ReadList(t[1..]) == Some(x) && Ends(x.rest)
    ensures ReadValue(s) == Some(List(x.items))
  {
    hide ReadString, ReadList, Ends;
  }

  /** s is blanks b, one character c, then p, which does not end in white space, and rest. */
  lemma ValuePieces(s: string, t: string, p: string, rest: string)
    requires t == SkipBlanks(s) && t != [] && t[1..] == p + rest && p != [] && !Space(p[|p| - 1])
    ensures TrimRight(s) != [] && SkipBlanks(TrimRight(s)) == [t[0]] + (p + TrimRight(rest))
  {
    hide SkipBlanks, TrimRight;
    BlanksAreSpace(s);
    NotBlank(s);
    var b := Front(s, t);
    var q := b + ([t[0]] + p);
    assert t == [t[0]] + t[1..];
    assert s == q + rest;
    assert q[|q| - 1] == p[|p| - 1];
    TrimAppended(q, rest);
    var cut := [t[0]] + (p + TrimRight(rest));
    InThree(b, [t[0]], p, TrimRight(rest));
    SkipFirst(b, cut);
  }

  lemma InThree(b: string, c: string, p: string, rest: string)
    ensures (b + (c + p)) + rest == b + (c + (p + rest))
  {
    assert (c + p) + rest == c + (p + rest);
  }

  lemma NoTripleAfter(p: string, rest: string)
    requires !("\"\"\"" <= ['\"'] + (p + rest)) && p != [] && Ends(rest)
    ensures !("\"\"\"" <= ['\"'] + (p + TrimRight(rest)))
  {
    hide Ends, TrimRight;
    var a, z := ['\"'] + (p + rest), ['\"'] + (p + TrimRight(rest));
    var cut := TrimRight(rest);
    assert rest[..|cut|] == cut;
    assert z == a[..|z|];
  }

  lemma ValueTrimmed(s: string)
    requires ReadValue(s).Some?
    ensures TrimRight(s) != [] && ReadValue(TrimRight(s)) == ReadValue(s)
  {
    hide ReadValue, ReadString, ReadList, Ends, TrimRight, SkipBlanks;
    ValueForms(s);
    var t := SkipBlanks(s);
    if t[0] == '\"' {
      StringValueTrimmed(s);
    } else {
      ListValueTrimmed(s);
    }
  }

  lemma StringValueTrimmed(s: string)
    requires ReadValue(s).Some? && SkipBlanks(s) != [] && SkipBlanks(s)[0] == '\"'
    ensures TrimRight(s) != [] && ReadValue(TrimRight(s)) == ReadValue(s)
  {
    hide ReadValue, ReadString, ReadList, Ends, TrimRight, SkipBlanks;
    ValueForms(s);
    var t := SkipBlanks(s);
    var x := ReadString(t[1..]).value;
    StringStops(t[1..], TrimRight(x.rest));
    var p := Front(t[1..], x.rest);
    hide Front;
    ValuePieces(s, t, p, x.rest);
    assert t == ['\"'] + (p + x.rest);
    NoTripleAfter(p, x.rest);
    EndsTrimmed(x.rest);
    var cut := [t[0]] + (p + TrimRight(x.rest));
    assert cut[1..] == p + TrimRight(x.rest);
    StringValueIs(TrimRight(s), cut, Scanned(x.text, TrimRight(x.rest)));
  }

  lemma ListValueTrimmed(s: string)
    requires ReadValue(s).Some? && SkipBlanks(s) != [] && SkipBlanks(s)[0] != '\"'
    ensures TrimRight(s) != [] && ReadValue(TrimRight(s)) == ReadValue(s)
  {
    hide ReadValue, ReadString, ReadList, Ends, TrimRight, SkipBlanks;
    ValueForms(s);
    var t := SkipBlanks(s);
    var x := ReadList(t[1..]).value;
    ListStops(t[1..], TrimRight(x.rest));
    var p := Front(t[1..], x.rest);
    hide Front;
    ValuePieces(s, t, p, x.rest);
    EndsTrimmed(x.rest);
    var cut := [t[0]] + (p + TrimRight(x.rest));
    assert cut[1..] == p + TrimRight(x.rest);
    ListValueIs(TrimRight(s), cut, ListRead(x.items, TrimRight(x.rest)));
  }

  lemma NoValue(s: string)
    requires SkipBlanks(s) != [] && SkipBlanks(s)[0] != '\"' && SkipBlanks(s)[0] != '['
    ensures ReadValue(s).None?
  {
  }

  lemma {:induction false} ScalarLengthIs(k: string, t: string)
    requires (forall i :: 0 <= i < |k| ==> ScalarChar(k[i])) && (t == [] || !ScalarChar(t[0]))
    ensures ScalarLength(k + t) == |k|
  {
    if k == [] {
      assert k + t == t;
    } else {
      assert (k + t)[1..] == k[1..] + t;
      ScalarLengthIs(k[1..], t);
    }
  }

  predicate ScalarWord(word: string, rest: string) {
    && word != [] && (forall i :: 0 <= i < |word| ==> ScalarChar(word[i]))
    && (rest == [] || !ScalarChar(rest[0]))
  }

  lemma ScalarIs(s: string, word: string, rest: string)
    requires SkipBlanks(s) == word + rest && ScalarWord(word, rest) && Ends(rest)
    ensures ReadAny(s) == Some(Scalar(word))
  {
    assert (word + rest)[0] == word[0] && ScalarChar(word[0]);
    NoValue(s);
    ScalarLengthIs(word, rest);
    hide Ends, SkipBlanks, ReadValue, ScalarLength;
    assert (word + rest)[..|word|] == word && (word + rest)[|word|..] == rest;
  }

  lemma ScalarCut(s: string, word: string, rest: string)
    requires SkipBlanks(s) == word + rest && ScalarWord(word, rest)
    ensures TrimRight(s) != [] && SkipBlanks(TrimRight(s)) == word + TrimRight(rest)
  {
    assert ScalarChar(word[0]) && ScalarChar(word[|word| - 1]);
    BlanksAreSpace(s);
    var b := Front(s, word + rest);
    NoSpaceInScalar(word[0]);
    NoSpaceInScalar(word[|word| - 1]);
    hide SkipBlanks, TrimRight, ScalarWord, Space, Blank, ScalarChar;
    Regrouped(b, word, rest);
    TrimAppended(b + word, rest);
    Regrouped(b, word, TrimRight(rest));
    SkipFirst(b, word + TrimRight(rest));
  }

  lemma NoSpaceInScalar(c: char)
    requires ScalarChar(c)
    ensures !Space(c) && !Blank(c)
  {
  }

  lemma Regrouped(b: string, word: string, rest: string)
    requires word != []
    ensures b + (word + rest) == (b + word) + rest && (word + rest)[0] == word[0]
    ensures (b + word)[|b + word| - 1] == word[|word| - 1]
  {
  }

  lemma ScalarTrimmed(s: string)
    requires ReadValue(s).None? && ReadAny(s).Some?
    ensures TrimRight(s) != [] && ReadAny(TrimRight(s)) == ReadAny(s)
  {
    hide ReadValue, Ends, TrimRight, SkipBlanks, ScalarLength;
    var t := SkipBlanks(s);
    var n := ScalarLength(t);
    var word, rest := t[..n], t[n..];
    assert t == word + rest;
    ScalarCut(s, word, rest);
    EndsTrimmed(rest);
    TrimIsPrefix(rest);
    ScalarIs(TrimRight(s), word, TrimRight(rest));
  }

  lemma TrimIsPrefix(s: string)
    ensures TrimRight(s) != [] ==> s != [] && TrimRight(s)[0] == s[0]
  {
  }

  /** White space at the end of its line means nothing to a value. */
  lemma ValuesAreTolerant()
    ensures Tolerant(ReadAny)
  {
    forall s: string | ReadAny(s).Some? ensures TrimRight(s) != [] && ReadAny(TrimRight(s)) == ReadAny(s) {
      AnyTrimmed(s);
    }
  }

  lemma AnyTrimmed(s: string)
    requires ReadAny(s).Some?
    ensures TrimRight(s) != [] && ReadAny(TrimRight(s)) == ReadAny(s)
  {
    hide ReadValue, TrimRight;
    if ReadValue(s).Some? {
      ValueTrimmed(s);
    } else {
      ScalarTrimmed(s);
    }
  }

  // ----- white space at the end of a document -----

  /** The lines of a text with the white space at its end cut off. */
  function TrimLines(lines: seq<string>): (r: seq<string>)
    decreases |lines|
  {
    if lines == [] then []
    else
      var last := TrimRight(lines[|lines| - 1]);
      if last == [] then TrimLines(lines[..|lines| - 1]) else lines[..|lines| - 1] + [last]
  }

  lemma {:induction false} JoinSnoc(lines: seq<string>, line: string)
    ensures Join(lines + [line]) == if lines == [] then line else Join(lines) + "\n" + line
  {
    if lines == [] {
      assert lines + [line] == [line];
    } else if |lines| == 1 {
      assert lines + [line] == [lines[0], line];
      assert (lines + [line])[1..] == [line];
    } else {
      assert (lines + [line])[1..] == lines[1..] + [line];
      JoinSnoc(lines[1..], line);
      var a, b, c, d: string := lines[0] + "\n", Join(lines[1..]), "\n", line;
      assert a + (b + c + d) == a + b + c + d;
    }
  }

  lemma {:induction false} TrimAll(s: string, t: string)
    requires TrimRight(t) == []
    ensures TrimRight(s + t) == TrimRight(s)
    decreases |t|
  {
    if t == [] {
      assert s + t == s;
    } else {
      assert (s + t)[..|s + t| - 1] == s + t[..|t| - 1];
      assert (s + t)[|s + t| - 1] == t[|t| - 1];
      TrimAll(s, t[..|t| - 1]);
    }
  }

  lemma {:induction false} TrimKept(s: string, t: string)
    requires TrimRight(t) != []
    ensures TrimRight(s + t) == s + TrimRight(t)
    decreases |t|
  {
    if Space(t[|t| - 1]) {
      assert (s + t)[..|s + t| - 1] == s + t[..|t| - 1];
      TrimKept(s, t[..|t| - 1]);
    }
  }

  lemma {:induction false} TrimmedJoin(lines: seq<string>)
    ensures TrimRight(Join(lines)) == Join(TrimLines(lines))
    decreases |lines|
  {
    hide *;
    NothingJoined();
    if lines != [] {
      var n := |lines| - 1;
      var front, last := lines[..n], lines[n];
      assert lines == front + [last];
      TrimmedJoin(front);
      JoinSnoc(front, last);
      JoinSnoc(front, TrimRight(last));
      TrimLinesSnoc(lines);
      if TrimRight(last) == [] {
        if n > 0 {
          TrimKeptBreak(last);
          TrimAll(Join(front), "\n" + last);
          assert Join(front) + "\n" + last == Join(front) + ("\n" + last);
        }
      } else if n > 0 {
        TrimKept(Join(front) + "\n", last);
      }
    }
  }

  lemma NothingJoined()
    ensures Join([]) == [] && TrimLines([]) == [] && TrimRight([]) == []
  {
  }

  lemma TrimLinesSnoc(lines: seq<string>)
    requires lines != []
    ensures var n := |lines| - 1;
            TrimLines(lines) == if TrimRight(lines[n]) == [] then TrimLines(lines[..n]) else lines[..n] + [TrimRight(lines[n])]
  {
    hide TrimRight;
  }

  lemma TrimKeptBreak(t: string)
    requires TrimRight(t) == []
    ensures TrimRight("\n" + t) == []
  {
    TrimAll("\n", t);
    var s: string := "\n";
    assert s[..|s| - 1] == [];
  }

  lemma SpaceLineIsNothing<V>(line: string, read: Reader<V>)
    requires TrimRight(line) == [] && ReadLine(line, read).Some?
    ensures ReadLine(line, read) == Some(Nothing)
  {
    hide ReadKey;
    if !Ends(SkipBlanks(line)) {
      AllSpace(line);
      BlanksAreSpace(line);
      assert SkipBlanks(line)[0] == line[|line| - |SkipBlanks(line)|];
      if SkipBlanks(line)[0] != '[' {
        KeyBegins(SkipBlanks(line));
      }
    }
  }

  lemma {:induction false} AllSpace(s: string)
    requires TrimRight(s) == []
    ensures forall i :: 0 <= i < |s| ==> Space(s[i])
  {
    if s != [] {
      AllSpace(s[..|s| - 1]);
      assert forall i :: 0 <= i < |s| - 1 ==> s[..|s| - 1][i] == s[i];
    }
  }

  /** The white space at the end of a document says nothing. */
  lemma {:induction false} TrimmedLinesRead<V(!new)>(lines: seq<string>, read: Reader<V>)
    requires Tolerant(read) && ReadLines(lines, read).Some?
    ensures ReadLines(TrimLines(lines), read) == ReadLines(lines, read)
    decreases |lines|
  {
    hide ReadLine, TrimRight, Tolerant, Reads;
    if lines != [] {
      var n := |lines| - 1;
      var front, last := lines[..n], lines[n];
      assert lines == front + [last];
      ItemsSplit(front, [last], read);
      OneLineRead(last, read);
      ItemsAppend(front, [last], read);
      var items := ItemsOf(front, read).value;
      var item := ReadLine(last, read).value;
      ReadsAppend(Start(), items, [item]);
      if TrimRight(last) == [] {
        SpaceLineIsNothing(last, read);
        ReadsNothing(ReadItems(Start(), items).value);
        OneItem(ReadItems(Start(), items).value, Nothing);
        TrimmedLinesRead(front, read);
      } else {
        LineTrimmed(last, read);
        OneLineRead(TrimRight(last), read);
        ItemsAppend(front, [TrimRight(last)], read);
      }
    }
  }

  lemma OneLineRead<V>(line: string, read: Reader<V>)
    ensures ItemsOf([line], read).Some? <==> ReadLine(line, read).Some?
    ensures ReadLine(line, read).Some? ==> ItemsOf([line], read) == Some([ReadLine(line, read).value])
  {
    hide ReadLine;
    assert [line][1..] == [];
    if ReadLine(line, read).Some? {
      ItemsOfOne(line, ReadLine(line, read).value, read);
    }
  }

  // ----- the table PegaProx writes -----

  /** No control character but the tab: what a basic string may hold unescaped. */
  predicate Printable(s: string) {
    forall i :: 0 <= i < |s| ==> !Control(s[i])
  }

  lemma {:induction false} SlightEscapesRead(s: string, t: string)
    requires Printable(s)
    ensures ReadString(SlightEscapes(s) + "\"" + t) == Some(Scanned(s, t))
  {
    hide ReadString, Unescape;
    var all := SlightEscapes(s) + "\"" + t;
    if s == [] {
      StringIs(all);
      assert all == "\"" + t && all[1..] == t;
    } else {
      var more := SlightEscapes(s[1..]) + "\"" + t;
      SlightEscapesRead(s[1..], t);
      assert [s[0]] + s[1..] == s;
      if s[0] == '\\' || s[0] == '\"' {
        assert all == ['\\', s[0]] + more;
        SelfEscapes(s[0], more);
        ShortReads(s[0], s[0], more);
      } else {
        assert all == [s[0]] + more;
        PlainReads(s[0], more);
      }
    }
  }

  lemma SelfEscapes(c: char, t: string)
    requires c == '\\' || c == '\"'
    ensures Unescape([c] + t) == Some((c, 1))
  {
  }

  /** A line of that table reads as its key with its text. */
  lemma WrittenLineReads(line: string, k: string, text: string)
    requires Bare(k) && Printable(text) && line == k + " = \"" + SlightEscapes(text) + "\""
    requires text != []
    ensures ReadLine(line, ReadAny) == Some(Assign([k], Text(Str(text))))
  {
    hide ReadString, ReadKey, Ends, SkipBlanks, ReadLine;
    var quoted := "\"" + (SlightEscapes(text) + "\"");
    var t := "= " + quoted;
    assert line == k + " " + t;
    LineOfKey(line, k, " " + t);
    KeyReads(k, t);
    var rest := " " + quoted;
    assert t[1..] == rest;
    BlankIsSkipped(quoted);
    NoBlankQuote(quoted);
    SlightEscapesRead(text, []);
    assert SlightEscapes(text) + "\"" + [] == SlightEscapes(text) + "\"";
    assert quoted[1..] == SlightEscapes(text) + "\"";
    EmptyEnds();
    NoTripleText(text);
    StringValueIs(rest, quoted, Scanned(text, []));
    NoBlankKey(line, k);
    KeyLineIs(line, ReadAny, line, KeyRead([k], t));
  }

  lemma NoBlankQuote(s: string)
    requires s != [] && s[0] == '\"'
    ensures SkipBlanks(s) == s
  {
  }

  lemma NoBlankKey(line: string, k: string)
    requires Bare(k) && line != [] && line[0] == k[0]
    ensures SkipBlanks(line) == line
  {
  }

  lemma NoTripleText(text: string)
    requires text != []
    ensures !("\"\"\"" <= "\"" + (SlightEscapes(text) + "\""))
  {
    var s := "\"" + (SlightEscapes(text) + "\"");
    assert s[1] == SlightEscapes(text)[0] != '\"';
  }

  // ----- the rendered document -----

  /** What may not be opened again is there, and no key is empty. */
  predicate Grounded<V>(r: Reading<V>) {
    && r.fixed + r.later <= r.data.tables
    && (forall k :: k in r.data.values ==> k != [])
    && (forall k :: k in r.data.tables ==> k != [])
    && (r.at != [] ==> r.at in r.data.tables)
  }

  lemma {:induction false} StaysGrounded<V>(r: Reading<V>, items: seq<Item<V>>)
    requires Grounded(r) && ReadItems(r, items).Some?
    requires forall i :: 0 <= i < |items| && items[i].Table? ==> items[i].key != []
    ensures Grounded(ReadItems(r, items).value)
    decreases |items|
  {
    hide Reads, Grounded;
    if items != [] {
      ReadsGrounded(r, items[0]);
      assert forall i :: 0 <= i < |items[1..]| ==> items[1..][i] == items[i + 1];
      StaysGrounded(Reads(r, items[0]).value, items[1..]);
    }
  }

  lemma ReadsGrounded<V>(r: Reading<V>, item: Item<V>)
    requires Grounded(r) && Reads(r, item).Some? && (item.Table? ==> item.key != [])
    ensures Grounded(Reads(r, item).value)
  {
    match item {
      case Table(k) =>
        assert k[..|k|] == k;
      case Assign(k, v) =>
        var parent := r.at + k[..|k| - 1];
        forall p | p in Passed(r.at, k) ensures p in Prefixes(parent) {
          var i :| 1 <= i < |k| && p == r.at + k[..i];
          assert p == parent[..|r.at| + i];
        }
      case Nothing =>
    }
  }

  /** The table of PegaProx, read after a document that has none of it. */
  lemma WebhookAdded(r: Reading<Any>, url: string, fp: string)
    requires Grounded(r) && r.data == Minus(r.data)
    ensures var items: seq<Item<Any>> :=
              [Nothing, Table([WEBHOOK]), Assign(["url"], Text(Str(url)))]
              + (if fp == [] then [] else [Assign(["cert-fingerprint"], Text(Str(fp)))]);
            ReadItems(r, items).Some? && ReadItems(r, items).value.data == WithWebhook(r.data, url, fp)
  {
    hide Reads;
    FreeOfMine(r);
    SectionOpened(r, WEBHOOK);
    var o := Reads(r, Table([WEBHOOK])).value;
    LeafAssigned(o, WEBHOOK, "url", Text(Str(url)));
    var u := Reads(o, Assign(["url"], Text(Str(url)))).value;
    var two: seq<Item<Any>> := [Table([WEBHOOK]), Assign(["url"], Text(Str(url)))];
    var last: seq<Item<Any>> := if fp == [] then [] else [Assign(["cert-fingerprint"], Text(Str(fp)))];
    ReadsNothing(r);
    OneItem<Any>(r, Nothing);
    OneItem<Any>(r, two[0]);
    OneItem<Any>(o, two[1]);
    assert two == [two[0]] + [two[1]];
    ReadsAppend<Any>(r, [two[0]], [two[1]]);
    ReadsAppend<Any>(r, two, last);
    ReadsAppend<Any>(r, [Nothing], two + last);
    assert [Nothing] + (two + last) == [Nothing, two[0], two[1]] + last;
    if fp != [] {
      assert FreeOfKey(u, WEBHOOK, "cert-fingerprint") by {
        assert "cert-fingerprint" != "url" by { assert |"cert-fingerprint"| != |"url"|; }
      }
      LeafAssigned(u, WEBHOOK, "cert-fingerprint", Text(Str(fp)));
      OneItem<Any>(u, last[0]);
    }
  }

  lemma FreeOfMine(r: Reading<Any>)
    requires Grounded(r) && r.data == Minus(r.data)
    ensures FreeOf(r, WEBHOOK)
  {
    assert forall k :: k in r.data.values ==> k in Minus(r.data).values;
    assert forall k :: k in r.data.tables ==> k in Minus(r.data).tables;
  }

  lemma SectionReads(url: string, fp: string)
    requires url != [] && Printable(url) && Printable(fp)
    ensures ItemsOf(Section(url, fp), ReadAny) ==
            Some([Nothing, Table([WEBHOOK]), Assign(["url"], Text(Str(url)))]
                 + (if fp == [] then [] else [Assign(["cert-fingerprint"], Text(Str(fp)))]))
    ensures OneLiners(Section(url, fp))
  {
    hide ReadLine, SlightEscapes, ReadAny;
    var header := "[" + WEBHOOK + "]";
    EmptyLineReads(ReadAny);
    WebhookIsBare();
    HeaderLineReads(WEBHOOK, ReadAny);
    WrittenLineReads(UrlLine(url), "url", url);
    OneLineRead("", ReadAny);
    OneLineRead(header, ReadAny);
    OneLineRead(UrlLine(url), ReadAny);
    ItemsAppend([""], [header], ReadAny);
    ItemsAppend([""] + [header], [UrlLine(url)], ReadAny);
    var three := ["", header, UrlLine(url)];
    assert [""] + [header] + [UrlLine(url)] == three;
    var base: seq<Item<Any>> := [Nothing, Table([WEBHOOK]), Assign(["url"], Text(Str(url)))];
    assert [base[0]] + [base[1]] + [base[2]] == base;
    assert ItemsOf(three, ReadAny) == Some(base);
    EscapedIsOneLine(url);
    EscapedIsOneLine(fp);
    if fp != [] {
      WrittenLineReads(FingerprintLine(fp), "cert-fingerprint", fp);
      OneLineRead(FingerprintLine(fp), ReadAny);
      ItemsAppend(three, [FingerprintLine(fp)], ReadAny);
    } else {
      assert three + [] == three && base + [] == base;
    }
  }

  lemma {:induction false} EscapedIsOneLine(s: string)
    requires Printable(s)
    ensures OneLine(SlightEscapes(s))
  {
    if s != [] {
      EscapedIsOneLine(s[1..]);
    }
  }

  lemma JoinNested(lines: seq<string>, more: seq<string>)
    requires lines != []
    ensures Join([Join(lines)] + more) == Join(lines + more)
    decreases |more|
  {
    if more == [] {
      assert [Join(lines)] + more == [Join(lines)] && lines + more == lines;
    } else {
      var n := |more| - 1;
      JoinNested(lines, more[..n]);
      assert [Join(lines)] + more == ([Join(lines)] + more[..n]) + [more[n]];
      assert lines + more == (lines + more[..n]) + [more[n]];
      JoinSnoc([Join(lines)] + more[..n], more[n]);
      JoinSnoc(lines + more[..n], more[n]);
    }
  }

  lemma {:induction false} TrimLinesStayWhole(lines: seq<string>)
    requires WholeLines(lines)
    ensures OneLiners(TrimLines(lines))
    decreases |lines|
  {
    hide TrimRight;
    if lines != [] {
      var n := |lines| - 1;
      TrimLinesStayWhole(lines[..n]);
      var last := TrimRight(lines[n]);
      assert lines[n][..|last|] == last;
      assert forall i :: 0 <= i < |last| ==> last[i] == lines[n][i];
    }
  }

  lemma EmptyLineSaysNothing<V>(lines: seq<string>, read: Reader<V>)
    ensures ReadLines(if lines == [] then [""] else lines, read) == ReadLines(lines, read)
  {
    if lines == [] {
      BlankEnd(lines, read);
      assert lines + [""] == [""];
    }
  }

  /** The body of the rendered file, in lines. */
  lemma BodyLines(answer: string) returns (body: seq<string>)
    requires ReadText(StripText(answer), ReadAny).Some?
    ensures body != [] && OneLiners(body) && Join(body) == TrimRight(StripText(answer))
    ensures ReadLines(body, ReadAny) == ReadText(StripText(answer), ReadAny)
  {
    hide ReadLine, SplitLines, TrimRight, ReadAny;
    var out := Stripped(SplitLines(answer), false);
    SplitsWhole(answer);
    StripKeepsWhole(SplitLines(answer), false);
    assert OneLiners(out);
    JoinedReads(out, ReadAny);
    ValuesAreTolerant();
    TrimmedLinesRead(out, ReadAny);
    TrimmedJoin(out);
    TrimLinesStayWhole(out);
    var trimmed := TrimLines(out);
    EmptyLineSaysNothing(trimmed, ReadAny);
    body := if trimmed == [] then [""] else trimmed;
  }

  /** Rendering adds the webhook table to what the stripped text says, whatever that is. */
  lemma RenderedAddsTheTable(answer: string, d: Data<Any>, url: string, fp: string)
    requires ReadText(StripText(answer), ReadAny) == Some(d) && d == Minus(d)
    requires Printable(url) && Printable(fp)
    ensures ReadText(Rendered(answer, url, fp), ReadAny) == Some(if url == [] then d else WithWebhook(d, url, fp))
  {
    hide ReadLine, Minus, TrimRight, ReadAny, Section, WithWebhook, StripText;
    var body := BodyLines(answer);
    JoinSnoc(body, "");
    if url == [] {
      assert Rendered(answer, url, fp) == Join(body + [""]);
      JoinedReads(body + [""], ReadAny);
      BlankEnd(body, ReadAny);
    } else {
      var section := Section(url, fp);
      var lines := body + section;
      JoinNested(body, section);
      JoinSnoc(lines, "");
      assert Rendered(answer, url, fp) == Join(lines + [""]);
      SectionReads(url, fp);
      JoinedReads(lines + [""], ReadAny);
      BlankEnd(lines, ReadAny);
      BodyThenSection(body, d, url, fp);
    }
  }

  /** The rendered file reads as the stored one with every other table as it was and exactly
      one webhook table: PegaProx's, with its address and, when there is one, its
      fingerprint. */
  lemma RenderedFileSays(answer: string, url: string, fp: string)
    requires PlainBreaks(answer) && ReadText(answer, ReadAny).Some?
    requires ItemsOf(SplitLines(answer), ReadAny).Some? ==> NoSubTables(ItemsOf(SplitLines(answer), ReadAny).value)
    requires ReplaceableWebhook(SplitLines(answer), ReadText(answer, ReadAny).value)
    requires Printable(url) && Printable(fp)
    ensures var d := Minus(ReadText(answer, ReadAny).value);
            ReadText(Rendered(answer, url, fp), ReadAny) == Some(if url == [] then d else WithWebhook(d, url, fp))
  {
    hide SplitLines, Minus, ReplaceableWebhook, NoSubTables, ReadAny, Rendered, WithWebhook, StripText, Printable;
    StrippedTextReads(answer, ReadAny);
    MinusTwice(ReadText(answer, ReadAny).value);
    RenderedAddsTheTable(answer, Minus(ReadText(answer, ReadAny).value), url, fp);
  }

  lemma BodyThenSection(body: seq<string>, d: Data<Any>, url: string, fp: string)
    requires ReadLines(body, ReadAny) == Some(d) && d == Minus(d)
    requires url != [] && Printable(url) && Printable(fp)
    ensures ReadLines(body + Section(url, fp), ReadAny) == Some(WithWebhook(d, url, fp))
  {
    hide ReadLine, ReadAny, Section, Minus, WithWebhook, Reads;
    var items := ItemsOf(body, ReadAny).value;
    SectionReads(url, fp);
    ItemsAppend(body, Section(url, fp), ReadAny);
    ItemsAreLines(body, ReadAny);
    StaysGrounded<Any>(Start(), items);
    var r := ReadItems(Start(), items).value;
    WebhookAdded(r, url, fp);
    ReadsAppend(Start(), items, ItemsOf(Section(url, fp), ReadAny).value);
  }

  lemma MinusTwice<V>(d: Data<V>)
    ensures Minus(Minus(d)) == Minus(d)
  {
    assert Minus(Minus(d)).values == Minus(d).values;
  }
}
