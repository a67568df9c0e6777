/**
 Documents typed by hand: str.splitlines cuts their comments, too, at characters that end no
 line of TOML.  When such a cut changes what the stripped document says.
 */
module WebhookComments {
  import opened Wrappers
  import opened PythonText
  import opened Toml
  import opened TomlPrinter
  import opened TomlRoundTrip
  import opened Webhook
  import opened WebhookReads
  import opened WebhookText
  import opened WebhookRender

  // ----- lines and their pieces -----

  /** A line, cut at every boundary in it. */
  function Pieces(line: string): (r: seq<string>)
    ensures r != []
  {
    if line == [] then [[]]
    else
      var rest := Pieces(line[1..]);
      if Boundary(line[0]) then [[]] + rest else [[line[0]] + rest[0]] + rest[1..]
  }

  function Flat(lines: seq<string>): (r: seq<string>)
    ensures lines != [] ==> r != []
  {
    if lines == [] then [] else Pieces(lines[0]) + Flat(lines[1..])
  }

  /** The lines of a document, as TOML ends them. */
  function DocumentLines(text: string): seq<string> {
    LinesOf(Newlines(text))
  }

  lemma FlatFirst(line: string, rest: seq<string>)
    ensures Flat([line] + rest) == Pieces(line) + Flat(rest)
  {
    assert ([line] + rest)[1..] == rest;
  }

  lemma FlatCons(c: char, lines: seq<string>)
    requires lines != []
    ensures Flat([[c] + lines[0]] + lines[1..]) ==
            if Boundary(c) then [[]] + Flat(lines) else [[c] + Flat(lines)[0]] + Flat(lines)[1..]
  {
    var line := [c] + lines[0];
    assert line[1..] == lines[0];
    FlatFirst(line, lines[1..]);
    var p, f := Pieces(lines[0]), Flat(lines[1..]);
    assert [[]] + (p + f) == ([[]] + p) + f;
    assert [[c] + p[0]] + (p + f)[1..] == ([[c] + p[0]] + p[1..]) + f;
  }

  /** str.splitlines gives the pieces of the lines, but for an empty one at the end. */
  lemma {:induction false} SplitIsFlat(text: string)
    ensures Flat(DocumentLines(text)) == SplitLines(text) || Flat(DocumentLines(text)) == SplitLines(text) + [[]]
    decreases |text|
  {
    hide LinesOf, Flat, Boundary;
    if text == [] {
      NoText();
    } else if |text| >= 2 && text[0] == '\r' && text[1] == '\n' {
      SplitIsFlat(text[2..]);
      BreakInFront(Newlines(text[2..]));
      OneMoreEmpty([], SplitLines(text[2..]));
    } else {
      SplitIsFlat(text[1..]);
      var more := Newlines(text[1..]);
      OneMoreEmpty([text[0]], SplitLines(text[1..]));
      if text[0] == '\n' {
        BreakInFront(more);
        BreakIsBoundary();
      } else {
        LinesAfterBreak(more, text[0]);
        FlatCons(text[0], LinesOf(more));
        assert LinesOf(more) == DocumentLines(text[1..]);
        assert DocumentLines(text) == [[text[0]] + LinesOf(more)[0]] + LinesOf(more)[1..];
        var flat, rest := Flat(LinesOf(more)), SplitLines(text[1..]);
        if flat == rest {
          assert rest != [];
        } else if Boundary(text[0]) {
          assert flat == rest + [[]];
        } else {
          assert rest != [] ==> flat[0] == rest[0];
        }
      }
    }
  }

  lemma NoText()
    ensures Flat(DocumentLines([])) == [[]] && SplitLines([]) + [[]] == [[]]
  {
    FlatFirst([], []);
  }

  lemma BreakIsBoundary()
    ensures Boundary('\n')
  {
  }

  lemma BreakInFront(text: string)
    ensures Flat(LinesOf(['\n'] + text)) == [[]] + Flat(LinesOf(text))
  {
    LinesAfterBreak(text, '\n');
    FlatFirst([], LinesOf(text));
  }

  // ----- a line up to its first cut -----

  /** The first piece is the line up to a boundary. */
  lemma {:induction false} FirstPiece(line: string) returns (t: string)
    ensures line == Pieces(line)[0] + t && (t != [] ==> Boundary(t[0]))
    ensures t == [] ==> Pieces(line) == [line]
    ensures NoBoundary(Pieces(line)[0])
  {
    if line == [] || Boundary(line[0]) {
      t := line;
      assert [] + line == line;
    } else {
      t := FirstPiece(line[1..]);
      assert line == [line[0]] + line[1..];
      assert Pieces(line)[0] == [line[0]] + Pieces(line[1..])[0];
    }
  }

  lemma BoundaryIs(c: char)
    requires Boundary(c)
    ensures Space(c) && !Blank(c) && !BareChar(c) && !ScalarChar(c) && c != '#'
  {
  }

  lemma {:induction false} SkipBehind(p: string, t: string)
    requires t == [] || !Blank(t[0])
    ensures SkipBlanks(p + t) == SkipBlanks(p) + t
  {
    if p == [] {
      assert p + t == t;
    } else {
      assert (p + t)[1..] == p[1..] + t;
      SkipBehind(p[1..], t);
    }
  }

  lemma KeyBehind(s: string, t: string)
    requires ReadKey(s).Some? && ReadKey(s).value.rest != [] && !BareChar(ReadKey(s).value.rest[0])
    ensures ReadKey(s + t) == Some(KeyRead(ReadKey(s).value.key, ReadKey(s).value.rest + t))
  {
    hide ReadKey;
    var rest := ReadKey(s).value.rest;
    KeyStops(s, rest + t);
    assert Front(s, rest) + (rest + t) == s + t;
  }

  /** A reader that sees the same value in front of a cut, when it sees one there. */
  ghost predicate SeesNoCut<V(!new)>(read: Reader<V>) {
    forall p, t :: read(p).Some? && read(p + t).Some? && t != [] && Boundary(t[0]) ==> read(p) == read(p + t)
  }

  /** The part of a line in front of a cut reads as the line, when it reads. */
  lemma CutLineReads<V(!new)>(p: string, t: string, read: Reader<V>)
    requires SeesNoCut(read) && t != [] && Boundary(t[0])
    requires ReadLine(p, read).Some? && ReadLine(p + t, read).Some?
    ensures ReadLine(p, read) == ReadLine(p + t, read)
  {
    hide ReadKey, Ends, ReadLine, SkipBlanks, Boundary;
    BoundaryIs(t[0]);
    SkipBehind(p, t);
    LineForms(p, read);
    LineForms(p + t, read);
    var s, u := SkipBlanks(p), SkipBlanks(p + t);
    if Ends(s) {
      NothingLineIs(p, read);
      CommentGoesOn(p, t, u);
      NothingLineIs(p + t, read);
    } else if s[0] == '[' {
      HeaderGoesOn(p, t, read);
    } else {
      KeyGoesOn(p, t, read);
    }
  }

  lemma CommentGoesOn(p: string, t: string, u: string)
    requires Ends(SkipBlanks(p)) && u == SkipBlanks(p) + t && t != [] && Space(t[0]) && !Blank(t[0]) && t[0] != '#'
    ensures Ends(u) || (u != [] && u[0] != '[' && ReadKey(u).None?)
  {
    SkipTwice(p);
    hide ReadKey, SkipBlanks;
    if ReadKey(u).Some? {
      KeyBegins(u);
      KeyIsNoComment(u);
    }
  }

  lemma HeaderGoesOn<V>(p: string, t: string, read: Reader<V>)
    requires var s := SkipBlanks(p);
             s != [] && s[0] == '[' && ReadKey(SkipBlanks(s[1..])).Some?
             && var k := ReadKey(SkipBlanks(s[1..])).value; k.rest != [] && k.rest[0] == ']' && Ends(k.rest[1..])
    requires t != [] && !Blank(t[0]) && ReadLine(p + t, read).Some?
    ensures ReadLine(p, read) == ReadLine(p + t, read)
  {
    hide ReadKey, Ends, ReadLine, SkipBlanks;
    var s := SkipBlanks(p);
    SkipBehind(p, t);
    SkipBehind(s[1..], t);
    assert (s + t)[1..] == s[1..] + t;
    var k := ReadKey(SkipBlanks(s[1..])).value;
    KeyBehind(SkipBlanks(s[1..]), t);
    HeaderLineIs(p, read, s, k);
    LineForms(p + t, read);
    BracketIsNoEnd(s + t);
    HeaderLineIs(p + t, read, s + t, KeyRead(k.key, k.rest + t));
  }

  lemma KeyGoesOn<V(!new)>(p: string, t: string, read: Reader<V>)
    requires SeesNoCut(read) && t != [] && Boundary(t[0]) && !Blank(t[0]) && ReadLine(p + t, read).Some?
    requires var s := SkipBlanks(p);
             !Ends(s) && s != [] && s[0] != '[' && ReadKey(s).Some?
             && var k := ReadKey(s).value; k.rest != [] && k.rest[0] == '=' && read(k.rest[1..]).Some?
    ensures ReadLine(p, read) == ReadLine(p + t, read)
  {
    hide ReadKey, Ends, ReadLine, SkipBlanks, Boundary;
    var s := SkipBlanks(p);
    var k := ReadKey(s).value;
    SkipBehind(p, t);
    KeyBehind(s, t);
    KeyStart(s);
    KeyLineEnds(s, s + t);
    LineForms(p + t, read);
    var more := k.rest + t;
    assert more[1..] == k.rest[1..] + t;
    KeyLineIs(p, read, s, k);
    KeyLineIs(p + t, read, s + t, KeyRead(k.key, more));
  }

  // ----- the values of a stored document see no cut -----

  lemma ValuesSeeNoCut()
    ensures SeesNoCut(ReadAny)
  {
    hide ReadAny, Boundary;
    forall p: string, t: string | ReadAny(p).Some? && ReadAny(p + t).Some? && t != [] && Boundary(t[0])
      ensures ReadAny(p) == ReadAny(p + t)
    {
      AnySeesNoCut(p, t);
    }
  }

  lemma AnySeesNoCut(p: string, t: string)
    requires ReadAny(p).Some? && ReadAny(p + t).Some? && t != [] && Boundary(t[0])
    ensures ReadAny(p) == ReadAny(p + t)
  {
    hide ReadValue, Ends, SkipBlanks, ScalarLength, Boundary;
    BoundaryIs(t[0]);
    SkipBehind(p, t);
    var s := SkipBlanks(p);
    if ReadValue(p).Some? {
      ValueForms(p);
      NoScalar(p + t);
      ValueForms(p + t);
      assert (s + t)[1..] == s[1..] + t;
      if s[0] == '\"' {
        StringBehind(s[1..], t);
      } else {
        ListBehind(s[1..], t);
      }
    } else {
      var n := ScalarLength(s);
      var word, rest := s[..n], s[n..];
      assert s == word + rest && s + t == word + (rest + t);
      ScalarBegins(p + t);
      ScalarLengthIs(word, rest + t);
      assert (word + (rest + t))[..n] == word;
    }
  }

  /** What begins with a quote or a bracket is no scalar. */
  lemma NoScalar(s: string)
    requires ReadAny(s).Some? && SkipBlanks(s) != [] && (SkipBlanks(s)[0] == '\"' || SkipBlanks(s)[0] == '[')
    ensures ReadValue(s).Some?
  {
    hide ReadValue;
  }

  lemma ScalarBegins(s: string)
    requires SkipBlanks(s) != [] && ScalarChar(SkipBlanks(s)[0])
    ensures ReadValue(s).None?
  {
    NoValue(s);
  }

  lemma StringBehind(s: string, t: string)
    requires ReadString(s).Some?
    ensures ReadString(s + t) == Some(Scanned(ReadString(s).value.text, ReadString(s).value.rest + t))
  {
    hide ReadString;
    var rest := ReadString(s).value.rest;
    StringStops(s, rest + t);
    assert Front(s, rest) + (rest + t) == s + t;
  }

  lemma ListBehind(s: string, t: string)
    requires ReadList(s).Some?
    ensures ReadList(s + t) == Some(ListRead(ReadList(s).value.items, ReadList(s).value.rest + t))
  {
    hide ReadList;
    var rest := ReadList(s).value.rest;
    ListStops(s, rest + t);
    assert Front(s, rest) + (rest + t) == s + t;
  }

  // ----- the strip and the pieces -----

  /** No piece behind a cut begins with a bracket. */
  predicate NoBracketCut(line: string) {
    forall i :: 1 <= i < |Pieces(line)| ==> !AnyTable(Pieces(line)[i])
  }

  predicate NoBracketCuts(lines: seq<string>) {
    forall i :: 0 <= i < |lines| ==> NoBracketCut(lines[i])
  }

  lemma {:induction false} TrimBehind(p: string, t: string)
    requires TrimLeft(p) != []
    ensures TrimLeft(p + t) == TrimLeft(p) + t
  {
    assert (p + t)[0] == p[0] && (p + t)[1..] == p[1..] + t;
    if Space(p[0]) {
      TrimBehind(p[1..], t);
    }
  }

  lemma {:induction false} SpacesGo(p: string, t: string)
    requires TrimLeft(p) == []
    ensures TrimLeft(p + t) == TrimLeft(t)
  {
    if p == [] {
      assert p + t == t;
    } else {
      assert (p + t)[0] == p[0] && (p + t)[1..] == p[1..] + t;
      SpacesGo(p[1..], t);
    }
  }

  /** In front of a cut a line that reads has something, and that begins it. */
  lemma BeginsInFront<V>(p: string, t: string, read: Reader<V>)
    requires t != [] && Boundary(t[0]) && ReadLine(p + t, read).Some?
    ensures SkipBlanks(p) != [] && TrimLeft(p) == SkipBlanks(p) && TrimLeft(p + t) == TrimLeft(p) + t
  {
    hide ReadKey, ReadLine, SkipBlanks, TrimLeft, Boundary;
    BoundaryIs(t[0]);
    SkipBehind(p, t);
    LineForms(p + t, read);
    var s := SkipBlanks(p + t);
    NoSpaceFirst(s);
    SkipSame(p);
    SkipSame(p + t);
  }

  lemma NoSpaceFirst(s: string)
    requires Ends(s) || (s != [] && s[0] == '[') || ReadKey(s).Some?
    requires s == [] || !Blank(s[0])
    ensures s == [] || !Space(s[0])
  {
    hide ReadKey;
    if ReadKey(s).Some? {
      KeyBegins(s);
    }
  }

  /** What follows the first bracket of a header, and the white space behind that. */
  function Behind(line: string): string
    requires AnyTable(line)
  {
    TrimLeft(TrimLeft(line)[1..])
  }

  /** What follows the webhook's name in there. */
  function BehindName(line: string): string
    requires AnyTable(line) && WEBHOOK <= Behind(line)
  {
    TrimLeft(Behind(line)[|WEBHOOK|..])
  }

  /** The header of the webhook table, whatever is behind it. */
  predicate Begun(line: string) {
    && AnyTable(line) && WEBHOOK <= Behind(line)
    && BehindName(line) != [] && BehindName(line)[0] == ']'
  }

  lemma HeaderIs(line: string)
    ensures WebhookHeader(line) <==> Begun(line) && TrimLeft(BehindName(line)[1..]) == []
  {
  }

  /** How a header line is read that has the webhook's name behind its bracket. */
  lemma NamedReads<V>(line: string, read: Reader<V>)
    requires AnyTable(line) && ReadLine(line, read).Some?
    ensures TrimLeft(line) == SkipBlanks(line) && Behind(line) == SkipBlanks(TrimLeft(line)[1..])
    ensures ReadKey(Behind(line)).Some?
    ensures var k := ReadKey(Behind(line)).value; k.rest != [] && k.rest[0] == ']' && Ends(k.rest[1..])
  {
    hide ReadKey, SkipBlanks, TrimLeft, ReadLine;
    LineForms(line, read);
    var s := SkipBlanks(line);
    if Ends(s) {
      EndsHere(line);
    }
    SkipBehind(line, []);
    assert line + [] == line && s + [] == s;
    FirstOf(line);
    NoSpaceFirst(s);
    SkipSame(line);
    KeyBegins(SkipBlanks(s[1..]));
    SkipSame(s[1..]);
  }


  lemma FirstOf(line: string)
    ensures SkipBlanks(line) == [] || !Blank(SkipBlanks(line)[0])
    ensures AnyTable(line) ==> TrimLeft(line) != [] && TrimLeft(line)[0] == '['
  {
  }

  lemma WebhookHasNoCut()
    ensures forall i :: 0 <= i < |WEBHOOK| ==> !Boundary(WEBHOOK[i])
  {
    WebhookIsBare();
    hide Boundary;
    forall i | 0 <= i < |WEBHOOK| ensures !Boundary(WEBHOOK[i]) {
      if Boundary(WEBHOOK[i]) {
        BoundaryIs(WEBHOOK[i]);
      }
    }
  }

  /** The comment a cut is in keeps something in front of the cut. */
  lemma CommentUpToCut(x: string, t: string)
    requires t != [] && Boundary(t[0]) && Ends(x + t)
    ensures TrimLeft(x) != [] && TrimLeft(x + t) != []
  {
    BoundaryIs(t[0]);
    hide SkipBlanks, TrimLeft, Boundary;
    SkipBehind(x, t);
    assert SkipBlanks(x + t)[0] == '#';
    SkipSame(x);
    SkipSame(x + t);
  }

  lemma SpaceOrBracket(r: string)
    requires TrimLeft(r) != [] && TrimLeft(r)[0] == ']'
    ensures r != [] && !BareChar(r[0])
    ensures SkipBlanks(r) != [] && SkipBlanks(r)[0] != '.'
  {
    if Space(r[0]) && Blank(r[0]) {
      SpaceOrBracket(r[1..]);
    }
  }

  lemma KeyOfName(r: string)
    requires r != [] && !BareChar(r[0]) && SkipBlanks(r) != [] && SkipBlanks(r)[0] != '.'
    ensures ReadKey(WEBHOOK + r) == Some(KeyRead([WEBHOOK], SkipBlanks(r)))
  {
    WebhookIsBare();
    WholeKey(WEBHOOK, r);
    hide ReadKeyPart;
  }

  lemma NotBeyond(w: string, v: string, t: string)
    requires w <= v + t && t != [] && forall i :: 0 <= i < |w| ==> w[i] != t[0]
    ensures |w| <= |v|
  {
    assert (v + t)[|v|] == t[0];
  }

  lemma NameInFront(v: string, t: string)
    requires t != [] && Boundary(t[0]) && (WEBHOOK <= v || WEBHOOK <= v + t)
    ensures WEBHOOK <= v && v + t == WEBHOOK + (v[|WEBHOOK|..] + t) && (v + t)[|WEBHOOK|..] == v[|WEBHOOK|..] + t
  {
    hide Boundary;
    WebhookHasNoCut();
    if WEBHOOK <= v + t {
      NotBeyond(WEBHOOK, v, t);
    }
    assert v == WEBHOOK + v[|WEBHOOK|..];
  }

  /** Behind the webhook's name the cut is in a comment. */
  lemma NameUpToCut<V>(p: string, t: string, read: Reader<V>)
    requires t != [] && Boundary(t[0]) && AnyTable(p) && AnyTable(p + t) && ReadLine(p + t, read).Some?
    requires Behind(p + t) == Behind(p) + t && (Begun(p) || Begun(p + t))
    ensures Begun(p) ==> TrimLeft(BehindName(p)[1..]) != []
    ensures Begun(p + t) ==> TrimLeft(BehindName(p + t)[1..]) != []
  {
    hide ReadKey, ReadLine, SkipBlanks, TrimLeft, Boundary, Ends, Behind, AnyTable;
    BoundaryIs(t[0]);
    var v := Behind(p);
    NameInFront(v, t);
    var r := v[|WEBHOOK|..];
    NamedReads(p + t, read);
    if Begun(p) {
      SpaceOrBracket(r);
      TrimBehind(r, t);
    }
    SpaceOrBracket(r + t);
    KeyOfName(r + t);
    SkipBehind(r, t);
    SkipSame(r);
    SkipSame(r + t);
    var u := SkipBlanks(r);
    assert u != [] && u[0] == ']';
    assert (u + t)[1..] == u[1..] + t;
    CommentUpToCut(u[1..], t);
  }

  /** Up to a cut a header is a webhook header as far as the line is: the cut is behind both. */
  lemma HeaderUpToCut<V>(p: string, t: string, read: Reader<V>)
    requires t != [] && Boundary(t[0]) && ReadLine(p + t, read).Some?
    ensures AnyTable(p) <==> AnyTable(p + t)
    ensures !WebhookHeader(p) && !WebhookHeader(p + t)
  {
    hide ReadKey, ReadLine, SkipBlanks, TrimLeft, Boundary, WebhookHeader;
    BoundaryIs(t[0]);
    BeginsInFront(p, t, read);
    HeaderIs(p);
    HeaderIs(p + t);
    if AnyTable(p) {
      NamedReads(p + t, read);
      var b := TrimLeft(p)[1..];
      assert TrimLeft(p + t)[1..] == b + t;
      SkipBehind(b, t);
      KeyBegins(SkipBlanks(b + t));
      SkipSame(b);
      assert Behind(p + t) == Behind(p) + t;
      if Begun(p) || Begun(p + t) {
        NameUpToCut(p, t, read);
      }
    }
  }

  lemma NoHeaderNoTable(line: string)
    ensures WebhookHeader(line) ==> AnyTable(line)
  {
  }

  /** The pieces behind the first one go where that one goes. */
  lemma {:induction false} TailStrips(pieces: seq<string>, more: seq<string>, skipping: bool)
    requires forall i :: 0 <= i < |pieces| ==> !AnyTable(pieces[i])
    ensures Stripped(pieces + more, skipping) ==
            if skipping then Stripped(more, true) else pieces + Stripped(more, false)
  {
    hide WebhookHeader, AnyTable;
    if pieces == [] {
      assert pieces + more == more;
      assert [] + Stripped(more, false) == Stripped(more, false);
    } else {
      NoHeaderNoTable(pieces[0]);
      assert (pieces + more)[1..] == pieces[1..] + more;
      TailStrips(pieces[1..], more, skipping);
      assert [pieces[0]] + (pieces[1..] + Stripped(more, false)) == pieces + Stripped(more, false);
    }
  }

  lemma FirstStays<V>(line: string, read: Reader<V>)
    requires ReadLine(line, read).Some?
    ensures WebhookHeader(Pieces(line)[0]) <==> WebhookHeader(line)
    ensures AnyTable(Pieces(line)[0]) <==> AnyTable(line)
  {
    hide WebhookHeader, AnyTable, Boundary, ReadLine, Pieces;
    var t := FirstPiece(line);
    if t == [] {
      assert line + [] == line;
    } else {
      HeaderUpToCut(Pieces(line)[0], t, read);
    }
  }

  lemma LineStrips<V>(line: string, more: seq<string>, skipping: bool, read: Reader<V>)
    requires ReadLine(line, read).Some? && NoBracketCut(line)
    ensures Stripped(Pieces(line) + more, skipping) ==
            if WebhookHeader(line) || (skipping && !AnyTable(line)) then Stripped(more, true)
            else Pieces(line) + Stripped(more, false)
  {
    hide WebhookHeader, AnyTable, ReadLine, Pieces;
    var ps := Pieces(line);
    FirstStays(line, read);
    assert (ps + more)[1..] == ps[1..] + more;
    assert forall i :: 0 <= i < |ps[1..]| ==> ps[1..][i] == ps[i + 1];
    TailStrips(ps[1..], more, true);
    TailStrips(ps[1..], more, false);
    assert [ps[0]] + (ps[1..] + Stripped(more, false)) == ps + Stripped(more, false);
  }

  /** Stripping the pieces is stripping the lines, and cutting what is left. */
  lemma {:induction false} StripCuts<V>(lines: seq<string>, skipping: bool, read: Reader<V>)
    requires ItemsOf(lines, read).Some? && NoBracketCuts(lines)
    ensures Stripped(Flat(lines), skipping) == Flat(Stripped(lines, skipping))
  {
    hide WebhookHeader, AnyTable, ReadLine, NoBracketCut;
    if lines != [] {
      assert forall i :: 0 <= i < |lines[1..]| ==> lines[1..][i] == lines[i + 1];
      StripCuts(lines[1..], true, read);
      StripCuts(lines[1..], false, read);
      LineStrips(lines[0], Flat(lines[1..]), skipping, read);
      FlatFirst(lines[0], Stripped(lines[1..], false));
    }
  }

  // ----- what the pieces say -----

  /** A cut in this line does no harm: what is in front of the first one reads, and behind each
      there is nothing or another comment. */
  predicate Harmless<V>(line: string, read: Reader<V>) {
    && ReadLine(Pieces(line)[0], read).Some?
    && forall i :: 1 <= i < |Pieces(line)| ==> Ends(SkipBlanks(Pieces(line)[i]))
  }

  predicate AllHarmless<V>(lines: seq<string>, read: Reader<V>) {
    forall i :: 0 <= i < |lines| ==> Harmless(lines[i], read)
  }

  function Assigned<V>(items: seq<Item<V>>): nat {
    if items == [] then 0 else (if items[0].Assign? then 1 else 0) + Assigned(items[1..])
  }

  lemma {:induction false} AssignedInParts<V>(a: seq<Item<V>>, b: seq<Item<V>>)
    ensures Assigned(a + b) == Assigned(a) + Assigned(b)
  {
    if a == [] {
      assert a + b == b;
    } else {
      assert (a + b)[1..] == a[1..] + b;
      AssignedInParts(a[1..], b);
    }
  }

  /** Every key that is read is a new one. */
  lemma {:induction false} ValuesAreCounted<V>(r: Reading<V>, items: seq<Item<V>>)
    requires ReadItems(r, items).Some?
    ensures |ReadItems(r, items).value.data.values| == |r.data.values| + Assigned(items)
    decreases |items|
  {
    hide Prefixes, Passed, UnderValue;
    if items != [] {
      ValuesAreCounted(Reads(r, items[0]).value, items[1..]);
      if items[0].Assign? {
        OneValueMore(r, items[0].key, items[0].value);
      }
    }
  }

  lemma OneValueMore<V>(r: Reading<V>, k: Key, v: V)
    requires k != [] && Assigns(r, k, v).Some?
    ensures |Assigns(r, k, v).value.data.values| == |r.data.values| + 1
  {
    var values := r.data.values;
    assert values[r.at + k := v].Keys == values.Keys + {r.at + k};
  }

  /** Pieces that begin with no bracket: all of them say nothing, or a key more is read. */
  lemma {:induction false} TailCounts<V>(pieces: seq<string>, read: Reader<V>)
    requires forall i :: 0 <= i < |pieces| ==> !AnyTable(pieces[i])
    requires ItemsOf(pieces, read).Some?
    ensures Assigned(ItemsOf(pieces, read).value) == 0 <==> forall i :: 0 <= i < |pieces| ==> Ends(SkipBlanks(pieces[i]))
  {
    hide ReadLine, AnyTable, Ends, SkipBlanks;
    if pieces != [] {
      assert forall i :: 0 <= i < |pieces[1..]| ==> pieces[1..][i] == pieces[i + 1];
      TailCounts(pieces[1..], read);
      TableLines(pieces[0], read);
      NothingIs(pieces[0], read);
      assert pieces == [pieces[0]] + pieces[1..];
    }
  }

  lemma NothingIs<V>(line: string, read: Reader<V>)
    ensures ReadLine(line, read) == Some(Nothing) <==> Ends(SkipBlanks(line))
  {
    SkipTwice(line);
    hide ReadKey;
  }

  lemma {:induction false} NothingSaid<V>(pieces: seq<string>, r: Reading<V>, read: Reader<V>)
    requires forall i :: 0 <= i < |pieces| ==> Ends(SkipBlanks(pieces[i]))
    ensures ItemsOf(pieces, read).Some? && ReadItems(r, ItemsOf(pieces, read).value) == Some(r)
  {
    hide ReadLine, Ends, SkipBlanks;
    if pieces != [] {
      NothingIs(pieces[0], read);
      NothingSaid(pieces[1..], r, read);
      var rest := ItemsOf(pieces[1..], read).value;
      assert ([Nothing] + rest)[1..] == rest;
    }
  }

  /** The first piece says what the line says, when it says anything. */
  lemma FirstSays<V(!new)>(line: string, read: Reader<V>)
    requires SeesNoCut(read) && ReadLine(line, read).Some? && ReadLine(Pieces(line)[0], read).Some?
    ensures ReadLine(Pieces(line)[0], read) == ReadLine(line, read)
  {
    hide ReadLine, Boundary;
    var t := FirstPiece(line);
    if t == [] {
      assert line + [] == line;
    } else {
      CutLineReads(Pieces(line)[0], t, read);
    }
  }

  lemma LineCounts<V(!new)>(line: string, read: Reader<V>)
    requires SeesNoCut(read) && ReadLine(line, read).Some? && NoBracketCut(line) && ItemsOf(Pieces(line), read).Some?
    ensures Assigned(ItemsOf(Pieces(line), read).value) >= Assigned([ReadLine(line, read).value])
    ensures Assigned(ItemsOf(Pieces(line), read).value) == Assigned([ReadLine(line, read).value]) ==> Harmless(line, read)
  {
    hide ReadLine, AnyTable, Ends, SkipBlanks, Pieces;
    var ps := Pieces(line);
    FirstSays(line, read);
    assert forall i :: 0 <= i < |ps[1..]| ==> ps[1..][i] == ps[i + 1];
    TailCounts(ps[1..], read);
    var item, rest := ReadLine(line, read).value, ItemsOf(ps[1..], read).value;
    assert ItemsOf(ps, read).value == [item] + rest;
    AssignedInParts([item], rest);
  }

  lemma LineSays<V(!new)>(line: string, r: Reading<V>, read: Reader<V>)
    requires SeesNoCut(read) && ReadLine(line, read).Some? && Harmless(line, read)
    ensures ItemsOf(Pieces(line), read).Some?
    ensures ReadItems(r, ItemsOf(Pieces(line), read).value) == Reads(r, ReadLine(line, read).value)
  {
    hide ReadLine, Ends, SkipBlanks, Pieces, Reads;
    var ps := Pieces(line);
    FirstSays(line, read);
    assert forall i :: 0 <= i < |ps[1..]| ==> ps[1..][i] == ps[i + 1];
    NothingSaid(ps[1..], r, read);
    var item, rest := ReadLine(line, read).value, ItemsOf(ps[1..], read).value;
    assert ItemsOf(ps, read).value == [item] + rest;
    assert ([item] + rest)[1..] == rest;
    if Reads(r, item).Some? {
      NothingSaid(ps[1..], Reads(r, item).value, read);
    }
  }

  /** Cut harmlessly, lines say what they say. */
  lemma {:induction false} HarmlessSays<V(!new)>(lines: seq<string>, r: Reading<V>, read: Reader<V>)
    requires SeesNoCut(read) && ItemsOf(lines, read).Some? && AllHarmless(lines, read)
    ensures ItemsOf(Flat(lines), read).Some?
    ensures ReadItems(r, ItemsOf(Flat(lines), read).value) == ReadItems(r, ItemsOf(lines, read).value)
    decreases |lines|
  {
    hide ReadLine, Harmless, Pieces, Reads;
    if lines != [] {
      assert forall i :: 0 <= i < |lines[1..]| ==> lines[1..][i] == lines[i + 1];
      HarmlessSays(lines[1..], r, read);
      LineSays(lines[0], r, read);
      ItemsAppend(Pieces(lines[0]), Flat(lines[1..]), read);
      var first, rest := ItemsOf(Pieces(lines[0]), read).value, ItemsOf(Flat(lines[1..]), read).value;
      ReadsAppend(r, first, rest);
      var item := ReadLine(lines[0], read).value;
      assert ItemsOf(lines, read).value[1..] == ItemsOf(lines[1..], read).value;
      if Reads(r, item).Some? {
        HarmlessSays(lines[1..], Reads(r, item).value, read);
      }
    }
  }

  /** Cut otherwise, they say more, or nothing at all. */
  lemma {:induction false} CutsCount<V(!new)>(lines: seq<string>, read: Reader<V>)
    requires SeesNoCut(read) && NoBracketCuts(lines) && ItemsOf(lines, read).Some? && ItemsOf(Flat(lines), read).Some?
    ensures Assigned(ItemsOf(Flat(lines), read).value) >= Assigned(ItemsOf(lines, read).value)
    ensures Assigned(ItemsOf(Flat(lines), read).value) == Assigned(ItemsOf(lines, read).value) ==> AllHarmless(lines, read)
  {
    hide ReadLine, Harmless, Pieces, NoBracketCut;
    if lines != [] {
      assert forall i :: 0 <= i < |lines[1..]| ==> lines[1..][i] == lines[i + 1];
      ItemsSplit(Pieces(lines[0]), Flat(lines[1..]), read);
      CutsCount(lines[1..], read);
      LineCounts(lines[0], read);
      ItemsAppend(Pieces(lines[0]), Flat(lines[1..]), read);
      AssignedInParts(ItemsOf(Pieces(lines[0]), read).value, ItemsOf(Flat(lines[1..]), read).value);
      AssignedInParts([ReadLine(lines[0], read).value], ItemsOf(lines[1..], read).value);
      assert lines == [lines[0]] + lines[1..];
    }
  }

  /** What lines say when they are cut: the same exactly when every cut is harmless. */
  lemma CutsReadIff<V(!new)>(lines: seq<string>, read: Reader<V>)
    requires SeesNoCut(read) && NoBracketCuts(lines) && ReadLines(lines, read).Some?
    ensures ReadLines(Flat(lines), read) == ReadLines(lines, read) <==> AllHarmless(lines, read)
  {
    hide ReadLine, Harmless, Flat, NoBracketCuts, Reads;
    var items := ItemsOf(lines, read).value;
    if AllHarmless(lines, read) {
      HarmlessSays(lines, Start(), read);
    } else if ReadLines(Flat(lines), read) == ReadLines(lines, read) {
      CutsCount(lines, read);
      ValuesAreCounted(Start(), items);
      ValuesAreCounted(Start(), ItemsOf(Flat(lines), read).value);
      assert false;
    }
  }

  // ----- whole documents -----

  lemma StrippedIsCut<V>(text: string, read: Reader<V>)
    requires ItemsOf(DocumentLines(text), read).Some? && NoBracketCuts(DocumentLines(text))
    ensures ReadText(StripText(text), read) == ReadLines(Flat(Stripped(DocumentLines(text), false)), read)
  {
    hide ReadLine, SplitLines, DocumentLines, NoBracketCuts, Flat, WebhookHeader, AnyTable, WholeLines;
    var out := Stripped(SplitLines(text), false);
    SplitIsFlat(text);
    StripCuts(DocumentLines(text), false, read);
    SplitsWhole(text);
    StripKeepsWhole(SplitLines(text), false);
    WholeAreOneLiners(out);
    JoinedReads(out, read);
    if Flat(DocumentLines(text)) == SplitLines(text) + [[]] {
      StripLast(SplitLines(text), false);
      BlankEnd(out, read);
    }
  }

  lemma WholeAreOneLiners(lines: seq<string>)
    requires WholeLines(lines)
    ensures OneLiners(lines)
  {
  }

  /** An empty line at the end stays, unless it is in the webhook table. */
  lemma {:induction false} StripLast(lines: seq<string>, skipping: bool)
    ensures Stripped(lines + [[]], skipping) == Stripped(lines, skipping)
         || Stripped(lines + [[]], skipping) == Stripped(lines, skipping) + [[]]
  {
    hide WebhookHeader, AnyTable;
    if lines == [] {
      NoTableHere();
      assert lines + [[]] == [[]];
      assert (lines + [[]])[1..] == lines;
    } else {
      assert (lines + [[]])[1..] == lines[1..] + [[]];
      StripLast(lines[1..], true);
      StripLast(lines[1..], false);
      assert [lines[0]] + (Stripped(lines[1..], false) + [[]]) == ([lines[0]] + Stripped(lines[1..], false)) + [[]];
    }
  }

  lemma NoTableHere()
    ensures !WebhookHeader([]) && !AnyTable([])
  {
  }

  lemma {:induction false} StripStays(lines: seq<string>, skipping: bool)
    requires NoBracketCuts(lines)
    ensures NoBracketCuts(Stripped(lines, skipping))
  {
    hide WebhookHeader, AnyTable, NoBracketCut;
    NoHeaderLeft(lines, skipping);
  }

  /** What stripping makes of a document: the document without its webhook table, exactly when
      each cut in a line outside that table is harmless - for a document in which nothing behind
      a cut begins with a bracket. */
  lemma StripIsRightIff(text: string)
    requires ReadText(text, ReadAny).Some? && NoBracketCuts(DocumentLines(text))
    requires NoSubTables(ItemsOf(DocumentLines(text), ReadAny).value)
    requires ReplaceableWebhook(DocumentLines(text), ReadText(text, ReadAny).value)
    ensures ReadText(StripText(text), ReadAny) == Some(Minus(ReadText(text, ReadAny).value))
       <==> AllHarmless(Outside(DocumentLines(text), 0), ReadAny)
  {
    hide *;
    var lines := DocumentLines(text);
    DocumentReads(text);
    StrippedIsCut(text, ReadAny);
    StripRemovesTheTable(lines, ReadAny);
    StripStays(lines, false);
    ValuesSeeNoCut();
    CutsReadIff(Stripped(lines, false), ReadAny);
    StripKeepsTheRest(lines);
  }

  lemma DocumentReads(text: string)
    ensures ReadText(text, ReadAny) == ReadLines(DocumentLines(text), ReadAny)
    ensures ReadText(text, ReadAny).Some? ==> ItemsOf(DocumentLines(text), ReadAny).Some?
  {
    hide ReadLine, ReadAny;
  }

  /** What rendering makes of a document whose cuts are harmless: every table as it was, and the
      webhook table of PegaProx. */
  lemma CutFileIsRendered(text: string, url: string, fp: string)
    requires ReadText(text, ReadAny).Some? && NoBracketCuts(DocumentLines(text))
    requires NoSubTables(ItemsOf(DocumentLines(text), ReadAny).value)
    requires ReplaceableWebhook(DocumentLines(text), ReadText(text, ReadAny).value)
    requires AllHarmless(Outside(DocumentLines(text), 0), ReadAny) && Printable(url) && Printable(fp)
    ensures var d := Minus(ReadText(text, ReadAny).value);
            ReadText(Rendered(text, url, fp), ReadAny) == Some(if url == [] then d else WithWebhook(d, url, fp))
  {
    hide *;
    var d := ReadText(text, ReadAny).value;
    DocumentReads(text);
    StripIsRightIff(text);
    MinusTwice(d);
    RenderedAddsTheTable(text, Minus(d), url, fp);
  }

  // ----- a comment with a cut -----

  predicate Plain(s: string) {
    forall i :: 0 <= i < |s| ==> !Control(s[i]) && !Boundary(s[i])
  }

  /** A comment with a cut in it, and plain text on both sides. */
  predicate CutComment(line: string, a: string, c: char, b: string) {
    line == "#" + a + [c] + b && Plain(a) && Plain(b) && Boundary(c) && !Control(c)
  }

  lemma {:induction false} WholePiece(b: string)
    requires NoBoundary(b)
    ensures Pieces(b) == [b]
  {
    if b != [] {
      WholePiece(b[1..]);
      assert [b[0]] + b[1..] == b;
    }
  }

  lemma {:induction false} TwoPieces(a: string, c: char, b: string)
    requires NoBoundary(a) && Boundary(c) && NoBoundary(b)
    ensures Pieces(a + [c] + b) == [a, b]
  {
    var line := a + [c] + b;
    if a == [] {
      assert line == [c] + b && line[1..] == b;
      WholePiece(b);
    } else {
      assert line[0] == a[0] && line[1..] == a[1..] + [c] + b;
      TwoPieces(a[1..], c, b);
      assert [a[0]] + a[1..] == a;
    }
  }

  lemma OneComment(line: string, a: string, c: char, b: string)
    requires CutComment(line, a, c, b)
    ensures ReadLine(line, ReadAny) == Some(Nothing) && !AnyTable(line) && OneLine(line)
  {
    var text := a + [c] + b;
    assert forall i :: 0 <= i < |a| ==> text[i] == a[i];
    assert forall i :: 0 <= i < |b| ==> text[|a| + 1 + i] == b[i];
    assert line[1..] == text;
    assert forall i :: 1 <= i < |line| ==> line[i] == text[i - 1];
    assert forall i :: 0 <= i < |line| ==> !Control(line[i]);
    assert SkipBlanks(line) == line;
  }

  lemma OneLineDocument(line: string)
    requires ReadLine(line, ReadAny) == Some(Nothing) && OneLine(line)
    ensures DocumentLines(line) == [line] && ItemsOf([line], ReadAny) == Some([Nothing])
    ensures ReadText(line, ReadAny) == Some(Data(map[], {}))
  {
    hide ReadLine, LinesOf, Newlines;
    NoReturns(line);
    JoinedLinesSplit([line]);
    ItemsOfOne(line, Nothing, ReadAny);
    OneItem<Any>(Start(), Nothing);
  }

  lemma OneOutside(line: string)
    requires !AnyTable(line)
    ensures Outside([line], 0) == [line] && !WebhookHeader(line)
  {
    NoHeaderNoTable(line);
    hide WebhookHeader, AnyTable;
  }

  /** A document that is one comment with a cut in it says nothing, and after the strip nothing
      exactly when there is nothing, or another comment, behind the cut. */
  lemma CommentBecomesText(line: string, a: string, c: char, b: string)
    requires CutComment(line, a, c, b) && !AnyTable(b)
    ensures ReadText(line, ReadAny) == Some(Data(map[], {}))
    ensures ReadText(StripText(line), ReadAny) == ReadText(line, ReadAny) <==> Ends(SkipBlanks(b))
  {
    OneComment(line, a, c, b);
    hide *;
    OneLineDocument(line);
    OneOutside(line);
    CommentPieces(line, a, c, b);
    assert [line][0] == line;
    NothingTaken([line]);
    StripIsRightIff(line);
    OneHarmless(line, b);
  }

  lemma CommentPieces(line: string, a: string, c: char, b: string)
    requires CutComment(line, a, c, b)
    ensures Pieces(line) == ["#" + a, b] && ReadLine("#" + a, ReadAny).Some?
  {
    var p := "#" + a;
    assert p[1..] == a;
    assert forall i :: 1 <= i < |p| ==> p[i] == a[i - 1];
    assert NoBoundary(p) && SkipBlanks(p) == p && Ends(p);
    TwoPieces(p, c, b);
  }

  lemma NothingTaken(lines: seq<string>)
    ensures var d: Data<Any> := Data(map[], {}); ReplaceableWebhook(lines, d) && Minus(d) == d
    ensures NoSubTables<Any>([Nothing])
  {
  }

  lemma OneHarmless(line: string, b: string)
    requires |Pieces(line)| == 2 && Pieces(line)[1] == b && ReadLine(Pieces(line)[0], ReadAny).Some?
    ensures AllHarmless([line], ReadAny) <==> Ends(SkipBlanks(b))
    ensures !AnyTable(b) ==> NoBracketCuts([line])
  {
    hide ReadLine, Pieces, Ends, SkipBlanks, AnyTable;
    assert [line][0] == line;
  }
}
