/**
 Taking the [post-installation-webhook] table out of a stored answer file
 (pegaprox/api/auto_install.py, _strip_webhook_section): line by line, without reading it.
 */
module Webhook {
  import opened PythonText
  import opened Toml

  const WEBHOOK: string := "post-installation-webhook"

  /** A line that is the header of the webhook table and nothing else. */
  predicate WebhookHeader(line: string) {
    var s := TrimLeft(line);
    && s != [] && s[0] == '['
    && var t := TrimLeft(s[1..]);
       && WEBHOOK <= t
       && var u := TrimLeft(t[|WEBHOOK|..]);
          u != [] && u[0] == ']' && TrimLeft(u[1..]) == []
  }

  predicate AnyTable(line: string) {
    var s := TrimLeft(line);
    s != [] && s[0] == '['
  }

  function Stripped(lines: seq<string>, skipping: bool): seq<string> {
    if lines == [] then []
    else if WebhookHeader(lines[0]) then Stripped(lines[1..], true)
    else if skipping && !AnyTable(lines[0]) then Stripped(lines[1..], true)
    else [lines[0]] + Stripped(lines[1..], false)
  }

  /** Where str.splitlines cuts. */
  predicate Boundary(c: char) {
    c == '\n' || c == '\r' || c == '\U{b}' || c == '\U{c}' || '\U{1c}' <= c <= '\U{1e}'
    || c == '\U{85}' || c == '\U{2028}' || c == '\U{2029}'
  }

  /** The lines of text, as str.splitlines gives them: none after a boundary at the end. */
  function SplitLines(text: string): seq<string> {
    if text == [] then []
    else if |text| >= 2 && text[0] == '\r' && text[1] == '\n' then [[]] + SplitLines(text[2..])
    else if Boundary(text[0]) then [[]] + SplitLines(text[1..])
    else
      var rest := SplitLines(text[1..]);
      if rest == [] then [[text[0]]] else [[text[0]] + rest[0]] + rest[1..]
  }

  /** The loop over the lines, with its flag. */
  method StripSection(lines: seq<string>) returns (out: seq<string>)
    ensures out == Stripped(lines, false)
  {
    out := [];
    var skipping := false;
    for i := 0 to |lines|
      invariant out + Stripped(lines[i..], skipping) == Stripped(lines, false)
    {
      assert lines[i..][1..] == lines[i + 1..];
      if WebhookHeader(lines[i]) {
        skipping := true;
        continue;
      }
      if skipping {
        if AnyTable(lines[i]) {
          skipping := false;
        } else {
          continue;
        }
      }
      ghost var rest := Stripped(lines[i + 1..], false);
      assert (out + [lines[i]]) + rest == out + ([lines[i]] + rest);
      out := out + [lines[i]];
    }
  }

  function StripText(text: string): string {
    Join(Stripped(SplitLines(text), false))
  }

  // ----- what the patterns take -----

  predicate Blanks(s: string) {
    forall i :: 0 <= i < |s| ==> Space(s[i])
  }

  lemma {:induction false} TrimmedLeft(s: string)
    ensures exists front :: Blanks(front) && s == front + TrimLeft(s)
  {
    if s != [] && Space(s[0]) {
      TrimmedLeft(s[1..]);
      var front :| Blanks(front) && s[1..] == front + TrimLeft(s[1..]);
      assert Blanks([s[0]] + front) && s == ([s[0]] + front) + TrimLeft(s);
    } else {
      assert Blanks([]) && s == [] + TrimLeft(s);
    }
  }

  lemma {:induction false} BlanksGo(front: string, rest: string)
    requires Blanks(front)
    ensures TrimLeft(front + rest) == TrimLeft(rest)
  {
    if front == [] {
      assert front + rest == rest;
    } else {
      assert (front + rest)[1..] == front[1..] + rest;
      BlanksGo(front[1..], rest);
    }
  }

  lemma TextStays(rest: string)
    requires rest != [] && !Space(rest[0])
    ensures TrimLeft(rest) == rest
  {
  }

  /** A line opens a table exactly when a bracket is the first in it but for white space. */
  lemma AnyTableIff(line: string)
    ensures AnyTable(line) <==> exists front, rest :: Blanks(front) && line == front + "[" + rest
  {
    assert !Space('[');
    hide Space, Blanks, TrimLeft;
    TrimmedLeft(line);
    if AnyTable(line) {
      var front :| Blanks(front) && line == front + TrimLeft(line);
      var rest := TrimLeft(line)[1..];
      assert TrimLeft(line) == "[" + rest;
      assert line == front + "[" + rest;
    }
    forall front, rest | Blanks(front) && line == front + "[" + rest ensures AnyTable(line) {
      assert line == front + ("[" + rest);
      BlanksGo(front, "[" + rest);
      TextStays("[" + rest);
    }
  }

  /** A line is the header of the webhook table exactly when it is its name in brackets, with
      nothing but white space around either. */
  lemma WebhookHeaderIff(line: string)
    ensures WebhookHeader(line) <==>
              exists a, b, c, d :: Blanks(a) && Blanks(b) && Blanks(c) && Blanks(d)
                                   && line == a + "[" + b + "post-installation-webhook" + c + "]" + d
  {
    hide TrimLeft, Space, Blanks;
    if WebhookHeader(line) {
      var s := TrimLeft(line);
      var t := TrimLeft(s[1..]);
      var v := t[|WEBHOOK|..];
      var u := TrimLeft(v);
      TrimmedLeft(line);
      TrimmedLeft(s[1..]);
      TrimmedLeft(v);
      TrimmedLeft(u[1..]);
      var a :| Blanks(a) && line == a + s;
      var b :| Blanks(b) && s[1..] == b + t;
      var c :| Blanks(c) && v == c + u;
      var d :| Blanks(d) && u[1..] == d + [];
      HeaderParts(line, a, b, c, d, s, t, v, u);
    }
    forall a, b, c, d | Blanks(a) && Blanks(b) && Blanks(c) && Blanks(d)
                        && line == a + "[" + b + "post-installation-webhook" + c + "]" + d
      ensures WebhookHeader(line)
    {
      PartsAreHeader(line, a, b, c, d);
    }
  }

  lemma HeaderParts(line: string, a: string, b: string, c: string, d: string, s: string, t: string, v: string, u: string)
    requires line == a + s && s != [] && s[0] == '[' && s[1..] == b + t
    requires WEBHOOK <= t && v == t[|WEBHOOK|..] && v == c + u && u != [] && u[0] == ']' && u[1..] == d
    ensures line == a + "[" + b + "post-installation-webhook" + c + "]" + d
  {
    assert u == "]" + d && t == WEBHOOK + v && s == "[" + s[1..];
    assert s == "[" + (b + (WEBHOOK + (c + ("]" + d))));
  }

  lemma PartsAreHeader(line: string, a: string, b: string, c: string, d: string)
    requires Blanks(a) && Blanks(b) && Blanks(c) && Blanks(d)
    requires line == a + "[" + b + "post-installation-webhook" + c + "]" + d
    ensures WebhookHeader(line)
  {
    hide TrimLeft;
    var u := "]" + d;
    var v := c + u;
    var t := WEBHOOK + v;
    var s := "[" + (b + t);
    assert line == a + s;
    BlanksGo(a, s);
    TextStays(s);
    assert s[1..] == b + t;
    BlanksGo(b, t);
    assert t[0] == 'p' && !Space('p');
    TextStays(t);
    assert t[|WEBHOOK|..] == v;
    BlanksGo(c, u);
    TextStays(u);
    assert u[1..] == d + [];
    BlanksGo(d, []);
    NothingTrimmed();
  }

  lemma NothingTrimmed()
    ensures TrimLeft([]) == []
  {
  }

  // ----- which lines stay -----

  /** Line i belongs to the webhook table: its header, or below it with no other table between. */
  predicate InSection(lines: seq<string>, i: nat)
    requires i < |lines|
  {
    exists h :: 0 <= h <= i && WebhookHeader(lines[h])
                && forall j :: h < j <= i ==> WebhookHeader(lines[j]) || !AnyTable(lines[j])
  }

  /** The lines from the n-th on that do not. */
  function Outside(lines: seq<string>, n: nat): seq<string>
    requires n <= |lines|
    decreases |lines| - n
  {
    if n == |lines| then []
    else (if InSection(lines, n) then [] else [lines[n]]) + Outside(lines, n + 1)
  }

  /** Stripping keeps every line outside the table and none inside it, in their order. */
  lemma StripKeepsTheRest(lines: seq<string>)
    ensures Stripped(lines, false) == Outside(lines, 0)
  {
    assert lines[0..] == lines;
    StripIsOutside(lines, 0, false);
  }

  lemma SectionStep(lines: seq<string>, n: nat)
    requires n < |lines|
    ensures InSection(lines, n) <==>
            WebhookHeader(lines[n]) || (n > 0 && InSection(lines, n - 1) && !AnyTable(lines[n]))
  {
    hide WebhookHeader, AnyTable;
    if n > 0 && InSection(lines, n - 1) && !AnyTable(lines[n]) {
      var h :| 0 <= h <= n - 1 && WebhookHeader(lines[h])
               && forall j :: h < j <= n - 1 ==> WebhookHeader(lines[j]) || !AnyTable(lines[j]);
      assert forall j :: h < j <= n ==> WebhookHeader(lines[j]) || !AnyTable(lines[j]);
    }
  }

  lemma {:induction false} StripIsOutside(lines: seq<string>, n: nat, skipping: bool)
    requires n <= |lines| && (skipping <==> n > 0 && InSection(lines, n - 1))
    ensures Stripped(lines[n..], skipping) == Outside(lines, n)
    decreases |lines| - n
  {
    hide WebhookHeader, AnyTable, InSection;
    if n < |lines| {
      assert lines[n..][1..] == lines[n + 1..];
      SectionStep(lines, n);
      StripIsOutside(lines, n + 1, InSection(lines, n));
    }
  }

  lemma {:induction false} NoHeaderLeft(lines: seq<string>, skipping: bool)
    ensures forall i :: 0 <= i < |Stripped(lines, skipping)| ==> !WebhookHeader(Stripped(lines, skipping)[i])
    ensures forall i :: 0 <= i < |Stripped(lines, skipping)| ==> Stripped(lines, skipping)[i] in lines
  {
    hide WebhookHeader, AnyTable;
    if lines != [] {
      NoHeaderLeft(lines[1..], true);
      NoHeaderLeft(lines[1..], false);
    }
  }

  lemma {:induction false} NothingToStrip(lines: seq<string>)
    requires forall i :: 0 <= i < |lines| ==> !WebhookHeader(lines[i])
    ensures Stripped(lines, false) == lines
  {
    if lines != [] {
      NothingToStrip(lines[1..]);
      assert [lines[0]] + lines[1..] == lines;
    }
  }

  /** Stripping lines a second time changes nothing. */
  lemma StripTwice(lines: seq<string>)
    ensures Stripped(Stripped(lines, false), false) == Stripped(lines, false)
  {
    NoHeaderLeft(lines, false);
    NothingToStrip(Stripped(lines, false));
  }
}
