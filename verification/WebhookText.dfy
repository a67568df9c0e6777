/** Stripping and rendering whole texts: where the cuts into lines agree with TOML's, what a
    second strip does, and what a rendered answer file says. */
module WebhookText {
  import opened Wrappers
  import opened Toml
  import opened TomlRoundTrip
  import opened Webhook
  import opened WebhookReads

  /** Every line of the text ends as TOML lines do, with LF or CRLF. */
  predicate PlainBreaks(text: string)
    decreases |text|
  {
    text == []
    || (if |text| >= 2 && text[0] == '\r' && text[1] == '\n' then PlainBreaks(text[2..])
        else (Boundary(text[0]) ==> text[0] == '\n') && PlainBreaks(text[1..]))
  }

  predicate NoBoundary(line: string) {
    forall i :: 0 <= i < |line| ==> !Boundary(line[i])
  }

  predicate WholeLines(lines: seq<string>) {
    forall i :: 0 <= i < |lines| ==> NoBoundary(lines[i])
  }

  lemma {:induction false} LinesAgree(text: string)
    requires PlainBreaks(text)
    ensures LinesOf(Newlines(text)) == SplitLines(text) || LinesOf(Newlines(text)) == SplitLines(text) + [[]]
    decreases |text|
  {
    if text != [] {
      if |text| >= 2 && text[0] == '\r' && text[1] == '\n' {
        LinesAgree(text[2..]);
        LinesAfterBreak(Newlines(text[2..]), '\n');
        OneMoreEmpty([], SplitLines(text[2..]));
        hide LinesOf;
      } else {
        LinesAgree(text[1..]);
        LinesAfterBreak(Newlines(text[1..]), text[0]);
        OneMoreEmpty([text[0]], SplitLines(text[1..]));
        hide LinesOf;
      }
    }
  }

  lemma LinesAfterBreak(text: string, c: char)
    ensures LinesOf([c] + text) == if c == '\n' then [[]] + LinesOf(text) else [[c] + LinesOf(text)[0]] + LinesOf(text)[1..]
  {
    assert ([c] + text)[1..] == text;
  }

  /** An empty line at the end stays at the end, whatever goes in front. */
  lemma OneMoreEmpty(front: string, rest: seq<string>)
    ensures [[]] + (rest + [[]]) == ([[]] + rest) + [[]]
    ensures rest != [] ==> (rest + [[]])[0] == rest[0] && (rest + [[]])[1..] == rest[1..] + [[]]
    ensures rest != [] ==> [front + rest[0]] + (rest[1..] + [[]]) == ([front + rest[0]] + rest[1..]) + [[]]
    ensures rest == [] ==> (rest + [[]])[0] == [] && (rest + [[]])[1..] == [] && [front + []] + [] == [front]
  {
    assert front + [] == front;
  }

  lemma {:induction false} SplitsWhole(text: string)
    ensures WholeLines(SplitLines(text))
    decreases |text|
  {
    if text != [] {
      if |text| >= 2 && text[0] == '\r' && text[1] == '\n' {
        SplitsWhole(text[2..]);
      } else {
        SplitsWhole(text[1..]);
      }
    }
  }

  lemma BlankEnd<V>(lines: seq<string>, read: Reader<V>)
    ensures ReadLines(lines + [[]], read) == ReadLines(lines, read)
  {
    EmptyLineReads(read);
    ItemsOfOne("", Nothing, read);
    ItemsSplit(lines, [[]], read);
    if ItemsOf(lines, read).Some? {
      var items := ItemsOf(lines, read).value;
      ItemsAppend(lines, [[]], read);
      ReadsAppend(Start(), items, [Nothing]);
      if ReadItems(Start(), items).Some? {
        OneItem(ReadItems(Start(), items).value, Nothing);
      }
    }
  }

  lemma {:induction false} ItemsSplit<V>(a: seq<string>, b: seq<string>, read: Reader<V>)
    ensures ItemsOf(a + b, read).Some? ==> ItemsOf(a, read).Some? && ItemsOf(b, read).Some?
  {
    if a == [] {
      assert a + b == b;
    } else {
      assert (a + b)[1..] == a[1..] + b;
      ItemsSplit(a[1..], b, read);
    }
  }

  /** What TOML reads in a text is what its str.splitlines lines say. */
  lemma ReadsByLine<V>(text: string, read: Reader<V>)
    requires PlainBreaks(text)
    ensures ReadText(text, read) == ReadLines(SplitLines(text), read)
  {
    LinesAgree(text);
    BlankEnd(SplitLines(text), read);
  }

  lemma JoinedReads<V>(lines: seq<string>, read: Reader<V>)
    requires OneLiners(lines)
    ensures ReadText(Join(lines), read) == ReadLines(lines, read)
  {
    JoinHasNoReturns(lines);
    NoReturns(Join(lines));
    JoinedLinesSplit(lines);
    if lines == [] {
      BlankEnd([], read);
      assert lines + [[]] == [[]];
    }
  }

  lemma {:induction false} StripKeepsWhole(lines: seq<string>, skipping: bool)
    requires WholeLines(lines)
    ensures WholeLines(Stripped(lines, skipping))
  {
    hide WebhookHeader, AnyTable, NoBoundary;
    NoHeaderLeft(lines, skipping);
  }

  /** The stripped text reads as the original minus the webhook table, for a text whose lines
      end with LF or CRLF. */
  lemma StrippedTextReads<V>(text: string, read: Reader<V>)
    requires PlainBreaks(text)
    requires ReadText(text, read).Some?
    requires ItemsOf(SplitLines(text), read).Some? ==> NoSubTables(ItemsOf(SplitLines(text), read).value)
    requires ReplaceableWebhook(SplitLines(text), ReadText(text, read).value)
    ensures ReadText(StripText(text), read) == Some(Minus(ReadText(text, read).value))
  {
    hide ReplaceableWebhook, Minus, NoSubTables, SplitLines;
    ReadsByLine(text, read);
    StripRemovesTheTable(SplitLines(text), read);
    SplitsWhole(text);
    StripKeepsWhole(SplitLines(text), false);
    assert OneLiners(Stripped(SplitLines(text), false));
    JoinedReads(Stripped(SplitLines(text), false), read);
  }

  // ----- stripping a text twice -----

  lemma {:induction false} SplitLine(line: string)
    requires NoBoundary(line)
    ensures SplitLines(line) == if line == [] then [] else [line]
  {
    if line != [] {
      assert !Boundary(line[0]);
      SplitLine(line[1..]);
      var rest := SplitLines(line[1..]);
      if rest == [] {
        assert line == [line[0]];
      } else {
        assert rest[1..] == [] && rest[0] == line[1..];
        assert [line[0]] + line[1..] == line;
        assert [line] + [] == [line];
      }
    }
  }

  lemma {:induction false} SplitFirst(line: string, c: char, text: string)
    requires NoBoundary(line) && Boundary(c) && c != '\r'
    ensures SplitLines(line + [c] + text) == [line] + SplitLines(text)
  {
    var all := line + [c] + text;
    if line == [] {
      assert all == [c] + text && all[1..] == text;
    } else {
      assert !Boundary(line[0]);
      assert all[0] == line[0] && all[1..] == line[1..] + [c] + text;
      SplitFirst(line[1..], c, text);
      assert [line[0]] + line[1..] == line;
    }
  }

  /** Joined lines split again into themselves, but for an empty line at the end. */
  lemma {:induction false} SplitJoined(lines: seq<string>)
    requires WholeLines(lines)
    ensures SplitLines(Join(lines)) ==
            if lines != [] && lines[|lines| - 1] == [] then lines[..|lines| - 1] else lines
  {
    if |lines| == 1 {
      SplitLine(lines[0]);
    } else if |lines| > 1 {
      SplitFirst(lines[0], '\n', Join(lines[1..]));
      assert lines[0] + "\n" + Join(lines[1..]) == lines[0] + ['\n'] + Join(lines[1..]);
      SplitJoined(lines[1..]);
      assert lines[1..][|lines| - 2] == lines[|lines| - 1];
      assert [lines[0]] + lines[1..] == lines;
      assert [lines[0]] + lines[1..][..|lines| - 2] == lines[..|lines| - 1];
    }
  }

  lemma {:induction false} JoinShorter(lines: seq<string>)
    requires |lines| > 1
    ensures |Join(lines[..|lines| - 1])| < |Join(lines)|
  {
    var n := |lines| - 1;
    if n == 1 {
      assert lines[..1] == [lines[0]];
    } else {
      assert lines[1..][..n - 1] == lines[..n][1..];
      JoinShorter(lines[1..]);
    }
  }

  /** Stripping a text twice is stripping it once exactly when its last line outside the webhook
      table is not an empty one behind others: str.splitlines takes that line away each time. */
  lemma StripTextTwice(text: string)
    ensures var rest := Outside(SplitLines(text), 0);
            StripText(StripText(text)) == StripText(text) <==> |rest| <= 1 || rest[|rest| - 1] != []
  {
    hide SplitLines, WebhookHeader, AnyTable, Outside;
    StripKeepsTheRest(SplitLines(text));
    var out := Stripped(SplitLines(text), false);
    SplitsWhole(text);
    StripKeepsWhole(SplitLines(text), false);
    SplitJoined(out);
    NoHeaderLeft(SplitLines(text), false);
    var again := SplitLines(Join(out));
    assert forall i :: 0 <= i < |again| ==> again[i] == out[i];
    NothingToStrip(again);
    if |out| > 1 && out[|out| - 1] == [] {
      JoinShorter(out);
    }
  }
}
