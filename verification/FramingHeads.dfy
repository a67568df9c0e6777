/**
 Which heads are taken for the head of a call, said of their text; what becomes of each; and which
 calls a connection goes on after.
 */
module FramingHeads {
  import opened Wrappers
  import opened PythonText
  import opened Framing

  // ----- cutting text and putting it together -----

  function Joined(parts: seq<Bytes>, sep: Bytes): Bytes
    requires parts != []
  {
    if |parts| == 1 then parts[0] else parts[0] + sep + Joined(parts[1..], sep)
  }

  lemma {:induction false} FindIs(s: Bytes, sep: Bytes)
    requires sep != []
    ensures Find(s, sep).Some? ==> s[Find(s, sep).value..Find(s, sep).value + |sep|] == sep
  {
    if |s| >= |sep| && s[..|sep|] != sep {
      FindIs(s[1..], sep);
      if Find(s[1..], sep).Some? {
        var i := Find(s[1..], sep).value;
        assert s[1..][i..i + |sep|] == s[i + 1..i + 1 + |sep|];
      }
    }
  }

  lemma {:induction false} SplitJoins(s: Bytes, sep: Bytes)
    requires sep != []
    ensures Joined(Split(s, sep), sep) == s
    decreases |s|
  {
    match Find(s, sep) {
      case None =>
      case Some(i) =>
        FindIs(s, sep);
        var rest := s[i + |sep|..];
        SplitJoins(rest, sep);
        assert s == s[..i] + s[i..i + |sep|] + rest;
        assert ([s[..i]] + Split(rest, sep))[1..] == Split(rest, sep);
    }
  }

  /** The first occurrence of a separator that begins with c, behind text without c. */
  lemma {:induction false} FindBehind(part: Bytes, sep: Bytes, rest: Bytes)
    requires sep != [] && sep[0] !in part
    ensures Find(part + sep + rest, sep) == Some(|part|)
    ensures Find(part, sep) == None
  {
    var s := part + sep + rest;
    if part == [] {
      assert s[..|sep|] == sep;
    } else {
      assert s[0] == part[0] && s[..|sep|][0] == part[0];
      assert part != [] && |part| >= |sep| ==> part[..|sep|][0] == part[0];
      assert s[1..] == part[1..] + sep + rest;
      FindBehind(part[1..], sep, rest);
    }
  }

  lemma {:induction false} JoinSplits(parts: seq<Bytes>, sep: Bytes)
    requires parts != [] && sep != [] && forall i :: 0 <= i < |parts| ==> sep[0] !in parts[i]
    ensures Split(Joined(parts, sep), sep) == parts
  {
    if |parts| == 1 {
      FindBehind(parts[0], sep, []);
    } else {
      var rest := Joined(parts[1..], sep);
      var s := Joined(parts, sep);
      FindBehind(parts[0], sep, rest);
      assert s == parts[0] + sep + rest;
      assert s[..|parts[0]|] == parts[0] && s[|parts[0]| + |sep|..] == rest;
      JoinSplits(parts[1..], sep);
      assert [parts[0]] + parts[1..] == parts;
    }
  }

  // ----- header lines -----

  /** A header line: its name, a colon, its value; one line, not folded. */
  predicate Header(line: Bytes, name: Bytes, value: Bytes) {
    && line == name + ":" + value && ':' !in name
    && line[0] != ' ' && line[0] != '\t' && '\r' !in line && '\n' !in line
    && Trimmed(name) != []
  }

  function Trimmed(s: Bytes): Bytes {
    TrimRight(TrimLeft(s))
  }

  lemma HeaderNames(line: Bytes, name: Bytes, value: Bytes)
    requires line == name + ":" + value && ':' !in name
    ensures Find(line, ":") == Some(|name|) && line[..|name|] == name && line[|name| + 1..] == value
  {
    FindBehind(name, ":", value);
  }

  /** The names and values of header lines. */
  ghost predicate Headers(lines: seq<Bytes>, names: seq<Bytes>, values: seq<Bytes>) {
    && |lines| == |names| == |values|
    && (forall i :: 0 <= i < |lines| ==> Header(lines[i], names[i], values[i]))
    && (forall i, j :: 0 <= i < j < |lines| ==> Lower(Trimmed(names[i])) != Lower(Trimmed(names[j])))
  }

  /** The names and values read off lines that are taken. */
  lemma {:induction false} FieldsHaveHeaders(lines: seq<Bytes>, fields: map<Bytes, Bytes>) returns (names: seq<Bytes>, values: seq<Bytes>)
    requires Fields(lines, fields).Some?
    ensures Headers(lines, names, values)
    ensures forall i :: 0 <= i < |lines| ==> Lower(Trimmed(names[i])) !in fields
  {
    hide Lower, TrimLeft, TrimRight;
    if lines == [] {
      names, values := [], [];
    } else {
      var line := lines[0];
      var i := Find(line, ":").value;
      FindIs(line, ":");
      var name, value := line[..i], line[i + 1..];
      assert line == name + ":" + value;
      ColonFirst(line);
      LowerLength(Trimmed(name));
      var key := Lower(Trimmed(name));
      var more, given := FieldsHaveHeaders(lines[1..], fields[key := Trimmed(value)]);
      names, values := [name] + more, [value] + given;
      HeadersMore(line, lines[1..], name, value, more, given);
      assert [line] + lines[1..] == lines;
    }
  }

  lemma {:induction false} ColonFirst(line: Bytes)
    requires Find(line, ":").Some?
    ensures ':' !in line[..Find(line, ":").value]
  {
    if line[..1] != ":" {
      ColonFirst(line[1..]);
      var i := Find(line[1..], ":").value;
      assert line[..i + 1] == [line[0]] + line[1..][..i];
      assert line[0] == line[..1][0];
    }
  }

  lemma LowerLength(s: Bytes)
    ensures |Lower(s)| == |s|
  {
  }

  lemma HeadersMore(line: Bytes, lines: seq<Bytes>, name: Bytes, value: Bytes, names: seq<Bytes>, values: seq<Bytes>)
    requires Header(line, name, value) && Headers(lines, names, values)
    requires forall i :: 0 <= i < |names| ==> Lower(Trimmed(names[i])) != Lower(Trimmed(name))
    ensures Headers([line] + lines, [name] + names, [value] + values)
  {
    hide Lower, Trimmed, Header;
  }

  lemma LineTaken(line: Bytes, name: Bytes, value: Bytes, rest: seq<Bytes>, fields: map<Bytes, Bytes>)
    requires Header(line, name, value) && Lower(Trimmed(name)) !in fields
    ensures NameOf(line) == Lower(Trimmed(name)) && ValueOf(line) == Trimmed(value)
    ensures Fields([line] + rest, fields) == Fields(rest, fields[NameOf(line) := ValueOf(line)])
  {
    HeaderNames(line, name, value);
    LowerLength(Trimmed(name));
    assert ([line] + rest)[1..] == rest;
    hide Lower, TrimLeft, TrimRight, Find;
  }

  /** Lines of that kind are taken. */
  lemma {:induction false} HeadersAreTaken(lines: seq<Bytes>, names: seq<Bytes>, values: seq<Bytes>, fields: map<Bytes, Bytes>)
    requires Headers(lines, names, values) && forall i :: 0 <= i < |lines| ==> Lower(Trimmed(names[i])) !in fields
    ensures Fields(lines, fields).Some?
    ensures forall i :: 0 <= i < |lines| ==> NameOf(lines[i]) == Lower(Trimmed(names[i])) && ValueOf(lines[i]) == Trimmed(values[i])
  {
    hide Lower, Trimmed, Header, Fields, NameOf, ValueOf;
    if lines == [] {
      NoFields(fields);
    } else {
      LineTaken(lines[0], names[0], values[0], lines[1..], fields);
      assert [lines[0]] + lines[1..] == lines;
      assert forall i :: 0 <= i < |lines[1..]| ==> lines[1..][i] == lines[i + 1] && names[1..][i] == names[i + 1] && values[1..][i] == values[i + 1];
      HeadersAreTaken(lines[1..], names[1..], values[1..], fields[NameOf(lines[0]) := ValueOf(lines[0])]);
      forall i | 0 < i < |lines|
        ensures NameOf(lines[i]) == Lower(Trimmed(names[i])) && ValueOf(lines[i]) == Trimmed(values[i])
      {
        assert lines[1..][i - 1] == lines[i] && names[1..][i - 1] == names[i] && values[1..][i - 1] == values[i];
      }
    }
  }

  lemma NoFields(fields: map<Bytes, Bytes>)
    ensures Fields([], fields) == Some(fields)
  {
  }

  // ----- the head of a call -----

  /** Three to seven capital letters. */
  predicate Method(s: Bytes) {
    3 <= |s| <= 7 && forall i :: 0 <= i < |s| ==> 'A' <= s[i] <= 'Z'
  }

  /** A path: a slash, and visible characters. */
  predicate Path(s: Bytes) {
    s != [] && s[0] == '/' && forall i :: 0 <= i < |s| ==> '!' <= s[i] <= '~'
  }

  /** head is a request line of those three and these header lines. */
  ghost predicate HeadOf(head: Bytes, verb: Bytes, target: Bytes, version: Bytes, lines: seq<Bytes>) {
    && Method(verb) && Path(target) && (version == "HTTP/1.1" || version == "HTTP/1.0")
    && head == Joined([verb + " " + target + " " + version] + lines, "\r\n")
  }

  lemma RequestSplits(verb: Bytes, target: Bytes, version: Bytes)
    requires Method(verb) && Path(target) && (version == "HTTP/1.1" || version == "HTTP/1.0")
    ensures Split(verb + " " + target + " " + version, " ") == [verb, target, version]
    ensures '\r' !in verb + " " + target + " " + version
  {
    var parts := [verb, target, version];
    assert parts[1..] == [target, version] && parts[1..][1..] == [version];
    assert Joined(parts[1..], " ") == target + " " + version;
    assert Joined(parts, " ") == verb + " " + target + " " + version;
    assert ' ' !in version && '\r' !in version;
    JoinSplits(parts, " ");
  }

  /** A head that is composed so is taken, with its three parts, and each header line as a field. */
  lemma HeadIsTaken(head: Bytes, verb: Bytes, target: Bytes, version: Bytes, lines: seq<Bytes>, names: seq<Bytes>, values: seq<Bytes>)
    requires HeadOf(head, verb, target, version, lines) && Headers(lines, names, values)
    ensures ParseHead(head).Some?
    ensures var call := ParseHead(head).value;
            && call.verb == verb && call.target == target && call.version == version && |call.fields| == |lines|
            && forall i :: 0 <= i < |lines| ==>
                 Lower(Trimmed(names[i])) in call.fields && call.fields[Lower(Trimmed(names[i]))] == Trimmed(values[i])
  {
    hide ParseHead, Fields, NameOf, ValueOf, Lower, Trimmed, Header, Split, Joined, Method, Path;
    var request := verb + " " + target + " " + version;
    RequestSplits(verb, target, version);
    NoReturns(request, lines, names, values);
    JoinSplits([request] + lines, "\r\n");
    HeadersAreTaken(lines, names, values, map[]);
    EachLineIsAField(lines, map[]);
    ParsedFrom(head, request, verb, target, version, lines);
    EachValue(lines, names, values, Fields(lines, map[]).value);
  }

  lemma NoReturns(request: Bytes, lines: seq<Bytes>, names: seq<Bytes>, values: seq<Bytes>)
    requires '\r' !in request && Headers(lines, names, values)
    ensures forall i :: 0 <= i < |[request] + lines| ==> '\r' !in ([request] + lines)[i]
  {
    hide Lower, Trimmed;
    forall i | 0 <= i < |[request] + lines| ensures '\r' !in ([request] + lines)[i] {
      if i > 0 {
        assert Header(lines[i - 1], names[i - 1], values[i - 1]);
      }
    }
  }

  lemma ParsedFrom(head: Bytes, request: Bytes, verb: Bytes, target: Bytes, version: Bytes, lines: seq<Bytes>)
    requires Split(head, "\r\n") == [request] + lines && Split(request, " ") == [verb, target, version]
    requires Method(verb) && Path(target) && (version == "HTTP/1.1" || version == "HTTP/1.0") && Fields(lines, map[]).Some?
    ensures ParseHead(head) == Some(Call(verb, target, version, Fields(lines, map[]).value))
  {
    hide Fields, Split;
    assert ([request] + lines)[1..] == lines;
  }

  lemma EachValue(lines: seq<Bytes>, names: seq<Bytes>, values: seq<Bytes>, fields: map<Bytes, Bytes>)
    requires |lines| == |names| == |values|
    requires forall i :: 0 <= i < |lines| ==> NameOf(lines[i]) == Lower(Trimmed(names[i])) && ValueOf(lines[i]) == Trimmed(values[i])
    requires forall i :: 0 <= i < |lines| ==> NameOf(lines[i]) in fields && fields[NameOf(lines[i])] == ValueOf(lines[i])
    ensures forall i :: 0 <= i < |lines| ==>
              Lower(Trimmed(names[i])) in fields && fields[Lower(Trimmed(names[i]))] == Trimmed(values[i])
  {
    hide NameOf, ValueOf, Lower, Trimmed;
  }

  /** And every head that is taken is composed so. */
  lemma TakenHeadIs(head: Bytes) returns (lines: seq<Bytes>, names: seq<Bytes>, values: seq<Bytes>)
    requires ParseHead(head).Some?
    ensures var call := ParseHead(head).value;
            HeadOf(head, call.verb, call.target, call.version, lines) && Headers(lines, names, values)
  {
    hide Fields, Lower, Trimmed, Header, Split, Joined;
    var all := Split(head, "\r\n");
    var parts := Split(all[0], " ");
    lines := all[1..];
    names, values := FieldsHaveHeaders(lines, map[]);
    SplitJoins(head, "\r\n");
    SplitJoins(all[0], " ");
    ThreeJoined(parts);
    assert [all[0]] + lines == all;
  }

  lemma ThreeJoined(parts: seq<Bytes>)
    requires |parts| == 3
    ensures Joined(parts, " ") == parts[0] + " " + parts[1] + " " + parts[2]
  {
    assert parts[1..][1..] == [parts[2]];
    assert Joined(parts[1..], " ") == parts[1] + " " + parts[2];
  }

  /** The head of a call is taken exactly when it is a request line with a method, a path and a
      version, and header lines with no name twice. */
  lemma HeadIsTakenIff(head: Bytes)
    ensures ParseHead(head).Some? <==>
              exists verb, target, version, lines, names, values ::
                HeadOf(head, verb, target, version, lines) && Headers(lines, names, values)
  {
    hide ParseHead, HeadOf, Headers;
    if ParseHead(head).Some? {
      var lines, names, values := TakenHeadIs(head);
    }
    forall verb, target, version, lines, names, values | HeadOf(head, verb, target, version, lines) && Headers(lines, names, values)
      ensures ParseHead(head).Some?
    {
      HeadIsTaken(head, verb, target, version, lines, names, values);
    }
  }

  // ----- what becomes of a call -----

  /** The length a call names: 0 where it names none. */
  function Named(call: Call): Bytes {
    if "content-length" in call.fields then call.fields["content-length"] else "0"
  }

  /** Nothing about the call but its length is in the way. */
  predicate Plain(call: Call) {
    && "transfer-encoding" !in call.fields && '?' !in call.target
    && 1 <= |Named(call)| <= 9
  }

  /** The body of a call is read exactly for a head that is taken, without a query and a
      transfer-encoding, that names a length in up to nine digits, of up to 65536; a larger one is
      turned away with 413; what str.isdigit takes and int() does not drops the connection; and
      every other head is turned away with 400. */
  lemma FramedIff(head: Bytes)
    ensures var f, call := Frame(head), ParseHead(head);
            && (f.Sized? <==> call.Some? && Plain(call.value) && Digits(Named(call.value)) && Decimal(Named(call.value)) <= 65536)
            && (f.Sized? ==> f.call == call.value && f.length == Decimal(Named(call.value)))
            && (f == TurnedAway(413) <==> call.Some? && Plain(call.value) && Digits(Named(call.value)) && Decimal(Named(call.value)) > 65536)
            && (f.Dropped? <==> call.Some? && Plain(call.value) && !Digits(Named(call.value))
                                && DigitsLike(Named(call.value)))
            && (f.TurnedAway? ==> f.status in {400, 413})
  {
    hide ParseHead, Decimal, Digits, DigitsLike, Frame;
    FrameIs(head);
    if ParseHead(head).Some? {
      DigitsAreLike(Named(ParseHead(head).value));
    }
  }

  lemma FrameIs(head: Bytes)
    ensures Frame(head) ==
            if ParseHead(head).None? then TurnedAway(400)
            else
              var call := ParseHead(head).value;
              if !Plain(call) || !DigitsLike(Named(call)) then TurnedAway(400)
              else if !Digits(Named(call)) then Dropped
              else if Decimal(Named(call)) > 65536 then TurnedAway(413)
              else Sized(Decimal(Named(call)), call)
  {
    hide ParseHead, Decimal, Digits, DigitsLike;
    if ParseHead(head).Some? {
      var length := Named(ParseHead(head).value);
      assert |length| == 0 ==> length == [];
    }
  }

  lemma DigitsAreLike(s: Bytes)
    ensures Digits(s) ==> DigitsLike(s)
  {
  }

  // ----- which calls a connection goes on after -----

  /** The connection goes on after this call: it was answered with 200, speaks HTTP/1.1 and does not
      ask for the connection to be closed. */
  predicate GoesOn(app: App, before: seq<Taken>, t: Taken) {
    && app.accepts(before, t.head, t.body)
    && ParseHead(t.head).Some?
    && var call := ParseHead(t.head).value;
       && call.version == "HTTP/1.1"
       && ("connection" in call.fields ==> Lower(call.fields["connection"]) != "close")
  }

  /** A call that is taken: its head is of the kind whose body is read, the body has the length it
      names, and it was let in. */
  predicate RightlyTaken(app: App, before: seq<Taken>, t: Taken) {
    && Frame(t.head).Sized? && |t.body| == Frame(t.head).length && app.admits(before, t.head) && |t.head| <= HEAD_MAX
  }

  /** The calls of a connection from the n-th on: all but the last go on, and the last does unless
      the connection ended with it. */
  predicate CallsAre(app: App, served: Served, n: nat) {
    && n <= |served.calls|
    && (forall i :: n <= i < |served.calls| ==> RightlyTaken(app, served.calls[..i], served.calls[i]))
    && (forall i :: n <= i < |served.calls| - 1 ==> GoesOn(app, served.calls[..i], served.calls[i]))
    && (served.ending == LastCall ==>
          n < |served.calls| && !GoesOn(app, served.calls[..|served.calls| - 1], served.calls[|served.calls| - 1]))
    && (served.ending != LastCall && n < |served.calls| ==>
          GoesOn(app, served.calls[..|served.calls| - 1], served.calls[|served.calls| - 1]))
  }

  lemma LowerOfNothing()
    ensures Lower("") != "close"
  {
    assert |Lower("")| == 0;
  }

  lemma KeepsIs(app: App, calls: seq<Taken>, t: Taken)
    requires Frame(t.head).Sized?
    ensures Keeps(app, calls, Frame(t.head).call, t) <==> GoesOn(app, calls, t)
  {
    hide ParseHead, Lower, Decimal, Plain;
    FramedIff(t.head);
    LowerOfNothing();
  }

  lemma {:induction false} StreamKeeps(app: App, calls: seq<Taken>, s: Bytes)
    ensures calls <= Stream(app, calls, s).calls && CallsAre(app, Stream(app, calls, s), |calls|)
    decreases |s|
  {
    hide Frame, Keeps, GoesOn, FindEnd, CallsAre, RightlyTaken;
    match FindEnd(s) {
      case None => NoCalls(app, Stream(app, calls, s), calls);
      case Some(i) =>
        var head, rest := s[..i], s[i + 4..];
        if i <= HEAD_MAX && Frame(head).Sized? && app.admits(calls, head) && |rest| >= Frame(head).length {
          var length := Frame(head).length;
          var t := Taken(head, rest[..length]);
          KeepsIs(app, calls, t);
          IsTaken(app, calls, t);
          if Keeps(app, calls, Frame(head).call, t) {
            StreamKeeps(app, calls + [t], rest[length..]);
            CallsMore(app, Stream(app, calls + [t], rest[length..]), calls, t);
          } else {
            LastOfThem(app, Stream(app, calls, s), calls, t);
          }
        } else {
          NoCalls(app, Stream(app, calls, s), calls);
        }
    }
  }

  lemma IsTaken(app: App, calls: seq<Taken>, t: Taken)
    requires Frame(t.head).Sized? && |t.body| == Frame(t.head).length && app.admits(calls, t.head) && |t.head| <= HEAD_MAX
    ensures RightlyTaken(app, calls, t)
  {
    hide Frame;
  }

  lemma NoCalls(app: App, served: Served, calls: seq<Taken>)
    requires served.calls == calls && served.ending != LastCall
    ensures calls <= served.calls && CallsAre(app, served, |calls|)
  {
  }

  lemma CallsMore(app: App, served: Served, calls: seq<Taken>, t: Taken)
    requires calls + [t] <= served.calls && CallsAre(app, served, |calls| + 1)
    requires RightlyTaken(app, calls, t) && GoesOn(app, calls, t)
    ensures calls <= served.calls && CallsAre(app, served, |calls|)
  {
    hide GoesOn, RightlyTaken;
    var all := served.calls;
    assert all[..|calls| + 1] == calls + [t];
    assert all[..|calls|] == all[..|calls| + 1][..|calls|] == calls && all[|calls|] == all[..|calls| + 1][|calls|] == t;
  }

  lemma LastOfThem(app: App, served: Served, calls: seq<Taken>, t: Taken)
    requires served.calls == calls + [t] && served.ending == LastCall
    requires RightlyTaken(app, calls, t) && !GoesOn(app, calls, t)
    ensures calls <= served.calls && CallsAre(app, served, |calls|)
  {
    hide GoesOn, RightlyTaken;
    assert (calls + [t])[..|calls|] == calls;
  }

  /** Of a whole connection: every call it took was let in and has the body its head names; it went
      on after each but the last; and it ended with the last exactly when it does not go on after
      that one. */
  lemma CallsGoOn(app: App, s: Bytes)
    ensures var served := Stream(app, [], s);
            && (forall i :: 0 <= i < |served.calls| ==> RightlyTaken(app, served.calls[..i], served.calls[i]))
            && (forall i :: 0 <= i < |served.calls| - 1 ==> GoesOn(app, served.calls[..i], served.calls[i]))
            && (served.calls != [] ==>
                  var n := |served.calls| - 1;
                  served.ending == LastCall <==> !GoesOn(app, served.calls[..n], served.calls[n]))
  {
    StreamKeeps(app, [], s);
  }
}
