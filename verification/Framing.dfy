/**
 How the witness server cuts calls out of the bytes of a connection (pegaprox/witness.py,
 _read_head, _read_body, _Server.connection).  A socket hands the stream over in chunks of
 any size; Stream is what a reader that saw all of it at once would take.
 */
module Framing {
  import opened Wrappers
  import opened PythonText

  /** Bytes, as latin-1 reads them. */
  type Bytes = string

  const END: Bytes := "\r\n\r\n"
  const HEAD_MAX: nat := 16384
  const HEAD_RECV: nat := 4096
  const BODY_RECV: nat := 65536

  // ----- the socket -----

  /** Chunks in the order they arrive; the peer closes after the last.  None is empty. */
  ghost predicate Arriving(chunks: seq<Bytes>) {
    forall i :: 0 <= i < |chunks| ==> chunks[i] != []
  }

  function Flat(chunks: seq<Bytes>): Bytes {
    if chunks == [] then [] else chunks[0] + Flat(chunks[1..])
  }

  datatype Got = Got(data: Bytes, chunks: seq<Bytes>)

  /** recv(n): what arrived next, at most n bytes of it; nothing once the peer closed. */
  function Recv(chunks: seq<Bytes>, n: nat): (r: Got)
    requires Arriving(chunks) && n > 0
    ensures Arriving(r.chunks)
    ensures r.data + Flat(r.chunks) == Flat(chunks)
    ensures |r.data| <= n && (r.data == [] <==> chunks == [])
    ensures |Flat(r.chunks)| == |Flat(chunks)| - |r.data|
  {
    if chunks == [] then Got([], [])
    else if |chunks[0]| <= n then Got(chunks[0], chunks[1..])
    else
      assert ([chunks[0][n..]] + chunks[1..])[1..] == chunks[1..];
      assert chunks[0] == chunks[0][..n] + chunks[0][n..];
      Got(chunks[0][..n], [chunks[0][n..]] + chunks[1..])
  }

  // ----- heads -----

  /** Where the first blank line begins. */
  function FindEnd(s: Bytes): (r: Option<nat>)
    ensures r.Some? ==> r.value + 4 <= |s| && s[r.value..r.value + 4] == END
  {
    if |s| < 4 then None
    else if s[..4] == END then Some(0)
    else match FindEnd(s[1..])
      case None => None
      case Some(i) => Some(i + 1)
  }

  datatype HeadRead =
    | Head(head: Bytes, rest: Bytes, chunks: seq<Bytes>)
    | Closed
    | Bad

  function ReadHead(buf: Bytes, chunks: seq<Bytes>): (r: HeadRead)
    requires Arriving(chunks)
    ensures r.Head? ==> Arriving(r.chunks)
    decreases |Flat(chunks)|
  {
    match FindEnd(buf)
    case Some(i) => if i > HEAD_MAX then Bad else Head(buf[..i], buf[i + 4..], chunks)
    case None =>
      if |buf| > HEAD_MAX then Bad
      else
        var got := Recv(chunks, HEAD_RECV);
        if got.data == [] then (if buf == [] then Closed else Bad)
        else ReadHead(buf + got.data, got.chunks)
  }

  // ----- bodies -----

  datatype BodyRead = Body(body: Bytes, rest: Bytes, chunks: seq<Bytes>) | Short

  function Min(a: nat, b: nat): nat {
    if a < b then a else b
  }

  function ReadBody(buf: Bytes, length: nat, chunks: seq<Bytes>): (r: BodyRead)
    requires Arriving(chunks)
    ensures r.Body? ==> Arriving(r.chunks)
    decreases |Flat(chunks)|
  {
    if |buf| >= length then Body(buf[..length], buf[length..], chunks)
    else
      var got := Recv(chunks, Min(BODY_RECV, length - |buf|));
      if got.data == [] then Short else ReadBody(buf + got.data, length, got.chunks)
  }

  // ----- the head of a call -----

  function LowerChar(c: char): char {
    if 'A' <= c <= 'Z' || ('\U{c0}' <= c <= '\U{de}' && c != '\U{d7}') then ((c as int) + 32) as char else c
  }

  function Lower(s: Bytes): Bytes {
    seq(|s|, i requires 0 <= i < |s| => LowerChar(s[i]))
  }

  /** s at each occurrence of the separator, from the left. */
  function Split(s: Bytes, sep: Bytes): (r: seq<Bytes>)
    requires sep != []
    ensures r != []
    decreases |s|
  {
    match Find(s, sep)
    case None => [s]
    case Some(i) => [s[..i]] + Split(s[i + |sep|..], sep)
  }

  function Find(s: Bytes, sep: Bytes): (r: Option<nat>)
    requires sep != []
    ensures r.Some? ==> r.value + |sep| <= |s|
  {
    if |s| < |sep| then None
    else if s[..|sep|] == sep then Some(0)
    else match Find(s[1..], sep)
      case None => None
      case Some(i) => Some(i + 1)
  }

  datatype Call = Call(verb: Bytes, target: Bytes, version: Bytes, fields: map<Bytes, Bytes>)

  predicate Visible(s: Bytes) {
    forall i :: 0 <= i < |s| ==> '!' <= s[i] <= '~'
  }

  predicate Verb(s: Bytes) {
    3 <= |s| <= 7 && forall i :: 0 <= i < |s| ==> 'A' <= s[i] <= 'Z'
  }

  /** The header lines from the i-th on; no folded line and no name twice. */
  function Fields(lines: seq<Bytes>, fields: map<Bytes, Bytes>): Option<map<Bytes, Bytes>>
    decreases |lines|
  {
    if lines == [] then Some(fields)
    else
      var line := lines[0];
      match Find(line, ":")
      case None => None
      case Some(i) =>
        var name := Lower(TrimRight(TrimLeft(line[..i])));
        if line[0] == ' ' || line[0] == '\t' || '\r' in line || '\n' in line || name == [] || name in fields then None
        else Fields(lines[1..], fields[name := TrimRight(TrimLeft(line[i + 1..]))])
  }

  function ParseHead(head: Bytes): Option<Call> {
    var lines := Split(head, "\r\n");
    var parts := Split(lines[0], " ");
    if |parts| != 3 || !Verb(parts[0]) || parts[1] == [] || parts[1][0] != '/' || !Visible(parts[1])
       || (parts[2] != "HTTP/1.1" && parts[2] != "HTTP/1.0") then None
    else match Fields(lines[1..], map[])
      case None => None
      case Some(fields) => Some(Call(parts[0], parts[1], parts[2], fields))
  }

  const MAX_BODY: nat := 65536

  /** What str.isdigit takes: the digits, and three that int() then refuses. */
  predicate DigitLike(c: char) {
    '0' <= c <= '9' || c == '\U{b2}' || c == '\U{b3}' || c == '\U{b9}'
  }

  predicate DigitsLike(s: Bytes) {
    forall i :: 0 <= i < |s| ==> DigitLike(s[i])
  }

  predicate Digits(s: Bytes) {
    forall i :: 0 <= i < |s| ==> '0' <= s[i] <= '9'
  }

  function Decimal(s: Bytes): nat
    requires Digits(s)
  {
    if s == [] then 0 else 10 * Decimal(s[..|s| - 1]) + (s[|s| - 1] as int - '0' as int)
  }

  /** What becomes of a call once its head was read: answered and closed, dropped without an
      answer, or its body of this length read if the precheck lets it. */
  datatype Framed = TurnedAway(status: int) | Dropped | Sized(length: nat, call: Call)

  function Frame(head: Bytes): Framed {
    match ParseHead(head)
    case None => TurnedAway(400)
    case Some(call) =>
      var length := if "content-length" in call.fields then call.fields["content-length"] else "0";
      if "transfer-encoding" in call.fields || length == [] || |length| > 9
         || !DigitsLike(length) then TurnedAway(400)
      else if '?' in call.target then TurnedAway(400)
      else if !Digits(length) then Dropped
      else if Decimal(length) > MAX_BODY then TurnedAway(413)
      else Sized(Decimal(length), call)
  }

  // ----- a connection -----

  /** The witness behind the server: whether the body of a call is read, and whether the call
      was answered with 200, both from all the calls before it. */
  datatype App = App(admits: (seq<Taken>, Bytes) -> bool, accepts: (seq<Taken>, Bytes, Bytes) -> bool)

  /** A call that was taken whole: its head and its body. */
  datatype Taken = Taken(head: Bytes, body: Bytes)

  datatype Ending = PeerClosed | Broken | Refused(status: int) | NotAdmitted | LastCall

  /** What came of a connection: the calls taken, how it ended, and what was left unread,
      from the head that ended it on. */
  datatype Served = Served(calls: seq<Taken>, ending: Ending, left: Bytes)

  predicate Keeps(app: App, calls: seq<Taken>, call: Call, t: Taken) {
    app.accepts(calls, t.head, t.body) && call.version == "HTTP/1.1"
    && Lower(if "connection" in call.fields then call.fields["connection"] else "") != "close"
  }

  /** connection(), from the chunks as they arrive. */
  function Serve(app: App, calls: seq<Taken>, buf: Bytes, chunks: seq<Bytes>): Served
    requires Arriving(chunks)
    decreases |buf| + |Flat(chunks)|
  {
    var all := buf + Flat(chunks);
    match ReadHead(buf, chunks)
    case Closed => Served(calls, PeerClosed, all)
    case Bad => Served(calls, Broken, all)
    case Head(head, rest, chunks1) =>
      HeadSplits(buf, chunks);
      match Frame(head)
      case TurnedAway(status) => Served(calls, Refused(status), all)
      case Dropped => Served(calls, Broken, all)
      case Sized(length, call) =>
        if !app.admits(calls, head) then Served(calls, NotAdmitted, all)
        else match ReadBody(rest, length, chunks1)
          case Short => Served(calls, Broken, all)
          case Body(body, rest2, chunks2) =>
            BodySplits(rest, length, chunks1);
            var t := Taken(head, body);
            if Keeps(app, calls, call, t) then Serve(app, calls + [t], rest2, chunks2)
            else Served(calls + [t], LastCall, rest2 + Flat(chunks2))
  }

  /** The same, from the whole stream: no chunk in it. */
  function Stream(app: App, calls: seq<Taken>, s: Bytes): Served
    decreases |s|
  {
    match FindEnd(s)
    case None => Served(calls, if s == [] then PeerClosed else Broken, s)
    case Some(i) =>
      if i > HEAD_MAX then Served(calls, Broken, s)
      else
        var head, rest := s[..i], s[i + 4..];
        match Frame(head)
        case TurnedAway(status) => Served(calls, Refused(status), s)
        case Dropped => Served(calls, Broken, s)
        case Sized(length, call) =>
          if !app.admits(calls, head) then Served(calls, NotAdmitted, s)
          else if |rest| < length then Served(calls, Broken, s)
          else
            var t := Taken(head, rest[..length]);
            if Keeps(app, calls, call, t) then Stream(app, calls + [t], rest[length..])
            else Served(calls + [t], LastCall, rest[length..])
  }

  // ----- proofs -----

  lemma {:induction false} FindEndExtends(s: Bytes, t: Bytes)
    ensures FindEnd(s).Some? ==> FindEnd(s + t) == FindEnd(s)
    ensures FindEnd(s).None? && FindEnd(s + t).Some? ==> FindEnd(s + t).value + 4 > |s|
  {
    if |s| >= 4 {
      assert (s + t)[..4] == s[..4];
      assert (s + t)[1..] == s[1..] + t;
      FindEndExtends(s[1..], t);
    }
  }

  /** A head that comes out is the bytes up to the first blank line of the stream, and with what
      came after it and what is still to arrive it is all of it: for every way the stream
      is cut.  One of at most HEAD_MAX - 3 bytes always comes out, one of more than HEAD_MAX
      never does. */
  lemma {:induction false} HeadSplits(buf: Bytes, chunks: seq<Bytes>)
    requires Arriving(chunks)
    ensures var s := buf + Flat(chunks); var r := ReadHead(buf, chunks); var end := FindEnd(s);
            && (r.Head? ==> end.Some? && end.value <= HEAD_MAX && r.head == s[..end.value]
                            && r.rest + Flat(r.chunks) == s[end.value + 4..])
            && (end.Some? && end.value <= HEAD_MAX - 3 ==> r.Head?)
            && (r.Closed? <==> s == [])
    decreases |Flat(chunks)|
  {
    hide FindEnd, Recv, Flat;
    var s := buf + Flat(chunks);
    FindEndExtends(buf, Flat(chunks));
    if FindEnd(buf).Some? {
      var i := FindEnd(buf).value;
      assert s[..i] == buf[..i];
      assert s[i + 4..] == buf[i + 4..] + Flat(chunks);
    } else if |buf| <= HEAD_MAX {
      var got := Recv(chunks, HEAD_RECV);
      if got.data == [] {
        NothingMore(chunks);
        assert s == buf;
      } else {
        assert s == (buf + got.data) + Flat(got.chunks);
        HeadSplits(buf + got.data, got.chunks);
      }
    }
  }

  lemma NothingMore(chunks: seq<Bytes>)
    requires chunks == []
    ensures Flat(chunks) == []
  {
  }

  lemma {:induction false} BodySplits(buf: Bytes, length: nat, chunks: seq<Bytes>)
    requires Arriving(chunks)
    ensures var s := buf + Flat(chunks); var r := ReadBody(buf, length, chunks);
            && (r.Body? <==> |s| >= length)
            && (r.Body? ==> r.body == s[..length] && r.rest + Flat(r.chunks) == s[length..])
    decreases |Flat(chunks)|
  {
    var s := buf + Flat(chunks);
    if |buf| >= length {
      assert s[..length] == buf[..length];
      assert s[length..] == buf[length..] + Flat(chunks);
    } else {
      var got := Recv(chunks, Min(BODY_RECV, length - |buf|));
      if got.data == [] {
        assert s == buf;
      } else {
        assert s == (buf + got.data) + Flat(got.chunks);
        BodySplits(buf + got.data, length, got.chunks);
      }
    }
  }

  /** A head of one of the three lengths where the cuts decide whether it comes out. */
  predicate Edge(i: nat) {
    HEAD_MAX - 3 < i <= HEAD_MAX
  }

  /** The connection breaks off at the head of i bytes, also when that comes out: its length is
      none, or its body does not come whole. */
  predicate BreaksAnyway(app: App, calls: seq<Taken>, s: Bytes, i: nat)
    requires i + 4 <= |s|
  {
    match Frame(s[..i])
    case Dropped => true
    case Sized(length, _) => app.admits(calls, s[..i]) && |s[i + 4..]| < length
    case TurnedAway(_) => false
  }

  /** No head the connection gets to is at the edge, but one at which it breaks off anyway. */
  predicate Steady(app: App, calls: seq<Taken>, s: Bytes)
    decreases |s|
  {
    match FindEnd(s)
    case None => true
    case Some(i) =>
      if i > HEAD_MAX then true
      else if Edge(i) then BreaksAnyway(app, calls, s, i)
      else
        match Frame(s[..i])
        case Sized(length, call) =>
          var rest := s[i + 4..];
          var t := Taken(s[..i], if |rest| < length then [] else rest[..length]);
          !app.admits(calls, s[..i]) || |rest| < length || !Keeps(app, calls, call, t)
          || Steady(app, calls + [t], rest[length..])
        case _ => true
  }

  /** Framing does not depend on the cuts: however the stream arrives, the same calls come out
      with the same heads and bodies, the connection ends the same way, and the same bytes
      are left - for every witness behind the server. */
  lemma {:induction false} CutsDoNotMatter(app: App, calls: seq<Taken>, buf: Bytes, chunks: seq<Bytes>)
    requires Arriving(chunks) && Steady(app, calls, buf + Flat(chunks))
    ensures Serve(app, calls, buf, chunks) == Stream(app, calls, buf + Flat(chunks))
    decreases |buf| + |Flat(chunks)|
  {
    hide ReadHead, ReadBody, FindEnd, Frame, Flat, Keeps;
    var s := buf + Flat(chunks);
    HeadSplits(buf, chunks);
    var r := ReadHead(buf, chunks);
    if r.Head? {
      var f := Frame(r.head);
      if f.Sized? && app.admits(calls, r.head) {
        BodySplits(r.rest, f.length, r.chunks);
        var b := ReadBody(r.rest, f.length, r.chunks);
        if b.Body? {
          var t := Taken(r.head, b.body);
          if Keeps(app, calls, f.call, t) {
            CutsDoNotMatter(app, calls + [t], b.rest, b.chunks);
          }
        }
      }
    }
  }

  /** Without that condition a cut can only break the connection off early: what was taken is
      what the stream holds, in order, with nothing else. */
  lemma {:induction false} CutsOnlyBreakOff(app: App, calls: seq<Taken>, buf: Bytes, chunks: seq<Bytes>)
    requires Arriving(chunks)
    ensures var r := Serve(app, calls, buf, chunks); var s := Stream(app, calls, buf + Flat(chunks));
            r == s || (r.ending == Broken && r.calls <= s.calls)
    ensures calls <= Stream(app, calls, buf + Flat(chunks)).calls
    decreases |buf| + |Flat(chunks)|
  {
    hide ReadHead, ReadBody, FindEnd, Frame, Flat, Keeps;
    StreamGrows(app, calls, buf + Flat(chunks));
    HeadSplits(buf, chunks);
    var r := ReadHead(buf, chunks);
    if r.Head? {
      var f := Frame(r.head);
      if f.Sized? && app.admits(calls, r.head) {
        BodySplits(r.rest, f.length, r.chunks);
        var b := ReadBody(r.rest, f.length, r.chunks);
        if b.Body? {
          var t := Taken(r.head, b.body);
          if Keeps(app, calls, f.call, t) {
            CutsOnlyBreakOff(app, calls + [t], b.rest, b.chunks);
          }
        }
      }
    }
  }

  lemma {:induction false} StreamGrows(app: App, calls: seq<Taken>, s: Bytes)
    ensures calls <= Stream(app, calls, s).calls
    decreases |s|
  {
    hide FindEnd, Frame, Keeps;
    if FindEnd(s).Some? && FindEnd(s).value <= HEAD_MAX {
      var i := FindEnd(s).value;
      var f := Frame(s[..i]);
      var rest := s[i + 4..];
      if f.Sized? && |rest| >= f.length {
        StreamGrows(app, calls + [Taken(s[..i], rest[..f.length])], rest[f.length..]);
      }
    }
  }

  /** The bytes of the calls, as they were sent. */
  function Wire(calls: seq<Taken>): Bytes {
    if calls == [] then [] else Wire(calls[..|calls| - 1]) + calls[|calls| - 1].head + END + calls[|calls| - 1].body
  }

  lemma WireAppends(calls: seq<Taken>, t: Taken)
    ensures Wire(calls + [t]) == Wire(calls) + t.head + END + t.body
  {
    assert (calls + [t])[..|calls|] == calls;
  }

  /** Nothing is lost and nothing read twice: heads, blank lines, bodies and what is left are
      the stream. */
  lemma {:induction false} StreamIsConserved(app: App, calls: seq<Taken>, s: Bytes)
    ensures var r := Stream(app, calls, s); Wire(r.calls) + r.left == Wire(calls) + s
    decreases |s|
  {
    hide FindEnd, Frame, Keeps, Wire;
    if FindEnd(s).Some? && FindEnd(s).value <= HEAD_MAX {
      var i := FindEnd(s).value;
      var f := Frame(s[..i]);
      var rest := s[i + 4..];
      if f.Sized? && |rest| >= f.length {
        var t := Taken(s[..i], rest[..f.length]);
        var left := rest[f.length..];
        OneTaken(s, t, i, f.length);
        WireAppends(calls, t);
        StreamIsConserved(app, calls + [t], left);
        Regroup(Wire(calls), t, left);
      }
    }
  }

  lemma OneTaken(s: Bytes, t: Taken, i: nat, n: nat)
    requires FindEnd(s) == Some(i) && i + 4 + n <= |s| && t.head == s[..i] && t.body == s[i + 4..][..n]
    ensures s == t.head + END + t.body + s[i + 4..][n..]
  {
    hide FindEnd;
    var rest := s[i + 4..];
    CutAt(s, i);
    CutAt(s[i..], 4);
    SlicesAt(s, i);
    CutAt(rest, n);
    InFour(t.head, END, t.body, rest[n..]);
  }

  lemma CutAt(s: Bytes, k: nat)
    requires k <= |s|
    ensures s == s[..k] + s[k..]
  {
  }

  lemma SlicesAt(s: Bytes, i: nat)
    requires i + 4 <= |s|
    ensures s[i..][..4] == s[i..i + 4] && s[i..][4..] == s[i + 4..]
  {
  }

  lemma InFour(a: Bytes, b: Bytes, c: Bytes, d: Bytes)
    ensures a + (b + (c + d)) == a + b + c + d
  {
  }

  lemma Regroup(wire: Bytes, t: Taken, left: Bytes)
    ensures (wire + t.head + END + t.body) + left == wire + (t.head + END + t.body + left)
  {
  }

  // ----- the three lengths -----

  lemma OneChunk(buf: Bytes, chunk: Bytes, chunks: seq<Bytes>)
    requires chunk != [] && Arriving(chunks) && |chunk| <= HEAD_RECV
    requires FindEnd(buf).None? && |buf| <= HEAD_MAX
    ensures ReadHead(buf, [chunk] + chunks) == ReadHead(buf + chunk, chunks)
  {
    assert ([chunk] + chunks)[0] == chunk && ([chunk] + chunks)[1..] == chunks;
  }

  /** The first HEAD_MAX bytes of a stream whose head is longer than HEAD_MAX - 4, in four
      chunks: the reader waits for more. */
  lemma FourChunks(s: Bytes, chunks: seq<Bytes>)
    requires FindEnd(s).Some? && FindEnd(s).value > HEAD_MAX - 4 && Arriving(chunks)
    ensures var four := [s[..4096], s[4096..8192], s[8192..12288], s[12288..16384]];
            && Arriving(four + chunks)
            && ReadHead([], four + chunks) == ReadHead(s[..HEAD_MAX], chunks)
  {
    hide ReadHead, FindEnd;
    var a, b, c, d := s[..4096], s[4096..8192], s[8192..12288], s[12288..16384];
    NoEndYet(s, 0);
    NoEndYet(s, 4096);
    NoEndYet(s, 8192);
    NoEndYet(s, 12288);
    assert [a, b, c, d] + chunks == [a] + ([b, c, d] + chunks);
    assert [b, c, d] + chunks == [b] + ([c, d] + chunks);
    assert [c, d] + chunks == [c] + ([d] + chunks);
    assert s[..0] == [];
    OneChunk(s[..0], a, [b, c, d] + chunks);
    assert s[..0] + a == s[..4096];
    OneChunk(s[..4096], b, [c, d] + chunks);
    assert s[..4096] + b == s[..8192];
    OneChunk(s[..8192], c, [d] + chunks);
    assert s[..8192] + c == s[..12288];
    OneChunk(s[..12288], d, chunks);
    assert s[..12288] + d == s[..16384];
  }

  lemma NoEndYet(s: Bytes, n: nat)
    requires FindEnd(s).Some? && n <= |s| && n < FindEnd(s).value + 4
    ensures FindEnd(s[..n]).None?
  {
    CutAt(s, n);
    hide FindEnd;
    FindEndExtends(s[..n], s[n..]);
  }

  lemma CutThatRefuses(s: Bytes) returns (cut: seq<Bytes>)
    requires FindEnd(s).Some? && Edge(FindEnd(s).value)
    ensures Arriving(cut) && Flat(cut) == s && ReadHead([], cut).Bad?
  {
    hide FindEnd, ReadHead, Flat;
    var one, last := s[16384..16385], s[16385..];
    cut := [s[..4096], s[4096..8192], s[8192..12288], s[12288..16384]] + [one, last];
    FourChunks(s, [one, last]);
    NoEndYet(s, 16384);
    NoEndYet(s, 16385);
    OneChunk(s[..16384], one, [last]);
    assert [one] + [last] == [one, last];
    assert s[..16384] + one == s[..16385];
    ReadTooLong(s[..16385], [last]);
    FlatCons(last, []);
    FlatCons(one, [last]);
    NothingMore([]);
    assert [last] + [] == [last] && last + [] == last;
    assert one + last == s[16384..];
    FlatFive(s[..4096], s[4096..8192], s[8192..12288], s[12288..16384], [one, last]);
    assert s[..4096] + s[4096..8192] + s[8192..12288] + s[12288..16384] == s[..16384];
    assert s[..16384] + s[16384..] == s;
  }

  lemma ReadTooLong(s: Bytes, chunks: seq<Bytes>)
    requires FindEnd(s).None? && |s| > HEAD_MAX && Arriving(chunks)
    ensures ReadHead(s, chunks).Bad?
  {
  }

  lemma FlatFive(a: Bytes, b: Bytes, c: Bytes, d: Bytes, rest: seq<Bytes>)
    ensures Flat([a, b, c, d] + rest) == a + b + c + d + Flat(rest)
  {
    FlatCons(a, [b, c, d] + rest);
    FlatCons(b, [c, d] + rest);
    FlatCons(c, [d] + rest);
    FlatCons(d, rest);
    assert [a, b, c, d] + rest == [a] + ([b] + ([c] + ([d] + rest)));
    assert [b, c, d] + rest == [b] + ([c] + ([d] + rest));
    assert [c, d] + rest == [c] + ([d] + rest);
  }

  lemma FlatCons(a: Bytes, rest: seq<Bytes>)
    ensures Flat([a] + rest) == a + Flat(rest)
  {
    assert ([a] + rest)[1..] == rest;
  }

  // ----- a call in chunks of its own -----

  /** A head that arrives as one chunk comes out with nothing behind it: it is received in
      pieces of HEAD_RECV bytes, of which HEAD_MAX is a multiple. */
  lemma {:induction false} HeadInOneChunk(s: Bytes, k: nat, more: seq<Bytes>)
    requires FindEnd(s).Some? && FindEnd(s).value <= HEAD_MAX && Arriving(more)
    requires k * HEAD_RECV < FindEnd(s).value + 4
    ensures var i := FindEnd(s).value;
            ReadHead(s[..k * HEAD_RECV], [s[k * HEAD_RECV..i + 4]] + more) == Head(s[..i], [], more)
    decreases |s| - k * HEAD_RECV
  {
    hide FindEnd, Flat;
    var i, n := FindEnd(s).value, k * HEAD_RECV;
    var chunk := s[n..i + 4];
    NoEndYet(s, n);
    assert ([chunk] + more)[0] == chunk && ([chunk] + more)[1..] == more;
    assert k <= 4;
    if |chunk| <= HEAD_RECV {
      assert s[..n] + chunk == s[..i + 4];
      WholeHead(s, more);
    } else {
      var next := s[n + HEAD_RECV..i + 4];
      assert chunk[HEAD_RECV..] == next && s[..n] + chunk[..HEAD_RECV] == s[..n + HEAD_RECV];
      HeadInOneChunk(s, k + 1, more);
    }
  }

  lemma WholeHead(s: Bytes, more: seq<Bytes>)
    requires FindEnd(s).Some? && FindEnd(s).value <= HEAD_MAX && Arriving(more)
    ensures var i := FindEnd(s).value; ReadHead(s[..i + 4], more) == Head(s[..i], [], more)
  {
    hide FindEnd, Recv;
    var i := FindEnd(s).value;
    EndIsThere(s);
    var head := s[..i + 4];
    assert head[..i] == s[..i] && head[i + 4..] == [];
  }

  lemma FindEndIs(s: Bytes)
    ensures FindEnd(s) ==
            if |s| < 4 then None
            else if s[..4] == END then Some(0)
            else if FindEnd(s[1..]).None? then None else Some(FindEnd(s[1..]).value + 1)
  {
  }

  lemma {:induction false} EndIsThere(s: Bytes)
    requires FindEnd(s).Some?
    ensures FindEnd(s[..FindEnd(s).value + 4]) == FindEnd(s)
  {
    hide FindEnd;
    var i := FindEnd(s).value;
    var head := s[..i + 4];
    FindEndIs(s);
    FindEndIs(head);
    assert head[..4] == s[..4];
    if i > 0 {
      assert head[1..] == s[1..][..i - 1 + 4];
      EndIsThere(s[1..]);
    }
  }

  /** The chunks of a call: its head, and its body when it has one. */
  function OwnChunks(s: Bytes, i: nat, length: nat): seq<Bytes>
    requires i + 4 + length <= |s|
  {
    [s[..i + 4]] + if length == 0 then [] else [s[i + 4..][..length]]
  }

  lemma OwnChunksAre(s: Bytes, i: nat, length: nat, more: seq<Bytes>)
    requires i + 4 + length <= |s| && Arriving(more) && Flat(more) == s[i + 4..][length..]
    ensures Arriving(OwnChunks(s, i, length) + more) && Flat(OwnChunks(s, i, length) + more) == s
  {
    hide Flat;
    var head, body := s[..i + 4], s[i + 4..][..length];
    assert s == head + s[i + 4..];
    if length == 0 {
      assert [head] + [] + more == [head] + more;
      assert s[i + 4..][0..] == s[i + 4..];
      FlatCons(head, more);
    } else {
      assert [head] + [body] + more == [head] + ([body] + more);
      FlatCons(body, more);
      FlatCons(head, [body] + more);
      assert s[i + 4..] == body + s[i + 4..][length..];
    }
  }

  lemma OwnChunksBegin(s: Bytes, i: nat, length: nat, more: seq<Bytes>)
    requires i + 4 + length <= |s| && Arriving(more)
    ensures var body := s[i + 4..][..length];
            var behind := (if body == [] then [] else [body]) + more;
            Arriving(behind) && OwnChunks(s, i, length) + more == [s[..i + 4]] + behind
  {
  }

  lemma BodyInOneChunk(body: Bytes, more: seq<Bytes>)
    requires |body| <= BODY_RECV && Arriving(more)
    ensures ReadBody([], |body|, (if body == [] then [] else [body]) + more) == Body(body, [], more)
  {
    if body == [] {
      assert [] + more == more;
    } else {
      var chunks := [body] + more;
      assert chunks[0] == body && chunks[1..] == more;
      assert [] + body == body;
      assert body[..|body|] == body && body[|body|..] == [];
    }
  }

  /** A call that is kept and arrives in chunks of its own leaves the next one an empty buffer. */
  lemma CallInOwnChunks(app: App, calls: seq<Taken>, s: Bytes, more: seq<Bytes>)
    requires FindEnd(s).Some? && FindEnd(s).value <= HEAD_MAX && Arriving(more)
    requires var i := FindEnd(s).value; var f := Frame(s[..i]);
             && f.Sized? && app.admits(calls, s[..i]) && |s[i + 4..]| >= f.length
             && Flat(more) == s[i + 4..][f.length..]
    ensures var i := FindEnd(s).value; var f := Frame(s[..i]);
            var t := Taken(s[..i], s[i + 4..][..f.length]);
            && Arriving(OwnChunks(s, i, f.length) + more) && Flat(OwnChunks(s, i, f.length) + more) == s
            && Serve(app, calls, [], OwnChunks(s, i, f.length) + more) ==
               if Keeps(app, calls, f.call, t) then Serve(app, calls + [t], [], more)
               else Served(calls + [t], LastCall, s[i + 4..][f.length..])
  {
    assert MAX_BODY == BODY_RECV;
    hide *;
    var i := FindEnd(s).value;
    SizedIsSmall(s[..i]);
    var f := Frame(s[..i]);
    var body := s[i + 4..][..f.length];
    var behind := (if body == [] then [] else [body]) + more;
    OwnChunksAre(s, i, f.length, more);
    OwnChunksBegin(s, i, f.length, more);
    assert s[..0] == [] && s[0..i + 4] == s[..i + 4];
    HeadInOneChunk(s, 0, behind);
    BodyInOneChunk(body, more);
    OneServed(app, calls, [s[..i + 4]] + behind, s[..i], behind, body, more);
  }

  lemma OneServed(app: App, calls: seq<Taken>, chunks: seq<Bytes>, head: Bytes, behind: seq<Bytes>, body: Bytes, more: seq<Bytes>)
    requires Arriving(chunks) && Arriving(behind) && Arriving(more)
    requires ReadHead([], chunks) == Head(head, [], behind)
    requires Frame(head).Sized? && Frame(head).length == |body| && app.admits(calls, head)
    requires ReadBody([], |body|, behind) == Body(body, [], more)
    ensures Serve(app, calls, [], chunks) ==
            if Keeps(app, calls, Frame(head).call, Taken(head, body)) then Serve(app, calls + [Taken(head, body)], [], more)
            else Served(calls + [Taken(head, body)], LastCall, Flat(more))
  {
    hide FindEnd, Keeps, ReadHead, ReadBody, Flat, Frame, Arriving;
    assert [] + Flat(more) == Flat(more);
  }

  lemma SizedIsSmall(head: Bytes)
    ensures Frame(head).Sized? ==> Frame(head).length <= MAX_BODY
  {
    hide ParseHead, Decimal;
  }

  // ----- the exact condition -----

  /** For every stream there is a way to arrive in which all of it comes out: call by call. */
  lemma {:induction false} SomeCutsAgree(app: App, calls: seq<Taken>, s: Bytes) returns (chunks: seq<Bytes>)
    ensures Arriving(chunks) && Flat(chunks) == s
    ensures Serve(app, calls, [], chunks) == Stream(app, calls, s)
    decreases |s|
  {
    hide FindEnd, Frame, Keeps, ReadHead, ReadBody, Flat;
    NoEndInNothing();
    if s == [] {
      chunks := [];
      NothingMore(chunks);
      EndlessEnds(app, calls, s, chunks);
    } else if FindEnd(s).None? || FindEnd(s).value > HEAD_MAX {
      chunks := [s];
      FlatCons(s, []);
      NothingMore([]);
      assert [s] + [] == [s] && s + [] == s;
      EndlessEnds(app, calls, s, chunks);
    } else {
      var i := FindEnd(s).value;
      var f := Frame(s[..i]);
      var rest := s[i + 4..];
      if f.Sized? && app.admits(calls, s[..i]) && |rest| >= f.length {
        var t := Taken(s[..i], rest[..f.length]);
        var more := SomeCutsAgree(app, calls + [t], rest[f.length..]);
        CallInOwnChunks(app, calls, s, more);
        chunks := OwnChunks(s, i, f.length) + more;
      } else {
        chunks := HeadAlone(app, calls, s);
      }
    }
  }

  lemma EndlessEnds(app: App, calls: seq<Taken>, s: Bytes, chunks: seq<Bytes>)
    requires Arriving(chunks) && Flat(chunks) == s && (FindEnd(s).None? || FindEnd(s).value > HEAD_MAX)
    ensures Serve(app, calls, [], chunks) == Stream(app, calls, s)
  {
    hide FindEnd, Frame, Keeps, ReadHead, ReadBody, Flat;
    assert [] + Flat(chunks) == s;
    HeadSplits([], chunks);
    NoEndInNothing();
  }

  lemma NoEndInNothing()
    ensures FindEnd([]).None?
  {
  }

  /** A head that ends the connection, in a chunk of its own. */
  lemma HeadAlone(app: App, calls: seq<Taken>, s: Bytes) returns (chunks: seq<Bytes>)
    requires FindEnd(s).Some? && FindEnd(s).value <= HEAD_MAX
    requires var i := FindEnd(s).value; var f := Frame(s[..i]);
             !f.Sized? || !app.admits(calls, s[..i]) || |s[i + 4..]| < f.length
    ensures Arriving(chunks) && Flat(chunks) == s
    ensures Serve(app, calls, [], chunks) == Stream(app, calls, s)
  {
    hide FindEnd, Frame, Keeps, ReadHead, ReadBody, Flat;
    var i := FindEnd(s).value;
    var head, rest := s[..i + 4], s[i + 4..];
    var more := if rest == [] then [] else [rest];
    NothingMore([]);
    FlatCons(rest, []);
    assert [rest] + [] == [rest] && rest + [] == rest;
    chunks := [head] + more;
    FlatCons(head, more);
    assert s == head + rest;
    assert s[..0] == [] && s[0..i + 4] == head;
    HeadInOneChunk(s, 0, more);
    var f := Frame(s[..i]);
    if f.Sized? {
      BodySplits([], f.length, more);
      assert [] + rest == rest;
    }
  }

  /** Where the condition does not hold there is a way to arrive in which the connection breaks
      off early. */
  lemma {:induction false} SomeCutsDiffer(app: App, calls: seq<Taken>, s: Bytes) returns (chunks: seq<Bytes>)
    requires !Steady(app, calls, s)
    ensures Arriving(chunks) && Flat(chunks) == s
    ensures Serve(app, calls, [], chunks) != Stream(app, calls, s)
    decreases |s|
  {
    hide FindEnd, Frame, Keeps, Serve, Stream, Flat;
    var i := FindEnd(s).value;
    var f := Frame(s[..i]);
    var rest := s[i + 4..];
    if Edge(i) {
      chunks := CutThatRefuses(s);
      RefusedAtEdge(app, calls, s, chunks);
    } else {
      var t := Taken(s[..i], rest[..f.length]);
      var more := SomeCutsDiffer(app, calls + [t], rest[f.length..]);
      CallInOwnChunks(app, calls, s, more);
      KeptStreams(app, calls, s);
      chunks := OwnChunks(s, i, f.length) + more;
    }
  }

  lemma RefusedAtEdge(app: App, calls: seq<Taken>, s: Bytes, chunks: seq<Bytes>)
    requires FindEnd(s).Some? && Edge(FindEnd(s).value) && !BreaksAnyway(app, calls, s, FindEnd(s).value)
    requires Arriving(chunks) && Flat(chunks) == s && ReadHead([], chunks).Bad?
    ensures Serve(app, calls, [], chunks) != Stream(app, calls, s)
  {
    hide FindEnd, Frame, Keeps, ReadHead, ReadBody, Flat;
    assert [] + Flat(chunks) == s;
    var i := FindEnd(s).value;
    var f := Frame(s[..i]);
    var rest := s[i + 4..];
    if f.Sized? && |rest| >= f.length {
      StreamGrows(app, calls + [Taken(s[..i], rest[..f.length])], rest[f.length..]);
    }
  }

  /** A call that is kept and what the stream goes on with. */
  lemma KeptStreams(app: App, calls: seq<Taken>, s: Bytes)
    requires FindEnd(s).Some? && FindEnd(s).value <= HEAD_MAX
    requires var i := FindEnd(s).value; var f := Frame(s[..i]);
             && f.Sized? && app.admits(calls, s[..i]) && |s[i + 4..]| >= f.length
             && Keeps(app, calls, f.call, Taken(s[..i], s[i + 4..][..f.length]))
    ensures var i := FindEnd(s).value; var n := Frame(s[..i]).length;
            Stream(app, calls, s) == Stream(app, calls + [Taken(s[..i], s[i + 4..][..n])], s[i + 4..][n..])
  {
    hide FindEnd, Frame, Keeps;
  }

  /** Every way to arrive gives what the whole stream gives, for the same bytes, exactly when no
      head of HEAD_MAX - 2, HEAD_MAX - 1 or HEAD_MAX bytes comes up at which the connection
      would go on or be answered. */
  lemma CutsDecide(app: App, calls: seq<Taken>, s: Bytes)
    ensures (forall chunks :: Arriving(chunks) && Flat(chunks) == s ==>
               Serve(app, calls, [], chunks) == Stream(app, calls, s))
            <==> Steady(app, calls, s)
  {
    hide Serve, Stream, Steady, Flat;
    if Steady(app, calls, s) {
      forall chunks | Arriving(chunks) && Flat(chunks) == s
        ensures Serve(app, calls, [], chunks) == Stream(app, calls, s)
      {
        assert [] + Flat(chunks) == s;
        CutsDoNotMatter(app, calls, [], chunks);
      }
    } else {
      var chunks := SomeCutsDiffer(app, calls, s);
    }
  }

  // ----- the one length of a call -----

  function NameOf(line: Bytes): Bytes {
    match Find(line, ":") case Some(i) => Lower(TrimRight(TrimLeft(line[..i]))) case None => []
  }

  function ValueOf(line: Bytes): Bytes {
    match Find(line, ":") case Some(i) => TrimRight(TrimLeft(line[i + 1..])) case None => []
  }

  lemma FieldsFrom(lines: seq<Bytes>, fields: map<Bytes, Bytes>)
    requires Fields(lines, fields).Some?
    ensures if lines == [] then Fields(lines, fields) == Some(fields)
            else NameOf(lines[0]) !in fields
                 && Fields(lines, fields) == Fields(lines[1..], fields[NameOf(lines[0]) := ValueOf(lines[0])])
  {
    hide Lower, TrimLeft, TrimRight, Find;
  }

  /** Every header line of an accepted head is a field of its own, with its value: none is
      overwritten by a later one of its name, and none comes from elsewhere. */
  lemma {:induction false} EachLineIsAField(lines: seq<Bytes>, fields: map<Bytes, Bytes>)
    requires Fields(lines, fields).Some?
    ensures var r := Fields(lines, fields).value;
            && |r| == |fields| + |lines|
            && (forall i :: 0 <= i < |lines| ==> NameOf(lines[i]) in r && r[NameOf(lines[i])] == ValueOf(lines[i]))
            && (forall n :: n in fields ==> n in r && r[n] == fields[n])
            && (forall n :: n in r && n !in fields ==> exists i :: 0 <= i < |lines| && NameOf(lines[i]) == n)
    decreases |lines|
  {
    hide Fields, NameOf, ValueOf;
    FieldsFrom(lines, fields);
    if lines != [] {
      var name, value := NameOf(lines[0]), ValueOf(lines[0]);
      EachLineIsAField(lines[1..], fields[name := value]);
      var r := Fields(lines, fields).value;
      assert name in r && r[name] == value;
      assert forall i :: 0 < i < |lines| ==> lines[1..][i - 1] == lines[i];
    }
  }

  /** A body is read by one length alone: the decimal of the one Content-Length line, 0 without
      one, at most MAX_BODY, and never next to a Transfer-Encoding. */
  lemma OneLength(head: Bytes)
    requires Frame(head).Sized?
    ensures var lines := Split(head, "\r\n")[1..]; var n := Frame(head).length;
            && n <= MAX_BODY
            && (forall i :: 0 <= i < |lines| ==> NameOf(lines[i]) != "transfer-encoding")
            && (forall i :: 0 <= i < |lines| && NameOf(lines[i]) == "content-length" ==>
                  Digits(ValueOf(lines[i])) && Decimal(ValueOf(lines[i])) == n)
            && ((forall i :: 0 <= i < |lines| ==> NameOf(lines[i]) != "content-length") ==> n == 0)
            && (forall i, j :: 0 <= i < j < |lines| ==> NameOf(lines[i]) != NameOf(lines[j]))
  {
    hide Lower, TrimLeft, TrimRight, Find, Split, Fields, Verb, Visible;
    var lines := Split(head, "\r\n")[1..];
    EachLineIsAField(lines, map[]);
    NamesDiffer(lines, map[]);
    ZeroIsZero();
  }

  lemma ZeroIsZero()
    ensures Digits("0") && Decimal("0") == 0
  {
    var z := "0";
    assert z[..|z| - 1] == [];
  }

  lemma {:induction false} NamesDiffer(lines: seq<Bytes>, fields: map<Bytes, Bytes>)
    requires Fields(lines, fields).Some?
    ensures forall i :: 0 <= i < |lines| ==> NameOf(lines[i]) !in fields
    ensures forall i, j :: 0 <= i < j < |lines| ==> NameOf(lines[i]) != NameOf(lines[j])
    decreases |lines|
  {
    hide Fields, NameOf, ValueOf;
    FieldsFrom(lines, fields);
    if lines != [] {
      var name, value := NameOf(lines[0]), ValueOf(lines[0]);
      NamesDiffer(lines[1..], fields[name := value]);
      assert forall i :: 0 < i < |lines| ==> lines[1..][i - 1] == lines[i];
    }
  }
}
