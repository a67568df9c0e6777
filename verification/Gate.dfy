/**
 The connections a witness holds (pegaprox/witness.py, _Gate): who is let in, who gives way.
 State is the gate as a value, over any type of connection; GateInPlace.dfy has the class
 that changes it in place.
 */
module Gate {
  import opened Wrappers

  /** One accepted connection.  promoted is a ghost of the order: when it was last promoted. */
  datatype Info = Info(source: string, group: string, busy: bool, member: bool, last: int, promoted: nat)

  datatype State<!C(==)> = State(anon: seq<C>, members: seq<C>, info: map<C, Info>)

  datatype Limits = Limits(perSource: nat, anonMax: nat, memberMax: nat)

  const LIMITS: Limits := Limits(32, 128, 32)

  datatype Ask = Idle | Busy | From(source: string) | IdleFrom(source: string) | BusyFrom(source: string) | InGroup(group: string)

  predicate Is(q: Ask, i: Info) {
    match q
    case Idle => !i.busy
    case Busy => i.busy
    case From(source) => i.source == source
    case IdleFrom(source) => i.source == source && !i.busy
    case BusyFrom(source) => i.source == source && i.busy
    case InGroup(group) => i.group == group
  }

  /** The connections of conns that q asks for, in their order. */
  function Pick<C>(info: map<C, Info>, conns: seq<C>, q: Ask): (r: seq<C>)
    requires forall i :: 0 <= i < |conns| ==> conns[i] in info
    ensures |r| <= |conns|
    ensures forall i :: 0 <= i < |r| ==> r[i] in conns && Is(q, info[r[i]])
  {
    if conns == [] then []
    else
      var n := |conns| - 1;
      Pick(info, conns[..n], q) + if Is(q, info[conns[n]]) then [conns[n]] else []
  }

  /** The least clock among conns, the earliest place of it where several have it. */
  function Stalest<C>(info: map<C, Info>, conns: seq<C>): (r: C)
    requires conns != [] && forall i :: 0 <= i < |conns| ==> conns[i] in info
    ensures r in conns
    ensures forall i :: 0 <= i < |conns| ==> info[r].last <= info[conns[i]].last
  {
    var n := |conns| - 1;
    if n == 0 then conns[0]
    else
      var m := Stalest(info, conns[..n]);
      if info[conns[n]].last < info[m].last then conns[n] else m
  }

  function Drop<C(==)>(conns: seq<C>, c: C): (r: seq<C>)
    ensures |r| <= |conns|
    ensures forall i :: 0 <= i < |r| ==> r[i] in conns && r[i] != c
    ensures c !in conns ==> r == conns
  {
    if conns == [] then []
    else
      var n := |conns| - 1;
      Drop(conns[..n], c) + if conns[n] == c then [] else [conns[n]]
  }

  /** How many connections the group of c holds. */
  function Share<C>(info: map<C, Info>, anon: seq<C>, c: C): nat
    requires c in info && forall i :: 0 <= i < |anon| ==> anon[i] in info
  {
    |Pick(info, anon, InGroup(info[c].group))|
  }

  /** The largest share a group of one of conns holds. */
  function Most<C>(info: map<C, Info>, anon: seq<C>, conns: seq<C>): (most: nat)
    requires forall i :: 0 <= i < |anon| ==> anon[i] in info
    requires forall i :: 0 <= i < |conns| ==> conns[i] in info
    ensures forall i :: 0 <= i < |conns| ==> Share(info, anon, conns[i]) <= most
    ensures conns != [] ==> exists i :: 0 <= i < |conns| && Share(info, anon, conns[i]) == most
  {
    hide Share;
    if conns == [] then 0
    else
      var n := |conns| - 1;
      assert forall i :: 0 <= i < n ==> conns[..n][i] == conns[i];
      var most := Most(info, anon, conns[..n]);
      var here := Share(info, anon, conns[n]);
      if here > most then here else most
  }

  /** Those of conns whose group holds that many. */
  function Fullest<C>(info: map<C, Info>, anon: seq<C>, conns: seq<C>, most: nat): (r: seq<C>)
    requires forall i :: 0 <= i < |anon| ==> anon[i] in info
    requires forall i :: 0 <= i < |conns| ==> conns[i] in info
    ensures |r| <= |conns|
    ensures forall i :: 0 <= i < |r| ==> r[i] in conns && Share(info, anon, r[i]) == most
    ensures forall i :: 0 <= i < |conns| && Share(info, anon, conns[i]) == most ==> conns[i] in r
  {
    if conns == [] then []
    else
      var n := |conns| - 1;
      Fullest(info, anon, conns[..n], most) + if Share(info, anon, conns[n]) == most then [conns[n]] else []
  }

  predicate Known<C>(s: State<C>) {
    && (forall i :: 0 <= i < |s.anon| ==> s.anon[i] in s.info)
    && (forall i :: 0 <= i < |s.members| ==> s.members[i] in s.info)
  }

  /** What an admission does: the gate after it, and who gave way to which of its two rules. */
  datatype Admission<!C(==)> = Admission(after: State<C>, bySource: Option<C>, byShare: Option<C>)

  function Without<C(==)>(anon: seq<C>, c: Option<C>): seq<C> {
    match c case Some(x) => Drop(anon, x) case None => anon
  }

  function BySource<C>(limits: Limits, s: State<C>, c: C): (r: Option<C>)
    requires Known(s) && c in s.info && limits.perSource > 0
  {
    var same := Pick(s.info, s.anon, IdleFrom(s.info[c].source));
    if |same| >= limits.perSource then Some(Stalest(s.info, same)) else None
  }

  function ByShare<C>(limits: Limits, info: map<C, Info>, anon: seq<C>): (r: Option<C>)
    requires forall i :: 0 <= i < |anon| ==> anon[i] in info
  {
    var idle := Pick(info, anon, Idle);
    if |anon| >= limits.anonMax && idle != [] then
      Some(Stalest(info, Fullest(info, anon, idle, Most(info, anon, idle))))
    else None
  }

  /** c is accepted.  Its own last step is in info already (`moved`). */
  function Admit<C>(limits: Limits, s: State<C>, c: C): Admission<C>
    requires Known(s) && c in s.info && limits.perSource > 0
  {
    var bySource := BySource(limits, s, c);
    var anon := Without(s.anon, bySource);
    var byShare := ByShare(limits, s.info, anon);
    Admission(s.(anon := Without(anon, byShare) + [c]), bySource, byShare)
  }

  /** The member that gives way to c, which is none yet. */
  function Evicted<C>(limits: Limits, s: State<C>, c: C): Option<C>
    requires Known(s) && c in s.info
  {
    var idle := Pick(s.info, s.members, Idle);
    if !s.info[c].member && |s.members| >= limits.memberMax && idle != [] then Some(idle[0]) else None
  }

  function Promote<C>(limits: Limits, s: State<C>, c: C, tick: nat): State<C>
    requires Known(s) && c in s.info
  {
    var members := Without(s.members, Evicted(limits, s, c));
    State(Drop(s.anon, c), Drop(members, c) + [c],
          s.info[c := s.info[c].(member := true, promoted := tick)])
  }

  function Release<C>(s: State<C>, c: C): State<C> {
    s.(anon := Drop(s.anon, c), members := Drop(s.members, c))
  }
}
