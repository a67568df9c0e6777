/**
 The gate of the witness server as it runs: connections whose fields are set where they are
 served, and the two ordered lists changed in place.  Each operation is proved to leave
 what its function of module Gate says.
 */
module GateInPlace {
  import opened Wrappers
  import opened Gate

  class Conn {
    const source: string
    const group: string
    var busy: bool
    var member: bool
    var last: int
    ghost var promoted: nat

    constructor (source: string, group: string, now: int)
      ensures this.source == source && this.group == group && !busy && !member && last == now && promoted == 0
    {
      this.source, this.group := source, group;
      busy, member, last, promoted := false, false, now, 0;
    }

    ghost function Said(): Info
      reads this
    {
      Info(source, group, busy, member, last, promoted)
    }
  }

  class Gatekeeper {
    const limits: Limits
    var anon: seq<Conn>
    var members: seq<Conn>

    constructor (limits: Limits := LIMITS)
      ensures this.limits == limits && anon == [] && members == []
      ensures limits.perSource > 0 ==> forall all: set<Conn> :: Valid(all)
    {
      this.limits := limits;
      anon, members := [], [];
    }

    /** The gate as a value, with what all these connections say of themselves. */
    ghost function View(all: set<Conn>): State<Conn>
      reads this, all
    {
      State(anon, members, map c | c in all :: c.Said())
    }

    ghost predicate Valid(all: set<Conn>)
      reads this
    {
      && limits.perSource > 0
      && (forall i :: 0 <= i < |anon| ==> anon[i] in all)
      && (forall i :: 0 <= i < |members| ==> members[i] in all)
    }

    /** Sets the clock of conn and touches nothing else of the gate. */
    method Moved(conn: Conn, now: int, ghost all: set<Conn>)
      requires Valid(all) && conn in all
      modifies conn`last
      ensures View(all) == old(View(all)).(info := old(View(all)).info[conn := old(conn.Said()).(last := now)])
    {
      conn.last := now;
    }

    /** The idle connections of conns, of one source or of any. */
    static method IdleOnes(conns: seq<Conn>, source: Option<string>, ghost info: map<Conn, Info>) returns (idle: seq<Conn>)
      requires forall i :: 0 <= i < |conns| ==> conns[i] in info && info[conns[i]] == conns[i].Said()
      ensures idle == Pick(info, conns, if source.Some? then IdleFrom(source.value) else Idle)
    {
      idle := [];
      for i := 0 to |conns|
        invariant idle == Pick(info, conns[..i], if source.Some? then IdleFrom(source.value) else Idle)
      {
        assert conns[..i + 1][..i] == conns[..i];
        if !conns[i].busy && (source.None? || conns[i].source == source.value) {
          idle := idle + [conns[i]];
        }
      }
      assert conns[..|conns|] == conns;
    }

    method Admit(conn: Conn, ghost all: set<Conn>)
      requires Valid(all) && conn in all
      modifies this`anon
      ensures Valid(all)
      ensures View(all) == Gate.Admit(limits, old(View(all)), conn).after
    {
      hide BySource, ByShare, Drop, Without;
      ghost var was := View(all);
      GiveUpOwn(conn, all);
      if |anon| >= limits.anonMax {
        MakeRoom(was.info, all);
      } else {
        RoomLeft(limits, was.info, anon);
      }
      anon := anon + [conn];
      assert View(all).info == was.info;
    }

    /** The first of the two rules of Admit: what BySource drops leaves the list. */
    method GiveUpOwn(conn: Conn, ghost all: set<Conn>)
      requires Valid(all) && conn in all
      modifies this`anon
      ensures Valid(all)
      ensures anon == Without(old(anon), BySource(limits, old(View(all)), conn))
    {
      hide Pick, Stalest, Drop;
      ghost var info := View(all).info;
      var same := IdleOnes(anon, Some(conn.source), info);
      if |same| >= limits.perSource {
        var d := Victim(same, info);
        anon := Drop(anon, d);
      }
    }

    /** The second rule: what ByShare drops leaves the list. */
    method MakeRoom(ghost info: map<Conn, Info>, ghost all: set<Conn>)
      requires Valid(all) && |anon| >= limits.anonMax
      requires info == map c | c in all :: c.Said()
      modifies this`anon
      ensures Valid(all) && anon == Without(old(anon), ByShare(limits, info, old(anon)))
    {
      hide Pick, Stalest, Drop, Most, Fullest;
      var idle := IdleOnes(anon, None, info);
      if idle == [] {
        return;
      }
      var most := MostHeld(idle, info, all);
      var fullest := FullestOf(idle, most, info, all);
      var d := Victim(fullest, info);
      anon := Drop(anon, d);
    }

    method MostHeld(idle: seq<Conn>, ghost info: map<Conn, Info>, ghost all: set<Conn>) returns (most: nat)
      requires Valid(all) && info == map c | c in all :: c.Said()
      requires forall k :: 0 <= k < |idle| ==> idle[k] in info
      ensures most == Most(info, anon, idle)
    {
      hide Pick;
      most := 0;
      for i := 0 to |idle|
        invariant most == Most(info, anon, idle[..i])
      {
        assert idle[..i + 1][..i] == idle[..i];
        var here := Holds(idle[i].group, info, all);
        if here > most {
          most := here;
        }
      }
      assert idle[..|idle|] == idle;
    }

    method FullestOf(idle: seq<Conn>, most: nat, ghost info: map<Conn, Info>, ghost all: set<Conn>)
      returns (fullest: seq<Conn>)
      requires Valid(all) && info == map c | c in all :: c.Said()
      requires forall k :: 0 <= k < |idle| ==> idle[k] in info
      ensures fullest == Fullest(info, anon, idle, most)
    {
      hide Pick;
      fullest := [];
      for i := 0 to |idle|
        invariant fullest == Fullest(info, anon, idle[..i], most)
      {
        assert idle[..i + 1][..i] == idle[..i];
        var here := Holds(idle[i].group, info, all);
        if here == most {
          fullest := fullest + [idle[i]];
        }
      }
      assert idle[..|idle|] == idle;
    }

    /** How many anonymous connections a group holds. */
    method Holds(group: string, ghost info: map<Conn, Info>, ghost all: set<Conn>) returns (n: nat)
      requires Valid(all) && info == map c | c in all :: c.Said()
      ensures n == |Pick(info, anon, InGroup(group))|
    {
      n := 0;
      for i := 0 to |anon|
        invariant n == |Pick(info, anon[..i], InGroup(group))|
      {
        assert anon[..i + 1][..i] == anon[..i];
        if anon[i].group == group {
          n := n + 1;
        }
      }
      assert anon[..|anon|] == anon;
    }

    /** Stalest by a scan: the least of the clocks seen, the first of them on a tie. */
    static method Victim(conns: seq<Conn>, ghost info: map<Conn, Info>) returns (d: Conn)
      requires conns != [] && forall i :: 0 <= i < |conns| ==> conns[i] in info && info[conns[i]] == conns[i].Said()
      ensures d == Stalest(info, conns)
    {
      d := conns[0];
      assert conns[..1] == [d];
      for i := 1 to |conns|
        invariant d in conns[..i] && d == Stalest(info, conns[..i])
      {
        assert conns[..i + 1][..i] == conns[..i];
        if conns[i].last < d.last {
          d := conns[i];
        }
      }
      assert conns[..|conns|] == conns;
    }

    method Promote(conn: Conn, ghost tick: nat, ghost all: set<Conn>)
      requires Valid(all) && conn in all
      modifies this, conn`member, conn`promoted
      ensures Valid(all)
      ensures View(all) == Gate.Promote(limits, old(View(all)), conn, tick)
    {
      hide Pick, Drop;
      ghost var s := View(all);
      anon := Drop(anon, conn);
      if !conn.member {
        var idle := IdleOnes(members, None, s.info);
        conn.member := true;
        if |members| >= limits.memberMax && idle != [] {
          members := Drop(members, idle[0]);
        }
      }
      conn.promoted := tick;
      members := Drop(members, conn) + [conn];
    }

    method Release(conn: Conn, ghost all: set<Conn>)
      requires Valid(all)
      modifies this
      ensures Valid(all)
      ensures View(all) == Gate.Release(old(View(all)), conn)
    {
      anon := Drop(anon, conn);
      members := Drop(members, conn);
    }
  }

  lemma RoomLeft<C>(limits: Limits, info: map<C, Info>, anon: seq<C>)
    requires forall i :: 0 <= i < |anon| ==> anon[i] in info
    requires |anon| < limits.anonMax
    ensures Without(anon, ByShare(limits, info, anon)) == anon
  {
  }
}
