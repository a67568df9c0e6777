/** How a roster's entries are laid out over the width of the window: the plan of runs and
    holes, made once for each list of guests and used for every column. */
module ColumnsSpliced {
  import opened Wrappers
  import opened Metrics
  import opened Columns

  /** Entries of the roster as they are, or holes. */
  datatype Piece = Run(first: nat, end: nat) | Gap(n: nat)

  predicate PlanOk(plan: seq<Piece>, n: nat) {
    forall i :: 0 <= i < |plan| && plan[i].Run? ==> plan[i].first <= plan[i].end <= n
  }

  function Holes<T>(n: nat, hole: T): (r: seq<T>)
    ensures |r| == n && forall i :: 0 <= i < n ==> r[i] == hole
  {
    seq(n, _ => hole)
  }

  /** _splice along a plan; without one the entries are all there. */
  function Spliced<T>(plan: seq<Piece>, src: seq<T>, hole: T): seq<T>
    requires PlanOk(plan, |src|)
  {
    if plan == [] then []
    else
      Spliced(plan[..|plan| - 1], src, hole) + PieceOf(plan[|plan| - 1], src, hole)
  }

  function PieceOf<T>(p: Piece, src: seq<T>, hole: T): seq<T>
    requires p.Run? ==> p.first <= p.end <= |src|
  {
    match p case Run(a, b) => src[a..b] case Gap(n) => Holes(n, hole)
  }

  function Laid<T>(plan: Option<seq<Piece>>, src: seq<T>, hole: T): seq<T>
    requires plan.Some? ==> PlanOk(plan.value, |src|)
  {
    if plan.None? then src else Spliced(plan.value, src, hole)
  }

  /** The places of the roster's guests in the window. */
  function PlacesOf(vids: seq<nat>, all: seq<nat>): (r: seq<nat>)
    ensures |r| == |vids| && forall i :: 0 <= i < |r| ==> r[i] == IndexOf(all, vids[i])
  {
    seq(|vids|, i requires 0 <= i < |vids| => IndexOf(all, vids[i]))
  }

  predicate Within(vids: seq<nat>, all: seq<nat>) {
    Ascending(vids) && Ascending(all) && forall v :: v in vids ==> v in all
  }

  lemma PlacesAscend(vids: seq<nat>, all: seq<nat>)
    requires Within(vids, all)
    ensures var idx := PlacesOf(vids, all);
            && (forall i :: 0 <= i < |idx| ==> idx[i] < |all| && all[idx[i]] == vids[i])
            && (forall i, j :: 0 <= i < j < |idx| ==> idx[i] < idx[j])
  {
    var idx := PlacesOf(vids, all);
    forall i | 0 <= i < |idx| ensures idx[i] < |all| && all[idx[i]] == vids[i] {
      assert vids[i] in vids;
    }
  }

  /** Between the places of two neighbours of the roster there are holes only. */
  lemma BetweenIsNone(vids: seq<nat>, all: seq<nat>, i: nat, g: nat)
    requires Within(vids, all) && i <= |vids| && g < |all|
    requires i > 0 ==> PlacesOf(vids, all)[i - 1] < g
    requires i < |vids| ==> g < PlacesOf(vids, all)[i]
    ensures all[g] !in vids
  {
    PlacesAscend(vids, all);
    var idx := PlacesOf(vids, all);
    forall k | 0 <= k < |vids| ensures vids[k] != all[g] {
      assert k < i ==> idx[k] < g;
      assert k >= i ==> idx[k] > g;
    }
  }

  lemma OnItsPlace(vids: seq<nat>, k: nat)
    requires Ascending(vids) && k < |vids|
    ensures IndexOf(vids, vids[k]) == k
  {
  }

  /** What stands at a place: an entry of the roster, or a hole. */
  function Wanted<T>(vids: seq<nat>, all: seq<nat>, src: seq<T>, hole: T, g: nat): T
    requires |src| == |vids| && g < |all|
  {
    if all[g] in vids then src[IndexOf(vids, all[g])] else hole
  }

  /** The numbers 0 to n - 1, each for itself: what is laid out along a plan tells the plan. */
  function Numbers(n: nat): (r: seq<Option<nat>>)
    ensures |r| == n && forall i :: 0 <= i < n ==> r[i] == Some(i)
  {
    seq(n, i => Some(i))
  }

  lemma OnePiece<T>(plan: seq<Piece>, p: Piece, src: seq<T>, hole: T)
    requires PlanOk(plan, |src|) && (p.Run? ==> p.first <= p.end <= |src|)
    ensures PlanOk(plan + [p], |src|)
    ensures Spliced(plan + [p], src, hole) ==
            Spliced(plan, src, hole) + PieceOf(p, src, hole)
  {
    assert (plan + [p])[..|plan|] == plan;
  }

  /** The plan so far lays out the first places as wanted. */
  ghost predicate LaidTo(plan: seq<Piece>, vids: seq<nat>, all: seq<nat>, at: nat) {
    && PlanOk(plan, |vids|) && at <= |all|
    && |Spliced(plan, Numbers(|vids|), None)| == at
    && forall g :: 0 <= g < at ==>
         Spliced(plan, Numbers(|vids|), None)[g] == Wanted(vids, all, Numbers(|vids|), None, g)
  }

  /** One piece more, when it holds what is wanted at the next places. */
  lemma PieceLaid(plan: seq<Piece>, p: Piece, vids: seq<nat>, all: seq<nat>, at: nat)
    requires LaidTo(plan, vids, all, at) && (p.Run? ==> p.first <= p.end <= |vids|)
    requires var piece := PieceOf(p, Numbers(|vids|), None);
             at + |piece| <= |all|
             && forall g :: at <= g < at + |piece| ==> piece[g - at] == Wanted(vids, all, Numbers(|vids|), None, g)
    ensures LaidTo(plan + [p], vids, all, at + |PieceOf(p, Numbers(|vids|), None)|)
  {
    OnePiece(plan, p, Numbers(|vids|), None);
    hide Spliced, PieceOf, Wanted, Numbers;
    var before, piece := Spliced(plan, Numbers(|vids|), None), PieceOf(p, Numbers(|vids|), None);
    forall g | at <= g < at + |piece| ensures (before + piece)[g] == Wanted(vids, all, Numbers(|vids|), None, g) {
      assert (before + piece)[g] == piece[g - at];
    }
  }

  lemma GapLaid(plan: seq<Piece>, vids: seq<nat>, all: seq<nat>, at: nat, to: nat, i: nat)
    requires Within(vids, all) && LaidTo(plan, vids, all, at) && at <= to <= |all| && i <= |vids|
    requires i > 0 ==> at == PlacesOf(vids, all)[i - 1] + 1
    requires i < |vids| ==> to == PlacesOf(vids, all)[i]
    ensures LaidTo(plan + [Gap(to - at)], vids, all, to)
  {
    hide Within, LaidTo;
    forall g | at <= g < to ensures Wanted(vids, all, Numbers(|vids|), None, g) == None {
      BetweenIsNone(vids, all, i, g);
    }
    PieceLaid(plan, Gap(to - at), vids, all, at);
  }

  lemma RunLaid(plan: seq<Piece>, vids: seq<nat>, all: seq<nat>, at: nat, i: nat, j: nat)
    requires Within(vids, all) && LaidTo(plan, vids, all, at) && i < j <= |vids|
    requires var idx := PlacesOf(vids, all); at == idx[i] && forall k :: i <= k < j ==> idx[k] - k == idx[i] - i
    ensures PlacesOf(vids, all)[j - 1] + 1 == at + (j - i) <= |all|
    ensures LaidTo(plan + [Run(i, j)], vids, all, at + (j - i))
  {
    RunWanted(vids, all, at, i, j, at + (j - i) - 1);
    assert PlacesOf(vids, all)[j - 1] - (j - 1) == PlacesOf(vids, all)[i] - i;
    RunIs(|vids|, i, j);
    hide Within, LaidTo, PieceOf, Numbers, Wanted, PlacesOf;
    forall g | at <= g < at + (j - i) ensures g < |all| && Wanted(vids, all, Numbers(|vids|), None, g) == Some(g - at + i) {
      RunWanted(vids, all, at, i, j, g);
    }
    PieceLaid(plan, Run(i, j), vids, all, at);
  }

  lemma RunIs(n: nat, i: nat, j: nat)
    requires i <= j <= n
    ensures var piece := PieceOf(Run(i, j), Numbers(n), None);
            |piece| == j - i && forall x :: 0 <= x < j - i ==> piece[x] == Some(x + i)
  {
  }

  lemma RunWanted(vids: seq<nat>, all: seq<nat>, at: nat, i: nat, j: nat, g: nat)
    requires Within(vids, all) && i < j <= |vids| && at <= g < at + (j - i)
    requires var idx := PlacesOf(vids, all); at == idx[i] && forall k :: i <= k < j ==> idx[k] - k == idx[i] - i
    ensures g < |all| && Wanted(vids, all, Numbers(|vids|), None, g) == Some(g - at + i)
  {
    PlacesAscend(vids, all);
    var k := g - at + i;
    assert PlacesOf(vids, all)[k] == g && all[g] == vids[k];
    OnItsPlace(vids, k);
  }

  lemma NextPlace(vids: seq<nat>, all: seq<nat>, i: nat)
    requires Within(vids, all) && i < |vids|
    ensures PlacesOf(vids, all)[i] < |all| && (i > 0 ==> PlacesOf(vids, all)[i - 1] < PlacesOf(vids, all)[i])
  {
    PlacesAscend(vids, all);
  }

  /** The end of the run of neighbours that begins at i: idx[k] - k stays the same along it. */
  method EndOfRun(idx: seq<nat>, i: nat) returns (j: nat)
    requires i < |idx|
    ensures i < j <= |idx| && forall k :: i <= k < j ==> idx[k] - k == idx[i] - i
  {
    j := i + 1;
    while j < |idx| && idx[j] - j == idx[i] - i
      invariant i < j <= |idx|
      invariant forall k :: i <= k < j ==> idx[k] - k == idx[i] - i
    {
      j := j + 1;
    }
  }

  /** The pieces up to the end of one run: the holes in front of it, and the run. */
  method OneRun(pieces: seq<Piece>, vids: seq<nat>, all: seq<nat>, idx: seq<nat>, at: nat, i: nat) returns (more: seq<Piece>, j: nat)
    requires Within(vids, all) && i < |vids| && idx == PlacesOf(vids, all) && LaidTo(pieces, vids, all, at)
    requires at == if i == 0 then 0 else idx[i - 1] + 1
    ensures i < j <= |vids| && LaidTo(more, vids, all, idx[j - 1] + 1)
  {
    hide *;
    NextPlace(vids, all, i);
    j := EndOfRun(idx, i);
    more := pieces;
    if idx[i] > at {
      GapLaid(more, vids, all, at, idx[i], i);
      more := more + [Gap(idx[i] - at)];
    }
    RunLaid(more, vids, all, idx[i], i, j);
    more := more + [Run(i, j)];
  }

  /** _plan: runs of neighbours, and the holes between them; none when all guests are there. */
  method PlanOf(vids: seq<nat>, all: seq<nat>) returns (plan: Option<seq<Piece>>)
    requires Within(vids, all)
    ensures plan.None? <==> |vids| == |all|
    ensures plan.Some? ==> LaidTo(plan.value, vids, all, |all|)
  {
    hide *;
    if |vids| == |all| {
      return None;
    }
    var idx := PlacesOf(vids, all);
    var pieces: seq<Piece>, at, i := [], 0, 0;
    NothingLaid(vids, all);
    while i < |vids|
      invariant 0 <= i <= |vids|
      invariant at == if i == 0 then 0 else idx[i - 1] + 1
      invariant LaidTo(pieces, vids, all, at)
    {
      pieces, i := OneRun(pieces, vids, all, idx, at, i);
      at := idx[i - 1] + 1;
    }
    LaidFits(pieces, vids, all, at);
    if at < |all| {
      GapLaid(pieces, vids, all, at, |all|, i);
      pieces := pieces + [Gap(|all| - at)];
    }
    plan := Some(pieces);
  }

  lemma LaidFits(plan: seq<Piece>, vids: seq<nat>, all: seq<nat>, at: nat)
    requires LaidTo(plan, vids, all, at)
    ensures at <= |all|
  {
  }

  lemma NothingLaid(vids: seq<nat>, all: seq<nat>)
    ensures LaidTo([], vids, all, 0)
  {
  }

  // ----- any column along the plan -----

  function Fill<T>(pattern: seq<Option<nat>>, src: seq<T>, hole: T): (r: seq<T>)
    requires forall i :: 0 <= i < |pattern| && pattern[i].Some? ==> pattern[i].value < |src|
    ensures |r| == |pattern|
    ensures forall i :: 0 <= i < |r| ==> r[i] == if pattern[i].Some? then src[pattern[i].value] else hole
  {
    seq(|pattern|, i requires 0 <= i < |pattern| => if pattern[i].Some? then src[pattern[i].value] else hole)
  }

  lemma {:induction false} SplicedIsFilled<T>(plan: seq<Piece>, src: seq<T>, hole: T)
    requires PlanOk(plan, |src|)
    ensures var pattern := Spliced(plan, Numbers(|src|), None);
            (forall i :: 0 <= i < |pattern| && pattern[i].Some? ==> pattern[i].value < |src|)
            && Spliced(plan, src, hole) == Fill(pattern, src, hole)
  {
    if plan != [] {
      var n := |plan| - 1;
      SplicedIsFilled(plan[..n], src, hole);
      PieceIsFilled(plan[n], src, hole);
      var before, piece := Spliced(plan[..n], Numbers(|src|), None), PieceOf(plan[n], Numbers(|src|), None);
      assert Spliced(plan, Numbers(|src|), None) == before + piece;
      hide Spliced, PieceOf;
      FillBoth(before, piece, src, hole);
    }
  }

  lemma PieceIsFilled<T>(p: Piece, src: seq<T>, hole: T)
    requires p.Run? ==> p.first <= p.end <= |src|
    ensures var pattern := PieceOf(p, Numbers(|src|), None);
            (forall i :: 0 <= i < |pattern| && pattern[i].Some? ==> pattern[i].value < |src|)
            && PieceOf(p, src, hole) == Fill(pattern, src, hole)
  {
  }

  lemma FillBoth<T>(a: seq<Option<nat>>, b: seq<Option<nat>>, src: seq<T>, hole: T)
    requires forall i :: 0 <= i < |a| && a[i].Some? ==> a[i].value < |src|
    requires forall i :: 0 <= i < |b| && b[i].Some? ==> b[i].value < |src|
    ensures forall i :: 0 <= i < |a + b| && (a + b)[i].Some? ==> (a + b)[i].value < |src|
    ensures Fill(a + b, src, hole) == Fill(a, src, hole) + Fill(b, src, hole)
  {
  }

  lemma FullIsAll(vids: seq<nat>, all: seq<nat>)
    requires Within(vids, all) && |vids| == |all|
    ensures forall g :: 0 <= g < |all| ==> PlacesOf(vids, all)[g] == g
  {
    PlacesAscend(vids, all);
    var idx := PlacesOf(vids, all);
    ClimbsByOne(idx, |all|);
  }

  lemma {:induction false} ClimbsByOne(idx: seq<nat>, n: nat)
    requires |idx| == n && (forall i :: 0 <= i < n ==> idx[i] < n) && forall i, j :: 0 <= i < j < n ==> idx[i] < idx[j]
    ensures forall i :: 0 <= i < n ==> idx[i] == i
  {
    if n > 0 {
      AtLeast(idx, n - 1);
      var front := idx[..n - 1];
      assert forall i :: 0 <= i < n - 1 ==> front[i] == idx[i] < idx[n - 1];
      ClimbsByOne(front, n - 1);
    }
  }

  lemma {:induction false} AtLeast(idx: seq<nat>, k: nat)
    requires k < |idx| && forall i, j :: 0 <= i < j < |idx| ==> idx[i] < idx[j]
    ensures idx[k] >= k
  {
    if k > 0 {
      AtLeast(idx, k - 1);
    }
  }

  /** Laying any column out along the plan of its guests is spreading it entry by entry. */
  lemma LaidIsSpread<T>(plan: Option<seq<Piece>>, vids: seq<nat>, all: seq<nat>, src: seq<T>, hole: T)
    requires Within(vids, all) && |src| == |vids|
    requires plan.None? <==> |vids| == |all|
    requires plan.Some? ==> LaidTo(plan.value, vids, all, |all|)
    ensures Laid(plan, src, hole) == Spread(vids, all, src, hole)
  {
    var r := Laid(plan, src, hole);
    if plan.Some? {
      SplicedIsFilled(plan.value, src, hole);
    } else {
      FullIsAll(vids, all);
    }
    PlacesAscend(vids, all);
    hide Spliced, Spread;
    forall g | 0 <= g < |all| ensures r[g] == Spread(vids, all, src, hole)[g] {
      SpreadIs(vids, all, src, hole, g);
      if plan.None? {
        assert all[g] == vids[g];
        OnItsPlace(vids, g);
      } else {
        assert Spliced(plan.value, Numbers(|vids|), None)[g] == Wanted(vids, all, Numbers(|vids|), None, g);
      }
    }
  }
}
