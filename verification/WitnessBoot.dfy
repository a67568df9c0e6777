/**
 What starts the witness (pegaprox/witness_boot.py): what it keeps on disk about its
 updates, and what each of its operations does to that, as functions on values.
 UpdatesOnDisk.dfy has the operations themselves, which change the fields in place and are
 proved equal to these functions; WitnessRuns.dfy proves what holds over whole runs.
 */
module WitnessBoot {
  import opened Wrappers
  import opened Release

  const TRIES: int := 2
  const PASSES: nat := 4
  const REMEMBERED: nat := 32
  const KEEP: nat := 2
  const LEFTOVER_AGE: int := 3600
  const BUNDLE_SUFFIX: string := ".bundle.json"

  /** The real path of a tree: the base, which lies outside the updates, or an update. */
  datatype Path = Base(at: string) | Update(name: string)

  /** A base that holds code. */
  datatype Installed = Installed(at: string, version: Version)

  /** complete: what the tree's .complete file says, "" without one. */
  datatype Entry =
    | Folder(code: Option<Version>, complete: string, mtime: int)
    | Plain(mtime: int)

  datatype Tries = Count(n: int) | NotANumber

  datatype Trial = NoTrial | Trial(path: Path, tries: Tries, up: bool, stopped: bool)

  /** health.json. */
  datatype Health = Health(ok: seq<Path>, bad: seq<Path>, trial: Trial, down: Option<Version>, same: Option<Path>)

  /** The updates directory: its entries, its two links (the name each points at), health.json,
      and the tree update.json says the witness went back from. */
  datatype Disk = Disk(files: map<string, Entry>, current: Option<string>, previous: Option<string>,
                       health: Health, failed: Option<Path>)

  const NOTHING: Disk := Disk(map[], None, None, Health([], [], NoTrial, None, None), None)

  // ----- names -----

  predicate Alnum(c: char) {
    '0' <= c <= '9' || 'a' <= c <= 'z' || 'A' <= c <= 'Z'
  }

  predicate ReleaseChar(c: char) {
    Alnum(c) || c in ".+_-"
  }

  predicate Hex(c: char) {
    '0' <= c <= '9' || 'a' <= c <= 'f'
  }

  /** NAME_RE: a release of 1 to 32 characters, a hyphen, 12 hex digits. */
  predicate TreeName(s: string) {
    && 14 <= |s| <= 45
    && Alnum(s[0])
    && (forall i :: 0 <= i < |s| - 13 ==> ReleaseChar(s[i]))
    && s[|s| - 13] == '-'
    && (forall i :: |s| - 12 <= i < |s| ==> Hex(s[i]))
  }

  /** '.tmp-' somewhere in the name: what prune takes for the leftover of an unpack. */
  predicate Temporary(s: string) {
    ".tmp-" <= s || (s != [] && Temporary(s[1..]))
  }

  predicate BundleFile(s: string) {
    |s| >= 12 && s[|s| - 12..] == BUNDLE_SUFFIX && TreeName(s[..|s| - 12])
  }

  // ----- health.json -----

  function Last<T>(s: seq<T>, n: nat): seq<T> {
    if |s| <= n then s else s[|s| - n..]
  }

  function Without<T(==, !new)>(s: seq<T>, x: T): (r: seq<T>)
    ensures |r| <= |s|
    ensures forall y :: y in r <==> y in s && y != x
  {
    if s == [] then [] else if s[0] == x then Without(s[1..], x) else [s[0]] + Without(s[1..], x)
  }

  /** What a reader of health.json gets: the last 32 of each list. */
  function Load(h: Health): Health {
    h.(ok := Last(h.ok, REMEMBERED), bad := Last(h.bad, REMEMBERED))
  }

  predicate OnTrial(h: Health, p: Path) {
    h.trial.Trial? && h.trial.path == p
  }

  function MarkedUp(d: Disk, p: Path): Disk {
    var h := Load(d.health);
    if OnTrial(h, p) && !h.trial.up then d.(health := h.(trial := h.trial.(up := true))) else d
  }

  function MarkedStopped(d: Disk, p: Path): Disk {
    var h := Load(d.health);
    if OnTrial(h, p) && h.trial.up then d.(health := h.(trial := h.trial.(stopped := true))) else d
  }

  function SpentTrial(d: Disk, p: Path): Disk {
    var h := Load(d.health);
    if OnTrial(h, p) then d.(health := h.(trial := h.trial.(tries := Count(TRIES)))) else d
  }

  function MarkedOk(d: Disk, p: Path): Disk {
    var h := Load(d.health);
    d.(health := h.(ok := if p in h.ok then h.ok else h.ok + [p],
                    bad := Without(h.bad, p),
                    trial := if OnTrial(h, p) then NoTrial else h.trial))
  }

  predicate IsBad(d: Disk, p: Path) {
    p in Load(d.health).bad
  }

  function ForgottenBad(d: Disk, p: Path): Disk {
    var h := Load(d.health);
    if p in h.bad || OnTrial(h, p) then
      d.(health := h.(bad := Without(h.bad, p), trial := if OnTrial(h, p) then NoTrial else h.trial))
    else d
  }

  function MarkedDown(d: Disk, version: Option<Version>): Disk {
    d.(health := Load(d.health).(down := version))
  }

  function MarkedSame(d: Disk, p: Path): Disk {
    d.(health := Load(d.health).(same := Some(p)))
  }

  // ----- which code runs -----

  datatype Candidate = Candidate(path: Path, version: Version)

  /** code_version of the tree called name: None when it holds no code. */
  function CodeAt(d: Disk, name: string): Option<Version> {
    if name in d.files && d.files[name].Folder? then d.files[name].code else None
  }

  function Candidates(base: Option<Installed>, d: Disk): (r: seq<Candidate>)
    ensures |r| <= 2 && (|r| == 2 ==> r[0].path.Base? && r[1].path.Update?)
  {
    (match base case Some(b) => [Candidate(Base(b.at), b.version)] case None => [])
    + (if d.current.Some? && CodeAt(d, d.current.value).Some?
       then [Candidate(Update(d.current.value), CodeAt(d, d.current.value).value)] else [])
  }

  function Usable(found: seq<Candidate>, bad: seq<Path>): (r: seq<Candidate>)
    ensures |r| <= |found|
    ensures |r| == |found| ==> r == found
    ensures forall c :: c in r <==> c in found && c.path !in bad
  {
    if found == [] then []
    else if found[0].path in bad then Usable(found[1..], bad)
    else [found[0]] + Usable(found[1..], bad)
  }

  function Previous(d: Disk, bad: seq<Path>): Option<string> {
    if d.previous.Some? && CodeAt(d, d.previous.value).Some? && Update(d.previous.value) !in bad
    then d.previous else None
  }

  /** a sorts below b: the release, then the same-release code the leader runs, then the base. */
  predicate Below(h: Health, a: Candidate, b: Candidate) {
    var ka, kb := ReleaseKey(a.version), ReleaseKey(b.version);
    var sa, sb := a.path.Update? && h.same == Some(a.path), b.path.Update? && h.same == Some(b.path);
    || Less(ka, kb)
    || (ka == kb && !sa && sb)
    || (ka == kb && sa == sb && !a.path.Base? && b.path.Base?)
  }

  function Highest(h: Health, best: Candidate, rest: seq<Candidate>): (r: Candidate)
    ensures r == best || r in rest
    decreases |rest|
  {
    if rest == [] then best
    else Highest(h, if Below(h, best, rest[0]) then rest[0] else best, rest[1..])
  }

  /** The updates candidate that update --to-leader holds. */
  function HeldDown(h: Health, found: seq<Candidate>): (r: Option<Candidate>)
    ensures r.Some? ==> r.value in found && h.down == Some(r.value.version)
  {
    if found == [] then None
    else if found[0].path.Update? && h.down == Some(found[0].version) then Some(found[0])
    else HeldDown(h, found[1..])
  }

  function Best(h: Health, usable: seq<Candidate>): (r: Candidate)
    requires usable != []
    ensures r in usable
  {
    var held := HeldDown(h, usable);
    if held.Some? then held.value else Highest(h, usable[0], usable[1..])
  }

  /** How many starts the trial of p has behind it. */
  function Tried(t: Trial, p: Path): int {
    if !t.Trial? || t.path != p then 0
    else match t.tries
      case NotANumber => TRIES
      case Count(n) => if t.up && t.stopped then (if n > 0 then n - 1 else 0) else n
  }

  function GoneBack(d: Disk, bad: seq<Path>): Disk {
    match Previous(d, bad)
    case Some(p) => d.(current := Some(p), previous := None)
    case None => d.(current := None)
  }

  datatype Why = EverythingFailed | ForACommand | Settled | StartsTrial | CannotCount

  datatype Chosen =
    | Runs(path: Path, trial: bool, why: Why, disk: Disk)
    | NoCode(disk: Disk)
    | NothingComesUp

  datatype Pass = Ends(chosen: Chosen) | Again(disk: Disk, health: Health)

  /** What a command runs while the update in place is on trial. */
  function RanBefore(prev: Option<string>, usable: seq<Candidate>, ok: seq<Path>): Path
    requires prev.Some? || (usable != [] && usable[0].path.Base?)
  {
    if prev.Some? && Update(prev.value) in ok then Update(prev.value)
    else if usable != [] && usable[0].path.Base? then usable[0].path
    else Update(prev.value)
  }

  /** The record of the tree p that did not come up: marked bad, gone back from. */
  function Failed(d: Disk, h: Health, p: Path, saves: bool): Pass {
    var bad := h.bad + [p];
    var same := if p.Update? && h.same == Some(p) then
                  (match Previous(d, bad) case Some(n) => Some(Update(n)) case None => None)
                else h.same;
    var h' := h.(bad := bad, trial := NoTrial, same := same);
    var d' := if p.Update? then GoneBack(d, bad) else d;
    Again(d'.(health := if saves then h' else d.health, failed := Some(p)), h')
  }

  /** One round of the loop of `choose`.  saves: health.json can be written. */
  function OnePass(base: Option<Installed>, d: Disk, h: Health, counting: bool, saves: bool): Pass {
    var found := Candidates(base, d);
    if found == [] then Ends(NoCode(d)) else
    var usable := Usable(found, h.bad);
    if usable == [] then Ends(Runs(found[0].path, false, EverythingFailed, d)) else
    var best := Best(h, usable).path;
    var prev := if best.Update? then Previous(d, h.bad) else None;
    var others := |usable| > 1 || prev.Some?;
    if !counting && best.Update? && best !in h.ok && others then
      Ends(Runs(RanBefore(prev, usable, h.ok), false, ForACommand, d))
    else if !counting || best in h.ok || !others then
      Ends(Runs(best, false, Settled, d))
    else
      var tries := Tried(h.trial, best);
      if tries >= TRIES then
        Failed(d, h, best, saves)
      else if saves then
        Ends(Runs(best, true, StartsTrial, d.(health := h.(trial := Trial(best, Count(tries + 1), false, false)))))
      else
        Ends(Runs(best, false, CannotCount, d))
  }

  function ChooseFrom(base: Option<Installed>, d: Disk, h: Health, counting: bool, saves: bool, passes: nat): Chosen
    decreases passes
  {
    if passes == 0 then NothingComesUp
    else match OnePass(base, d, h, counting, saves)
      case Ends(chosen) => chosen
      case Again(d', h') => ChooseFrom(base, d', h', counting, saves, passes - 1)
  }

  function Choose(base: Option<Installed>, d: Disk, counting: bool, saves: bool): Chosen {
    ChooseFrom(base, d, Load(d.health), counting, saves, PASSES)
  }

  // ----- the updates themselves -----

  /** A checked bundle: what its manifest names, and the code in its archive. */
  datatype Bundle = Bundle(release: string, digest: string, version: Version)

  function NameOf(b: Bundle): string {
    b.release + "-" + (if |b.digest| >= 12 then b.digest[..12] else b.digest)
  }

  function InstalledBundle(d: Disk, b: Bundle, now: int): Disk {
    var name := NameOf(b);
    if name in d.files && d.files[name].Folder? && d.files[name].complete == b.digest && CodeAt(d, name).Some? then d
    else d.(files := d.files[name := Folder(Some(b.version), b.digest, now)])
  }

  /** The two links after an update to name; previous changes only for a directory of another name. */
  function Switched(d: Disk, name: string): Disk {
    if d.current.Some? && d.current.value in d.files && d.files[d.current.value].Folder? && d.current.value != name
    then d.(previous := d.current, current := Some(name))
    else d.(current := Some(name))
  }

  function Held(d: Disk): set<string> {
    (if d.current.Some? then {d.current.value} else {}) + (if d.previous.Some? then {d.previous.value} else {})
  }

  predicate OldLeftover(files: map<string, Entry>, now: int, n: string) {
    n in files && Temporary(n) && files[n].Folder? && now - files[n].mtime > LEFTOVER_AGE
  }

  predicate Prunable(files: map<string, Entry>, held: set<string>, now: int, n: string) {
    n in files && !OldLeftover(files, now, n) && TreeName(n) && n !in held
  }

  /** a sorts before b: by time, then by name. */
  predicate Earlier(files: map<string, Entry>, a: string, b: string)
    requires a in files && b in files
  {
    files[a].mtime < files[b].mtime || (files[a].mtime == files[b].mtime && LexLess(Codes(a), Codes(b)))
  }

  function Newer(files: map<string, Entry>, held: set<string>, now: int, n: string): set<string>
    requires n in files
  {
    set m | m in files && Prunable(files, held, now, m) && Earlier(files, n, m)
  }

  /** prune takes the tree n: an old leftover, or a version with keep newer ones besides it. */
  predicate Goes(files: map<string, Entry>, held: set<string>, now: int, keep: nat, n: string)
    requires n in files
  {
    || OldLeftover(files, now, n)
    || (Prunable(files, held, now, n) && files[n].Folder? && |Newer(files, held, now, n)| >= keep)
  }

  function TreesKept(files: map<string, Entry>, held: set<string>, now: int, keep: nat): map<string, Entry> {
    map n | n in files && !Goes(files, held, now, keep, n) :: files[n]
  }

  predicate Orphaned(kept: map<string, Entry>, n: string)
    requires n in kept
  {
    BundleFile(n) && kept[n].Plain?
    && !(n[..|n| - 12] in kept && kept[n[..|n| - 12]].Folder?)
  }

  function BundlesKept(kept: map<string, Entry>): map<string, Entry> {
    map n | n in kept && !Orphaned(kept, n) :: kept[n]
  }

  function Pruned(d: Disk, now: int, keep: nat): Disk {
    d.(files := BundlesKept(TreesKept(d.files, Held(d), now, keep)))
  }

  datatype Taken = Refused | Took(disk: Disk)

  /** _update_from, after the bundle was checked.  mine: the code that runs. */
  function TakeUpdate(d: Disk, b: Bundle, retry: bool, toLeader: bool, mine: Version, now: int): Taken {
    var name := NameOf(b);
    if IsBad(d, Update(name)) && !retry then Refused else
    var d1 := if IsBad(d, Update(name)) then ForgottenBad(d, Update(name)) else d;
    var d2 := InstalledBundle(d1, b, now);
    var d3 := d2.(files := d2.files[name + BUNDLE_SUFFIX := Plain(now)]);
    var d4 := Switched(d3, name);
    var d5 := MarkedDown(d4, if toLeader then CodeAt(d4, name) else None);
    var d6 := if ReleaseKey(b.version) == ReleaseKey(mine) then MarkedSame(d5, Update(name)) else d5;
    Took(Pruned(d6, now, KEEP))
  }
}
