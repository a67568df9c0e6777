/**
 A key is six numbers, a flag, code points and one more number.  `Less` compares two keys
 field by field, the first difference deciding, as Python compares tuples; `ReleaseKey` cuts a
 version's text up into a key, which `release_key` of witness_boot.py does with a regular
 expression.  The lemmas: the order is a total preorder, and what follows the numbers of a
 release can only lower its key.
 */
module Release {

  const COMPONENTS: nat := 6
  const COMPONENT_DIGITS: nat := 9

  datatype Version = Version(release: string, wire: int)

  /** plain: nothing follows the numbers.  rest holds code points, which is how text sorts. */
  datatype Key = Key(nums: seq<int>, plain: bool, rest: seq<int>, wire: int)

  predicate Digit(c: char) {
    '0' <= c <= '9'
  }

  /** How many of the first characters of s are digits, at most limit. */
  function Lead(s: string, limit: nat): (k: nat)
    ensures k <= |s| && k <= limit
    ensures forall i :: 0 <= i < k ==> Digit(s[i])
    ensures k < |s| && k < limit ==> !Digit(s[k])
    decreases limit
  {
    if s == [] || limit == 0 || !Digit(s[0]) then 0 else 1 + Lead(s[1..], limit - 1)
  }

  function Number(s: string): int {
    if s == [] then 0 else 10 * Number(s[..|s| - 1]) + (s[|s| - 1] as int - '0' as int)
  }

  datatype Scanned = Scanned(nums: seq<int>, tail: string)

  predicate GoesOn(s: string) {
    |s| >= 2 && s[0] == '.' && Digit(s[1])
  }

  /** The dotted numbers at the start of s, and what follows them. */
  function Scan(s: string, width: nat): (r: Scanned)
    requires s != [] && Digit(s[0]) && width > 0
    ensures |r.tail| < |s|
    decreases |s|
  {
    var k := Lead(s, width);
    var here := Number(s[..k]);
    var tail := s[k..];
    if GoesOn(tail) then
      var more := Scan(tail[1..], width);
      Scanned([here] + more.nums, more.tail)
    else
      Scanned([here], tail)
  }

  /** What `.*` takes: everything up to the end of the line. */
  function Line(s: string): string {
    if s == [] || s[0] == '\n' then [] else [s[0]] + Line(s[1..])
  }

  function Pad(nums: seq<int>): (r: seq<int>)
    ensures |r| == COMPONENTS
  {
    seq(COMPONENTS, i requires 0 <= i => if i < |nums| then nums[i] else 0)
  }

  function Codes(s: string): seq<int> {
    seq(|s|, i requires 0 <= i < |s| => s[i] as int)
  }

  function ReleaseKey(v: Version): Key {
    var s := v.release;
    if s != [] && Digit(s[0]) then
      var scanned := Scan(s, COMPONENT_DIGITS);
      var rest := Line(scanned.tail);
      Key(Pad(scanned.nums), rest == [], Codes(rest), v.wire)
    else
      Key(Pad([]), s == [], Codes(s), v.wire)
  }

  // ----- the order -----

  predicate LexLess(a: seq<int>, b: seq<int>) {
    b != [] && (a == [] || a[0] < b[0] || (a[0] == b[0] && LexLess(a[1..], b[1..])))
  }

  predicate Less(a: Key, b: Key) {
    || LexLess(a.nums, b.nums)
    || (a.nums == b.nums && !a.plain && b.plain)
    || (a.nums == b.nums && a.plain == b.plain && LexLess(a.rest, b.rest))
    || (a.nums == b.nums && a.plain == b.plain && a.rest == b.rest && a.wire < b.wire)
  }

  lemma {:induction false} LexTotal(a: seq<int>, b: seq<int>)
    ensures LexLess(a, b) || LexLess(b, a) || a == b
    ensures !(LexLess(a, b) && LexLess(b, a))
    ensures LexLess(a, b) ==> a != b
  {
    if a != [] && b != [] && a[0] == b[0] {
      LexTotal(a[1..], b[1..]);
      assert a == [a[0]] + a[1..] && b == [b[0]] + b[1..];
    }
  }

  lemma {:induction false} LexTransitive(a: seq<int>, b: seq<int>, c: seq<int>)
    requires LexLess(a, b) && LexLess(b, c)
    ensures LexLess(a, c)
  {
    if a != [] && a[0] == b[0] == c[0] {
      LexTransitive(a[1..], b[1..], c[1..]);
    }
  }

  /** Exactly one of: a sorts below b, b sorts below a, they are the same key. */
  lemma KeysAreOrdered(a: Key, b: Key)
    ensures Less(a, b) || Less(b, a) || a == b
    ensures !(Less(a, b) && Less(b, a))
    ensures Less(a, b) ==> a != b
  {
    LexTotal(a.nums, b.nums);
    LexTotal(a.rest, b.rest);
  }

  lemma KeysAreTransitive(a: Key, b: Key, c: Key)
    requires Less(a, b) && Less(b, c)
    ensures Less(a, c)
  {
    LexTotal(a.nums, b.nums);
    LexTotal(b.nums, c.nums);
    if LexLess(a.nums, b.nums) && LexLess(b.nums, c.nums) {
      LexTransitive(a.nums, b.nums, c.nums);
    }
    if LexLess(a.rest, b.rest) && LexLess(b.rest, c.rest) {
      LexTransitive(a.rest, b.rest, c.rest);
    }
  }

  /** Not older than is transitive: it is a total preorder on releases. */
  lemma NotOlderIsTransitive(a: Key, b: Key, c: Key)
    requires !Less(b, a) && !Less(c, b)
    ensures !Less(c, a)
  {
    KeysAreOrdered(a, b);
    KeysAreOrdered(b, c);
    KeysAreOrdered(a, c);
    if Less(a, b) && Less(b, c) {
      KeysAreTransitive(a, b, c);
    }
  }

  // ----- what the numbers mean -----

  /** r is dotted numbers of at most width digits each, and nothing else. */
  predicate Dotted(r: string, width: nat) {
    width > 0 && r != [] && Digit(r[0]) && Scan(r, width).tail == []
  }

  /** What may follow the numbers of a release without being read as one of them. */
  predicate Suffix(s: string) {
    s != [] && !Digit(s[0]) && s[0] != '\n' && !GoesOn(s)
  }

  lemma {:induction false} LeadExtends(r: string, s: string, limit: nat)
    requires s == [] || !Digit(s[0])
    ensures Lead(r + s, limit) == Lead(r, limit)
    decreases limit
  {
    if r == [] {
      assert r + s == s;
    } else if limit > 0 && Digit(r[0]) {
      assert (r + s)[1..] == r[1..] + s;
      LeadExtends(r[1..], s, limit - 1);
    }
  }

  lemma {:induction false} ScanSuffix(r: string, s: string, width: nat)
    requires Dotted(r, width) && Suffix(s)
    ensures Scan(r + s, width) == Scanned(Scan(r, width).nums, s)
    decreases |r|
  {
    var k := Lead(r, width);
    LeadExtends(r, s, width);
    assert (r + s)[..k] == r[..k];
    assert (r + s)[k..] == r[k..] + s;
    var tail := r[k..];
    if GoesOn(tail) {
      assert (tail + s)[1..] == tail[1..] + s;
      ScanSuffix(tail[1..], s, width);
    } else {
      assert tail == [];
      assert tail + s == s;
    }
  }

  /** Anything behind the numbers makes a release older, whatever the wire versions are. */
  lemma PreReleaseIsOlder(r: string, suffix: string, w: int, w': int)
    requires Dotted(r, COMPONENT_DIGITS) && Suffix(suffix)
    ensures Less(ReleaseKey(Version(r + suffix, w)), ReleaseKey(Version(r, w')))
  {
    ScanSuffix(r, suffix, COMPONENT_DIGITS);
    LexTotal(Pad(Scan(r, COMPONENT_DIGITS).nums), Pad(Scan(r, COMPONENT_DIGITS).nums));
    assert Line(suffix) != [];
  }

  lemma ZeroScans(width: nat)
    requires width > 0
    ensures Scan("0", width) == Scanned([0], [])
  {
    var s := "0";
    var k := Lead(s, width);
    assert k == 1 && s[..1] == s && s[1..] == [];
    assert s[..|s| - 1] == [];
    assert Number(s) == 10 * Number([]) + (s[0] as int - '0' as int);
  }

  lemma ScanStep(s: string, width: nat, k: nat, tail: string)
    requires s != [] && Digit(s[0]) && width > 0 && k == Lead(s, width) && tail == s[k..]
    ensures GoesOn(tail) ==>
              Scan(s, width) == Scanned([Number(s[..k])] + Scan(tail[1..], width).nums, Scan(tail[1..], width).tail)
    ensures !GoesOn(tail) ==> Scan(s, width) == Scanned([Number(s[..k])], tail)
  {
  }

  lemma LeadParts(r: string, s: string, width: nat, k: nat)
    requires Dotted(r, width) && GoesOn(s) && k == Lead(r, width)
    ensures (r + s)[..k] == r[..k] && (r + s)[k..] == r[k..] + s && Lead(r + s, width) == k
    ensures !GoesOn(r[k..]) ==> r[k..] == []
  {
    LeadExtends(r, s, width);
  }

  lemma {:induction false} ScanGoesOn(r: string, s: string, width: nat)
    requires Dotted(r, width) && GoesOn(s)
    ensures Scan(r + s, width) ==
            Scanned(Scan(r, width).nums + Scan(s[1..], width).nums, Scan(s[1..], width).tail)
    decreases |r|
  {
    hide Scan, Lead;
    var k := Lead(r, width);
    var tail := r[k..];
    LeadParts(r, s, width, k);
    ScanStep(r, width, k, tail);
    ScanStep(r + s, width, k, tail + s);
    if GoesOn(tail) {
      assert (tail + s)[1..] == tail[1..] + s;
      ScanGoesOn(tail[1..], s, width);
    } else {
      assert tail + s == s;
    }
  }

  /** A component that is not there reads as 0: '1.3' and '1.3.0' are the same release. */
  lemma MissingComponentIsZero(r: string, w: int)
    requires Dotted(r, COMPONENT_DIGITS)
    ensures ReleaseKey(Version(r + ".0", w)) == ReleaseKey(Version(r, w))
  {
    ZeroScans(COMPONENT_DIGITS);
    var zero := ".0";
    assert zero[1..] == "0" && zero[0] == '.' && Digit(zero[1]);
    ScanGoesOn(r, zero, COMPONENT_DIGITS);
    assert Pad(Scan(r, COMPONENT_DIGITS).nums + [0]) == Pad(Scan(r, COMPONENT_DIGITS).nums);
  }
}
