/** How written releases sort: number by number, then by what follows the numbers, then by wire. */
module ReleaseNumbers {
  import opened Release

  // ----- numbers, written -----

  function DigitOf(d: nat): char
    requires d < 10
  {
    ('0' as int + d) as char
  }

  /** n in decimal. */
  function Decimal(n: nat): (s: string)
    ensures s != []
  {
    if n < 10 then [DigitOf(n)] else Decimal(n / 10) + [DigitOf(n % 10)]
  }

  /** A release, of its numbers. */
  function Written(nums: seq<nat>): (s: string)
    requires nums != []
    ensures s != []
  {
    if |nums| == 1 then Decimal(nums[0]) else Decimal(nums[0]) + "." + Written(nums[1..])
  }

  predicate NineDigits(nums: seq<nat>) {
    forall i :: 0 <= i < |nums| ==> nums[i] < 1_000_000_000
  }

  function TenTo(k: nat): nat {
    if k == 0 then 1 else 10 * TenTo(k - 1)
  }

  lemma {:induction false} DecimalReads(n: nat)
    ensures Number(Decimal(n)) == n
    ensures forall i :: 0 <= i < |Decimal(n)| ==> Digit(Decimal(n)[i])
  {
    if n >= 10 {
      DecimalReads(n / 10);
      var s := Decimal(n);
      assert s[..|s| - 1] == Decimal(n / 10);
    } else {
      assert Decimal(n)[..0] == [];
      assert Number([]) == 0;
    }
  }

  lemma {:induction false} DecimalIsShort(n: nat, k: nat)
    requires n < TenTo(k) && k > 0
    ensures |Decimal(n)| <= k
  {
    if n >= 10 {
      assert k > 1 && TenTo(k) == 10 * TenTo(k - 1);
      DecimalIsShort(n / 10, k - 1);
    }
  }

  lemma NineIs()
    ensures TenTo(9) == 1_000_000_000
  {
    assert TenTo(3) == 1000;
    assert TenTo(6) == 1000000;
  }

  lemma {:induction false} LeadAll(s: string, tail: string, width: nat)
    requires |s| <= width && (forall i :: 0 <= i < |s| ==> Digit(s[i])) && (tail == [] || !Digit(tail[0]))
    ensures Lead(s + tail, width) == |s|
    decreases |s|
  {
    if s == [] {
      assert s + tail == tail;
    } else {
      assert (s + tail)[1..] == s[1..] + tail;
      LeadAll(s[1..], tail, width - 1);
    }
  }

  /** The numbers are read, and what follows them is left. */
  lemma {:induction false} WrittenScans(nums: seq<nat>, tail: string)
    requires nums != [] && NineDigits(nums) && (tail == [] || (!Digit(tail[0]) && !GoesOn(tail)))
    ensures Written(nums) + tail != [] && Digit((Written(nums) + tail)[0]) && Digit(Written(nums)[0])
    ensures Scan(Written(nums) + tail, 9) == Scanned(nums, tail)
  {
    hide Scan, Lead, Decimal, Number;
    var one := Decimal(nums[0]);
    DecimalReads(nums[0]);
    NineIs();
    DecimalIsShort(nums[0], 9);
    if |nums| == 1 {
      LeadAll(one, tail, 9);
      assert (one + tail)[..|one|] == one && (one + tail)[|one|..] == tail;
      ScanStep(one + tail, 9, |one|, tail);
      assert [Number(one)] == nums;
    } else {
      var more := Written(nums[1..]) + tail;
      WrittenScans(nums[1..], tail);
      var rest := "." + more;
      assert Written(nums) + tail == one + rest;
      LeadAll(one, rest, 9);
      assert (one + rest)[..|one|] == one && (one + rest)[|one|..] == rest;
      assert rest[1..] == more && rest[1] == Written(nums[1..])[0];
      ScanStep(one + rest, 9, |one|, rest);
      assert [nums[0]] + nums[1..] == nums;
    }
  }

  // ----- the order -----

  /** The i-th number of a release, 0 where it has none. */
  function Nth(nums: seq<nat>, i: nat): nat {
    if i < |nums| then nums[i] else 0
  }

  /** The first of six numbers in which they differ is less in a. */
  predicate LowerNumbers(a: seq<nat>, b: seq<nat>) {
    exists i :: 0 <= i < 6 && Nth(a, i) < Nth(b, i) && forall j :: 0 <= j < i ==> Nth(a, j) == Nth(b, j)
  }

  predicate SameNumbers(a: seq<nat>, b: seq<nat>) {
    forall i :: 0 <= i < 6 ==> Nth(a, i) == Nth(b, i)
  }

  /** Text sorts by code points, a beginning before what goes on. */
  predicate LowerText(s: string, t: string) {
    exists i :: 0 <= i <= |s| && i < |t| && s[..i] == t[..i] && (i == |s| || s[i] < t[i])
  }

  lemma {:induction false} LexLessIff(a: seq<int>, b: seq<int>)
    ensures LexLess(a, b) <==> exists i :: 0 <= i <= |a| && i < |b| && a[..i] == b[..i] && (i == |a| || a[i] < b[i])
  {
    FirstsAgree(a, b);
    if b != [] && a != [] && a[0] == b[0] {
      LexLessIff(a[1..], b[1..]);
      if i :| 0 <= i <= |a[1..]| && i < |b[1..]| && a[1..][..i] == b[1..][..i] && (i == |a[1..]| || a[1..][i] < b[1..][i]) {
        assert a[..i + 1] == [a[0]] + a[1..][..i] && b[..i + 1] == [b[0]] + b[1..][..i];
        assert i + 1 <= |a|;
      }
      if i :| 0 <= i <= |a| && i < |b| && a[..i] == b[..i] && (i == |a| || a[i] < b[i]) {
        assert i > 0 && a[1..][..i - 1] == a[..i][1..] && b[1..][..i - 1] == b[..i][1..];
      }
    } else {
      assert a[..0] == b[..0];
    }
  }

  lemma FirstsAgree(a: seq<int>, b: seq<int>)
    ensures forall i :: 0 < i <= |a| && i < |b| && a[..i] == b[..i] ==> a[0] == b[0]
  {
    forall i | 0 < i <= |a| && i < |b| && a[..i] == b[..i] ensures a[0] == b[0] {
      assert a[..i][0] == b[..i][0];
    }
  }

  lemma NumbersIff(a: seq<nat>, b: seq<nat>)
    ensures LexLess(Pad(a), Pad(b)) <==> LowerNumbers(a, b)
    ensures Pad(a) == Pad(b) <==> SameNumbers(a, b)
  {
    var x, y := Pad(a), Pad(b);
    LexLessIff(x, y);
    assert forall i :: 0 <= i < 6 ==> x[i] == Nth(a, i) && y[i] == Nth(b, i);
    if i :| 0 <= i <= |x| && i < |y| && x[..i] == y[..i] && (i == |x| || x[i] < y[i]) {
      assert forall j :: 0 <= j < i ==> x[j] == x[..i][j] && y[j] == y[..i][j];
    }
    if i :| 0 <= i < 6 && Nth(a, i) < Nth(b, i) && forall j :: 0 <= j < i ==> Nth(a, j) == Nth(b, j) {
      assert x[..i] == y[..i];
    }
  }

  lemma TextIff(s: string, t: string)
    ensures LexLess(Codes(s), Codes(t)) <==> LowerText(s, t)
    ensures Codes(s) == Codes(t) <==> s == t
  {
    var x, y := Codes(s), Codes(t);
    LexLessIff(x, y);
    if x == y {
      assert forall i :: 0 <= i < |s| ==> s[i] as int == x[i] && t[i] as int == y[i];
      assert s == t;
    }
    if i :| 0 <= i <= |x| && i < |y| && x[..i] == y[..i] && (i == |x| || x[i] < y[i]) {
      forall j | 0 <= j < i ensures s[j] == t[j] {
        assert x[..i][j] == y[..i][j];
        assert s[j] as int == t[j] as int;
      }
      assert s[..i] == t[..i];
    }
    if i :| 0 <= i <= |s| && i < |t| && s[..i] == t[..i] && (i == |s| || s[i] < t[i]) {
      forall j | 0 <= j < i ensures x[j] == y[j] {
        assert s[..i][j] == t[..i][j];
      }
      assert x[..i] == y[..i];
    }
  }

  /** What may follow the numbers of a release: not a digit first, nor a dot and a digit; one line. */
  predicate Follows(suffix: string) {
    (suffix != [] ==> !Digit(suffix[0]) && !GoesOn(suffix)) && '\n' !in suffix
  }

  lemma {:induction false} WholeLine(s: string)
    requires '\n' !in s
    ensures Line(s) == s
  {
    if s != [] {
      WholeLine(s[1..]);
      assert s == [s[0]] + s[1..];
    }
  }

  lemma KeyOfWritten(nums: seq<nat>, suffix: string, wire: int)
    requires nums != [] && NineDigits(nums) && Follows(suffix)
    ensures ReleaseKey(Version(Written(nums) + suffix, wire)) == Key(Pad(nums), suffix == [], Codes(suffix), wire)
  {
    WrittenScans(nums, suffix);
    WholeLine(suffix);
    hide Scan;
  }

  /** A release sorts below another exactly when the first of their six numbers that differ is less;
      or, with the same numbers, when it alone has something behind them, or what it has sorts
      below; or, with the same text too, when its wire version is less. */
  lemma ReleasesSort(a: seq<nat>, s: string, w: int, b: seq<nat>, t: string, v: int)
    requires a != [] && NineDigits(a) && Follows(s) && b != [] && NineDigits(b) && Follows(t)
    ensures Less(ReleaseKey(Version(Written(a) + s, w)), ReleaseKey(Version(Written(b) + t, v))) <==>
              || LowerNumbers(a, b)
              || (SameNumbers(a, b) && s != "" && t == "")
              || (SameNumbers(a, b) && (s == "" <==> t == "") && LowerText(s, t))
              || (SameNumbers(a, b) && s == t && w < v)
  {
    hide ReleaseKey, Pad, Codes, LexLess, LowerNumbers, SameNumbers, LowerText;
    KeyOfWritten(a, s, w);
    KeyOfWritten(b, t, v);
    NumbersIff(a, b);
    TextIff(s, t);
  }
}
