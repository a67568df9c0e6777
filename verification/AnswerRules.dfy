/**
 The rules of the answer file that the guided setup and the check share
 (pegaprox/api/auto_install.py).  The patterns that only regular expressions or ipaddress
 decide are parameters.
 */
module AnswerRules {
  import opened Wrappers

  /** Whole-string patterns: _TZ_RE, _EMAIL_RE, _CRYPT_RE, _SSH_KEY_RE, _MAC_GLOB_RE, _GLOB_RE,
      and the two that end in ipaddress. */
  datatype Patterns = Patterns(
    timezone: string -> bool, mail: string -> bool, crypt: string -> bool, sshKey: string -> bool,
    macGlob: string -> bool, glob: string -> bool, cidr: string -> bool, ip: string -> bool)

  const KEYBOARDS: seq<string> := ["de", "de-ch", "dk", "en-gb", "en-us", "es", "fi", "fr", "fr-be", "fr-ca", "fr-ch",
                                   "hu", "is", "it", "jp", "lt", "mk", "nl", "no", "pl", "pt", "pt-br", "se", "si", "tr"]

  const MAX_FIELD: nat := 255
  const MAX_SSH_KEYS: nat := 50
  const MAX_SSH_KEY: nat := 16384
  const MAX_DISKS: nat := 64
  const MAX_ANSWER: nat := 262144

  predicate Alnum(c: char) {
    '0' <= c <= '9' || 'a' <= c <= 'z' || 'A' <= c <= 'Z'
  }

  predicate Unprintable(s: string) {
    exists i :: 0 <= i < |s| && (s[i] < ' ' || s[i] == '\U{7f}')
  }

  predicate KeyboardOk(s: string) {
    s in KEYBOARDS
  }

  predicate CountryOk(s: string) {
    |s| == 2 && 'a' <= s[0] <= 'z' && 'a' <= s[1] <= 'z'
  }

  predicate TimezoneOk(p: Patterns, s: string) {
    p.timezone(s) && !("Etc/" <= s)
  }

  predicate MailOk(p: Patterns, s: string) {
    p.mail(s) && s != "mail@example.invalid"
  }

  predicate Label(s: string) {
    && 1 <= |s| <= 63 && Alnum(s[0]) && Alnum(s[|s| - 1])
    && forall i :: 0 <= i < |s| ==> Alnum(s[i]) || s[i] == '-'
  }

  function Labels(s: string): (r: seq<string>)
    ensures r != []
  {
    if s == [] then [[]]
    else
      var rest := Labels(s[1..]);
      if s[0] == '.' then [[]] + rest else [[s[0]] + rest[0]] + rest[1..]
  }

  predicate AllDigits(s: string) {
    forall i :: 0 <= i < |s| ==> '0' <= s[i] <= '9'
  }

  /** host: a whole name; without it only a domain. */
  predicate FqdnOk(s: string, host: bool) {
    var labels := Labels(s);
    && |s| <= 253
    && (forall i :: 0 <= i < |labels| ==> Label(labels[i]))
    && (host ==> |labels| >= 2 && !AllDigits(labels[0]))
  }

  datatype Filesystem = Ext4 | Xfs | Zfs | Btrfs

  function Filesystems(s: string): Option<Filesystem> {
    if s == "ext4" then Some(Ext4) else if s == "xfs" then Some(Xfs)
    else if s == "zfs" then Some(Zfs) else if s == "btrfs" then Some(Btrfs) else None
  }

  function NameOf(fs: Filesystem): string {
    match fs case Ext4 => "ext4" case Xfs => "xfs" case Zfs => "zfs" case Btrfs => "btrfs"
  }

  /** The one options table a filesystem may carry. */
  function OptionsOf(fs: Filesystem): string {
    match fs case Ext4 => "lvm" case Xfs => "lvm" case Zfs => "zfs" case Btrfs => "btrfs"
  }

  predicate HasRaid(fs: Filesystem) {
    fs == Zfs || fs == Btrfs
  }

  /** The least number of disks of a raid level, None for a level the filesystem does not have. */
  function RaidMin(fs: Filesystem, level: string): Option<nat> {
    if !HasRaid(fs) then None
    else if level == "raid0" then Some(1)
    else if level == "raid1" then Some(2)
    else if level == "raid10" then Some(4)
    else if fs == Zfs && level == "raidz-1" then Some(3)
    else if fs == Zfs && level == "raidz-2" then Some(4)
    else if fs == Zfs && level == "raidz-3" then Some(5)
    else None
  }

  function Lower(s: string): string {
    seq(|s|, i requires 0 <= i < |s| => if 'A' <= s[i] <= 'Z' then ((s[i] as int) + 32) as char else s[i])
  }

  function Upper(s: string): string {
    seq(|s|, i requires 0 <= i < |s| => if 'a' <= s[i] <= 'z' then ((s[i] as int) - 32) as char else s[i])
  }

  /** _raid_level: the level in lower case, if it is written all lower or all upper and is one. */
  function RaidLevel(fs: Filesystem, s: string): Option<string> {
    if s != Lower(s) && s != Upper(s) then None
    else if RaidMin(fs, Lower(s)).Some? then Some(Lower(s)) else None
  }

  predicate Distinct(s: seq<string>) {
    forall i, j :: 0 <= i < j < |s| ==> s[i] != s[j]
  }

  /** _disk_list_problem: no problem. */
  predicate DiskListOk(fs: Option<Filesystem>, level: Option<string>, disks: seq<string>) {
    && Distinct(disks)
    && (fs == Some(Ext4) || fs == Some(Xfs) ==> |disks| <= 1)
    && (fs.Some? && level.Some? && RaidMin(fs.value, level.value).Some? ==>
          |disks| >= RaidMin(fs.value, level.value).value && (level.value == "raid10" ==> |disks| % 2 == 0))
  }

  predicate DiskChar(c: char) {
    Alnum(c) || c in "_.:-/"
  }

  predicate DiskName(s: string) {
    1 <= |s| <= 64 && Alnum(s[0]) && forall i :: 0 <= i < |s| ==> DiskChar(s[i])
  }

  predicate DiskPath(s: string) {
    "disk/" <= (if "/dev/" <= s then s[5..] else s)
  }
}
