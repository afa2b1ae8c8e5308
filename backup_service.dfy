/** The retention logic of the backup service: the file name a backup gets, the
    filter and sort of `listBackups`, the deletions of `cleanupOldBackups`, and the
    results of `createBackup` and `restoreBackup`. The backup directory is a class
    whose state maps each file name to its modification time; running `mongodump`
    and `mongorestore` is an input outcome. */
module BackupService {
  import opened Wrappers
  import opened Text
  import opened Jwt
  import opened UserModel
  import opened Calendar
  import opened Seqs

  const MAX_BACKUPS: nat := 10
  const BACKUP_RETENTION_DAYS: nat := 30

  // ---------------------------------------------------------------- names

  /** `backup-${new Date().toISOString().replace(/[:.]/g, '-')}.gz` */
  function BackupName(d: DateTime): string {
    "backup-" + ReplaceChars(IsoString(d), {':', '.'}, '-') + ".gz"
  }

  /** The message of the error `fs.statSync` throws for a missing backup. Node names
      the full path, `BACKUP_DIR` joined with the file name; the directory part
      depends on where the server is installed and is left out here. */
  function StatMissing(fileName: string): string {
    "ENOENT: no such file or directory, stat '" + fileName + "'"
  }

  /** The filter of `listBackups` and `cleanupOldBackups`. */
  predicate IsBackupName(name: string) {
    StartsWith(name, "backup-") && EndsWith(name, ".gz")
  }

  /** Every name a backup gets passes the listing filter; it is 34 characters long
      (37 for a year past 9999, which has the expanded form) and its middle is the ISO text of the date with no ':' and no '.' left. */
  lemma BackupNameShape(d: DateTime)
    ensures IsBackupName(BackupName(d))
    ensures |BackupName(d)| == if d.year <= 9999 then 34 else 37
    ensures var name := BackupName(d);
      name[7..|name| - 3] == ReplaceChars(IsoString(d), {':', '.'}, '-') &&
      forall i :: 7 <= i < |name| - 3 ==> name[i] != ':' && name[i] != '.'
  {
    PaddedLength(d.year, 4);
    PaddedLength(d.year, 6);
    PaddedLength(d.month, 2);
    PaddedLength(d.day, 2);
    PaddedLength(d.hour, 2);
    PaddedLength(d.minute, 2);
    PaddedLength(d.second, 2);
    PaddedLength(d.millis, 3);
    var name := BackupName(d);
    var r := ReplaceChars(IsoString(d), {':', '.'}, '-');
    assert name == "backup-" + r + ".gz";
    assert name[..7] == "backup-";
    assert name[|name| - 3..] == ".gz";
    assert name[7..|name| - 3] == r;
  }

  // ---------------------------------------------------------------- listing and sorting

  /** A backup as the listing sees it: its file name and modification time. */
  datatype BackupFile = BackupFile(fileName: string, createdAt: int)

  function Names(s: seq<BackupFile>): (r: seq<string>)
    ensures |r| == |s| && forall i :: 0 <= i < |s| ==> r[i] == s[i].fileName
  {
    seq(|s|, i requires 0 <= i < |s| => s[i].fileName)
  }

  /** What `readdirSync` returns: every file of the directory once, in some order. */
  predicate Enumerates(listing: seq<string>, mtimes: map<string, int>) {
    (forall n :: n in listing ==> n in mtimes) && (forall n :: n in mtimes ==> n in listing) && Distinct(listing)
  }

  /** `files.filter(isBackupName).map(file => ({ fileName, createdAt: mtime }))` */
  function Listed(listing: seq<string>, mtimes: map<string, int>): (r: seq<BackupFile>)
    requires forall i :: 0 <= i < |listing| ==> listing[i] in mtimes
    ensures forall i :: 0 <= i < |r| ==>
      IsBackupName(r[i].fileName) && r[i].fileName in listing && r[i].createdAt == mtimes[r[i].fileName]
    ensures forall n :: n in listing && IsBackupName(n) ==> n in Names(r)
    ensures multiset(Names(r)) <= multiset(listing)
    decreases |listing|
  {
    if listing == [] then []
    else
      var rest := Listed(listing[1..], mtimes);
      var head := if IsBackupName(listing[0]) then [BackupFile(listing[0], mtimes[listing[0]])] else [];
      assert listing == [listing[0]] + listing[1..];
      NamesAppend(head, rest);
      assert multiset(Names(head)) <= multiset([listing[0]]);
      head + rest
  }

  lemma NamesAppend(a: seq<BackupFile>, b: seq<BackupFile>)
    ensures Names(a + b) == Names(a) + Names(b)
  {
  }

  function CreatedAt(b: BackupFile): int {
    b.createdAt
  }

  /** Sorted by modification time: newest first is the comparator
      `b.createdAt - a.createdAt`, oldest first `a.createdAt - b.createdAt`. */
  predicate SortedBy(s: seq<BackupFile>, newestFirst: bool) {
    SortedOn(s, CreatedAt, newestFirst)
  }

  /** `.sort(comparator)`: the same files, ordered. */
  function SortBy(s: seq<BackupFile>, newestFirst: bool): seq<BackupFile> {
    SortOn(s, CreatedAt, newestFirst)
  }

  // ---------------------------------------------------------------- distinct names

  /** No two backups of the list share a file name. */
  predicate DistinctNames(s: seq<BackupFile>) {
    forall i, j :: 0 <= i < j < |s| ==> s[i].fileName != s[j].fileName
  }

  /** A list of backups sorted from a directory listing names every file at most
      once. */
  lemma SortedListingDistinct(listing: seq<string>, mtimes: map<string, int>, newestFirst: bool)
    requires Enumerates(listing, mtimes)
    ensures DistinctNames(SortBy(Listed(listing, mtimes), newestFirst))
  {
    var l := Listed(listing, mtimes);
    var names := Names(l);
    forall x | x in names ensures multiset(names)[x] <= 1 {
      assert multiset(names)[x] <= multiset(listing)[x];
    }
    DistinctIndices(names);
    DistinctOfIndices(l);
    var b := SortBy(l, newestFirst);
    assert forall x :: x in b ==> multiset(b)[x] <= 1 by {
      forall x | x in b ensures multiset(b)[x] <= 1 {
        assert x in multiset(l);
      }
    }
    DistinctIndices(b);
    forall i, j | 0 <= i < j < |b| ensures b[i].fileName != b[j].fileName {
      assert b[i] in multiset(l) && b[j] in multiset(l);
    }
  }

  // ---------------------------------------------------------------- retention

  /** `backups.filter(backup => backup.createdAt < cutoffDate)` */
  function OlderThan(s: seq<BackupFile>, cutoff: int): (r: seq<BackupFile>)
    ensures |r| <= |s|
    decreases |s|
  {
    if s == [] then [] else (if s[0].createdAt < cutoff then [s[0]] else []) + OlderThan(s[1..], cutoff)
  }

  lemma {:induction false} NoneOlder(s: seq<BackupFile>, cutoff: int)
    requires forall i :: 0 <= i < |s| ==> s[i].createdAt >= cutoff
    ensures OlderThan(s, cutoff) == []
    decreases |s|
  {
    if s != [] {
      NoneOlder(s[1..], cutoff);
    }
  }

  /** In a list sorted oldest first the backups past the cutoff form a prefix; every
      backup after it is at or after the cutoff. */
  lemma {:induction false} OldBackupsArePrefix(s: seq<BackupFile>, cutoff: int)
    requires SortedBy(s, false)
    ensures OlderThan(s, cutoff) == s[..|OlderThan(s, cutoff)|]
    ensures forall i :: 0 <= i < |OlderThan(s, cutoff)| ==> s[i].createdAt < cutoff
    ensures forall i :: |OlderThan(s, cutoff)| <= i < |s| ==> s[i].createdAt >= cutoff
    decreases |s|
  {
    if s != [] {
      OldBackupsArePrefix(s[1..], cutoff);
      if s[0].createdAt >= cutoff {
        assert forall i :: 0 <= i < |s[1..]| ==> s[1..][i].createdAt >= s[0].createdAt;
        NoneOlder(s[1..], cutoff);
      } else {
        var k := |OlderThan(s[1..], cutoff)|;
        assert OlderThan(s, cutoff) == [s[0]] + s[1..][..k];
        assert [s[0]] + s[1..][..k] == s[..k + 1];
      }
    }
  }

  /** `fs.unlinkSync` applied to each name in turn; the first name that is not there
      throws, and the names after it are not reached. The flag says whether every
      unlink succeeded. */
  function UnlinkAll(m: map<string, int>, names: seq<string>): (map<string, int>, bool)
    decreases |names|
  {
    if names == [] then (m, true)
    else if names[0] in m then UnlinkAll(m - {names[0]}, names[1..])
    else (m, false)
  }

  /** The file names of `s[from..to]`. */
  function NamesIn(s: seq<BackupFile>, from: nat, to: nat): set<string>
    requires from <= to <= |s|
  {
    set i | from <= i < to :: s[i].fileName
  }

  /** Unlinking distinct names that are all present removes exactly them. */
  lemma {:induction false} UnlinkRangeAll(m: map<string, int>, s: seq<BackupFile>, from: nat, to: nat)
    requires from <= to <= |s| && DistinctNames(s)
    requires forall i :: from <= i < to ==> s[i].fileName in m
    ensures UnlinkAll(m, Names(s[from..to])) == (m - NamesIn(s, from, to), true)
    decreases (to as int) - (from as int)
  {
    var names := Names(s[from..to]);
    if from == to {
      assert names == [];
      assert NamesIn(s, from, to) == {};
      assert m - {} == m;
    } else {
      assert names[0] == s[from].fileName;
      assert names[1..] == Names(s[from + 1..to]);
      UnlinkRangeAll(m - {s[from].fileName}, s, from + 1, to);
      assert NamesIn(s, from, to) == {s[from].fileName} + NamesIn(s, from + 1, to);
      assert m - {s[from].fileName} - NamesIn(s, from + 1, to) == m - NamesIn(s, from, to);
    }
  }

  /** The 30 days before now, on a clock in milliseconds. */
  function Cutoff(now: int): int {
    now - (BACKUP_RETENTION_DAYS * DAY) as int
  }

  /** What a correct listing of the directory `m` gives the cleanup: the backups
      sorted oldest first, each with its modification time, none twice. */
  predicate RetentionInput(m: map<string, int>, backups: seq<BackupFile>) {
    SortedBy(backups, false) && DistinctNames(backups)
    && forall i :: 0 <= i < |backups| ==> backups[i].fileName in m && m[backups[i].fileName] == backups[i].createdAt
  }

  /** The sorted list built from a directory listing holds exactly the backup files,
      each once, with their modification times. */
  lemma SortedListing(listing: seq<string>, m: map<string, int>, newestFirst: bool)
    requires Enumerates(listing, m)
    ensures var b := SortBy(Listed(listing, m), newestFirst);
      SortedBy(b, newestFirst) && DistinctNames(b) &&
      (forall i :: 0 <= i < |b| ==> IsBackupName(b[i].fileName) && b[i].fileName in m && b[i].createdAt == m[b[i].fileName]) &&
      (forall n :: n in m && IsBackupName(n) ==> n in Names(b))
  {
    SortedListingDistinct(listing, m, newestFirst);
    var l := Listed(listing, m);
    PermutationKeepsFiles(l, SortBy(l, newestFirst), m);
  }

  lemma PermutationKeepsFiles(l: seq<BackupFile>, b: seq<BackupFile>, m: map<string, int>)
    requires multiset(b) == multiset(l)
    requires forall i :: 0 <= i < |l| ==> IsBackupName(l[i].fileName) && l[i].fileName in m && l[i].createdAt == m[l[i].fileName]
    ensures forall i :: 0 <= i < |b| ==> IsBackupName(b[i].fileName) && b[i].fileName in m && b[i].createdAt == m[b[i].fileName]
    ensures forall n :: n in Names(l) ==> n in Names(b)
  {
    forall i | 0 <= i < |b| ensures IsBackupName(b[i].fileName) && b[i].fileName in m && b[i].createdAt == m[b[i].fileName] {
      assert b[i] in multiset(l);
    }
    forall n | n in Names(l) ensures n in Names(b) {
      var i :| 0 <= i < |l| && l[i].fileName == n;
      assert l[i] in multiset(b);
      var j :| 0 <= j < |b| && b[j] == l[i];
      assert Names(b)[j] == n;
    }
  }

  lemma ListingIsRetentionInput(listing: seq<string>, m: map<string, int>)
    requires Enumerates(listing, m)
    ensures RetentionInput(m, SortBy(Listed(listing, m), false))
  {
    SortedListing(listing, m, false);
  }

  /** `cleanupOldBackups` as written, on the directory `m` and the list `backups` it
      built: the old backups are unlinked, then, when more than ten remain, the excess
      loop unlinks `backups[i]` for `i` from 0. A throw anywhere ends the cleanup. */
  function CleanupAsWrittenResult(m: map<string, int>, backups: seq<BackupFile>, cutoff: int): map<string, int> {
    var oldOnes := OlderThan(backups, cutoff);
    var first := UnlinkAll(m, Names(oldOnes));
    var excess := |backups| - |oldOnes| - MAX_BACKUPS;
    if first.1 && excess > 0 then UnlinkAll(first.0, Names(backups[0..excess])).0 else first.0
  }

  /** `cleanupOldBackups` with the excess loop starting after the old backups. */
  function CleanupResult(m: map<string, int>, backups: seq<BackupFile>, cutoff: int): map<string, int> {
    var oldOnes := OlderThan(backups, cutoff);
    var k := |oldOnes|;
    var first := UnlinkAll(m, Names(oldOnes));
    var excess := |backups| - k - MAX_BACKUPS;
    if first.1 && excess > 0 then UnlinkAll(first.0, Names(backups[k..k + excess])).0 else first.0
  }

  /** The corrected cleanup deletes exactly the backups past the cutoff and then the
      oldest of the rest beyond ten: what survives is the newest
      `min(remaining, 10)` backups, all within the retention period. */
  lemma CleanupEffect(m: map<string, int>, backups: seq<BackupFile>, cutoff: int)
    requires RetentionInput(m, backups)
    ensures var k := |OlderThan(backups, cutoff)|;
      var n := |backups|;
      var keepFrom := if n - k > MAX_BACKUPS as int then n - MAX_BACKUPS else k;
      k <= keepFrom <= n &&
      CleanupResult(m, backups, cutoff) == m - NamesIn(backups, 0, keepFrom) &&
      n - keepFrom == (if n - k > MAX_BACKUPS as int then MAX_BACKUPS as int else n - k) &&
      (forall i :: 0 <= i < n ==> (backups[i].fileName in CleanupResult(m, backups, cutoff) <==> keepFrom <= i)) &&
      (forall i :: keepFrom <= i < n ==> backups[i].createdAt >= cutoff)
  {
    OldBackupsArePrefix(backups, cutoff);
    var k := |OlderThan(backups, cutoff)|;
    var n := |backups|;
    assert Names(OlderThan(backups, cutoff)) == Names(backups[0..k]);
    UnlinkRangeAll(m, backups, 0, k);
    var m1 := m - NamesIn(backups, 0, k);
    if n - k > MAX_BACKUPS as int {
      UnlinkRangeAll(m1, backups, k, n - MAX_BACKUPS);
      assert m1 - NamesIn(backups, k, n - MAX_BACKUPS) == m - NamesIn(backups, 0, n - MAX_BACKUPS) by {
        assert NamesIn(backups, 0, n - MAX_BACKUPS) == NamesIn(backups, 0, k) + NamesIn(backups, k, n - MAX_BACKUPS);
      }
    }
  }

  /** The cleanup as written agrees with the corrected one when no backup is past
      the cutoff. Once one is, the excess loop's first unlink hits a file already
      deleted and throws, so only the old backups go, and with more than ten recent
      ones they all survive. */
  lemma CleanupAsWrittenEffect(m: map<string, int>, backups: seq<BackupFile>, cutoff: int)
    requires RetentionInput(m, backups)
    ensures var k := |OlderThan(backups, cutoff)|;
      (k == 0 ==> CleanupAsWrittenResult(m, backups, cutoff) == CleanupResult(m, backups, cutoff)) &&
      (k > 0 ==> CleanupAsWrittenResult(m, backups, cutoff) == m - NamesIn(backups, 0, k)) &&
      (k > 0 && |backups| - k > MAX_BACKUPS as int ==>
        (forall i :: k <= i < |backups| ==> backups[i].fileName in CleanupAsWrittenResult(m, backups, cutoff)) &&
        CleanupAsWrittenResult(m, backups, cutoff) != CleanupResult(m, backups, cutoff))
  {
    OldBackupsArePrefix(backups, cutoff);
    CleanupEffect(m, backups, cutoff);
    var k := |OlderThan(backups, cutoff)|;
    var n := |backups|;
    assert Names(OlderThan(backups, cutoff)) == Names(backups[0..k]);
    UnlinkRangeAll(m, backups, 0, k);
    var m1 := m - NamesIn(backups, 0, k);
    if k > 0 && n - k > MAX_BACKUPS as int {
      var names := Names(backups[0..n - k - MAX_BACKUPS]);
      assert names[0] == backups[0].fileName;
      assert backups[0].fileName in NamesIn(backups, 0, k);
      assert UnlinkAll(m1, names) == (m1, false);
      forall i | k <= i < n ensures backups[i].fileName in m1 {
        assert backups[i].fileName !in NamesIn(backups, 0, k);
      }
      assert backups[k].fileName !in CleanupResult(m, backups, cutoff);
    }
  }

  lemma LastIsNewest(s: seq<BackupFile>, j: nat)
    requires SortedBy(s, false) && j < |s|
    ensures s[|s| - 1].createdAt >= s[j].createdAt
  {
    if j < |s| - 1 {
      assert Ordered(CreatedAt(s[j]), CreatedAt(s[|s| - 1]), false);
    }
  }

  /** The backup just created survives the corrected cleanup when every other file
      is older than it. */
  lemma NewestBackupKept(m: map<string, int>, backups: seq<BackupFile>, name: string, now: int)
    requires RetentionInput(m, backups)
    requires name in m && m[name] == now && name in Names(backups)
    requires forall n :: n in m && n != name ==> m[n] < now
    ensures name in CleanupResult(m, backups, Cutoff(now))
  {
    CleanupEffect(m, backups, Cutoff(now));
    OldBackupsArePrefix(backups, Cutoff(now));
    var n := |backups|;
    var j :| 0 <= j < n && backups[j].fileName == name;
    LastIsNewest(backups, j);
    assert backups[n - 1].fileName == name;
    assert j == n - 1;
    assert backups[j].createdAt >= Cutoff(now);
  }

  /** The backup just created survives the cleanup as written too: with no old
      backup it is the corrected cleanup, and otherwise only the old backups go. */
  lemma NewestBackupKeptAsWritten(m: map<string, int>, backups: seq<BackupFile>, name: string, now: int)
    requires RetentionInput(m, backups)
    requires name in m && m[name] == now && name in Names(backups)
    requires forall n :: n in m && n != name ==> m[n] < now
    ensures name in CleanupAsWrittenResult(m, backups, Cutoff(now))
  {
    NewestBackupKept(m, backups, name, now);
    CleanupEffect(m, backups, Cutoff(now));
    CleanupAsWrittenEffect(m, backups, Cutoff(now));
    var k := |OlderThan(backups, Cutoff(now))|;
    var n := |backups|;
    var keepFrom := if n - k > MAX_BACKUPS as int then n - MAX_BACKUPS else k;
    assert NamesIn(backups, 0, k) <= NamesIn(backups, 0, keepFrom);
  }

  // ---------------------------------------------------------------- the directory

  /** What `createBackup` and `restoreBackup` resolve to. */
  datatype BackupResult = Succeeded(fileName: string) | Failed(error: string)

  /** The backup directory: each file name with its modification time in
      milliseconds. */
  class BackupDir {
    var mtimes: map<string, int>

    constructor (files: map<string, int>)
      ensures mtimes == files
    {
      mtimes := files;
    }

    /** `fs.readdirSync`: every file once, in an order the file system chooses. */
    method Readdir() returns (listing: seq<string>)
      ensures Enumerates(listing, mtimes)
    {
      listing := [];
      var rest := mtimes.Keys;
      while rest != {}
        invariant rest <= mtimes.Keys
        invariant forall n :: n in listing ==> n in mtimes && n !in rest
        invariant forall n :: n in mtimes ==> n in listing || n in rest
        invariant Distinct(listing)
        decreases |rest|
      {
        var n :| n in rest;
        assert multiset(listing + [n]) == multiset(listing) + multiset{n};
        assert multiset(listing)[n] == 0;
        listing := listing + [n];
        rest := rest - {n};
      }
    }

    /** `fs.unlinkSync`: the flag is false where the call throws because the file is
        not there. */
    method Unlink(name: string) returns (ok: bool)
      modifies this
      ensures ok == (name in old(mtimes))
      ensures mtimes == old(mtimes) - {name}
    {
      ok := name in mtimes;
      mtimes := mtimes - {name};
    }

    /** The `for (const backup of oldBackups)` loop: unlinks in order, stopping at the
        first throw. */
    method UnlinkEach(names: seq<string>) returns (ok: bool)
      modifies this
      ensures (mtimes, ok) == UnlinkAll(old(mtimes), names)
    {
      ok := true;
      var i := 0;
      while i < |names| && ok
        invariant 0 <= i <= |names|
        invariant UnlinkAll(old(mtimes), names) == if ok then UnlinkAll(mtimes, names[i..]) else (mtimes, false)
      {
        assert names[i..][0] == names[i] && names[i..][1..] == names[i + 1..];
        ghost var before := mtimes;
        ok := Unlink(names[i]);
        if !ok {
          assert mtimes == before;
        }
        i := i + 1;
      }
      if ok {
        assert names[i..] == [];
      }
    }

    /** The `for (let i = 0; i < count; i++)` loop over `backups[from + i]`, stopping
        at the first throw. */
    method UnlinkRange(backups: seq<BackupFile>, from: nat, count: nat) returns (ok: bool)
      requires from + count <= |backups|
      modifies this
      ensures (mtimes, ok) == UnlinkAll(old(mtimes), Names(backups[from..from + count]))
    {
      ghost var names := Names(backups[from..from + count]);
      ok := true;
      var i := 0;
      while i < count && ok
        invariant 0 <= i <= count
        invariant UnlinkAll(old(mtimes), names) == if ok then UnlinkAll(mtimes, names[i..]) else (mtimes, false)
      {
        assert names[i..][0] == backups[from + i].fileName && names[i..][1..] == names[i + 1..];
        ghost var before := mtimes;
        ok := Unlink(backups[from + i].fileName);
        if !ok {
          assert mtimes == before;
        }
        i := i + 1;
      }
      if ok {
        assert names[i..] == [];
      }
    }

    /** `listBackups`: the backup files with their modification times, newest first,
        each once. `readError` is the error `readdirSync` throws, if any; the catch
        block answers it with `{ success: false, error: error.message }`. */
    method ListBackups(readError: Option<string>) returns (r: Result<seq<BackupFile>, string>)
      ensures readError.Some? ==> r == Err(readError.value)
      ensures readError.None? ==> r.Ok?
      ensures r.Ok? ==>
        var backups := r.value;
        (exists listing :: Enumerates(listing, mtimes) && backups == SortBy(Listed(listing, mtimes), true)) &&
        SortedBy(backups, true) && DistinctNames(backups) &&
        (forall i :: 0 <= i < |backups| ==>
          IsBackupName(backups[i].fileName) && backups[i].fileName in mtimes && backups[i].createdAt == mtimes[backups[i].fileName]) &&
        (forall n :: n in mtimes && IsBackupName(n) ==> n in Names(backups))
    {
      if readError.Some? {
        return Err(readError.value);
      }
      var files := Readdir();
      var backups := SortBy(Listed(files, mtimes), true);
      SortedListing(files, mtimes, true);
      r := Ok(backups);
    }

    /** The two loops of `cleanupOldBackups` as written on the sorted list
        `backups`: the old backups, then `backups[i]` for `i` from 0 while more than ten
        remain. */
    method PruneAsWritten(backups: seq<BackupFile>, cutoff: int)
      modifies this
      ensures mtimes == CleanupAsWrittenResult(old(mtimes), backups, cutoff)
    {
      var oldBackups := OlderThan(backups, cutoff);
      var ok := UnlinkEach(Names(oldBackups));
      if ok && |backups| - |oldBackups| > MAX_BACKUPS as int {
        var backupsToRemove := |backups| - |oldBackups| - MAX_BACKUPS;
        ok := UnlinkRange(backups, 0, backupsToRemove);
      }
    }

    /** The two loops with the excess loop indexing past the old backups. */
    method Prune(backups: seq<BackupFile>, cutoff: int)
      modifies this
      ensures mtimes == CleanupResult(old(mtimes), backups, cutoff)
    {
      var oldBackups := OlderThan(backups, cutoff);
      var ok := UnlinkEach(Names(oldBackups));
      if ok && |backups| - |oldBackups| > MAX_BACKUPS as int {
        var backupsToRemove := |backups| - |oldBackups| - MAX_BACKUPS;
        ok := UnlinkRange(backups, |oldBackups|, backupsToRemove);
      }
    }

    /** `cleanupOldBackups` as written. */
    method CleanupAsWritten(now: int)
      modifies this
      ensures exists listing :: (Enumerates(listing, old(mtimes)) &&
        mtimes == CleanupAsWrittenResult(old(mtimes), SortBy(Listed(listing, old(mtimes)), false), Cutoff(now)))
    {
      var files := Readdir();
      PruneAsWritten(SortBy(Listed(files, mtimes), false), Cutoff(now));
    }

    /** `cleanupOldBackups` with the excess loop corrected. */
    method Cleanup(now: int)
      modifies this
      ensures exists listing :: (Enumerates(listing, old(mtimes)) &&
        mtimes == CleanupResult(old(mtimes), SortBy(Listed(listing, old(mtimes)), false), Cutoff(now)))
    {
      var files := Readdir();
      Prune(SortBy(Listed(files, mtimes), false), Cutoff(now));
    }

    /** `createBackup` at the instant `stamp` (`now` in milliseconds). `dump` is the
        error `mongodump` fails with, if any; on success the archive is written with
        modification time now, `cleanupOldBackups` runs as written, and the final
        `statSync` throws if the cleanup removed the new archive. */
    method CreateBackup(stamp: DateTime, now: int, uri: Option<string>, dump: Option<string>) returns (r: BackupResult)
      modifies this
      ensures !Truthy(uri) ==> r == Failed("MONGODB_URI environment variable is not set") && mtimes == old(mtimes)
      ensures Truthy(uri) && dump.Some? ==> r == Failed(dump.value) && mtimes == old(mtimes)
      ensures Truthy(uri) && dump.None? ==>
        var written := old(mtimes)[BackupName(stamp) := now];
        (exists listing :: Enumerates(listing, written) &&
          mtimes == CleanupAsWrittenResult(written, SortBy(Listed(listing, written), false), Cutoff(now))) &&
        r == if BackupName(stamp) in mtimes then Succeeded(BackupName(stamp)) else Failed(StatMissing(BackupName(stamp)))
    {
      var backupFileName := BackupName(stamp);
      if !Truthy(uri) {
        return Failed("MONGODB_URI environment variable is not set");
      }
      if dump.Some? {
        return Failed(dump.value);
      }
      mtimes := mtimes[backupFileName := now];
      CleanupAsWritten(now);
      if backupFileName !in mtimes {
        return Failed(StatMissing(backupFileName));
      }
      r := Succeeded(backupFileName);
    }

    /** `createBackup` with the corrected cleanup. */
    method CreateBackupCorrected(stamp: DateTime, now: int, uri: Option<string>, dump: Option<string>) returns (r: BackupResult)
      modifies this
      ensures !Truthy(uri) ==> r == Failed("MONGODB_URI environment variable is not set") && mtimes == old(mtimes)
      ensures Truthy(uri) && dump.Some? ==> r == Failed(dump.value) && mtimes == old(mtimes)
      ensures Truthy(uri) && dump.None? ==>
        var written := old(mtimes)[BackupName(stamp) := now];
        (exists listing :: Enumerates(listing, written) &&
          mtimes == CleanupResult(written, SortBy(Listed(listing, written), false), Cutoff(now))) &&
        r == if BackupName(stamp) in mtimes then Succeeded(BackupName(stamp)) else Failed(StatMissing(BackupName(stamp)))
    {
      var backupFileName := BackupName(stamp);
      if !Truthy(uri) {
        return Failed("MONGODB_URI environment variable is not set");
      }
      if dump.Some? {
        return Failed(dump.value);
      }
      mtimes := mtimes[backupFileName := now];
      Cleanup(now);
      if backupFileName !in mtimes {
        return Failed(StatMissing(backupFileName));
      }
      r := Succeeded(backupFileName);
    }

    /** `restoreBackup`: `restore` is the error `mongorestore` fails with, if any. */
    method RestoreBackup(fileName: string, uri: Option<string>, restore: Option<string>) returns (r: BackupResult)
      ensures fileName !in mtimes ==> r == Failed("Backup file not found: " + fileName)
      ensures fileName in mtimes && !Truthy(uri) ==> r == Failed("MONGODB_URI environment variable is not set")
      ensures fileName in mtimes && Truthy(uri) ==> r == if restore.Some? then Failed(restore.value) else Succeeded(fileName)
    {
      if fileName !in mtimes {
        return Failed("Backup file not found: " + fileName);
      }
      if !Truthy(uri) {
        return Failed("MONGODB_URI environment variable is not set");
      }
      if restore.Some? {
        return Failed(restore.value);
      }
      r := Succeeded(fileName);
    }
  }

  /** A successful backup whose archive is newer than every other file is kept by the
      cleanup it triggers, as written and corrected alike, so `createBackup` reports it
      (every name `BackupName` gives passes the filter, by `BackupNameShape`). */
  lemma CreatedBackupReported(m: map<string, int>, name: string, now: int, listing: seq<string>)
    requires IsBackupName(name)
    requires forall n :: n in m ==> m[n] < now
    requires Enumerates(listing, m[name := now])
    ensures name in CleanupAsWrittenResult(m[name := now], SortBy(Listed(listing, m[name := now]), false), Cutoff(now))
    ensures name in CleanupResult(m[name := now], SortBy(Listed(listing, m[name := now]), false), Cutoff(now))
  {
    var written := m[name := now];
    var b := SortBy(Listed(listing, written), false);
    ListingIsRetentionInput(listing, written);
    assert name in Names(b) by {
      assert name in written && IsBackupName(name);
      SortedListing(listing, written, false);
    }
    NewestBackupKept(written, b, name, now);
    NewestBackupKeptAsWritten(written, b, name, now);
  }
}
