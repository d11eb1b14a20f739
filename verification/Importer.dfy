/** core/migration/importer.py: checking, backing up and applying a bundle, and what a restore gives back. */
module Importer {
  import opened Wrappers
  import opened Text
  import opened Bundle

  const MAX_BUNDLE_SIZE := 104_857_600

  /** The target home, the client directory if there is one, and the directory of this import's backup. */
  datatype Site = Site(home: Path, clients: Option<Path>, stamp: string) {
    function Backup(): Path { home + ["backups", "pre-migration-" + stamp] }
    function Db(): Path { home + [DB] }
  }

  function Name(p: Path): string { if p == [] then "" else p[|p| - 1] }

  /** `_target_path_for` */
  function Target(e: Entry, w: Site): (t: Option<Path>)
    ensures t.Some? ==> t.value != []
  {
    match e.kind
    case Sqlite => Some(w.home + [DB])
    case AccountsIndex => Some(w.home + ACCOUNTS + ["index.json"])
    case AccountsSecret => Some(w.home + SECRETS + [Name(e.path)])
    case ClientsYaml => if w.clients.None? then None else Some(w.clients.value + [Name(e.path)])
    case OtherKind => None
  }

  /** The path a file is copied to by the backup: its path relative to the home, or its bare name outside of it. */
  function Saved(t: Path, w: Site): Path {
    w.Backup() + (if w.home <= t then t[|w.home|..] else [Name(t)])
  }

  /** `target.with_suffix(target.suffix + ".migrating")` */
  function Tmp(t: Path): Path { if t == [] then t else t[..|t| - 1] + [t[|t| - 1] + ".migrating"] }

  datatype Error = TooLarge | BadZip | BadManifest | WrongVersion | Mismatch | BackupFailed | WriteFailed(at: nat)

  /** Every check before the disk is touched, in the source's order. */
  function Refusal(b: Archive): Option<Error> {
    if b.size > MAX_BUNDLE_SIZE then Some(TooLarge)
    else if b.NotAZip? then Some(BadZip)
    else if b.manifest.None? then Some(BadManifest)
    else if b.manifest.value.version != BUNDLE_VERSION then Some(WrongVersion)
    else if exists i :: 0 <= i < |b.manifest.value.files| &&
              (var e := b.manifest.value.files[i]; e.path !in b.members || e.sha != Digest(b.members[e.path]))
      then Some(Mismatch)
    else None
  }

  /** The backup of the first entries. */
  function BackedUp(fs: Files, entries: seq<Entry>, w: Site): Files {
    if entries == [] then fs
    else
      var before, t := BackedUp(fs, entries[..|entries| - 1], w), Target(entries[|entries| - 1], w);
      if t.Some? && t.value in before then before[Saved(t.value, w) := before[t.value]] else before
  }

  /** The first entries written: each to its `.migrating` file, which then replaces the target. */
  function Applied(fs: Files, entries: seq<Entry>, members: map<Path, Bytes>, w: Site): Files
    requires forall i :: 0 <= i < |entries| ==> entries[i].path in members
  {
    if entries == [] then fs
    else
      var e := entries[|entries| - 1];
      var before, t := Applied(fs, entries[..|entries| - 1], members, w), Target(e, w);
      if t.None? then before else (before - {Tmp(t.value)})[t.value := members[e.path]]
  }

  /** An OSError during the backup of, or while writing, the given entry; `leftover` is a half-written file. */
  datatype Fault =
    | NoFault
    | BackupFault(at: nat, leftover: Option<Bytes>)
    | WriteFault(at: nat, leftover: Option<Bytes>)

  predicate Strikes(at: nat, entries: seq<Entry>, w: Site) { at < |entries| && Target(entries[at], w).Some? }

  function Litter(fs: Files, p: Path, leftover: Option<Bytes>): Files {
    if leftover.None? then fs else fs[p := leftover.value]
  }

  /** A backup that fails at an entry; only an existing target is being copied and can leave half a copy. */
  function HalfBackedUp(fs: Files, entries: seq<Entry>, w: Site, at: nat, leftover: Option<Bytes>): Files
    requires Strikes(at, entries, w)
  {
    var before, t := BackedUp(fs, entries[..at], w), Target(entries[at], w).value;
    if t in before then Litter(before, Saved(t, w), leftover) else before
  }

  function Flushed(fs: Files, w: Site, flush: Bytes -> Bytes): Files {
    if w.Db() in fs then fs[w.Db() := flush(fs[w.Db()])] else fs
  }

  /** `ensure_schema` on the database file, which it creates when it is missing. */
  function Upgraded(fs: Files, w: Site, upgrade: Option<Bytes> -> Bytes): Files {
    fs[w.Db() := upgrade(if w.Db() in fs then Some(fs[w.Db()]) else None)]
  }

  datatype Outcome = Outcome(files: Files, error: Option<Error>)

  function Import(fs: Files, b: Archive, w: Site, fault: Fault, flush: Bytes -> Bytes,
                  upgrade: Option<Bytes> -> Bytes): Outcome {
    if Refusal(b).Some? then Outcome(fs, Refusal(b))
    else
      var entries, start := b.manifest.value.files, Flushed(fs, w, flush);
      if fault.BackupFault? && Strikes(fault.at, entries, w) then
        Outcome(HalfBackedUp(start, entries, w, fault.at, fault.leftover), Some(BackupFailed))
      else
        var saved := BackedUp(start, entries, w);
        if fault.WriteFault? && Strikes(fault.at, entries, w) then
          Outcome(Litter(Applied(saved, entries[..fault.at], b.members, w),
                         Tmp(Target(entries[fault.at], w).value), fault.leftover),
                  Some(WriteFailed(fault.at)))
        else Outcome(Upgraded(Applied(saved, entries, b.members, w), w, upgrade), None)
  }

  // ---- the code ----

  method VerifyBundle(entries: seq<Entry>, members: map<Path, Bytes>) returns (ok: bool)
    ensures ok <==> Verified(entries, members)
    ensures ok <==> forall i :: 0 <= i < |entries| ==>
                      entries[i].path in members && entries[i].sha == Digest(members[entries[i].path])
  {
    for i := 0 to |entries|
      invariant Verified(entries[..i], members)
    {
      if entries[i].path !in members || entries[i].sha != Digest(members[entries[i].path]) { return false; }
    }
    assert entries[..|entries|] == entries;
    ok := true;
  }

  method BackUp(disk: Disk, entries: seq<Entry>, w: Site, fault: Fault) returns (ok: bool)
    modifies disk
    ensures ok <==> !(fault.BackupFault? && Strikes(fault.at, entries, w))
    ensures ok ==> disk.files == BackedUp(old(disk.files), entries, w)
    ensures !ok ==> disk.files == HalfBackedUp(old(disk.files), entries, w, fault.at, fault.leftover)
  {
    for i := 0 to |entries|
      invariant disk.files == BackedUp(old(disk.files), entries[..i], w)
      invariant fault.BackupFault? && Strikes(fault.at, entries, w) ==> i <= fault.at
    {
      assert entries[..i + 1][..i] == entries[..i];
      var t := Target(entries[i], w);
      if t.Some? {
        if fault.BackupFault? && fault.at == i {
          if t.value in disk.files { disk.files := Litter(disk.files, Saved(t.value, w), fault.leftover); }
          return false;
        }
        if t.value in disk.files {
          disk.files := disk.files[Saved(t.value, w) := disk.files[t.value]];
        }
      }
    }
    assert entries[..|entries|] == entries;
    ok := true;
  }

  /** How many of the entries have a place at the target. */
  function MappedFiles(entries: seq<Entry>, w: Site): nat {
    if entries == [] then 0
    else MappedFiles(entries[..|entries| - 1], w) + (if Target(entries[|entries| - 1], w).Some? then 1 else 0)
  }

  function MappedBytes(entries: seq<Entry>, w: Site): nat {
    if entries == [] then 0
    else
      var e := entries[|entries| - 1];
      MappedBytes(entries[..|entries| - 1], w) + (if Target(e, w).Some? then e.size else 0)
  }

  method Apply(disk: Disk, entries: seq<Entry>, members: map<Path, Bytes>, w: Site, fault: Fault)
    returns (failedAt: Option<nat>, filesWritten: nat, bytesWritten: nat)
    requires forall i :: 0 <= i < |entries| ==> entries[i].path in members
    modifies disk
    ensures failedAt == if fault.WriteFault? && Strikes(fault.at, entries, w) then Some(fault.at) else None
    ensures failedAt.None? ==> disk.files == Applied(old(disk.files), entries, members, w)
    ensures failedAt.Some? ==> (disk.files ==
      Litter(Applied(old(disk.files), entries[..fault.at], members, w),
             Tmp(Target(entries[fault.at], w).value), fault.leftover))
    ensures var done := if failedAt.Some? then entries[..fault.at] else entries;
      filesWritten == MappedFiles(done, w) && bytesWritten == MappedBytes(done, w)
  {
    hide Target, Tmp;
    filesWritten, bytesWritten := 0, 0;
    for i := 0 to |entries|
      invariant filesWritten == MappedFiles(entries[..i], w) && bytesWritten == MappedBytes(entries[..i], w)
      invariant disk.files == Applied(old(disk.files), entries[..i], members, w)
      invariant fault.WriteFault? && Strikes(fault.at, entries, w) ==> i <= fault.at
    {
      assert entries[..i + 1][..i] == entries[..i];
      var t := Target(entries[i], w);
      if t.Some? {
        var tmp := Tmp(t.value);
        if fault.WriteFault? && fault.at == i {
          disk.files := Litter(disk.files, tmp, fault.leftover);
          return Some(i), filesWritten, bytesWritten;
        }
        ghost var before := disk.files;
        disk.files := disk.files[tmp := members[entries[i].path]];
        disk.files := (disk.files - {tmp})[t.value := disk.files[tmp]];
        PutAndTake(before, tmp, members[entries[i].path]);
        filesWritten, bytesWritten := filesWritten + 1, bytesWritten + entries[i].size;
      }
    }
    assert entries[..|entries|] == entries;
    failedAt := None;
  }

  lemma PutAndTake(fs: Files, p: Path, content: Bytes)
    ensures fs[p := content] - {p} == fs - {p}
  {
  }

  method ApplyBundle(disk: Disk, b: Archive, w: Site, fault: Fault, flush: Bytes -> Bytes,
                     upgrade: Option<Bytes> -> Bytes)
    returns (error: Option<Error>, filesWritten: nat, bytesWritten: nat)
    modifies disk
    ensures Outcome(disk.files, error) == Import(old(disk.files), b, w, fault, flush, upgrade)
    ensures error.Some? ==> filesWritten == bytesWritten == 0
    ensures error.None? ==> b.Zip? && b.manifest.Some?
    ensures error.None? ==> filesWritten == MappedFiles(b.manifest.value.files, w)
    ensures error.None? ==> bytesWritten == MappedBytes(b.manifest.value.files, w)
  {
    if b.size > MAX_BUNDLE_SIZE { return Some(TooLarge), 0, 0; }
    if b.NotAZip? { return Some(BadZip), 0, 0; }
    if b.manifest.None? { return Some(BadManifest), 0, 0; }
    if b.manifest.value.version != BUNDLE_VERSION { return Some(WrongVersion), 0, 0; }
    var entries := b.manifest.value.files;
    var ok := VerifyBundle(entries, b.members);
    if !ok { return Some(Mismatch), 0, 0; }
    disk.files := Flushed(disk.files, w, flush);
    var saved := BackUp(disk, entries, w, fault);
    if !saved { return Some(BackupFailed), 0, 0; }
    var failedAt, files, bytes := Apply(disk, entries, b.members, w, fault);
    if failedAt.Some? { return Some(WriteFailed(failedAt.value)), 0, 0; }
    disk.files := Upgraded(disk.files, w, upgrade);
    return None, files, bytes;
  }

  // ---- what the folds do when no two entries get in each other's way ----

  predicate SameAt(a: Files, b: Files, p: Path) { if p in a then p in b && a[p] == b[p] else p !in b }

  /** p is a target or a temporary file of one of the entries. */
  ghost predicate Touched(entries: seq<Entry>, w: Site, p: Path) {
    exists i :: 0 <= i < |entries| && Target(entries[i], w).Some? &&
        (p == Target(entries[i], w).value || p == Tmp(Target(entries[i], w).value))
  }

  ghost predicate SavedHere(entries: seq<Entry>, w: Site, p: Path) {
    exists i :: 0 <= i < |entries| && Target(entries[i], w).Some? && p == Saved(Target(entries[i], w).value, w)
  }

  ghost predicate Apart(e: Entry, f: Entry, w: Site) {
    Target(e, w).Some? && Target(f, w).Some? ==>
      var s, t := Target(e, w).value, Target(f, w).value;
      s != Tmp(t) && Saved(s, w) != t && Saved(s, w) != Tmp(t)
  }

  ghost predicate Distinct(e: Entry, f: Entry, w: Site) {
    Target(e, w).Some? && Target(f, w).Some? ==>
      Target(e, w).value != Target(f, w).value && Saved(Target(e, w).value, w) != Saved(Target(f, w).value, w)
  }

  ghost predicate Separated(entries: seq<Entry>, w: Site) {
    && (forall i, j :: 0 <= i < |entries| && 0 <= j < |entries| ==> Apart(entries[i], entries[j], w))
    && (forall i, j :: 0 <= i < j < |entries| ==> Distinct(entries[i], entries[j], w))
  }

  ghost predicate AppliedShape(fs: Files, r: Files, entries: seq<Entry>, members: map<Path, Bytes>, w: Site)
    requires forall i :: 0 <= i < |entries| ==> entries[i].path in members
  {
    && (forall i :: 0 <= i < |entries| && Target(entries[i], w).Some? ==>
          var t := Target(entries[i], w).value;
          t in r && r[t] == members[entries[i].path] && Tmp(t) !in r)
    && (forall p :: !Touched(entries, w, p) ==> SameAt(r, fs, p))
  }

  lemma TouchedSnoc(entries: seq<Entry>, w: Site, p: Path)
    requires entries != []
    ensures Touched(entries, w, p) <==> (Touched(entries[..|entries| - 1], w, p)
      || (var t := Target(entries[|entries| - 1], w); t.Some? && (p == t.value || p == Tmp(t.value))))
  {
    hide Target, Tmp;
    var n := |entries| - 1;
    if Touched(entries[..n], w, p) {
      var i :| 0 <= i < n && Target(entries[..n][i], w).Some? &&
          (p == Target(entries[..n][i], w).value || p == Tmp(Target(entries[..n][i], w).value));
      assert entries[i] == entries[..n][i];
    }
    if Touched(entries, w, p) {
      var i :| 0 <= i <= n && Target(entries[i], w).Some? &&
          (p == Target(entries[i], w).value || p == Tmp(Target(entries[i], w).value));
      if i < n { assert entries[..n][i] == entries[i]; }
    }
  }

  lemma SeparatedPrefix(entries: seq<Entry>, w: Site, n: nat)
    requires Separated(entries, w) && n <= |entries|
    ensures Separated(entries[..n], w)
  {
  }

  lemma {:induction false} AppliedIs(fs: Files, entries: seq<Entry>, members: map<Path, Bytes>, w: Site)
    requires Separated(entries, w)
    requires forall i :: 0 <= i < |entries| ==> entries[i].path in members
    ensures AppliedShape(fs, Applied(fs, entries, members, w), entries, members, w)
  {
    hide Target, Tmp, Saved;
    if entries != [] {
      var n := |entries| - 1;
      var head, e := entries[..n], entries[n];
      SeparatedPrefix(entries, w, n);
      AppliedIs(fs, head, members, w);
      var before, r := Applied(fs, head, members, w), Applied(fs, entries, members, w);
      forall i | 0 <= i < |entries| && Target(entries[i], w).Some?
        ensures var t := Target(entries[i], w).value; t in r && r[t] == members[entries[i].path] && Tmp(t) !in r
      {
        assert Apart(entries[i], e, w) && Apart(e, entries[i], w);
        if i < n { assert head[i] == entries[i] && Distinct(entries[i], e, w); }
      }
      forall p | !Touched(entries, w, p) ensures SameAt(r, fs, p) {
        TouchedSnoc(entries, w, p);
        assert SameAt(before, fs, p);
      }
    }
  }

  ghost predicate BackedShape(fs: Files, r: Files, entries: seq<Entry>, w: Site) {
    && (forall i :: 0 <= i < |entries| && Target(entries[i], w).Some? && Target(entries[i], w).value in fs ==>
          var d := Saved(Target(entries[i], w).value, w);
          d in r && r[d] == fs[Target(entries[i], w).value])
    && (forall p :: !SavedHere(entries, w, p) ==> SameAt(r, fs, p))
  }

  lemma SavedSnoc(entries: seq<Entry>, w: Site, p: Path)
    requires entries != []
    ensures SavedHere(entries, w, p) <==> (SavedHere(entries[..|entries| - 1], w, p)
      || (var t := Target(entries[|entries| - 1], w); t.Some? && p == Saved(t.value, w)))
  {
    hide Target, Saved;
    var n := |entries| - 1;
    if SavedHere(entries[..n], w, p) {
      var i :| 0 <= i < n && Target(entries[..n][i], w).Some? && p == Saved(Target(entries[..n][i], w).value, w);
      assert entries[i] == entries[..n][i];
    }
    if SavedHere(entries, w, p) {
      var i :| 0 <= i <= n && Target(entries[i], w).Some? && p == Saved(Target(entries[i], w).value, w);
      if i < n { assert entries[..n][i] == entries[i]; }
    }
  }

  lemma TargetsNotSaved(entries: seq<Entry>, w: Site, i: nat)
    requires Separated(entries, w) && i < |entries| && Target(entries[i], w).Some?
    ensures !SavedHere(entries, w, Target(entries[i], w).value)
    ensures !SavedHere(entries, w, Tmp(Target(entries[i], w).value))
    ensures !Touched(entries, w, Saved(Target(entries[i], w).value, w))
  {
    hide Target, Tmp, Saved;
    forall j | 0 <= j < |entries| && Target(entries[j], w).Some?
      ensures var s, t := Target(entries[j], w).value, Target(entries[i], w).value;
        Saved(s, w) != t && Saved(s, w) != Tmp(t) && Saved(t, w) != s && Saved(t, w) != Tmp(s)
    {
      assert Apart(entries[j], entries[i], w) && Apart(entries[i], entries[j], w);
    }
  }

  lemma {:induction false} BackedUpIs(fs: Files, entries: seq<Entry>, w: Site)
    requires Separated(entries, w)
    ensures BackedShape(fs, BackedUp(fs, entries, w), entries, w)
  {
    hide Target, Tmp, Saved;
    if entries != [] {
      var n := |entries| - 1;
      var head, e := entries[..n], entries[n];
      SeparatedPrefix(entries, w, n);
      BackedUpIs(fs, head, w);
      var before, r := BackedUp(fs, head, w), BackedUp(fs, entries, w);
      if Target(e, w).Some? {
        TargetsNotSaved(entries, w, n);
        SavedSnoc(entries, w, Target(e, w).value);
        assert SameAt(before, fs, Target(e, w).value);
      }
      forall i | 0 <= i < |entries| && Target(entries[i], w).Some? && Target(entries[i], w).value in fs
        ensures var d := Saved(Target(entries[i], w).value, w); d in r && r[d] == fs[Target(entries[i], w).value]
      {
        if i < n { assert head[i] == entries[i] && Distinct(entries[i], e, w); }
      }
      forall p | !SavedHere(entries, w, p) ensures SameAt(r, fs, p) {
        SavedSnoc(entries, w, p);
        assert SameAt(before, fs, p);
      }
    }
  }

  /** Copying the backup back: every backed-up file to where it came from. */
  function Restored(fs: Files, entries: seq<Entry>, w: Site): Files {
    if entries == [] then fs
    else
      var before, t := Restored(fs, entries[..|entries| - 1], w), Target(entries[|entries| - 1], w);
      if t.Some? && Saved(t.value, w) in before then before[t.value := before[Saved(t.value, w)]] else before
  }

  ghost predicate RestoredShape(fs: Files, r: Files, entries: seq<Entry>, w: Site) {
    && (forall i :: 0 <= i < |entries| && Target(entries[i], w).Some? && Saved(Target(entries[i], w).value, w) in fs ==>
          var t := Target(entries[i], w).value;
          t in r && r[t] == fs[Saved(t, w)])
    && (forall p :: (forall i :: 0 <= i < |entries| ==> Target(entries[i], w) != Some(p)) ==> SameAt(r, fs, p))
  }

  lemma {:induction false} RestoredIs(fs: Files, entries: seq<Entry>, w: Site)
    requires Separated(entries, w)
    ensures RestoredShape(fs, Restored(fs, entries, w), entries, w)
  {
    hide Target, Tmp, Saved;
    if entries != [] {
      var n := |entries| - 1;
      SeparatedPrefix(entries, w, n);
      RestoredIs(fs, entries[..n], w);
      RestoredSnoc(fs, Restored(fs, entries[..n], w), entries, w);
    }
  }

  lemma RestoredSnoc(fs: Files, before: Files, entries: seq<Entry>, w: Site)
    requires entries != [] && Separated(entries, w)
    requires before == Restored(fs, entries[..|entries| - 1], w) &&
        RestoredShape(fs, before, entries[..|entries| - 1], w)
    ensures RestoredShape(fs, Restored(fs, entries, w), entries, w)
  {
    hide Target, Tmp, Saved, SameAt;
    var n := |entries| - 1;
    var head, e, r := entries[..n], entries[n], Restored(fs, entries, w);
    if Target(e, w).Some? {
      var d := Saved(Target(e, w).value, w);
      forall i | 0 <= i < |head| ensures Target(head[i], w) != Some(d) { assert Apart(e, entries[i], w); }
      assert SameAt(before, fs, d);
      SameMeans(before, fs, d);
    }
    forall i | 0 <= i < |entries| && Target(entries[i], w).Some? && Saved(Target(entries[i], w).value, w) in fs
      ensures var t := Target(entries[i], w).value; t in r && r[t] == fs[Saved(t, w)]
    {
      if i < n { assert head[i] == entries[i] && Distinct(entries[i], e, w); }
    }
    forall p | forall i :: 0 <= i < |entries| ==> Target(entries[i], w) != Some(p) ensures SameAt(r, fs, p) {
      forall i | 0 <= i < |head| ensures Target(head[i], w) != Some(p) { assert head[i] == entries[i]; }
      assert Target(entries[n], w) != Some(p);
      assert SameAt(before, fs, p);
      SameMeans(before, fs, p);
      SameMeans(r, fs, p);
    }
  }

  lemma SameMeans(a: Files, b: Files, p: Path)
    ensures SameAt(a, b, p) <==> (p in a <==> p in b) && (p in a && p in b ==> a[p] == b[p])
  {
  }

  // ---- exporter-built bundles never get in their own way ----

  lemma LastOf(a: Path, x: string, b: Path, y: string)
    requires a + [x] == b + [y]
    ensures x == y && a == b
  {
    assert (a + [x])[|a|] == x && (b + [y])[|b|] == y;
    assert a == (a + [x])[..|a|] && b == (b + [y])[..|b|];
  }

  /** The directory and the name of a shaped entry's target. */
  function TargetDir(e: Entry, w: Site): Path {
    match e.kind
    case Sqlite => w.home
    case AccountsIndex => w.home + ACCOUNTS
    case AccountsSecret => w.home + SECRETS
    case ClientsYaml => if w.clients.Some? then w.clients.value else []
    case OtherKind => []
  }

  function TargetName(e: Entry): string {
    match e.kind
    case Sqlite => DB
    case AccountsIndex => "index.json"
    case _ => Name(e.path)
  }

  lemma ShapedTarget(e: Entry, w: Site)
    requires ExporterShape(e.path, e.kind) && Target(e, w).Some?
    ensures Target(e, w).value == TargetDir(e, w) + [TargetName(e)]
    ensures Tmp(Target(e, w).value) == TargetDir(e, w) + [TargetName(e) + ".migrating"]
    ensures var n := TargetName(e);
      n != "" && n[|n| - 1] == (match e.kind case Sqlite => 'b' case ClientsYaml => 'l' case _ => 'n')
    ensures (TargetName(e) + ".migrating")[|TargetName(e)| + 9] == 'g'
  {
    var n := TargetName(e);
    if e.kind.AccountsSecret? { assert n[|n| - 5..] == ".json" && n[|n| - 5..][4] == 'n'; }
    if e.kind.ClientsYaml? { assert n[|n| - 5..] == ".yaml" && n[|n| - 5..][4] == 'l'; }
  }

  /** Where the backup of a shaped entry goes. */
  function SavedDir(e: Entry, w: Site): Path {
    w.Backup() + (if w.home <= TargetDir(e, w) then TargetDir(e, w)[|w.home|..] else [])
  }

  /** The target home is a directory, so it does not carry the name of a client file. */
  predicate ProperHome(w: Site) { !EndsWith(Name(w.home), ".yaml") }

  lemma ShapedSaved(e: Entry, w: Site)
    requires ExporterShape(e.path, e.kind) && Target(e, w).Some? && ProperHome(w)
    ensures Saved(Target(e, w).value, w) == SavedDir(e, w) + [TargetName(e)]
  {
    ShapedTarget(e, w);
    var t, dir := Target(e, w).value, TargetDir(e, w);
    assert Name(t) == TargetName(e);
    assert e.kind.ClientsYaml? ==> EndsWith(Name(t), ".yaml");
    assert w.home <= t && w.home != t ==> w.home <= dir;
    if w.home <= dir {
      assert t[|w.home|..] == dir[|w.home|..] + [TargetName(e)];
      assert w.Backup() + (dir[|w.home|..] + [TargetName(e)]) == w.Backup() + dir[|w.home|..] + [TargetName(e)];
    } else {
      assert w.Backup() + [] == w.Backup();
    }
  }

  /** No shaped target's directory is a directory of the backup that takes a file of the same kind of name. */
  lemma SavedDirApart(e: Entry, f: Entry, w: Site)
    requires ExporterShape(e.path, e.kind) && ExporterShape(f.path, f.kind)
    requires Target(e, w).Some? && Target(f, w).Some?
    requires e.kind.ClientsYaml? <==> f.kind.ClientsYaml?
    ensures SavedDir(e, w) != TargetDir(f, w)
  {
    var d, t, h := SavedDir(e, w), TargetDir(f, w), |w.home|;
    assert w.Backup()[h] == "backups" && w.Backup()[..h] == w.home;
    assert w.Backup() <= d && d[h] == "backups" && |d| >= h + 2;
    if f.kind.AccountsIndex? || f.kind.AccountsSecret? { assert t[h] == "identity"; }
    assert w.home <= w.Backup();
  }

  lemma ShapedApart(e: Entry, f: Entry, w: Site)
    requires ExporterShape(e.path, e.kind) && ExporterShape(f.path, f.kind) && ProperHome(w)
    ensures Apart(e, f, w)
  {
    if Target(e, w).Some? && Target(f, w).Some? {
      hide Target, Tmp, Saved, SavedDir, TargetDir, TargetName;
      ShapedTarget(e, w);
      ShapedTarget(f, w);
      ShapedSaved(e, w);
      var s, t := Target(e, w).value, Target(f, w).value;
      var tmpName := TargetName(f) + ".migrating";
      assert tmpName[|tmpName| - 1] == 'g';
      if s == Tmp(t) { LastOf(TargetDir(e, w), TargetName(e), TargetDir(f, w), tmpName); }
      if Saved(s, w) == Tmp(t) { LastOf(SavedDir(e, w), TargetName(e), TargetDir(f, w), tmpName); }
      if Saved(s, w) == t {
        LastOf(SavedDir(e, w), TargetName(e), TargetDir(f, w), TargetName(f));
        SavedDirApart(e, f, w);
      }
    }
  }

  lemma SameNameSamePath(e: Entry, f: Entry, w: Site)
    requires ExporterShape(e.path, e.kind) && ExporterShape(f.path, f.kind) && e.kind == f.kind &&
        TargetName(e) == TargetName(f)
    ensures e.path == f.path
  {
    if e.kind.AccountsSecret? { assert e.path == e.path[..3] + [e.path[3]] && f.path == f.path[..3] + [f.path[3]]; }
    if e.kind.ClientsYaml? { assert e.path == [e.path[0], e.path[1]] && f.path == [f.path[0], f.path[1]]; }
  }

  lemma DirsTellKinds(e: Entry, f: Entry, w: Site)
    requires Target(e, w).Some? && Target(f, w).Some? && e.kind.AccountsIndex? && f.kind.AccountsSecret?
    ensures TargetDir(e, w) != TargetDir(f, w) && SavedDir(e, w) != SavedDir(f, w)
  {
    assert |TargetDir(e, w)| == |w.home| + 2 && |TargetDir(f, w)| == |w.home| + 3;
    assert w.home <= TargetDir(e, w) && w.home <= TargetDir(f, w);
  }

  lemma ShapedDistinct(e: Entry, f: Entry, w: Site)
    requires ExporterShape(e.path, e.kind) && ExporterShape(f.path, f.kind) && ProperHome(w) && e.path != f.path
    ensures Distinct(e, f, w)
  {
    if Target(e, w).Some? && Target(f, w).Some? {
      hide Tmp, Saved, SavedDir, TargetDir, TargetName, Target, ExporterShape;
      ShapedTarget(e, w);
      ShapedTarget(f, w);
      ShapedSaved(e, w);
      ShapedSaved(f, w);
      var s, t := Target(e, w).value, Target(f, w).value;
      if s == t { LastOf(TargetDir(e, w), TargetName(e), TargetDir(f, w), TargetName(f)); }
      if Saved(s, w) == Saved(t, w) { LastOf(SavedDir(e, w), TargetName(e), SavedDir(f, w), TargetName(f)); }
      if e.kind == f.kind && TargetName(e) == TargetName(f) { SameNameSamePath(e, f, w); }
      if e.kind.AccountsIndex? && f.kind.AccountsSecret? { DirsTellKinds(e, f, w); }
      if f.kind.AccountsIndex? && e.kind.AccountsSecret? { DirsTellKinds(f, e, w); }
      KindHasTarget(e, w);
      KindHasTarget(f, w);
    }
  }

  lemma KindHasTarget(e: Entry, w: Site)
    ensures Target(e, w).Some? ==> !e.kind.OtherKind?
  {
  }

  lemma ExporterSeparates(entries: seq<Entry>, w: Site)
    requires FromExporter(entries) && ProperHome(w)
    ensures Separated(entries, w)
  {
    forall i, j | 0 <= i < |entries| && 0 <= j < |entries| ensures Apart(entries[i], entries[j], w) {
      ShapedApart(entries[i], entries[j], w);
    }
    forall i, j | 0 <= i < j < |entries| ensures Distinct(entries[i], entries[j], w) {
      ShapedDistinct(entries[i], entries[j], w);
    }
  }

  // ---- main results ----

  /** A refused bundle changes nothing, and refusal is exactly: too large, not a zip, no valid
      manifest, another version, or some entry absent or with the wrong digest. */
  lemma RefusedChangesNothing(fs: Files, b: Archive, w: Site, fault: Fault, flush: Bytes -> Bytes,
                              upgrade: Option<Bytes> -> Bytes)
    ensures Refusal(b).None? <==>
      b.size <= 104_857_600 && b.Zip? && b.manifest.Some? && b.manifest.value.version == 1 &&
      forall e :: e in b.manifest.value.files ==> e.path in b.members && e.sha == Digest(b.members[e.path])
    ensures Refusal(b).Some? ==> Import(fs, b, w, fault, flush, upgrade) == Outcome(fs, Refusal(b))
  {
  }

  /** An exported bundle is accepted, its first entry is the database, and each entry's member is the source file. */
  lemma ExportIsAccepted(src: Files, home: Path, clients: Option<Path>, secrets: seq<string>, yamls: seq<string>,
                         packed: nat)
    requires home + [DB] in src && packed <= MAX_BUNDLE_SIZE
    requires Listing(src, home + SECRETS, ".json", secrets)
    requires clients.Some? ==> Listing(src, clients.value, ".yaml", yamls)
    ensures forall it :: it in ToArchive(src, home, clients, secrets, yamls) ==> it.source in src
    ensures var items := ToArchive(src, home, clients, secrets, yamls);
      var b := Bundled(src, home, clients, secrets, yamls, packed);
      && Refusal(b).None?
      && FromExporter(b.manifest.value.files) && |b.manifest.value.files| == |items|
      && items != [] && b.manifest.value.files[0].kind.Sqlite?
      && forall i :: 0 <= i < |items| ==>
           b.manifest.value.files[i].path in b.members &&
               b.members[b.manifest.value.files[i].path] == src[items[i].source]
  {
    ExportVerifies(src, home, clients, secrets, yamls, packed);
    ItemsSound(src, home, clients, secrets, yamls);
    var items := ToArchive(src, home, clients, secrets, yamls);
    hide ToArchive, Entries, Members, FromExporter, ExporterShape;
    EntriesShape(src, items);
    MembersShape(src, items);
  }

  /** Exporting a home and importing the bundle elsewhere: every archived file whose kind has a
      place at the target arrives byte for byte (the database before its schema upgrade), no
      temporary file remains, and nothing else outside this import's backup directory changes. */
  lemma RoundTrip(src: Files, home: Path, clients: Option<Path>, secrets: seq<string>, yamls: seq<string>, packed: nat,
                  fs: Files, w: Site, flush: Bytes -> Bytes, upgrade: Option<Bytes> -> Bytes)
    requires home + [DB] in src && packed <= MAX_BUNDLE_SIZE && ProperHome(w)
    requires Listing(src, home + SECRETS, ".json", secrets)
    requires clients.Some? ==> Listing(src, clients.value, ".yaml", yamls)
    ensures forall it :: it in ToArchive(src, home, clients, secrets, yamls) ==> it.source in src
    ensures var items := ToArchive(src, home, clients, secrets, yamls);
      var b := Bundled(src, home, clients, secrets, yamls, packed);
      var entries := b.manifest.value.files;
      var r := Import(fs, b, w, NoFault, flush, upgrade);
      && r.error.None? && |entries| == |items|
      && (forall i :: 0 <= i < |items| && Target(entries[i], w).Some? ==>
            var t := Target(entries[i], w).value;
            t in r.files && r.files[t] ==
                (if t == w.Db() then upgrade(Some(src[items[i].source])) else src[items[i].source])
            && Tmp(t) !in r.files)
      && (forall p :: !Touched(entries, w, p) && !(w.Backup() <= p) ==> SameAt(r.files, fs, p))
  {
    ExportIsAccepted(src, home, clients, secrets, yamls, packed);
    var b := Bundled(src, home, clients, secrets, yamls, packed);
    hide Tmp, Target, ToArchive, Bundled, FromExporter, ProperHome, Touched, SameAt;
    RoundTripOf(fs, b, w, flush, upgrade);
  }

  lemma SameTrans(a: Files, b: Files, c: Files, p: Path)
    requires SameAt(a, b, p) && SameAt(b, c, p)
    ensures SameAt(a, c, p)
  {
  }

  /** Backing up touches the backup directory only. */
  lemma {:induction false} BackupStaysInside(fs: Files, entries: seq<Entry>, w: Site, p: Path)
    requires !(w.Backup() <= p)
    ensures SameAt(BackedUp(fs, entries, w), fs, p)
  {
    if entries != [] {
      var n := |entries| - 1;
      BackupStaysInside(fs, entries[..n], w, p);
      var t := Target(entries[n], w);
      hide Target;
      if t.Some? {
        assert w.Backup() <= Saved(t.value, w);
        hide Saved;
      }
    }
  }

  lemma WritesStayOnTargets(fs: Files, entries: seq<Entry>, members: map<Path, Bytes>, w: Site, n: nat, p: Path)
    requires Separated(entries, w) && n <= |entries| && !Touched(entries, w, p)
    requires forall k :: 0 <= k < |entries| ==> entries[k].path in members
    ensures SameAt(Applied(fs, entries[..n], members, w), fs, p)
  {
    hide Touched, SameAt, Applied, Target;
    SeparatedPrefix(entries, w, n);
    AppliedIs(fs, entries[..n], members, w);
    PrefixTouched(entries, w, n, p);
  }

  lemma TargetIsTouched(entries: seq<Entry>, w: Site, i: nat)
    requires i < |entries| && Target(entries[i], w).Some?
    ensures Touched(entries, w, Target(entries[i], w).value) && Touched(entries, w, Tmp(Target(entries[i], w).value))
  {
  }

  lemma FlushedElsewhere(fs: Files, w: Site, flush: Bytes -> Bytes, p: Path)
    requires p != w.Db()
    ensures SameAt(Flushed(fs, w, flush), fs, p)
  {
  }

  lemma RoundTripOf(fs: Files, b: Archive, w: Site, flush: Bytes -> Bytes, upgrade: Option<Bytes> -> Bytes)
    requires Refusal(b).None? && FromExporter(b.manifest.value.files) && ProperHome(w)
    requires b.manifest.value.files != [] && b.manifest.value.files[0].kind.Sqlite?
    ensures var entries := b.manifest.value.files;
      var r := Import(fs, b, w, NoFault, flush, upgrade).files;
      && (forall i :: 0 <= i < |entries| && Target(entries[i], w).Some? ==>
            var t, c := Target(entries[i], w).value, b.members[entries[i].path];
            t in r && r[t] == (if t == w.Db() then upgrade(Some(c)) else c) && Tmp(t) !in r)
      && (forall p :: !Touched(entries, w, p) && !(w.Backup() <= p) ==> SameAt(r, fs, p))
  {
    var entries := b.manifest.value.files;
    ExporterSeparates(entries, w);
    assert Target(entries[0], w) == Some(w.Db());
    forall i | 0 <= i < |entries| && Target(entries[i], w).Some?
      ensures var t, c := Target(entries[i], w).value, b.members[entries[i].path];
        var r := Import(fs, b, w, NoFault, flush, upgrade).files;
        t in r && r[t] == (if t == w.Db() then upgrade(Some(c)) else c) && Tmp(t) !in r
    {
      TargetWritten(fs, b, w, flush, upgrade, i);
    }
    hide Tmp, Saved, Target, Refusal, Import, Separated, FromExporter;
    forall p | !Touched(entries, w, p) && !(w.Backup() <= p)
      ensures SameAt(Import(fs, b, w, NoFault, flush, upgrade).files, fs, p)
    {
      TargetIsTouched(entries, w, 0);
      UntouchedSurvives(fs, b, w, NoFault, flush, upgrade, p);
    }
  }

  lemma TargetWritten(fs: Files, b: Archive, w: Site, flush: Bytes -> Bytes, upgrade: Option<Bytes> -> Bytes, i: nat)
    requires Refusal(b).None? && Separated(b.manifest.value.files, w)
    requires i < |b.manifest.value.files| && Target(b.manifest.value.files[i], w).Some?
    requires Target(b.manifest.value.files[0], w) == Some(w.Db())
    requires b.manifest.value.files[i].path in b.members
    ensures var t, c := Target(b.manifest.value.files[i], w).value, b.members[b.manifest.value.files[i].path];
      var r := Import(fs, b, w, NoFault, flush, upgrade).files;
      t in r && r[t] == (if t == w.Db() then upgrade(Some(c)) else c) && Tmp(t) !in r
  {
    var entries := b.manifest.value.files;
    ImportCases(fs, b, w, NoFault, flush, upgrade);
    hide Tmp, Saved, Target, Refusal, Import, Flushed, BackedUp;
    var saved := BackedUp(Flushed(fs, w, flush), entries, w);
    AppliedIs(saved, entries, b.members, w);
    assert Apart(entries[0], entries[i], w);
    if i != 0 { assert Distinct(entries[0], entries[i], w); }
  }

  /** A write that fails at entry i leaves exactly the entries before i new: their targets hold the
      bundle's bytes, every other target holds what it held before (the database flushed). */
  lemma FailedWriteStopsThere(fs: Files, b: Archive, w: Site, at: nat, leftover: Option<Bytes>, flush: Bytes -> Bytes,
                              upgrade: Option<Bytes> -> Bytes)
    requires Refusal(b).None? && FromExporter(b.manifest.value.files) && ProperHome(w) &&
        Strikes(at, b.manifest.value.files, w)
    ensures var entries := b.manifest.value.files;
      var r := Import(fs, b, w, WriteFault(at, leftover), flush, upgrade);
      && r.error == Some(WriteFailed(at))
      && (forall i :: 0 <= i < |entries| && Target(entries[i], w).Some? ==>
            var t := Target(entries[i], w).value;
            if i < at then t in r.files && r.files[t] == b.members[entries[i].path]
            else SameAt(r.files, Flushed(fs, w, flush), t))
  {
    var entries := b.manifest.value.files;
    ExporterSeparates(entries, w);
    assert Import(fs, b, w, WriteFault(at, leftover), flush, upgrade).error == Some(WriteFailed(at));
    hide Tmp, Target, Separated, FromExporter, Import, SameAt;
    forall i | 0 <= i < |entries| && Target(entries[i], w).Some?
      ensures var t, r := Target(entries[i], w).value, Import(fs, b, w, WriteFault(at, leftover), flush, upgrade).files;
        if i < at then t in r && r[t] == b.members[entries[i].path] else SameAt(r, Flushed(fs, w, flush), t)
    {
      TargetAfterFailure(fs, b, w, at, leftover, flush, upgrade, i);
    }
  }

  lemma TargetAfterFailure(fs: Files, b: Archive, w: Site, at: nat, leftover: Option<Bytes>, flush: Bytes -> Bytes,
                           upgrade: Option<Bytes> -> Bytes, i: nat)
    requires Refusal(b).None? && Separated(b.manifest.value.files, w) && Strikes(at, b.manifest.value.files, w)
    requires i < |b.manifest.value.files| && Target(b.manifest.value.files[i], w).Some?
    requires b.manifest.value.files[i].path in b.members
    ensures var entries := b.manifest.value.files;
      var t, r := Target(entries[i], w).value, Import(fs, b, w, WriteFault(at, leftover), flush, upgrade).files;
      if i < at then t in r && r[t] == b.members[entries[i].path] else SameAt(r, Flushed(fs, w, flush), t)
  {
    var entries := b.manifest.value.files;
    ImportCases(fs, b, w, WriteFault(at, leftover), flush, upgrade);
    hide Tmp, Saved, Target, Refusal, Import, Flushed, BackedUp, Applied;
    var saved := BackedUp(Flushed(fs, w, flush), entries, w);
    assert Apart(entries[i], entries[at], w);
    if i < at {
      SeparatedPrefix(entries, w, at);
      AppliedIs(saved, entries[..at], b.members, w);
      assert entries[..at][i] == entries[i];
    } else {
      LaterTargetKept(Flushed(fs, w, flush), entries, b.members, w, at, i);
    }
  }

  lemma LaterTargetKept(start: Files, entries: seq<Entry>, members: map<Path, Bytes>, w: Site, at: nat, i: nat)
    requires Separated(entries, w) && at <= i < |entries| && Target(entries[i], w).Some?
    requires forall k :: 0 <= k < |entries| ==> entries[k].path in members
    ensures SameAt(Applied(BackedUp(start, entries, w), entries[..at], members, w), start, Target(entries[i], w).value)
  {
    hide Tmp, Saved, Target;
    var t, saved := Target(entries[i], w).value, BackedUp(start, entries, w);
    SeparatedPrefix(entries, w, at);
    AppliedIs(saved, entries[..at], members, w);
    forall j | 0 <= j < at && Target(entries[..at][j], w).Some?
      ensures Target(entries[..at][j], w).value != t && Tmp(Target(entries[..at][j], w).value) != t
    {
      assert Distinct(entries[j], entries[i], w) && Apart(entries[i], entries[j], w);
    }
    assert SameAt(Applied(saved, entries[..at], members, w), saved, t);
    TargetsNotSaved(entries, w, i);
    BackedUpIs(start, entries, w);
    assert SameAt(saved, start, t);
  }

  /** Copying the backup back after a finished import, or after a write that failed anywhere,
      restores every file that existed before, with the content it had (the database flushed).
      Files of the backup directory itself are not spoken of; for the temporary names see
      StaleTemporaryIff. */
  lemma BackupRestores(fs: Files, b: Archive, w: Site, fault: Fault, flush: Bytes -> Bytes,
                       upgrade: Option<Bytes> -> Bytes, p: Path)
    requires Refusal(b).None? && FromExporter(b.manifest.value.files) && ProperHome(w) && !fault.BackupFault?
    requires b.manifest.value.files != [] && b.manifest.value.files[0].kind.Sqlite?
    requires p in fs && !(w.Backup() <= p)
    requires forall i :: 0 <= i < |b.manifest.value.files| && Target(b.manifest.value.files[i], w).Some? ==>
               p != Tmp(Target(b.manifest.value.files[i], w).value)
    ensures var r := Restored(Import(fs, b, w, fault, flush, upgrade).files, b.manifest.value.files, w);
      p in r && r[p] == (if p == w.Db() then flush(fs[p]) else fs[p])
  {
    var entries := b.manifest.value.files;
    ExporterSeparates(entries, w);
    hide Tmp, Saved, Refusal, Import, Restored, FromExporter, Separated, ProperHome;
    if i: nat :| i < |entries| && Target(entries[i], w) == Some(p) {
      TargetRestored(fs, b, w, fault, flush, upgrade, i);
    } else {
      OtherRestored(fs, b, w, fault, flush, upgrade, p);
    }
  }

  lemma TargetRestored(fs: Files, b: Archive, w: Site, fault: Fault, flush: Bytes -> Bytes,
                       upgrade: Option<Bytes> -> Bytes, i: nat)
    requires Refusal(b).None? && Separated(b.manifest.value.files, w) && !fault.BackupFault?
    requires i < |b.manifest.value.files| && Target(b.manifest.value.files[i], w).Some?
    requires b.manifest.value.files[0].kind.Sqlite?
    requires Target(b.manifest.value.files[i], w).value in fs
    ensures var p := Target(b.manifest.value.files[i], w).value;
      var r := Restored(Import(fs, b, w, fault, flush, upgrade).files, b.manifest.value.files, w);
      p in r && r[p] == (if p == w.Db() then flush(fs[p]) else fs[p])
  {
    var entries := b.manifest.value.files;
    hide Tmp, Saved, Target, Refusal, Import, Restored, Separated;
    RestoredIs(Import(fs, b, w, fault, flush, upgrade).files, entries, w);
    BackupSurvives(fs, b, w, fault, flush, upgrade, i);
    FlushedAt(fs, w, flush, Target(entries[i], w).value);
  }

  lemma OtherRestored(fs: Files, b: Archive, w: Site, fault: Fault, flush: Bytes -> Bytes,
                      upgrade: Option<Bytes> -> Bytes, p: Path)
    requires Refusal(b).None? && Separated(b.manifest.value.files, w) && !fault.BackupFault?
    requires b.manifest.value.files != [] && b.manifest.value.files[0].kind.Sqlite?
    requires p in fs && !(w.Backup() <= p)
    requires forall i :: 0 <= i < |b.manifest.value.files| && Target(b.manifest.value.files[i], w).Some? ==>
               p != Tmp(Target(b.manifest.value.files[i], w).value)
    requires forall i :: 0 <= i < |b.manifest.value.files| ==> Target(b.manifest.value.files[i], w) != Some(p)
    ensures p != w.Db()
    ensures var r := Restored(Import(fs, b, w, fault, flush, upgrade).files, b.manifest.value.files, w);
      p in r && r[p] == fs[p]
  {
    var entries := b.manifest.value.files;
    assert Target(entries[0], w) == Some(w.Db());
    hide Tmp, Saved, Target, Refusal, Import, Restored, Separated;
    var after := Import(fs, b, w, fault, flush, upgrade).files;
    RestoredIs(after, entries, w);
    UntouchedSurvives(fs, b, w, fault, flush, upgrade, p);
    SameTrans(Restored(after, entries, w), after, fs, p);
  }

  lemma FlushedAt(fs: Files, w: Site, flush: Bytes -> Bytes, p: Path)
    requires p in fs
    ensures p in Flushed(fs, w, flush)
    ensures Flushed(fs, w, flush)[p] == if p == w.Db() then flush(fs[p]) else fs[p]
  {
  }

  /** The two ways a run can end once the backup is complete. */
  lemma ImportCases(fs: Files, b: Archive, w: Site, fault: Fault, flush: Bytes -> Bytes,
                    upgrade: Option<Bytes> -> Bytes)
    requires Refusal(b).None? && !fault.BackupFault?
    ensures var entries := b.manifest.value.files;
      var saved := BackedUp(Flushed(fs, w, flush), entries, w);
      && (forall i :: 0 <= i < |entries| ==> entries[i].path in b.members)
      && Import(fs, b, w, fault, flush, upgrade).files ==
           if fault.WriteFault? && Strikes(fault.at, entries, w)
           then Litter(Applied(saved, entries[..fault.at], b.members, w),
                       Tmp(Target(entries[fault.at], w).value), fault.leftover)
           else Upgraded(Applied(saved, entries, b.members, w), w, upgrade)
  {
  }

  /** Whatever happens after the backup, a path that is no target, no temporary name and not the
      database keeps what it had when the backup was complete. */
  lemma AfterBackup(fs: Files, b: Archive, w: Site, fault: Fault, flush: Bytes -> Bytes,
                    upgrade: Option<Bytes> -> Bytes, p: Path)
    requires Refusal(b).None? && Separated(b.manifest.value.files, w) && !fault.BackupFault?
    requires p != w.Db() && !Touched(b.manifest.value.files, w, p)
    ensures SameAt(Import(fs, b, w, fault, flush, upgrade).files,
                   BackedUp(Flushed(fs, w, flush), b.manifest.value.files, w), p)
  {
    var entries := b.manifest.value.files;
    ImportCases(fs, b, w, fault, flush, upgrade);
    hide Import, Refusal, Verified, Flushed, Touched, BackedUp, Applied, Separated, Target, Tmp;
    var saved := BackedUp(Flushed(fs, w, flush), entries, w);
    if fault.WriteFault? && Strikes(fault.at, entries, w) {
      WritesStayOnTargets(saved, entries, b.members, w, fault.at, p);
      TargetIsTouched(entries, w, fault.at);
    } else {
      WritesStayOnTargets(saved, entries, b.members, w, |entries|, p);
      assert entries[..|entries|] == entries;
    }
  }

  lemma BackupSurvives(fs: Files, b: Archive, w: Site, fault: Fault, flush: Bytes -> Bytes,
                       upgrade: Option<Bytes> -> Bytes, i: nat)
    requires Refusal(b).None? && Separated(b.manifest.value.files, w) && !fault.BackupFault?
    requires i < |b.manifest.value.files| && Target(b.manifest.value.files[i], w).Some?
    requires b.manifest.value.files[0].kind.Sqlite?
    requires Target(b.manifest.value.files[i], w).value in fs
    ensures Target(b.manifest.value.files[i], w).value in Flushed(fs, w, flush)
    ensures var t, after := Target(b.manifest.value.files[i], w).value, Import(fs, b, w, fault, flush, upgrade).files;
      Saved(t, w) in after && after[Saved(t, w)] == Flushed(fs, w, flush)[t]
  {
    var entries := b.manifest.value.files;
    var start := Flushed(fs, w, flush);
    var t := Target(entries[i], w).value;
    FlushedAt(fs, w, flush, t);
    assert Target(entries[0], w) == Some(w.Db());
    hide Tmp, Saved, Target, Refusal, Verified, Flushed, Import;
    assert Apart(entries[i], entries[0], w);
    TargetsNotSaved(entries, w, i);
    BackedUpIs(start, entries, w);
    AfterBackup(fs, b, w, fault, flush, upgrade, Saved(t, w));
  }

  lemma PrefixTouched(entries: seq<Entry>, w: Site, n: nat, p: Path)
    requires n <= |entries| && !Touched(entries, w, p)
    ensures !Touched(entries[..n], w, p)
  {
    forall i | 0 <= i < n ensures entries[..n][i] == entries[i] { }
  }

  lemma UntouchedSurvives(fs: Files, b: Archive, w: Site, fault: Fault, flush: Bytes -> Bytes,
                          upgrade: Option<Bytes> -> Bytes, p: Path)
    requires Refusal(b).None? && Separated(b.manifest.value.files, w) && !fault.BackupFault?
    requires p != w.Db() && !Touched(b.manifest.value.files, w, p) && !(w.Backup() <= p)
    ensures SameAt(Import(fs, b, w, fault, flush, upgrade).files, fs, p)
  {
    var entries, start := b.manifest.value.files, Flushed(fs, w, flush);
    hide Import, Refusal, Verified, Flushed, Touched, BackedUp, Separated, SameAt;
    AfterBackup(fs, b, w, fault, flush, upgrade, p);
    BackupStaysInside(start, entries, w, p);
    FlushedElsewhere(fs, w, flush, p);
    SameTrans(BackedUp(start, entries, w), start, fs, p);
    SameTrans(Import(fs, b, w, fault, flush, upgrade).files, BackedUp(start, entries, w), fs, p);
  }

  // ---- files that carry a temporary name already ----

  lemma TmpInjective(s: Path, t: Path)
    requires s != [] && t != [] && Tmp(s) == Tmp(t)
    ensures s == t
  {
    var m, n := |s| - 1, |t| - 1;
    LastOf(s[..m], s[m] + ".migrating", t[..n], t[n] + ".migrating");
    assert s[m] == (s[m] + ".migrating")[..|s[m]|] && t[n] == (t[n] + ".migrating")[..|t[n]|];
    assert s == s[..m] + [s[m]] && t == t[..n] + [t[n]];
  }

  lemma TemporariesDiffer(entries: seq<Entry>, w: Site, i: nat, j: nat)
    requires Separated(entries, w) && i < |entries| && j < |entries| && i != j
    requires Target(entries[i], w).Some? && Target(entries[j], w).Some?
    ensures Tmp(Target(entries[i], w).value) != Tmp(Target(entries[j], w).value)
  {
    EntriesDiffer(entries, w, i, j);
    if Tmp(Target(entries[i], w).value) == Tmp(Target(entries[j], w).value) {
      TmpInjective(Target(entries[i], w).value, Target(entries[j], w).value);
    }
  }

  /** The backup leaves temporary names alone. */
  lemma TemporaryAfterBackup(fs: Files, entries: seq<Entry>, w: Site, flush: Bytes -> Bytes, i: nat)
    requires Separated(entries, w) && entries != [] && Target(entries[0], w) == Some(w.Db())
    requires i < |entries| && Target(entries[i], w).Some?
    ensures Tmp(Target(entries[i], w).value) != w.Db()
    ensures SameAt(BackedUp(Flushed(fs, w, flush), entries, w), fs, Tmp(Target(entries[i], w).value))
  {
    var p, start := Tmp(Target(entries[i], w).value), Flushed(fs, w, flush);
    assert Apart(entries[0], entries[i], w);
    hide Target, Tmp, Saved, Flushed, SameAt;
    TargetsNotSaved(entries, w, i);
    BackedUpIs(start, entries, w);
    FlushedElsewhere(fs, w, flush, p);
    SameTrans(BackedUp(start, entries, w), start, fs, p);
  }

  /** The writes of the first n entries destroy their temporary names and no others. */
  lemma TemporaryAfterWrites(fs: Files, entries: seq<Entry>, members: map<Path, Bytes>, w: Site, n: nat, i: nat)
    requires Separated(entries, w) && n <= |entries| && i < |entries| && Target(entries[i], w).Some?
    requires forall k :: 0 <= k < |entries| ==> entries[k].path in members
    ensures var p, r := Tmp(Target(entries[i], w).value), Applied(fs, entries[..n], members, w);
      if i < n then p !in r else SameAt(r, fs, p)
  {
    hide Target, Tmp, Saved, Applied, SameAt;
    var p := Tmp(Target(entries[i], w).value);
    SeparatedPrefix(entries, w, n);
    AppliedIs(fs, entries[..n], members, w);
    if i < n {
      assert entries[..n][i] == entries[i];
    } else {
      forall k | 0 <= k < n && Target(entries[..n][k], w).Some?
        ensures p != Target(entries[..n][k], w).value && p != Tmp(Target(entries[..n][k], w).value)
      {
        assert entries[..n][k] == entries[k] && Apart(entries[k], entries[i], w);
        TemporariesDiffer(entries, w, k, i);
      }
    }
  }

  /** Whether the import spares the temporary name of entry i: only a write that failed at it, or
      before it, does, and at it only without leaving something else there. */
  predicate Spared(fault: Fault, entries: seq<Entry>, w: Site, i: nat, content: Bytes) {
    fault.WriteFault? && Strikes(fault.at, entries, w) &&
    (fault.at < i || (fault.at == i && (fault.leftover.None? || fault.leftover.value == content)))
  }

  /** A file that carries the `.migrating` name of a target before the import is not in the backup. It
      is there with its content after the import, and after copying the backup back, exactly when the
      writes failed at its target, leaving nothing else under that name, or earlier. */
  lemma StaleTemporaryIff(fs: Files, b: Archive, w: Site, fault: Fault, flush: Bytes -> Bytes,
                          upgrade: Option<Bytes> -> Bytes, i: nat)
    requires Refusal(b).None? && FromExporter(b.manifest.value.files) && ProperHome(w) && !fault.BackupFault?
    requires b.manifest.value.files != [] && b.manifest.value.files[0].kind.Sqlite?
    requires i < |b.manifest.value.files| && Target(b.manifest.value.files[i], w).Some?
    requires Tmp(Target(b.manifest.value.files[i], w).value) in fs
    ensures var entries, p := b.manifest.value.files, Tmp(Target(b.manifest.value.files[i], w).value);
      var after := Import(fs, b, w, fault, flush, upgrade).files;
      var r := Restored(after, entries, w);
      (p in after && after[p] == fs[p] <==> Spared(fault, entries, w, i, fs[p])) &&
      (p in r && r[p] == fs[p] <==> Spared(fault, entries, w, i, fs[p]))
  {
    var entries := b.manifest.value.files;
    ExporterSeparates(entries, w);
    assert Target(entries[0], w) == Some(w.Db());
    hide Target, Tmp, Refusal, Import, FromExporter, ProperHome, Separated, Restored, Spared;
    TemporaryAfterImport(fs, b, w, fault, flush, upgrade, i);
    TemporaryNotRestored(Import(fs, b, w, fault, flush, upgrade).files, entries, w, i);
  }

  lemma TemporaryAfterImport(fs: Files, b: Archive, w: Site, fault: Fault, flush: Bytes -> Bytes,
                             upgrade: Option<Bytes> -> Bytes, i: nat)
    requires Refusal(b).None? && Separated(b.manifest.value.files, w) && !fault.BackupFault?
    requires b.manifest.value.files != [] && Target(b.manifest.value.files[0], w) == Some(w.Db())
    requires i < |b.manifest.value.files| && Target(b.manifest.value.files[i], w).Some?
    requires Tmp(Target(b.manifest.value.files[i], w).value) in fs
    ensures var entries, p := b.manifest.value.files, Tmp(Target(b.manifest.value.files[i], w).value);
      var after := Import(fs, b, w, fault, flush, upgrade).files;
      p in after && after[p] == fs[p] <==> Spared(fault, entries, w, i, fs[p])
  {
    var entries := b.manifest.value.files;
    ImportCases(fs, b, w, fault, flush, upgrade);
    hide Target, Tmp, Saved, Refusal, Import, Separated, Flushed, BackedUp, Applied;
    var p, saved := Tmp(Target(entries[i], w).value), BackedUp(Flushed(fs, w, flush), entries, w);
    hide SameAt, Litter, Upgraded;
    TemporaryAfterBackup(fs, entries, w, flush, i);
    if fault.WriteFault? && Strikes(fault.at, entries, w) {
      var written := Applied(saved, entries[..fault.at], b.members, w);
      TemporaryAfterWrites(saved, entries, b.members, w, fault.at, i);
      if i != fault.at { TemporariesDiffer(entries, w, i, fault.at); }
      if i >= fault.at { SameTrans(written, saved, fs, p); }
      LitterAt(written, fs, p, Tmp(Target(entries[fault.at], w).value), fault.leftover, i, fault.at);
    } else {
      TemporaryAfterWrites(saved, entries, b.members, w, |entries|, i);
      assert entries[..|entries|] == entries;
      UpgradedElsewhere(Applied(saved, entries, b.members, w), w, upgrade, p);
    }
  }

  lemma LitterAt(x: Files, fs: Files, p: Path, q: Path, leftover: Option<Bytes>, i: nat, at: nat)
    requires p in fs && (p == q <==> i == at) && (if i < at then p !in x else SameAt(x, fs, p))
    ensures var r := Litter(x, q, leftover);
      p in r && r[p] == fs[p] <==> at < i || (at == i && (leftover.None? || leftover.value == fs[p]))
  {
  }

  lemma UpgradedElsewhere(x: Files, w: Site, upgrade: Option<Bytes> -> Bytes, p: Path)
    requires p != w.Db() && p !in x
    ensures p !in Upgraded(x, w, upgrade)
  {
  }

  lemma TemporaryNotRestored(fs: Files, entries: seq<Entry>, w: Site, i: nat)
    requires Separated(entries, w) && i < |entries| && Target(entries[i], w).Some?
    ensures SameAt(Restored(fs, entries, w), fs, Tmp(Target(entries[i], w).value))
  {
    hide Target, Tmp, Saved, Restored, SameAt;
    RestoredIs(fs, entries, w);
    forall k | 0 <= k < |entries| ensures Target(entries[k], w) != Some(Tmp(Target(entries[i], w).value)) {
      assert Apart(entries[k], entries[i], w);
    }
  }

  // ---- a backup that fails ----

  lemma EntriesDiffer(entries: seq<Entry>, w: Site, i: nat, j: nat)
    requires Separated(entries, w) && i < |entries| && j < |entries| && i != j
    requires Target(entries[i], w).Some? && Target(entries[j], w).Some?
    ensures Target(entries[i], w) != Target(entries[j], w)
    ensures Saved(Target(entries[i], w).value, w) != Saved(Target(entries[j], w).value, w)
  {
    hide Target, Tmp, Saved;
    if i < j { assert Distinct(entries[i], entries[j], w); } else { assert Distinct(entries[j], entries[i], w); }
  }

  /** When the backup itself fails, the import says so and nothing outside its backup directory has
      changed, but for the flush of the database. */
  lemma FailedBackupTouchesNothing(fs: Files, b: Archive, w: Site, at: nat, leftover: Option<Bytes>,
                                   flush: Bytes -> Bytes, upgrade: Option<Bytes> -> Bytes, p: Path)
    requires Refusal(b).None? && Strikes(at, b.manifest.value.files, w) && !(w.Backup() <= p)
    ensures var r := Import(fs, b, w, BackupFault(at, leftover), flush, upgrade);
      r.error == Some(BackupFailed) && SameAt(r.files, Flushed(fs, w, flush), p)
  {
    var entries := b.manifest.value.files;
    BackupStaysInside(Flushed(fs, w, flush), entries[..at], w, p);
    assert w.Backup() <= Saved(Target(entries[at], w).value, w);
  }

  /** A target without a copy in the backup is left alone by copying the backup back. */
  lemma {:induction false} RestoredSkips(fs: Files, entries: seq<Entry>, w: Site, i: nat)
    requires Separated(entries, w) && i < |entries| && Target(entries[i], w).Some?
    requires Saved(Target(entries[i], w).value, w) !in fs
    ensures SameAt(Restored(fs, entries, w), fs, Target(entries[i], w).value)
  {
    hide Target, Tmp, Saved;
    var n := |entries| - 1;
    var head, t := entries[..n], Target(entries[i], w).value;
    SeparatedPrefix(entries, w, n);
    RestoredIs(fs, head, w);
    var before := Restored(fs, head, w);
    if i < n {
      assert head[i] == entries[i];
      RestoredSkips(fs, head, w, i);
      assert Distinct(entries[i], entries[n], w);
    } else {
      forall k | 0 <= k < n ensures Target(head[k], w) != Some(t) && Target(head[k], w) != Some(Saved(t, w)) {
        assert head[k] == entries[k] && Distinct(entries[k], entries[n], w) && Apart(entries[n], entries[k], w);
      }
      assert SameAt(before, fs, t) && SameAt(before, fs, Saved(t, w));
    }
  }

  /** What the backup directory holds after the failure, when it was empty before. */
  lemma HalfBackup(fs: Files, entries: seq<Entry>, w: Site, at: nat, leftover: Option<Bytes>, i: nat)
    requires Separated(entries, w) && Strikes(at, entries, w) && i < |entries| && Target(entries[i], w).Some?
    requires Target(entries[i], w).value in fs
    requires forall p :: p in fs ==> !(w.Backup() <= p)
    ensures var r, t := HalfBackedUp(fs, entries, w, at, leftover), Target(entries[i], w).value;
      var d := Saved(t, w);
      if i < at then d in r && r[d] == fs[t]
      else if i == at && leftover.Some? then d in r && r[d] == leftover.value
      else d !in r
  {
    var t, u := Target(entries[i], w).value, Target(entries[at], w).value;
    assert w.Backup() <= Saved(t, w);
    BackupStaysInside(fs, entries[..at], w, t);
    hide Target, Tmp, Saved;
    SeparatedPrefix(entries, w, at);
    BackedUpIs(fs, entries[..at], w);
    if i != at { EntriesDiffer(entries, w, i, at); }
    if i < at {
      assert entries[..at][i] == entries[i];
    } else {
      NotSavedYet(entries, w, at, i);
    }
  }

  lemma NotSavedYet(entries: seq<Entry>, w: Site, at: nat, i: nat)
    requires Separated(entries, w) && at <= i < |entries| && Target(entries[i], w).Some?
    ensures !SavedHere(entries[..at], w, Saved(Target(entries[i], w).value, w))
  {
    hide Target, Tmp, Saved;
    forall k | 0 <= k < at && Target(entries[..at][k], w).Some?
      ensures Saved(Target(entries[..at][k], w).value, w) != Saved(Target(entries[i], w).value, w)
    {
      assert Distinct(entries[k], entries[i], w);
    }
  }

  /** Copying a failed backup back, its directory having been new, leaves every file that existed
      before with its content, except exactly this one: the target whose copy was cut short, when the
      part that was copied differs from it. Such a copy replaces an intact file. */
  lemma FailedBackupRestoresIff(fs: Files, b: Archive, w: Site, at: nat, leftover: Option<Bytes>, flush: Bytes -> Bytes,
                                upgrade: Option<Bytes> -> Bytes, p: Path)
    requires Refusal(b).None? && FromExporter(b.manifest.value.files) && ProperHome(w)
    requires Strikes(at, b.manifest.value.files, w)
    requires p in fs && forall q :: q in fs ==> !(w.Backup() <= q)
    ensures var entries, start := b.manifest.value.files, Flushed(fs, w, flush);
      var r := Restored(Import(fs, b, w, BackupFault(at, leftover), flush, upgrade).files, entries, w);
      p in start && p in r &&
      (r[p] == start[p] <==> !(Target(entries[at], w) == Some(p) && leftover.Some? && leftover.value != start[p]))
  {
    var entries, start := b.manifest.value.files, Flushed(fs, w, flush);
    var after := HalfBackedUp(start, entries, w, at, leftover);
    assert Import(fs, b, w, BackupFault(at, leftover), flush, upgrade).files == after;
    FlushedAt(fs, w, flush, p);
    ExporterSeparates(entries, w);
    FailedBackupTouchesNothing(fs, b, w, at, leftover, flush, upgrade, p);
    RestoredIs(after, entries, w);
    assert forall q :: q in start ==> q in fs;
    hide Tmp, Saved, Target, Refusal, Verified, Import, Restored, FromExporter, Separated, ProperHome;
    hide Flushed, HalfBackedUp;
    if i: nat :| i < |entries| && Target(entries[i], w) == Some(p) {
      HalfBackup(start, entries, w, at, leftover, i);
      if i != at { EntriesDiffer(entries, w, i, at); }
      if Saved(p, w) !in after { RestoredSkips(after, entries, w, i); }
    } else {
      assert SameAt(Restored(after, entries, w), after, p);
    }
  }
}
