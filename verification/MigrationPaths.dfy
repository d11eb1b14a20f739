/** The migration bundle in terms of the paths an operator sees: what is archived, where it arrives,
    where the backup puts what it replaces. */
module MigrationPaths {
  import opened Wrappers
  import opened Text
  import opened Bundle
  import opened Importer

  /** What is archived, under which name: the database, the account index if there is one, every listed
      secret, and every listed client file whose name does not start with an underscore. */
  lemma ArchiveListIs(fs: Files, home: Path, clients: Option<Path>, secrets: seq<string>, yamls: seq<string>, it: Item)
    requires Listing(fs, home + SECRETS, ".json", secrets)
    requires clients.Some? ==> Listing(fs, clients.value, ".yaml", yamls)
    ensures it in ToArchive(fs, home, clients, secrets, yamls) <==>
      || it == Item(["pilk.db"], home + ["pilk.db"], Sqlite)
      || (home + ["identity", "accounts", "index.json"] in fs
          && it == Item(["identity", "accounts", "index.json"],
                        home + ["identity", "accounts", "index.json"], AccountsIndex))
      || (exists n ::
            n in secrets &&
            it == Item(["identity", "accounts", "secrets", n],
                       home + ["identity", "accounts", "secrets", n], AccountsSecret))
      || (clients.Some? && exists n ::
            n in yamls && (n == "" || n[0] != '_') && it == Item(["clients", n], clients.value + [n], ClientsYaml))
  {
    IndexPath(home);
    SecretListed(home, secrets, it);
    if clients.Some? { ClientListed(clients.value, yamls, it); }
    hide SecretItems, ClientItems, Listing;
    var index := if home + ACCOUNTS + ["index.json"] in fs
      then [Item(ACCOUNTS + ["index.json"], home + ACCOUNTS + ["index.json"], AccountsIndex)] else [];
    var yaml := if clients.Some? then ClientItems(clients.value, yamls) else [];
    assert ToArchive(fs, home, clients, secrets, yamls)
        == [Item([DB], home + [DB], Sqlite)] + index + SecretItems(home, secrets) + yaml;
  }

  lemma IndexPath(home: Path)
    ensures home + ACCOUNTS + ["index.json"] == home + ["identity", "accounts", "index.json"]
    ensures ACCOUNTS + ["index.json"] == ["identity", "accounts", "index.json"]
  {
  }

  lemma SecretPath(home: Path, n: string)
    ensures home + SECRETS + [n] == home + ["identity", "accounts", "secrets", n]
    ensures SECRETS + [n] == ["identity", "accounts", "secrets", n]
  {
  }

  lemma SecretListed(home: Path, names: seq<string>, it: Item)
    requires forall i, j :: 0 <= i < j < |names| ==> names[i] != names[j]
    ensures it in SecretItems(home, names) <==>
      exists n ::
        n in names &&
        it == Item(["identity", "accounts", "secrets", n],
                   home + ["identity", "accounts", "secrets", n], AccountsSecret)
  {
    SecretItemsShape(home, names);
    var items := SecretItems(home, names);
    if it in items {
      var i :| 0 <= i < |items| && items[i] == it;
      SecretPath(home, names[i]);
    }
    if n :| n in names && it == Item(["identity", "accounts", "secrets", n],
                                     home + ["identity", "accounts", "secrets", n], AccountsSecret) {
      var i :| 0 <= i < |names| && names[i] == n;
      SecretPath(home, n);
      assert items[i] == it;
    }
  }

  lemma ClientListed(dir: Path, names: seq<string>, it: Item)
    requires forall i, j :: 0 <= i < j < |names| ==> names[i] != names[j]
    ensures it in ClientItems(dir, names) <==>
      exists n :: n in names && (n == "" || n[0] != '_') && it == Item(["clients", n], dir + [n], ClientsYaml)
  {
    ClientItemsShape(dir, names);
    var items := ClientItems(dir, names);
    if it in items {
      var k :| 0 <= k < |items| && items[k] == it;
      assert ClientItem(dir, names, items[k]);
    }
  }

  /** Each archived kind has its place at the target; a client file has none without a client directory. */
  lemma TargetIs(w: Site, n: string, sha: Digest, size: nat)
    ensures Target(Entry(["pilk.db"], sha, size, Sqlite), w) == Some(w.home + ["pilk.db"])
    ensures Target(Entry(["identity", "accounts", "index.json"], sha, size, AccountsIndex), w)
         == Some(w.home + ["identity", "accounts", "index.json"])
    ensures Target(Entry(["identity", "accounts", "secrets", n], sha, size, AccountsSecret), w)
         == Some(w.home + ["identity", "accounts", "secrets", n])
    ensures Target(Entry(["clients", n], sha, size, ClientsYaml), w)
         == if w.clients.Some? then Some(w.clients.value + [n]) else None
    ensures Tmp(w.home + [n]) == w.home + [n + ".migrating"]
  {
    IndexPath(w.home);
    SecretPath(w.home, n);
  }

  /** The path p of the target takes the file at source: from pilk.db to pilk.db, from the account index
      to the account index, from each secret to the secret of that name, and, when both sides have a
      client directory, from each client file to the client file of that name. */
  ghost predicate Arrives(fs: Files, home: Path, clients: Option<Path>, secrets: seq<string>, yamls: seq<string>,
                          w: Site, source: Path, p: Path) {
    || (source == home + ["pilk.db"] && p == w.home + ["pilk.db"])
    || (source in fs && source == home + ["identity", "accounts", "index.json"]
        && p == w.home + ["identity", "accounts", "index.json"])
    || (exists n ::
          n in secrets && source == home + ["identity", "accounts", "secrets", n] &&
          p == w.home + ["identity", "accounts", "secrets", n])
    || (clients.Some? && w.clients.Some? && exists n ::
          n in yamls && (n == "" || n[0] != '_') && source == clients.value + [n] && p == w.clients.value + [n])
  }

  /** The item behind an arrival. */
  lemma ArrivingItem(fs: Files, home: Path, clients: Option<Path>, secrets: seq<string>, yamls: seq<string>,
                     w: Site, source: Path, p: Path) returns (it: Item)
    requires Listing(fs, home + SECRETS, ".json", secrets)
    requires clients.Some? ==> Listing(fs, clients.value, ".yaml", yamls)
    requires Arrives(fs, home, clients, secrets, yamls, w, source, p)
    ensures it in ToArchive(fs, home, clients, secrets, yamls) && it.source == source
    ensures forall sha, size :: Target(Entry(it.archived, sha, size, it.kind), w) == Some(p)
  {
    hide ToArchive, Listing;
    if source == home + ["pilk.db"] && p == w.home + ["pilk.db"] {
      it := Item(["pilk.db"], source, Sqlite);
    } else if source in fs && source == home + ["identity", "accounts", "index.json"]
              && p == w.home + ["identity", "accounts", "index.json"] {
      it := Item(["identity", "accounts", "index.json"], source, AccountsIndex);
    } else if n :| n in secrets && source == home + ["identity", "accounts", "secrets", n]
                   && p == w.home + ["identity", "accounts", "secrets", n] {
      it := Item(["identity", "accounts", "secrets", n], source, AccountsSecret);
    } else {
      var n :| n in yamls && (n == "" || n[0] != '_') && source == clients.value + [n] && p == w.clients.value + [n];
      it := Item(["clients", n], source, ClientsYaml);
    }
    ArchiveListIs(fs, home, clients, secrets, yamls, it);
    forall sha, size ensures Target(Entry(it.archived, sha, size, it.kind), w) == Some(p) {
      TargetIs(w, it.archived[|it.archived| - 1], sha, size);
    }
  }

  /** The round trip from path to path: after exporting one home and importing the bundle into another,
      every file that has a place there is there byte for byte, the database upgraded, and no other path
      outside this import's backup has changed, but for the temporary names of those places. */
  lemma PathRoundTrip(src: Files, home: Path, clients: Option<Path>, secrets: seq<string>, yamls: seq<string>,
                      packed: nat, fs: Files, w: Site, flush: Bytes -> Bytes, upgrade: Option<Bytes> -> Bytes)
    requires home + ["pilk.db"] in src && packed <= 104_857_600 && ProperHome(w)
    requires Listing(src, home + SECRETS, ".json", secrets)
    requires clients.Some? ==> Listing(src, clients.value, ".yaml", yamls)
    ensures forall it :: it in ToArchive(src, home, clients, secrets, yamls) ==> it.source in src
    ensures var r := Import(fs, Bundled(src, home, clients, secrets, yamls, packed), w, NoFault, flush, upgrade);
      r.error.None? &&
      (forall source, p :: Arrives(src, home, clients, secrets, yamls, w, source, p) ==>
         source in src && p in r.files &&
         r.files[p] == if p == w.home + ["pilk.db"] then upgrade(Some(src[source])) else src[source]) &&
      (forall p ::
         !Expected(src, home, clients, secrets, yamls, w, p) &&
         !(w.home + ["backups", "pre-migration-" + w.stamp] <= p) ==>
         (p in r.files <==> p in fs) && (p in r.files && p in fs ==> r.files[p] == fs[p]))
  {
    RoundTrip(src, home, clients, secrets, yamls, packed, fs, w, flush, upgrade);
    var r := Import(fs, Bundled(src, home, clients, secrets, yamls, packed), w, NoFault, flush, upgrade);
    hide Import, ToArchive, Bundled, Target, Tmp, Listing, Arrives, Expected, Touched, SameAt, ProperHome;
    forall source, p | Arrives(src, home, clients, secrets, yamls, w, source, p)
      ensures source in src && p in r.files
      ensures r.files[p] == (if p == w.home + ["pilk.db"] then upgrade(Some(src[source])) else src[source])
    {
      ThisArrives(src, home, clients, secrets, yamls, packed, fs, w, flush, upgrade, source, p);
    }
    forall p | !Expected(src, home, clients, secrets, yamls, w, p)
               && !(w.home + ["backups", "pre-migration-" + w.stamp] <= p)
      ensures (p in r.files <==> p in fs) && (p in r.files && p in fs ==> r.files[p] == fs[p])
    {
      ThisStays(src, home, clients, secrets, yamls, packed, fs, w, flush, upgrade, p);
    }
  }

  lemma ThisArrives(src: Files, home: Path, clients: Option<Path>, secrets: seq<string>, yamls: seq<string>,
                    packed: nat, fs: Files, w: Site, flush: Bytes -> Bytes, upgrade: Option<Bytes> -> Bytes,
                     source: Path, p: Path)
    requires home + ["pilk.db"] in src && packed <= 104_857_600 && ProperHome(w)
    requires Listing(src, home + SECRETS, ".json", secrets)
    requires clients.Some? ==> Listing(src, clients.value, ".yaml", yamls)
    requires Arrives(src, home, clients, secrets, yamls, w, source, p)
    requires forall it :: it in ToArchive(src, home, clients, secrets, yamls) ==> it.source in src
    ensures var r := Import(fs, Bundled(src, home, clients, secrets, yamls, packed), w, NoFault, flush, upgrade);
      source in src && p in r.files &&
      r.files[p] == (if p == w.home + ["pilk.db"] then upgrade(Some(src[source])) else src[source])
  {
    var items := ToArchive(src, home, clients, secrets, yamls);
    EntriesShape(src, items);
    var entries := Bundled(src, home, clients, secrets, yamls, packed).manifest.value.files;
    assert entries == Entries(src, items);
    var it := ArrivingItem(src, home, clients, secrets, yamls, w, source, p);
    var i :| 0 <= i < |items| && items[i] == it;
    hide Import, ToArchive, Bundled, Target, Tmp, Listing, Arrives, Entries, Touched, SameAt, ProperHome;
    RoundTrip(src, home, clients, secrets, yamls, packed, fs, w, flush, upgrade);
    assert entries[i] == Entry(it.archived, Digest(src[it.source]), |src[it.source]|, it.kind);
    assert Target(entries[i], w) == Some(p);
  }

  lemma ThisStays(src: Files, home: Path, clients: Option<Path>, secrets: seq<string>, yamls: seq<string>, packed: nat,
                  fs: Files, w: Site, flush: Bytes -> Bytes, upgrade: Option<Bytes> -> Bytes, p: Path)
    requires home + ["pilk.db"] in src && packed <= 104_857_600 && ProperHome(w)
    requires Listing(src, home + SECRETS, ".json", secrets)
    requires clients.Some? ==> Listing(src, clients.value, ".yaml", yamls)
    requires !Expected(src, home, clients, secrets, yamls, w, p)
    requires !(w.home + ["backups", "pre-migration-" + w.stamp] <= p)
    requires forall it :: it in ToArchive(src, home, clients, secrets, yamls) ==> it.source in src
    ensures var r := Import(fs, Bundled(src, home, clients, secrets, yamls, packed), w, NoFault, flush, upgrade);
      (p in r.files <==> p in fs) && (p in r.files && p in fs ==> r.files[p] == fs[p])
  {
    var items := ToArchive(src, home, clients, secrets, yamls);
    EntriesShape(src, items);
    var b := Bundled(src, home, clients, secrets, yamls, packed);
    var entries := b.manifest.value.files;
    assert entries == Entries(src, items);
    hide Import, ToArchive, Bundled, Target, Tmp, Listing, Expected, Entries, Touched, SameAt, ProperHome;
    RoundTrip(src, home, clients, secrets, yamls, packed, fs, w, flush, upgrade);
    if Touched(entries, w, p) { TouchedIsExpected(src, home, clients, secrets, yamls, w, entries, p); }
    SameMeans(Import(fs, b, w, NoFault, flush, upgrade).files, fs, p);
  }

  /** A place where something arrives, or its temporary name. */
  ghost predicate Expected(fs: Files, home: Path, clients: Option<Path>, secrets: seq<string>, yamls: seq<string>,
                           w: Site, p: Path) {
    exists source, q :: Arrives(fs, home, clients, secrets, yamls, w, source, q) && (p == q || p == Tmp(q))
  }

  lemma TouchedIsExpected(fs: Files, home: Path, clients: Option<Path>, secrets: seq<string>, yamls: seq<string>,
                          w: Site, entries: seq<Entry>, p: Path)
    requires Listing(fs, home + SECRETS, ".json", secrets)
    requires clients.Some? ==> Listing(fs, clients.value, ".yaml", yamls)
    requires var items := ToArchive(fs, home, clients, secrets, yamls);
      |entries| == |items| && forall i :: 0 <= i < |items| ==>
        entries[i].path == items[i].archived && entries[i].kind == items[i].kind
    requires Touched(entries, w, p)
    ensures Expected(fs, home, clients, secrets, yamls, w, p)
  {
    var items := ToArchive(fs, home, clients, secrets, yamls);
    var i :| 0 <= i < |entries| && Target(entries[i], w).Some? &&
      (p == Target(entries[i], w).value || p == Tmp(Target(entries[i], w).value));
    var e := entries[i];
    hide ToArchive, Listing, Tmp, Target;
    assert items[i] in items;
    ArchiveListIs(fs, home, clients, secrets, yamls, items[i]);
    TargetIs(w, e.path[|e.path| - 1], e.sha, e.size);
    assert Arrives(fs, home, clients, secrets, yamls, w, items[i].source, Target(e, w).value);
  }

  /** Where the backup of a file goes: into a directory named after the import's time, under its path
      inside the home, or under its bare name when it lies elsewhere. */
  lemma BackupPathIs(w: Site, below: Path, dir: Path, name: string)
    requires below != []
    ensures Saved(w.home + below, w) == w.home + ["backups", "pre-migration-" + w.stamp] + below
    ensures !(w.home <= dir + [name]) ==>
              Saved(dir + [name], w) == w.home + ["backups", "pre-migration-" + w.stamp] + [name]
  {
    assert (w.home + below)[|w.home|..] == below;
  }

  /** Why a bundle is refused: the first of these that applies. */
  lemma RefusalIs(b: Archive)
    ensures Refusal(b) == Some(TooLarge) <==> b.size > 104_857_600
    ensures Refusal(b) == Some(BadZip) <==> b.size <= 104_857_600 && b.NotAZip?
    ensures Refusal(b) == Some(BadManifest) <==> b.size <= 104_857_600 && b.Zip? && b.manifest.None?
    ensures Refusal(b) == Some(WrongVersion) <==>
              b.size <= 104_857_600 && b.Zip? && b.manifest.Some? && b.manifest.value.version != 1
    ensures Refusal(b) == Some(Mismatch) <==>
              b.size <= 104_857_600 && b.Zip? && b.manifest.Some? && b.manifest.value.version == 1 &&
              exists e :: e in b.manifest.value.files && (e.path !in b.members || e.sha != Digest(b.members[e.path]))
  {
    if b.Zip? && b.manifest.Some? && Refusal(b) == Some(Mismatch) {
      var i :| 0 <= i < |b.manifest.value.files| &&
        (var e := b.manifest.value.files[i]; e.path !in b.members || e.sha != Digest(b.members[e.path]));
      assert b.manifest.value.files[i] in b.manifest.value.files;
    }
  }

  /** The counts in the manifest: the secrets, and the client files that are in. */
  lemma {:induction false} ManifestCounts(fs: Files, home: Path, clients: Option<Path>, secrets: seq<string>,
                                          yamls: seq<string>, packed: nat)
    requires forall it :: it in ToArchive(fs, home, clients, secrets, yamls) ==> it.source in fs
    ensures var m := Bundled(fs, home, clients, secrets, yamls, packed).manifest.value;
      m.version == 1 && m.accountCount == |secrets| &&
      m.clientCount == if clients.Some? then |yamls| - Underscored(yamls) else 0
  {
    if clients.Some? { ClientCount(clients.value, yamls); }
  }

  function Underscored(names: seq<string>): (n: nat)
    ensures n <= |names|
  {
    if names == [] then 0
    else Underscored(names[..|names| - 1]) + (if names[|names| - 1] != "" && names[|names| - 1][0] == '_' then 1 else 0)
  }

  lemma {:induction false} ClientCount(dir: Path, names: seq<string>)
    ensures |ClientItems(dir, names)| == |names| - Underscored(names)
  {
    if names != [] { ClientCount(dir, names[..|names| - 1]); }
  }

  /** With a client directory at the target an exporter-built bundle is counted in full, file by file. */
  lemma {:induction false} ReportCountsAll(entries: seq<Entry>, w: Site)
    requires w.clients.Some? && forall i :: 0 <= i < |entries| ==> !entries[i].kind.OtherKind?
    ensures MappedFiles(entries, w) == |entries|
    ensures entries != [] ==>
              MappedBytes(entries, w) == MappedBytes(entries[..|entries| - 1], w) + entries[|entries| - 1].size
  {
    if entries != [] { ReportCountsAll(entries[..|entries| - 1], w); }
  }
}
