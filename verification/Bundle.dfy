/** core/migration/exporter.py and core/migration/models.py: what a migration bundle holds.
    A path is the sequence of its components, a file system a map from paths to contents, and a
    SHA-256 digest stands for the content it was computed from. */
module Bundle {
  import opened Wrappers
  import opened Text

  type Byte = b: nat | b < 256
  type Bytes = seq<Byte>
  type Path = seq<string>
  type Files = map<Path, Bytes>

  /** An ideal hash: equal digests mean equal contents. */
  datatype Digest = Digest(of: Bytes)

  datatype Kind = Sqlite | AccountsIndex | AccountsSecret | ClientsYaml | OtherKind

  datatype Entry = Entry(path: Path, sha: Digest, size: nat, kind: Kind)

  const BUNDLE_VERSION := 1

  datatype Manifest = Manifest(version: int, files: seq<Entry>, accountCount: nat, clientCount: nat)

  /** The archive file: its packed length, the parsed manifest if there is a valid one, and the members by name. */
  datatype Archive = NotAZip(size: nat) | Zip(size: nat, manifest: Option<Manifest>, members: map<Path, Bytes>)

  const DB := "pilk.db"
  const ACCOUNTS: Path := ["identity", "accounts"]
  const SECRETS: Path := ["identity", "accounts", "secrets"]

  /** What `sorted(dir.glob("*" + suffix))` returns: every file name with the suffix, once, in some order. */
  ghost predicate Listing(fs: Files, dir: Path, suffix: string, names: seq<string>) {
    && (forall n :: n in names <==> dir + [n] in fs && EndsWith(n, suffix))
    && (forall i, j :: 0 <= i < j < |names| ==> names[i] != names[j])
  }

  datatype Item = Item(archived: Path, source: Path, kind: Kind)

  function SecretItems(home: Path, names: seq<string>): seq<Item> {
    if names == [] then []
    else
      var n := names[|names| - 1];
      SecretItems(home, names[..|names| - 1]) + [Item(SECRETS + [n], home + SECRETS + [n], AccountsSecret)]
  }

  predicate Skipped(name: string) { name != "" && name[0] == '_' }

  function ClientItems(dir: Path, names: seq<string>): seq<Item> {
    if names == [] then []
    else
      var n := names[|names| - 1];
      ClientItems(dir, names[..|names| - 1]) +
          (if Skipped(n) then [] else [Item(["clients", n], dir + [n], ClientsYaml)])
  }

  /** The list `to_archive`. */
  function ToArchive(fs: Files, home: Path, clients: Option<Path>, secrets: seq<string>,
                     yamls: seq<string>): seq<Item> {
    [Item([DB], home + [DB], Sqlite)]
      + (if home + ACCOUNTS + ["index.json"] in fs
         then [Item(ACCOUNTS + ["index.json"], home + ACCOUNTS + ["index.json"], AccountsIndex)] else [])
      + SecretItems(home, secrets)
      + (if clients.Some? then ClientItems(clients.value, yamls) else [])
  }

  function Entries(fs: Files, items: seq<Item>): seq<Entry>
    requires forall i :: 0 <= i < |items| ==> items[i].source in fs
  {
    if items == [] then []
    else
      var it := items[|items| - 1];
      Entries(fs, items[..|items| - 1]) + [Entry(it.archived, Digest(fs[it.source]), |fs[it.source]|, it.kind)]
  }

  function Members(fs: Files, items: seq<Item>): map<Path, Bytes>
    requires forall i :: 0 <= i < |items| ==> items[i].source in fs
  {
    if items == [] then map[]
    else
      var it := items[|items| - 1];
      Members(fs, items[..|items| - 1])[it.archived := fs[it.source]]
  }

  // ---- what the exporter guarantees about its bundles ----

  /** The four shapes of archive names the exporter uses, each with its kind. */
  predicate ExporterShape(path: Path, kind: Kind) {
    match kind
    case Sqlite => path == [DB]
    case AccountsIndex => path == ACCOUNTS + ["index.json"]
    case AccountsSecret => |path| == 4 && path[..3] == SECRETS && EndsWith(path[3], ".json")
    case ClientsYaml => |path| == 2 && path[0] == "clients" && EndsWith(path[1], ".yaml")
    case OtherKind => false
  }

  ghost predicate FromExporter(files: seq<Entry>) {
    && (forall i :: 0 <= i < |files| ==> ExporterShape(files[i].path, files[i].kind))
    && (forall i, j :: 0 <= i < j < |files| ==> files[i].path != files[j].path)
  }

  /** A bundle passes the importer's check: every entry present, with the digest of its member. */
  ghost predicate Verified(files: seq<Entry>, members: map<Path, Bytes>) {
    forall i :: 0 <= i < |files| ==> files[i].path in members && files[i].sha == Digest(members[files[i].path])
  }

  /** Where a listed name sits among the items. */
  lemma {:induction false} SecretItemsShape(home: Path, names: seq<string>)
    requires forall i, j :: 0 <= i < j < |names| ==> names[i] != names[j]
    ensures |SecretItems(home, names)| == |names|
    ensures forall i :: 0 <= i < |names| ==>
        SecretItems(home, names)[i] == Item(SECRETS + [names[i]], home + SECRETS + [names[i]], AccountsSecret)
  {
    if names != [] { SecretItemsShape(home, names[..|names| - 1]); }
  }

  ghost predicate ClientItem(dir: Path, names: seq<string>, it: Item) {
    exists n :: n in names && !Skipped(n) && it == Item(["clients", n], dir + [n], ClientsYaml)
  }

  lemma {:induction false} ClientItemsShape(dir: Path, names: seq<string>)
    requires forall i, j :: 0 <= i < j < |names| ==> names[i] != names[j]
    ensures var items := ClientItems(dir, names);
      && (forall k :: 0 <= k < |items| ==> ClientItem(dir, names, items[k]))
      && (forall n :: n in names && !Skipped(n) ==> Item(["clients", n], dir + [n], ClientsYaml) in items)
      && (forall j, k :: 0 <= j < k < |items| ==> items[j].archived != items[k].archived)
  {
    if names != [] {
      var head, n := names[..|names| - 1], names[|names| - 1];
      ClientItemsShape(dir, head);
      assert n !in head;
      var items := ClientItems(dir, head);
      forall k | 0 <= k < |items| ensures items[k].archived != ["clients", n] {
        assert ClientItem(dir, head, items[k]);
        var m :| m in head && items[k] == Item(["clients", m], dir + [m], ClientsYaml);
        assert ["clients", m][1] != ["clients", n][1];
      }
    }
  }

  ghost predicate ItemsOk(fs: Files, items: seq<Item>, depth: nat) {
    && (forall i :: 0 <= i < |items| ==>
          items[i].source in fs && |items[i].archived| == depth && ExporterShape(items[i].archived, items[i].kind))
    && (forall i, j :: 0 <= i < j < |items| ==> items[i].archived != items[j].archived)
  }

  lemma SecretItemsOk(fs: Files, home: Path, secrets: seq<string>)
    requires Listing(fs, home + SECRETS, ".json", secrets)
    ensures ItemsOk(fs, SecretItems(home, secrets), 4)
    ensures forall n :: n in secrets ==>
        Item(SECRETS + [n], home + SECRETS + [n], AccountsSecret) in SecretItems(home, secrets)
  {
    SecretItemsShape(home, secrets);
    var b := SecretItems(home, secrets);
    forall i | 0 <= i < |b|
      ensures b[i].source in fs && |b[i].archived| == 4 && ExporterShape(b[i].archived, b[i].kind)
    {
      assert secrets[i] in secrets;
      assert (SECRETS + [secrets[i]])[..3] == SECRETS;
    }
    forall i, j | 0 <= i < j < |b| ensures b[i].archived != b[j].archived {
      assert (SECRETS + [secrets[i]])[3] != (SECRETS + [secrets[j]])[3];
    }
    forall n | n in secrets ensures Item(SECRETS + [n], home + SECRETS + [n], AccountsSecret) in b {
      var i :| 0 <= i < |secrets| && secrets[i] == n;
      assert b[i] in b;
    }
  }

  lemma ClientItemsOk(fs: Files, dir: Path, yamls: seq<string>)
    requires Listing(fs, dir, ".yaml", yamls)
    ensures ItemsOk(fs, ClientItems(dir, yamls), 2)
  {
    ClientItemsShape(dir, yamls);
    var c := ClientItems(dir, yamls);
    forall i | 0 <= i < |c|
      ensures c[i].source in fs && |c[i].archived| == 2 && ExporterShape(c[i].archived, c[i].kind)
    {
      assert ClientItem(dir, yamls, c[i]);
    }
  }

  lemma ItemsJoin(fs: Files, a: seq<Item>, b: seq<Item>, c: seq<Item>)
    requires ItemsOk(fs, b, 4) && ItemsOk(fs, c, 2)
    requires |a| == 1 || |a| == 2
    requires a[0].source in fs && a[0].archived == [DB] && a[0].kind == Sqlite
    requires |a| == 2 ==> a[1].source in fs && a[1].archived == ACCOUNTS + ["index.json"] && a[1].kind == AccountsIndex
    ensures var items := a + b + c;
      && (forall i :: 0 <= i < |items| ==> items[i].source in fs && ExporterShape(items[i].archived, items[i].kind))
      && (forall i, j :: 0 <= i < j < |items| ==> items[i].archived != items[j].archived)
  {
    var items := a + b + c;
    forall i | 0 <= i < |items| ensures items[i].source in fs && ExporterShape(items[i].archived, items[i].kind) { }
    forall i | 0 <= i < |items|
      ensures |items[i].archived| == (if i == 0 then 1 else if i < |a| then 3 else if i < |a| + |b| then 4 else 2)
    {
    }
  }

  /** Everything an import relies on: sources exist, the names have the four shapes, no name twice,
      and the database, all secrets and all unskipped client files are in. */
  lemma ItemsSound(fs: Files, home: Path, clients: Option<Path>, secrets: seq<string>, yamls: seq<string>)
    requires home + [DB] in fs
    requires Listing(fs, home + SECRETS, ".json", secrets)
    requires clients.Some? ==> Listing(fs, clients.value, ".yaml", yamls)
    ensures var items := ToArchive(fs, home, clients, secrets, yamls);
      && (forall i :: 0 <= i < |items| ==> items[i].source in fs && ExporterShape(items[i].archived, items[i].kind))
      && (forall i, j :: 0 <= i < j < |items| ==> items[i].archived != items[j].archived)
      && Item([DB], home + [DB], Sqlite) == items[0]
      && (forall n :: n in secrets ==> Item(SECRETS + [n], home + SECRETS + [n], AccountsSecret) in items)
      && (clients.Some? ==> forall n :: n in yamls && !Skipped(n) ==>
            Item(["clients", n], clients.value + [n], ClientsYaml) in items)
  {
    hide ExporterShape, ItemsOk;
    var index := if home + ACCOUNTS + ["index.json"] in fs
      then [Item(ACCOUNTS + ["index.json"], home + ACCOUNTS + ["index.json"], AccountsIndex)] else [];
    var a, b := [Item([DB], home + [DB], Sqlite)] + index, SecretItems(home, secrets);
    var c := if clients.Some? then ClientItems(clients.value, yamls) else [];
    SecretItemsOk(fs, home, secrets);
    if clients.Some? {
      ClientItemsOk(fs, clients.value, yamls);
      ClientItemsShape(clients.value, yamls);
    } else {
      NoItemsOk(fs);
    }
    ItemsJoin(fs, a, b, c);
  }

  lemma NoItemsOk(fs: Files)
    ensures ItemsOk(fs, [], 2)
  {
  }

  lemma {:induction false} EntriesShape(fs: Files, items: seq<Item>)
    requires forall i :: 0 <= i < |items| ==> items[i].source in fs
    ensures |Entries(fs, items)| == |items|
    ensures forall i :: 0 <= i < |items| ==>
      Entries(fs, items)[i] ==
        Entry(items[i].archived, Digest(fs[items[i].source]), |fs[items[i].source]|, items[i].kind)
  {
    if items != [] { EntriesShape(fs, items[..|items| - 1]); }
  }

  lemma {:induction false} MembersShape(fs: Files, items: seq<Item>)
    requires forall i :: 0 <= i < |items| ==> items[i].source in fs
    requires forall i, j :: 0 <= i < j < |items| ==> items[i].archived != items[j].archived
    ensures forall i :: 0 <= i < |items| ==>
        items[i].archived in Members(fs, items) && Members(fs, items)[items[i].archived] == fs[items[i].source]
  {
    if items != [] { MembersShape(fs, items[..|items| - 1]); }
  }

  /** The bundle of a home whose write-ahead log has been flushed into `fs`; `packed` is the length of the zip file. */
  function Bundled(fs: Files, home: Path, clients: Option<Path>, secrets: seq<string>, yamls: seq<string>,
                   packed: nat): Archive
    requires forall it :: it in ToArchive(fs, home, clients, secrets, yamls) ==> it.source in fs
  {
    var items := ToArchive(fs, home, clients, secrets, yamls);
    var entries := Entries(fs, items);
    Zip(packed, Some(Manifest(BUNDLE_VERSION, entries, |secrets|,
                              if clients.Some? then |ClientItems(clients.value, yamls)| else 0)), Members(fs, items))
  }

  /** An exported bundle is well-formed and passes verification. */
  lemma ExportVerifies(fs: Files, home: Path, clients: Option<Path>, secrets: seq<string>, yamls: seq<string>,
                       packed: nat)
    requires home + [DB] in fs
    requires Listing(fs, home + SECRETS, ".json", secrets)
    requires clients.Some? ==> Listing(fs, clients.value, ".yaml", yamls)
    ensures forall it :: it in ToArchive(fs, home, clients, secrets, yamls) ==> it.source in fs
    ensures var a := Bundled(fs, home, clients, secrets, yamls, packed);
      && FromExporter(a.manifest.value.files)
      && Verified(a.manifest.value.files, a.members)
      && a.manifest.value.version == BUNDLE_VERSION
  {
    ItemsSound(fs, home, clients, secrets, yamls);
    var items := ToArchive(fs, home, clients, secrets, yamls);
    EntriesShape(fs, items);
    MembersShape(fs, items);
  }

  class Disk {
    var files: Files

    constructor (files: Files)
      ensures this.files == files
    {
      this.files := files;
    }

    /** `build_bundle`. None is ExportError. Only the database file changes: its pending WAL rows are
        flushed into it. */
    method BuildBundle(home: Path, clients: Option<Path>, secrets: seq<string>, yamls: seq<string>, packed: nat,
                       flush: Bytes -> Bytes)
      returns (bundle: Option<Archive>)
      requires Listing(files, home + SECRETS, ".json", secrets)
      requires clients.Some? ==> Listing(files, clients.value, ".yaml", yamls)
      modifies this
      ensures bundle.None? <==> home + [DB] !in old(files)
      ensures bundle.None? ==> files == old(files)
      ensures bundle.Some? ==> files == old(files)[home + [DB] := flush(old(files)[home + [DB]])]
      ensures bundle.Some? ==> forall it :: it in ToArchive(files, home, clients, secrets, yamls) ==> it.source in files
      ensures bundle.Some? ==> bundle.value == Bundled(files, home, clients, secrets, yamls, packed)
    {
      var db := home + [DB];
      if db !in files { return None; }
      files := files[db := flush(files[db])];
      ItemsSound(files, home, clients, secrets, yamls);

      var items := Collect(home, clients, secrets, yamls);
      var entries, members := Pack(files, items);
      var clientCount := 0;
      if clients.Some? { clientCount := |ClientItems(clients.value, yamls)|; }
      bundle := Some(Zip(packed, Some(Manifest(BUNDLE_VERSION, entries, |secrets|, clientCount)), members));
    }

    method Collect(home: Path, clients: Option<Path>, secrets: seq<string>, yamls: seq<string>)
      returns (items: seq<Item>)
      ensures items == ToArchive(files, home, clients, secrets, yamls)
    {
      items := [Item([DB], home + [DB], Sqlite)];
      if home + ACCOUNTS + ["index.json"] in files {
        items := items + [Item(ACCOUNTS + ["index.json"], home + ACCOUNTS + ["index.json"], AccountsIndex)];
      }
      ghost var fixed := items;
      for i := 0 to |secrets|
        invariant items == fixed + SecretItems(home, secrets[..i])
      {
        assert secrets[..i + 1][..i] == secrets[..i];
        items := items + [Item(SECRETS + [secrets[i]], home + SECRETS + [secrets[i]], AccountsSecret)];
      }
      assert secrets[..|secrets|] == secrets;
      if clients.Some? {
        fixed := items;
        for i := 0 to |yamls|
          invariant items == fixed + ClientItems(clients.value, yamls[..i])
        {
          assert yamls[..i + 1][..i] == yamls[..i];
          if !Skipped(yamls[i]) {
            items := items + [Item(["clients", yamls[i]], clients.value + [yamls[i]], ClientsYaml)];
          }
        }
        assert yamls[..|yamls|] == yamls;
      }
    }
  }

  /** The manifest entries and the zip members, in archive order. */
  method Pack(files: Files, items: seq<Item>) returns (entries: seq<Entry>, members: map<Path, Bytes>)
    requires forall i :: 0 <= i < |items| ==> items[i].source in files
    ensures entries == Entries(files, items) && members == Members(files, items)
  {
    entries, members := [], map[];
    for i := 0 to |items|
      invariant entries == Entries(files, items[..i])
      invariant members == Members(files, items[..i])
    {
      assert items[..i + 1][..i] == items[..i];
      var it := items[i];
      entries := entries + [Entry(it.archived, Digest(files[it.source]), |files[it.source]|, it.kind)];
      members := members[it.archived := files[it.source]];
    }
    assert items[..|items|] == items;
  }
}
