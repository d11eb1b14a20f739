/** core/intelligence/items.py: the deduplicating item table. `cu` is the canonical URL, or the
    stripped raw URL when there is none. */
module ItemStore {
  import opened Wrappers
  import opened Dedup

  datatype Status = New | Scored | Stored

  datatype Row = Row(id: string, cu: string, hash: TextDigest, title: string, status: Status,
                     score: Option<int>, brainPath: Option<string>)

  datatype Fetched = Fetched(cu: string, title: string, body: string)

  function HashOf(f: Fetched): TextDigest { ContentHash(f.cu, f.title, f.body) }

  /** `SELECT * FROM intel_items WHERE content_hash = ? LIMIT 1` */
  function FindByHash(rows: seq<Row>, h: TextDigest): (r: Option<nat>)
    ensures r.Some? ==> r.value < |rows| && rows[r.value].hash == h
    ensures r.None? ==> forall i :: 0 <= i < |rows| ==> rows[i].hash != h
  {
    if rows == [] then None
    else
      var r := FindByHash(rows[..|rows| - 1], h);
      if r.Some? then r else if rows[|rows| - 1].hash == h then Some(|rows| - 1) else None
  }

  /** `SELECT * FROM intel_items WHERE canonical_url = ? LIMIT 1` */
  function FindByUrl(rows: seq<Row>, cu: string): (r: Option<nat>)
    ensures r.Some? ==> r.value < |rows| && rows[r.value].cu == cu
    ensures r.None? ==> forall i :: 0 <= i < |rows| ==> rows[i].cu != cu
  {
    if rows == [] then None
    else
      var r := FindByUrl(rows[..|rows| - 1], cu);
      if r.Some? then r else if rows[|rows| - 1].cu == cu then Some(|rows| - 1) else None
  }

  /** `s.strip()` */
  function Trim(s: string): string { if s != "" && IsBlank(s[0]) then Trim(s[1..]) else RTrim(s) }

  /** `title.strip()[:500]` */
  function StoredTitle(title: string): string { if |Trim(title)| > 500 then Trim(title)[..500] else Trim(title) }

  function NewRow(f: Fetched, id: string): Row { Row(id, f.cu, HashOf(f), StoredTitle(f.title), New, None, None) }

  /** A new row carries the item's own URL, the hash over URL, title and body, and neither score nor note. */
  lemma NewRowIs(f: Fetched, id: string)
    ensures var r := NewRow(f, id);
      r.id == id && r.cu == f.cu && r.hash == ContentHash(f.cu, f.title, f.body) && r.title == StoredTitle(f.title) &&
      r.status == New && r.score == None && r.brainPath == None
  {
  }

  /** Stripping removes the blanks at both ends and nothing else. */
  lemma {:induction false} TrimIs(s: string) returns (from: nat, to: nat)
    ensures from <= to <= |s| && Trim(s) == s[from..to]
    ensures forall i :: 0 <= i < from || to <= i < |s| ==> IsBlank(s[i])
    ensures from < to ==> !IsBlank(s[from]) && !IsBlank(s[to - 1])
  {
    if s != "" && IsBlank(s[0]) {
      from, to := TrimIs(s[1..]);
      from, to := from + 1, to + 1;
      assert s[1..][from - 1..to - 1] == s[from..to];
      forall i | 0 <= i < from || to <= i < |s| ensures IsBlank(s[i]) {
        if i > 0 { assert s[1..][i - 1] == s[i]; }
      }
    } else {
      from := 0;
      to := RTrimEnds(s);
    }
  }

  lemma {:induction false} RTrimEnds(s: string) returns (to: nat)
    ensures to <= |s| && RTrim(s) == s[..to]
    ensures forall i :: to <= i < |s| ==> IsBlank(s[i])
    ensures to > 0 ==> !IsBlank(s[to - 1])
  {
    if EndsBlank(s) {
      to := RTrimEnds(s[..|s| - 1]);
      forall i | to <= i < |s| ensures IsBlank(s[i]) {
        if i < |s| - 1 { assert s[..|s| - 1][i] == s[i]; }
      }
    } else {
      to := |s|;
    }
  }

  /** Of the stripped title the first 500 characters are stored. */
  lemma StoredTitleIs(title: string)
    ensures StoredTitle(title) <= Trim(title)
    ensures |StoredTitle(title)| == if |Trim(title)| <= 500 then |Trim(title)| else 500
  {
  }

  /** The row an upsert would return without inserting. */
  function Existing(rows: seq<Row>, f: Fetched): Option<nat> {
    var h := FindByHash(rows, HashOf(f));
    if h.Some? then h else FindByUrl(rows, f.cu)
  }

  function Upserted(rows: seq<Row>, f: Fetched, id: string): seq<Row> {
    if Existing(rows, f).Some? then rows else rows + [NewRow(f, id)]
  }

  class Store {
    var rows: seq<Row>

    constructor ()
      ensures rows == []
    {
      rows := [];
    }

    /** `upsert_fetched`: the position of the row it returns, and whether it inserted it. */
    method UpsertFetched(f: Fetched, id: string) returns (at: nat, isNew: bool)
      modifies this
      ensures rows == Upserted(old(rows), f, id)
      ensures isNew <==> Existing(old(rows), f).None?
      ensures at < |rows|
      ensures isNew ==> at == |old(rows)| && rows[at] == NewRow(f, id)
      ensures !isNew ==> rows == old(rows) && (rows[at].hash == HashOf(f) || rows[at].cu == f.cu)
    {
      var existing := FindByHash(rows, HashOf(f));
      if existing.None? { existing := FindByUrl(rows, f.cu); }
      if existing.Some? { return existing.value, false; }
      at, isNew := |rows|, true;
      rows := rows + [NewRow(f, id)];
    }
  }

  /** No two rows share a hash, and no two share a URL. */
  ghost predicate Unique(rows: seq<Row>) {
    forall i, j :: 0 <= i < j < |rows| ==> rows[i].hash != rows[j].hash && rows[i].cu != rows[j].cu
  }

  /** Every row's hash was taken over its own URL, which has no newline. */
  ghost predicate Hashed(rows: seq<Row>) {
    forall i :: 0 <= i < |rows| ==>
        '\n' !in rows[i].cu && exists title, body :: rows[i].hash == ContentHash(rows[i].cu, title, body)
  }

  /** Serial upserts keep both keys unique, for any URLs. */
  lemma UpsertKeepsUnique(rows: seq<Row>, f: Fetched, id: string)
    requires Unique(rows)
    ensures Unique(Upserted(rows, f, id))
  {
  }

  lemma UpsertKeepsHashed(rows: seq<Row>, f: Fetched, id: string)
    requires Hashed(rows) && '\n' !in f.cu
    ensures Hashed(Upserted(rows, f, id))
  {
    if Existing(rows, f).None? { assert NewRow(f, id).hash == ContentHash(f.cu, f.title, f.body); }
  }

  /** The hash lookup never finds anything the URL lookup would not find, and it finds the same row. */
  lemma HashLookupSubsumed(rows: seq<Row>, f: Fetched)
    requires Unique(rows) && Hashed(rows) && '\n' !in f.cu
    ensures FindByHash(rows, HashOf(f)).Some? ==> FindByUrl(rows, f.cu) == FindByHash(rows, HashOf(f))
    ensures Existing(rows, f) == FindByUrl(rows, f.cu)
  {
    var h := FindByHash(rows, HashOf(f));
    if h.Some? {
      var r := rows[h.value];
      var title, body :| r.hash == ContentHash(r.cu, title, body);
      SameHashIff(r.cu, title, body, f.cu, f.title, f.body);
      UrlsTellRows(rows, FindByUrl(rows, f.cu).value, h.value);
    }
  }

  lemma UrlsTellRows(rows: seq<Row>, i: nat, j: nat)
    requires Unique(rows) && i < |rows| && j < |rows| && rows[i].cu == rows[j].cu
    ensures i == j
  {
  }

  /** The table as a map from canonical URL to row. */
  function AsMap(rows: seq<Row>): map<string, Row> {
    if rows == [] then map[] else AsMap(rows[..|rows| - 1])[rows[|rows| - 1].cu := rows[|rows| - 1]]
  }

  ghost predicate HasUrl(rows: seq<Row>, u: string) { exists i :: 0 <= i < |rows| && rows[i].cu == u }

  lemma HasUrlSnoc(rows: seq<Row>, r: Row, u: string)
    ensures HasUrl(rows + [r], u) <==> HasUrl(rows, u) || r.cu == u
  {
    var more := rows + [r];
    if HasUrl(rows, u) { var i :| 0 <= i < |rows| && rows[i].cu == u; assert more[i].cu == u; }
    if r.cu == u { assert more[|rows|].cu == u; }
  }

  lemma {:induction false} AsMapKeys(rows: seq<Row>, u: string)
    ensures u in AsMap(rows) <==> HasUrl(rows, u)
  {
    if rows != [] {
      var n := |rows| - 1;
      AsMapKeys(rows[..n], u);
      assert rows == rows[..n] + [rows[n]];
      HasUrlSnoc(rows[..n], rows[n], u);
    }
  }

  lemma {:induction false} AsMapIs(rows: seq<Row>)
    requires Unique(rows)
    ensures forall i :: 0 <= i < |rows| ==> rows[i].cu in AsMap(rows) && AsMap(rows)[rows[i].cu] == rows[i]
    ensures forall u :: u in AsMap(rows) <==> HasUrl(rows, u)
    ensures |AsMap(rows)| == |rows|
  {
    hide HasUrl;
    forall u ensures u in AsMap(rows) <==> HasUrl(rows, u) { AsMapKeys(rows, u); }
    if rows != [] {
      var n := |rows| - 1;
      AsMapIs(rows[..n]);
      AsMapKeys(rows[..n], rows[n].cu);
      NewUrl(rows, n);
    }
  }

  lemma NewUrl(rows: seq<Row>, n: nat)
    requires Unique(rows) && n < |rows|
    ensures !HasUrl(rows[..n], rows[n].cu)
  {
    forall i | 0 <= i < n ensures rows[..n][i].cu != rows[n].cu { assert rows[i].cu != rows[n].cu; }
  }

  /** The store refines a plain map keyed by canonical URL with insert-if-absent. */
  lemma UpsertRefinesMap(rows: seq<Row>, f: Fetched, id: string)
    requires Unique(rows) && Hashed(rows) && '\n' !in f.cu
    ensures Unique(Upserted(rows, f, id)) && Hashed(Upserted(rows, f, id))
    ensures AsMap(Upserted(rows, f, id)) ==
              if f.cu in AsMap(rows) then AsMap(rows) else AsMap(rows)[f.cu := NewRow(f, id)]
  {
    UpsertKeepsUnique(rows, f, id);
    UpsertKeepsHashed(rows, f, id);
    HashLookupSubsumed(rows, f);
    AsMapKeys(rows, f.cu);
    hide Unique, Hashed, HashOf;
    var more := rows + [NewRow(f, id)];
    assert more[..|more| - 1] == rows;
  }

  /** Fetching the same item again changes no row, whatever is in the table; with newline-free URLs
      so does any republication under the same URL, whatever its title and body. */
  lemma DuplicateChangesNothing(rows: seq<Row>, f: Fetched, id: string, again: Fetched, id': string)
    requires again == f || (again.cu == f.cu && Unique(rows) && Hashed(rows) && '\n' !in f.cu)
    ensures Upserted(Upserted(rows, f, id), again, id') == Upserted(rows, f, id)
  {
    var after := Upserted(rows, f, id);
    if again != f {
      HashLookupSubsumed(rows, f);
      UpsertKeepsUnique(rows, f, id);
      UpsertKeepsHashed(rows, f, id);
      HashLookupSubsumed(after, again);
    }
    if Existing(rows, f).None? {
      assert after[|rows|] == NewRow(f, id);
    }
  }

  /** With a newline in a fallback URL the hash lookup can match a row with another URL. */
  lemma NewlineUrlHidesItem()
    ensures var a, b := Fetched("x", "y", "z\nb"), Fetched("x\ny", "z", "b");
      a.cu != b.cu && Upserted(Upserted([], a, "1"), b, "2") == Upserted([], a, "1")
  {
    NewlineUrlsCollide();
    var a, b := Fetched("x", "y", "z\nb"), Fetched("x\ny", "z", "b");
    var rows := Upserted([], a, "1");
    assert rows == [NewRow(a, "1")];
    assert rows[0].hash == HashOf(b);
  }
}
