/** core/intelligence/dedup.py: canonical URLs and content hashes. A URL is what `urlparse` makes
    of it; `urlencode` and `parse_qsl` are taken to undo each other on pairs with a value. */
module Dedup {
  import opened Wrappers
  import opened Text
  import opened TextOrder

  datatype Pair = Pair(key: string, value: string)

  /** Scheme, network location, path without parameters, parameters of the last segment, query pairs, fragment. */
  datatype Url = Url(scheme: string, netloc: string, path: string, params: string, query: seq<Pair>, fragment: string)

  /** The parts `urlunparse` is given; parameters and fragment are always empty. */
  datatype Canonical = Canonical(scheme: string, netloc: string, path: string, query: seq<Pair>)

  function LowerChar(c: char): char { if 'A' <= c <= 'Z' then c + ('a' - 'A') else c }

  function Lower(s: string): (r: string)
    ensures |r| == |s| && forall i :: 0 <= i < |s| ==> r[i] == LowerChar(s[i])
  {
    if s == "" then "" else [LowerChar(s[0])] + Lower(s[1..])
  }

  const TRACKING: set<string> := {
    "utm_source", "utm_medium", "utm_campaign", "utm_term", "utm_content", "utm_id", "utm_name",
    "fbclid", "gclid", "gclsrc", "dclid", "mc_cid", "mc_eid", "yclid", "msclkid",
    "ref", "ref_src", "ref_url", "ref_source", "_ga", "igshid", "feature", "share", "share_id" }

  /** `parse_qsl` drops blank values, the comprehension drops tracking keys. */
  predicate Keeps(p: Pair) { p.value != "" && Lower(p.key) !in TRACKING }

  function Filter(ps: seq<Pair>): seq<Pair> {
    if ps == [] then []
    else Filter(ps[..|ps| - 1]) + (if Keeps(ps[|ps| - 1]) then [ps[|ps| - 1]] else [])
  }

  predicate PairLess(a: Pair, b: Pair) { Less(a.key, b.key) || (a.key == b.key && Less(a.value, b.value)) }

  function InsertPair(sorted: seq<Pair>, p: Pair): seq<Pair> {
    if sorted == [] || !PairLess(p, sorted[|sorted| - 1]) then sorted + [p]
    else InsertPair(sorted[..|sorted| - 1], p) + [sorted[|sorted| - 1]]
  }

  function SortPairs(ps: seq<Pair>): seq<Pair> {
    if ps == [] then [] else InsertPair(SortPairs(ps[..|ps| - 1]), ps[|ps| - 1])
  }

  function DefaultPort(scheme: string): string {
    if scheme == "http" then ":80" else if scheme == "https" then ":443" else ""
  }

  function StripPort(scheme: string, netloc: string): string {
    var port := DefaultPort(scheme);
    if port != "" && EndsWith(netloc, port) then netloc[..|netloc| - |port|] else netloc
  }

  function RStrip(path: string): string {
    if path != "" && path[|path| - 1] == '/' then RStrip(path[..|path| - 1]) else path
  }

  function NormalPath(path: string): string {
    if path == "" || path == "/" then "/" else if path[|path| - 1] == '/' then RStrip(path) else path
  }

  /** `canonical_url`; None is ValueError. */
  function CanonicalUrl(u: Url): Option<Canonical> {
    var scheme := Lower(u.scheme);
    if scheme != "http" && scheme != "https" then None
    else if u.netloc == "" then None
    else Some(Canonical(scheme, StripPort(scheme, Lower(u.netloc)), NormalPath(u.path), SortPairs(Filter(u.query))))
  }

  // ---- sorting forgets the order and nothing else ----

  ghost predicate SortedPairs(ps: seq<Pair>) { forall i, j :: 0 <= i < j < |ps| ==> !PairLess(ps[j], ps[i]) }

  lemma PairOrder(a: Pair, b: Pair, c: Pair)
    ensures !PairLess(a, a)
    ensures PairLess(a, b) || a == b || PairLess(b, a)
    ensures PairLess(a, b) && PairLess(b, c) ==> PairLess(a, c)
  {
    LessIrreflexive(a.key);
    LessIrreflexive(a.value);
    LessTotal(a.key, b.key);
    LessTotal(a.value, b.value);
    if PairLess(a, b) && PairLess(b, c) {
      if Less(a.key, b.key) && Less(b.key, c.key) { LessTransitive(a.key, b.key, c.key); }
      if Less(a.value, b.value) && Less(b.value, c.value) { LessTransitive(a.value, b.value, c.value); }
    }
  }

  /** Not less in this order is at most in the other: transitivity of `<=`. */
  lemma PairAtMost(a: Pair, b: Pair, c: Pair)
    requires !PairLess(b, a) && !PairLess(c, b)
    ensures !PairLess(c, a)
    ensures !PairLess(a, b) ==> a == b
  {
    PairOrder(a, b, c);
    PairOrder(b, a, c);
    PairOrder(c, a, b);
    PairOrder(b, c, a);
  }

  lemma {:induction false} InsertPairKeeps(sorted: seq<Pair>, p: Pair)
    ensures multiset(InsertPair(sorted, p)) == multiset(sorted) + multiset{p}
  {
    hide PairLess;
    if sorted != [] && PairLess(p, sorted[|sorted| - 1]) {
      var n := |sorted| - 1;
      InsertPairKeeps(sorted[..n], p);
      assert sorted == sorted[..n] + [sorted[n]];
    }
  }

  lemma AppendSorted(r: seq<Pair>, last: Pair)
    requires SortedPairs(r) && forall x :: x in multiset(r) ==> !PairLess(last, x)
    ensures SortedPairs(r + [last])
  {
    hide PairLess;
    forall i | 0 <= i < |r| ensures !PairLess(last, r[i]) { assert r[i] in multiset(r); }
    PairOrder(last, last, last);
  }

  lemma NothingAboveLast(sorted: seq<Pair>, x: Pair)
    requires SortedPairs(sorted) && x in multiset(sorted)
    ensures !PairLess(sorted[|sorted| - 1], x)
  {
    hide PairLess;
    var n := |sorted| - 1;
    var k :| 0 <= k <= n && sorted[k] == x;
    if k == n { PairOrder(x, x, x); }
  }

  lemma {:induction false} InsertPairSorts(sorted: seq<Pair>, p: Pair)
    requires SortedPairs(sorted)
    ensures SortedPairs(InsertPair(sorted, p))
  {
    hide PairLess, SortedPairs;
    if sorted == [] || !PairLess(p, sorted[|sorted| - 1]) {
      forall x | x in multiset(sorted) ensures !PairLess(p, x) {
        NothingAboveLast(sorted, x);
        PairAtMost(x, sorted[|sorted| - 1], p);
      }
      AppendSorted(sorted, p);
    } else {
      var n := |sorted| - 1;
      var head, last := sorted[..n], sorted[n];
      SortedHead(sorted, n);
      InsertPairSorts(head, p);
      InsertPairKeeps(head, p);
      SnocMultiset(sorted);
      PairOrder(p, last, p);
      forall x | x in multiset(InsertPair(head, p)) ensures !PairLess(last, x) {
        if x != p { NothingAboveLast(sorted, x); }
      }
      AppendSorted(InsertPair(head, p), last);
    }
  }

  lemma {:induction false} SortPairsSorts(ps: seq<Pair>)
    ensures SortedPairs(SortPairs(ps))
    ensures multiset(SortPairs(ps)) == multiset(ps)
  {
    hide PairLess;
    if ps != [] {
      var n := |ps| - 1;
      SortPairsSorts(ps[..n]);
      InsertPairKeeps(SortPairs(ps[..n]), ps[n]);
      InsertPairSorts(SortPairs(ps[..n]), ps[n]);
      SnocMultiset(ps);
    }
  }

  lemma SnocMultiset(a: seq<Pair>)
    requires a != []
    ensures multiset(a) == multiset(a[..|a| - 1]) + multiset{a[|a| - 1]}
  {
    assert a == a[..|a| - 1] + [a[|a| - 1]];
  }

  lemma SortedHead(a: seq<Pair>, n: nat)
    requires SortedPairs(a) && n <= |a|
    ensures SortedPairs(a[..n])
  {
  }

  lemma HeadsAgree(a: seq<Pair>, b: seq<Pair>, n: nat)
    requires |a| == |b| == n + 1 && a[n] == b[n] && multiset(a) == multiset(b)
    ensures multiset(a[..n]) == multiset(b[..n])
  {
    SnocMultiset(a);
    SnocMultiset(b);
    assert multiset(a[..n]) == multiset(a) - multiset{a[n]} && multiset(b[..n]) == multiset(b) - multiset{b[n]};
  }

  lemma {:induction false} SortedUnique(a: seq<Pair>, b: seq<Pair>)
    requires SortedPairs(a) && SortedPairs(b) && multiset(a) == multiset(b)
    ensures a == b
  {
    hide PairLess, SortedPairs;
    assert |multiset(a)| == |a| && |multiset(b)| == |b|;
    if a != [] {
      var n := |a| - 1;
      SortedHead(a, n);
      SortedHead(b, n);
      LastsAgree(a, b);
      HeadsAgree(a, b, n);
      SortedUnique(a[..n], b[..n]);
      assert a == a[..n] + [a[n]] && b == b[..n] + [b[n]];
    }
  }

  lemma LastsAgree(a: seq<Pair>, b: seq<Pair>)
    requires SortedPairs(a) && SortedPairs(b) && multiset(a) == multiset(b) && a != [] && |a| == |b|
    ensures a[|a| - 1] == b[|b| - 1]
  {
    hide PairLess;
    var n := |a| - 1;
    assert a[n] in multiset(b) && b[n] in multiset(a);
    var i :| 0 <= i < |b| && b[i] == a[n];
    var j :| 0 <= j < |a| && a[j] == b[n];
    PairOrder(a[n], b[n], a[n]);
    PairOrder(b[n], a[n], b[n]);
  }

  /** Two lists of query pairs end up the same iff their kept pairs are the same up to order. */
  lemma SameSortedIff(p: seq<Pair>, q: seq<Pair>)
    ensures SortPairs(p) == SortPairs(q) <==> multiset(p) == multiset(q)
  {
    SortPairsSorts(p);
    SortPairsSorts(q);
    if multiset(p) == multiset(q) { SortedUnique(SortPairs(p), SortPairs(q)); }
  }

  lemma {:induction false} FilterMultiset(ps: seq<Pair>, x: Pair)
    ensures multiset(Filter(ps))[x] == if Keeps(x) then multiset(ps)[x] else 0
  {
    hide Keeps;
    if ps != [] {
      var n := |ps| - 1;
      FilterMultiset(ps[..n], x);
      assert ps == ps[..n] + [ps[n]];
    }
  }

  /** Two URLs are the same article for the store exactly when scheme and host agree up to case and
      default port, the paths agree after normalisation, and the kept query pairs agree as a
      multiset. Parameters, fragment, tracking pairs and blank pairs never matter. */
  lemma SameCanonicalIff(u: Url, v: Url)
    requires CanonicalUrl(u).Some? && CanonicalUrl(v).Some?
    ensures CanonicalUrl(u) == CanonicalUrl(v) <==>
      && Lower(u.scheme) == Lower(v.scheme)
      && StripPort(Lower(u.scheme), Lower(u.netloc)) == StripPort(Lower(v.scheme), Lower(v.netloc))
      && NormalPath(u.path) == NormalPath(v.path)
      && forall x :: Keeps(x) ==> multiset(u.query)[x] == multiset(v.query)[x]
  {
    hide Keeps, SortPairs, NormalPath, StripPort, Lower;
    SameSortedIff(Filter(u.query), Filter(v.query));
    forall x ensures multiset(Filter(u.query))[x] == (if Keeps(x) then multiset(u.query)[x] else 0)
             ensures multiset(Filter(v.query))[x] == (if Keeps(x) then multiset(v.query)[x] else 0) {
      FilterMultiset(u.query, x);
      FilterMultiset(v.query, x);
    }
    if forall x :: Keeps(x) ==> multiset(u.query)[x] == multiset(v.query)[x] {
      assert multiset(Filter(u.query)) == multiset(Filter(v.query));
    }
  }

  /** Reordering the query, adding tracking or blank pairs anywhere, changing the fragment or the
      parameters, and changing the case of scheme and host leave the canonical URL alone. */
  lemma CanonicalInvariant(u: Url, v: Url, added: seq<Pair>)
    requires forall i :: 0 <= i < |added| ==> !Keeps(added[i])
    requires multiset(v.query) == multiset(u.query + added)
    requires Lower(v.scheme) == Lower(u.scheme) && Lower(v.netloc) == Lower(u.netloc) && v.path == u.path
    ensures CanonicalUrl(v) == CanonicalUrl(u)
  {
    hide Keeps, SortPairs, NormalPath, StripPort;
    assert (u.netloc == "" <==> v.netloc == "") by { assert |Lower(u.netloc)| == |Lower(v.netloc)|; }
    if CanonicalUrl(u).Some? {
      forall x | Keeps(x) ensures multiset(u.query)[x] == multiset(v.query)[x] {
        assert x !in added;
        assert multiset(added)[x] == 0;
      }
      SameCanonicalIff(u, v);
    }
  }

  // ---- canonicalising twice ----

  function LastSlash(path: string): (i: int)
    ensures -1 <= i < |path|
    ensures i >= 0 ==> path[i] == '/'
    ensures forall k :: i < k < |path| ==> path[k] != '/'
  {
    if path == "" then -1
    else if path[|path| - 1] == '/' then |path| - 1
    else LastSlash(path[..|path| - 1])
  }

  /** The segment `urlparse` looks for parameters in. */
  function LastSegment(path: string): string { path[LastSlash(path) + 1..] }

  function FirstSemicolon(path: string, from: nat): (i: nat)
    requires from <= |path|
    ensures from <= i <= |path|
    ensures i < |path| ==> path[i] == ';'
    ensures forall k :: from <= k < i ==> path[k] != ';'
    decreases |path| - from
  {
    if from == |path| || path[from] == ';' then from else FirstSemicolon(path, from + 1)
  }

  /** What `str.strip` removes. */
  predicate IsBlank(c: char) {
    var n := c as int;
    9 <= n <= 13 || 28 <= n <= 32 || n == 0x85 || n == 0xA0 || n == 0x1680 || 0x2000 <= n <= 0x200A ||
    n == 0x2028 || n == 0x2029 || n == 0x202F || n == 0x205F || n == 0x3000
  }

  /** They are the whitespace characters of Unicode and the four separators from 28 to 31. */
  lemma BlanksAre(c: char)
    ensures IsBlank(c) <==> c as int in {
      9, 10, 11, 12, 13, 28, 29, 30, 31, 32, 133, 160, 5760, 8192, 8193, 8194, 8195, 8196, 8197, 8198, 8199, 8200,
      8201, 8202, 8232, 8233, 8239, 8287, 12288 }
  {
  }

  predicate EndsBlank(s: string) { s != "" && IsBlank(s[|s| - 1]) }

  function RTrim(s: string): string { if EndsBlank(s) then RTrim(s[..|s| - 1]) else s }

  /** What the next round makes of the text of a canonical URL: `canonical_url` strips it, then parses
      it. Without a query the text ends in the path, and without a path in the host. */
  function Reparsed(c: Canonical): Url {
    var whole := if c.query == [] then RTrim(c.path) else c.path;
    var netloc := if c.query == [] && c.path == "" then RTrim(c.netloc) else c.netloc;
    var path := Unparam(whole);
    Url(c.scheme, netloc, path, if |path| < |whole| then whole[|path| + 1..] else "", c.query, "")
  }

  /** `urlparse` of an absolute URL: the path starts with a slash if there is one, and parameters have
      left its last segment. */
  predicate WellParsed(u: Url) {
    (u.path == "" || u.path[0] == '/') && ';' !in LastSegment(u.path)
  }

  predicate OnlySlashes(path: string) { forall i :: 0 <= i < |path| ==> path[i] == '/' }

  /** What a caller has to check on the URL: something is left of the host, its default port is not
      written twice, the path is not two or more bare slashes, no trailing slash hides a segment with
      parameters, and some query pair is kept or the path does not end in a blank, trailing slashes
      aside. */
  predicate Settles(u: Url) {
    var scheme, netloc := Lower(u.scheme), Lower(u.netloc);
    var port := DefaultPort(scheme);
    && netloc != port
    && !EndsWith(netloc, port + port)
    && !(|u.path| >= 2 && OnlySlashes(u.path))
    && ';' !in LastSegment(RStrip(u.path))
    && ((exists i :: 0 <= i < |u.query| && Keeps(u.query[i])) || !EndsBlank(RStrip(u.path)))
  }

  lemma {:induction false} RStripShape(path: string)
    ensures RStrip(path) <= path
    ensures RStrip(path) == "" <==> OnlySlashes(path)
    ensures RStrip(path) != "" ==> RStrip(path)[|RStrip(path)| - 1] != '/'
  {
    if path != "" && path[|path| - 1] == '/' {
      RStripShape(path[..|path| - 1]);
      assert path == path[..|path| - 1] + ['/'];
    } else if path != "" {
      assert path[|path| - 1] != '/';
    }
  }

  lemma {:induction false} LowerTwice(s: string)
    ensures Lower(Lower(s)) == Lower(s)
  {
    assert forall i :: 0 <= i < |s| ==> Lower(Lower(s))[i] == LowerChar(LowerChar(s[i]));
  }

  lemma StripTwice(scheme: string, netloc: string)
    requires scheme == "http" || scheme == "https"
    ensures var once, port := StripPort(scheme, netloc), DefaultPort(scheme);
      (once != "" && StripPort(scheme, once) == once) <==>
          (netloc != "" && netloc != port && !EndsWith(netloc, port + port))
  {
    var once, port := StripPort(scheme, netloc), DefaultPort(scheme);
    if EndsWith(netloc, port) {
      assert netloc == once + port;
      if EndsWith(once, port) {
        assert once == once[..|once| - |port|] + port;
        assert netloc == once[..|once| - |port|] + (port + port);
        assert netloc[|netloc| - |port + port|..] == port + port;
      }
      if EndsWith(netloc, port + port) {
        var rest := netloc[..|netloc| - |port + port|];
        assert netloc == rest + port + port && once == rest + port;
        assert once[|once| - |port|..] == port;
      }
    }
    if EndsWith(netloc, port + port) { DoubleEndsOnce(netloc, port); }
  }

  lemma DoubleEndsOnce(s: string, port: string)
    requires EndsWith(s, port + port)
    ensures EndsWith(s, port)
  {
    assert s[|s| - |port|..] == (port + port)[|port|..] == port;
  }

  lemma {:induction false} FilterKept(ps: seq<Pair>)
    requires forall i :: 0 <= i < |ps| ==> Keeps(ps[i])
    ensures Filter(ps) == ps
  {
    if ps != [] { FilterKept(ps[..|ps| - 1]); }
  }

  lemma QueryTwice(q: seq<Pair>)
    ensures var once := SortPairs(Filter(q)); SortPairs(Filter(once)) == once
  {
    hide Keeps;
    var f := Filter(q);
    var once := SortPairs(f);
    SortPairsSorts(f);
    forall i | 0 <= i < |once| ensures Keeps(once[i]) {
      assert once[i] in multiset(once);
      FilterMultiset(q, once[i]);
    }
    FilterKept(once);
    SortPairsSorts(once);
    SortedUnique(SortPairs(once), once);
  }

  function Unparam(path: string): string { path[..FirstSemicolon(path, LastSlash(path) + 1)] }

  /** `urlparse` leaves a path alone iff its last segment has no parameters; otherwise a shorter one remains. */
  lemma UnparamIs(path: string)
    ensures Unparam(path) == path <==> ';' !in LastSegment(path)
    ensures Unparam(path) != path ==> path[|Unparam(path)|] == ';'
  {
    hide LastSlash, FirstSemicolon;
    var from := LastSlash(path) + 1;
    var cut, seg := FirstSemicolon(path, from), LastSegment(path);
    assert path[..|path|] == path;
    if cut < |path| {
      assert seg[cut - from] == path[cut] == ';';
    } else {
      forall k | 0 <= k < |seg| ensures seg[k] != ';' { assert seg[k] == path[from + k]; }
    }
  }

  /** The path survives a second round iff it is not bare slashes and hides no parameters. */
  lemma PathTwice(path: string)
    requires (path == "" || path[0] == '/') && ';' !in LastSegment(path)
    ensures NormalPath(Unparam(NormalPath(path))) == NormalPath(path)
       <==> !(|path| >= 2 && OnlySlashes(path)) && ';' !in LastSegment(RStrip(path))
  {
    hide Unparam, LastSegment, OnlySlashes, RStrip, NormalPath;
    var once := NormalPath(path);
    NormalPathIs(path);
    NormalPathIs("");
    NormalPathIs("/");
    UnparamIs("/");
    RStripShape(path);
    RStripOnce(path);
    UnparamIs(once);
    RootSegment();
    assert |path| == 1 ==> path == "/";
    if path != "" && path != "/" && once != "" {
      if Unparam(once) != once {
        UnparamCuts(once);
      } else {
        NormalPathIs(once);
        RStripOnce(once);
      }
    }
  }

  lemma {:induction false} RTrimShape(s: string)
    ensures RTrim(s) <= s
    ensures RTrim(s) == s <==> !EndsBlank(s)
  {
    if EndsBlank(s) { RTrimShape(s[..|s| - 1]); }
  }

  /** A path that loses its end to the strip does not come back. */
  lemma BlankEndCuts(once: string)
    requires EndsBlank(once)
    ensures NormalPath(Unparam(RTrim(once))) != once
  {
    hide RTrim, LastSlash, FirstSemicolon, RStrip;
    RTrimShape(once);
    var shorter := Unparam(RTrim(once));
    assert |shorter| < |once|;
    NormalPathIs(shorter);
    RStripShape(shorter);
    assert !IsBlank('/');
  }

  /** The same with the strip in front, which does not reach the path when a query follows it. */
  lemma PathTwiceStripped(path: string, query: bool)
    requires (path == "" || path[0] == '/') && ';' !in LastSegment(path)
    ensures var once := NormalPath(path);
      NormalPath(Unparam(if query then once else RTrim(once))) == once <==>
        !(|path| >= 2 && OnlySlashes(path)) && ';' !in LastSegment(RStrip(path)) && (query || !EndsBlank(RStrip(path)))
  {
    hide Unparam, LastSegment, OnlySlashes, RStrip, NormalPath, RTrim;
    var once := NormalPath(path);
    PathTwice(path);
    NormalPathIs(path);
    RStripOnce(path);
    RTrimShape(once);
    assert !IsBlank('/');
    if EndsBlank(once) { BlankEndCuts(once); }
  }

  lemma {:induction false} FilterEmptyIff(ps: seq<Pair>)
    ensures Filter(ps) == [] <==> forall i :: 0 <= i < |ps| ==> !Keeps(ps[i])
  {
    hide Keeps;
    if ps != [] {
      var n := |ps| - 1;
      FilterEmptyIff(ps[..n]);
      assert ps == ps[..n] + [ps[n]];
      assert Filter(ps) == Filter(ps[..n]) + (if Keeps(ps[n]) then [ps[n]] else []);
    }
  }

  lemma SortedEmptyIff(ps: seq<Pair>)
    ensures SortPairs(ps) == [] <==> ps == []
  {
    SortPairsSorts(ps);
    assert |multiset(SortPairs(ps))| == |SortPairs(ps)| && |multiset(ps)| == |ps|;
  }

  lemma NormalPathIs(path: string)
    ensures NormalPath(path) == if path == "" || path == "/" then "/" else RStrip(path)
  {
  }

  /** Trailing slashes are stripped from every path but the root: a path stays as it is exactly when
      it is the root or ends in something else. */
  lemma TrailingSlashesGoIff(path: string)
    requires path != ""
    ensures NormalPath(path) == path <==> path == "/" || path[|path| - 1] != '/'
  {
    RStripShape(path);
  }

  lemma UnparamCuts(once: string)
    requires Unparam(once) != once
    ensures NormalPath(Unparam(once)) != once
  {
    UnparamIs(once);
    ShorterPath(once, |Unparam(once)|);
  }

  lemma RStripOnce(path: string)
    ensures path != "" && path[|path| - 1] != '/' ==> RStrip(path) == path
    ensures path == "/" || path == "" ==> RStrip(path) == "" && OnlySlashes(path)
  {
  }

  lemma RootSegment()
    ensures LastSegment("/") == "" && LastSegment("") == ""
    ensures Unparam("") == ""
  {
  }

  lemma ShorterPath(once: string, cut: nat)
    requires cut < |once| && once[cut] == ';'
    ensures NormalPath(once[..cut]) != once
  {
    RStripShape(once[..cut]);
    assert "/"[0] != ';';
  }

  /** Canonicalising the text of a canonical URL gives the same canonical URL iff the URL settles. */
  lemma IdempotentIff(u: Url)
    requires CanonicalUrl(u).Some? && WellParsed(u)
    ensures CanonicalUrl(Reparsed(CanonicalUrl(u).value)) == CanonicalUrl(u) <==> Settles(u)
  {
    hide SortPairs, Filter, RStrip, LastSegment, OnlySlashes, Unparam, EndsWith, StripPort, NormalPath, Lower;
    hide RTrim, Keeps, EndsBlank;
    var c := CanonicalUrl(u).value;
    LowerTwice(u.scheme);
    LowerTwice(u.netloc);
    StripKeepsLower(c.scheme, Lower(u.netloc));
    StripTwice(c.scheme, Lower(u.netloc));
    FilterEmptyIff(u.query);
    SortedEmptyIff(Filter(u.query));
    PathTwiceStripped(u.path, c.query != []);
    EmptyPathIs(u.path);
    QueryTwice(u.query);
  }

  lemma EmptyPathIs(path: string)
    ensures NormalPath(path) == "" ==> |path| >= 2 && OnlySlashes(path)
  {
    hide OnlySlashes;
    NormalPathIs(path);
    RStripShape(path);
    assert |path| == 1 && path[0] == '/' ==> path == "/";
    if |path| == 1 && path[0] != '/' { RStripOnce(path); }
  }

  lemma StripKeepsLower(scheme: string, netloc: string)
    requires Lower(netloc) == netloc
    ensures Lower(StripPort(scheme, netloc)) == StripPort(scheme, netloc)
  {
    var once := StripPort(scheme, netloc);
    assert once <= netloc;
    forall i | 0 <= i < |once| ensures LowerChar(once[i]) == once[i] { assert Lower(netloc)[i] == netloc[i]; }
  }

  /** The paths of two rounds over a plain URL without a query. */
  lemma TwoRounds(path: string, fragment: string)
    requires NormalPath(path) != ""
    ensures var u := Url("http", "h", path, "", [], fragment);
      CanonicalUrl(u) == Some(Canonical("http", "h", NormalPath(path), [])) &&
      var again := CanonicalUrl(Reparsed(CanonicalUrl(u).value));
      again.Some? && again.value.path == NormalPath(Unparam(RTrim(NormalPath(path))))
  {
    assert Lower("http") == "http" && Lower("h") == "h";
    hide NormalPath, Unparam, RTrim, Lower;
    assert StripPort("http", "h") == "h";
  }

  /** The ways it fails, by example. */
  lemma UnsettledSlashes()
    ensures var u := Url("http", "h", "//", "", [], "");
      CanonicalUrl(u).value.path == "" && CanonicalUrl(Reparsed(CanonicalUrl(u).value)).value.path == "/"
  {
    assert Lower("http") == "http" && Lower("h") == "h";
    assert "//"[..1] == "/" && "/"[..0] == "";
    assert RStrip("//") == RStrip("/") == RStrip("") == "";
    assert Lower("") == "" && RTrim("h") == "h";
  }

  lemma StripsEnd(host: string, port: string)
    ensures EndsWith(host + port, port) && (host + port)[..|host|] == host
  {
  }

  /** A default port written twice loses one per round. */
  lemma UnsettledPort(u: Url, host: string)
    requires Lower(u.scheme) == "http" && Lower(u.netloc) == host + ":80" + ":80"
    ensures CanonicalUrl(u).Some? && CanonicalUrl(u).value.netloc == host + ":80"
    ensures var twice := CanonicalUrl(Reparsed(CanonicalUrl(u).value)); twice.Some? && twice.value.netloc == host
  {
    PortStays(host);
    StripsEnd(host + ":80", ":80");
    StripsEnd(host, ":80");
    assert StripPort("http", host + ":80" + ":80") == host + ":80" && StripPort("http", host + ":80") == host;
    hide RStrip, NormalPath, SortPairs, Filter, Unparam, EndsWith, StripPort, Lower, RTrim;
    LowerTwice(u.scheme);
    LowerTwice(u.netloc);
    StripKeepsLower("http", Lower(u.netloc));
  }

  lemma PortStays(host: string)
    ensures RTrim(host + ":80") == host + ":80"
  {
    assert (host + ":80")[|host| + 2] == '0';
  }

  /** A host that is only a port is gone after one round, and the result is no URL any more. */
  lemma VanishingHost(u: Url)
    requires Lower(u.scheme) == "http" && Lower(u.netloc) == ":80"
    ensures CanonicalUrl(u).Some? && CanonicalUrl(Reparsed(CanonicalUrl(u).value)).None?
  {
    StripsEnd("", ":80");
    assert "" + ":80" == ":80" && RTrim("") == "";
    hide RStrip, NormalPath, SortPairs, Filter, Unparam, RTrim;
    LowerTwice(u.scheme);
  }

  /** A blank in front of the fragment ends up at the end of the text, and goes in the second round:
      `http://h/a #c` becomes `http://h/a ` and then `http://h/a`. */
  lemma UnsettledBlank(path: string, blank: char, fragment: string)
    requires |path| >= 2 && !EndsBlank(path) && path[|path| - 1] != '/' && ';' !in path && IsBlank(blank)
    ensures var u := Url("http", "h", path + [blank], "", [], fragment);
      CanonicalUrl(u).value.path == path + [blank] && CanonicalUrl(Reparsed(CanonicalUrl(u).value)).value.path == path
  {
    BlankTrimmed(path, blank);
    hide CanonicalUrl, Reparsed, RTrim, NormalPath, Unparam;
    TwoRounds(path + [blank], fragment);
  }

  lemma BlankTrimmed(path: string, blank: char)
    requires |path| >= 2 && !EndsBlank(path) && path[|path| - 1] != '/' && ';' !in path && IsBlank(blank)
    ensures NormalPath(path + [blank]) == path + [blank] && RTrim(path + [blank]) == path
    ensures Unparam(path) == path && NormalPath(path) == path
  {
    var whole := path + [blank];
    assert whole[..|whole| - 1] == path;
    assert RTrim(path) == path;
    hide Unparam;
    NoSemicolon(path);
  }

  lemma NoSemicolon(path: string)
    requires ';' !in path
    ensures Unparam(path) == path
  {
    hide LastSlash, FirstSemicolon;
    UnparamIs(path);
    forall k | 0 <= k < |LastSegment(path)| ensures LastSegment(path)[k] != ';' {
      assert LastSegment(path)[k] in path;
    }
  }

  lemma UnsettledParameters()
    ensures var u := Url("http", "h", "/a;b/", "", [], "");
      CanonicalUrl(u).value.path == "/a;b" && CanonicalUrl(Reparsed(CanonicalUrl(u).value)).value.path == "/a"
  {
    hide CanonicalUrl, Reparsed;
    ParametersCut();
    TwoRounds("/a;b/", "");
  }

  lemma ParametersCut()
    ensures NormalPath("/a;b/") == "/a;b" && RTrim("/a;b") == "/a;b"
    ensures Unparam("/a;b") == "/a" && NormalPath("/a") == "/a"
  {
    var p, q := "/a;b/", "/a;b";
    assert p[..4] == q && RStrip(p) == RStrip(q) == q;
    assert q[0] == '/' && q[1] == 'a' && q[2] == ';' && q[3] == 'b';
    assert LastSlash(q) == 0;
    assert FirstSemicolon(q, 1) == 2;
    assert q[..2] == "/a";
  }

  // ---- the pieces, written out ----

  /** Only the letters A to Z change, each to the small letter 32 code points on. */
  lemma LowerIs(s: string)
    ensures |Lower(s)| == |s|
    ensures forall i :: 0 <= i < |s| ==>
              Lower(s)[i] as int == (if 65 <= s[i] as int <= 90 then s[i] as int + 32 else s[i] as int)
  {
  }

  /** Which query pairs are kept: those with a value, whose key is none of these in any case. */
  lemma KeepsIff(p: Pair)
    ensures Keeps(p) <==> p.value != "" && Lower(p.key) !in {
      "utm_source", "utm_medium", "utm_campaign", "utm_term", "utm_content", "utm_id", "utm_name",
      "fbclid", "gclid", "gclsrc", "dclid", "mc_cid", "mc_eid", "yclid", "msclkid",
      "ref", "ref_src", "ref_url", "ref_source", "_ga", "igshid", "feature", "share", "share_id" }
  {
  }

  /** Only the port that belongs to the scheme is stripped, once, from the end. */
  lemma StripPortIs(host: string)
    ensures StripPort("http", host + ":80") == host && StripPort("https", host + ":443") == host
    ensures !EndsWith(host, ":80") ==> StripPort("http", host) == host
    ensures !EndsWith(host, ":443") ==> StripPort("https", host) == host
  {
    StripsEnd(host, ":80");
    StripsEnd(host, ":443");
  }

  /** Trailing slashes are stripped, all of them and nothing else. */
  lemma {:induction false} RStripIs(path: string)
    ensures RStrip(path) <= path && forall i :: |RStrip(path)| <= i < |path| ==> path[i] == '/'
    ensures RStrip(path) != "" ==> RStrip(path)[|RStrip(path)| - 1] != '/'
  {
    if path != "" && path[|path| - 1] == '/' {
      var n := |path| - 1;
      RStripIs(path[..n]);
      assert forall i :: 0 <= i < n ==> path[..n][i] == path[i];
    }
  }

  /** The canonical URL in full: refused unless http or https with a host; otherwise scheme and host in
      small letters without the default port, the path with at least a slash and none at its end, and
      the kept pairs in order. */
  lemma CanonicalIs(u: Url)
    ensures CanonicalUrl(u).Some? <==> Lower(u.scheme) in {"http", "https"} && u.netloc != ""
    ensures CanonicalUrl(u).Some? ==>
              var c := CanonicalUrl(u).value;
              c.scheme == Lower(u.scheme) && c.netloc == StripPort(Lower(u.scheme), Lower(u.netloc)) &&
              c.path == (if u.path == "" || u.path == "/" then "/" else RStrip(u.path)) && SortedPairs(c.query) &&
              forall x :: multiset(c.query)[x] == if Keeps(x) then multiset(u.query)[x] else 0
  {
    hide SortPairs, Filter, Keeps, SortedPairs, Lower, StripPort, RStrip;
    NormalPathIs(u.path);
    SortPairsSorts(Filter(u.query));
    forall x ensures multiset(Filter(u.query))[x] == (if Keeps(x) then multiset(u.query)[x] else 0) {
      FilterMultiset(u.query, x);
    }
  }

  // ---- content hash ----

  /** `s.split()`: the stretches between blanks. */
  function Words(s: string): (ws: seq<string>)
    ensures s != "" && !IsBlank(s[|s| - 1]) ==> ws != []
  {
    if s == "" then []
    else
      var before, c := s[..|s| - 1], s[|s| - 1];
      if IsBlank(c) then Words(before)
      else if before == "" || IsBlank(before[|before| - 1]) then Words(before) + [[c]]
      else Words(before)[..|Words(before)| - 1] + [Words(before)[|Words(before)| - 1] + [c]]
  }

  /** Blanks collapsed, small letters. */
  function Normalised(title: string): string { Lower(Join(" ", Words(title))) }

  lemma {:induction false} WordsAreSolid(s: string)
    ensures forall i :: 0 <= i < |Words(s)| ==> Words(s)[i] != ""
    ensures forall i, k :: 0 <= i < |Words(s)| && 0 <= k < |Words(s)[i]| ==> !IsBlank(Words(s)[i][k])
  {
    if s != "" {
      var before, c := s[..|s| - 1], s[|s| - 1];
      WordsAreSolid(before);
    }
  }

  /** What one more character does to the words. */
  lemma WordsSnoc(s: string, c: char)
    ensures IsBlank(c) ==> Words(s + [c]) == Words(s)
    ensures !IsBlank(c) && (s == "" || IsBlank(s[|s| - 1])) ==> Words(s + [c]) == Words(s) + [[c]]
    ensures !IsBlank(c) && s != "" && !IsBlank(s[|s| - 1]) ==>
              Words(s) != [] && Words(s + [c]) == Words(s)[..|Words(s)| - 1] + [Words(s)[|Words(s)| - 1] + [c]]
  {
    assert (s + [c])[..|s|] == s;
  }

  /** Two texts of which both or neither wait for a new word take the next character alike. */
  lemma WordsGoOn(s: string, t: string, ws: seq<string>, c: char)
    requires Words(s) == ws + Words(t)
    requires (s == "" || IsBlank(s[|s| - 1])) <==> (t == "" || IsBlank(t[|t| - 1]))
    ensures Words(s + [c]) == ws + Words(t + [c])
  {
    WordsSnoc(s, c);
    WordsSnoc(t, c);
    var w := Words(t);
    hide Words, IsBlank;
    if w != [] {
      assert (ws + w)[..|ws + w| - 1] == ws + w[..|w| - 1];
    }
  }

  lemma LastSplit(s: string, t: string)
    requires s != "" && t != ""
    ensures t == t[..|t| - 1] + [t[|t| - 1]] && s + t == s + t[..|t| - 1] + [t[|t| - 1]]
    ensures var u := s + t[..|t| - 1]; u[|u| - 1] == if |t| == 1 then s[|s| - 1] else t[|t| - 2]
  {
  }

  /** After a blank the words of what follows come next. */
  lemma {:induction false} WordsFollow(s: string, t: string)
    requires s != "" && IsBlank(s[|s| - 1])
    ensures Words(s + t) == Words(s) + Words(t)
  {
    hide IsBlank;
    if t == "" {
      assert s + t == s;
    } else {
      hide Words;
      var front := t[..|t| - 1];
      LastSplit(s, t);
      WordsFollow(s, front);
      WordsGoOn(s + front, front, Words(s), t[|t| - 1]);
    }
  }

  /** A blank between two texts separates their words. */
  lemma WordsSplit(a: string, blank: char, b: string)
    requires IsBlank(blank)
    ensures Words(a + [blank] + b) == Words(a) + Words(b)
  {
    WordsSnoc(a, blank);
    hide Words;
    WordsFollow(a + [blank], b);
  }

  lemma {:induction false} WordIs(s: string)
    requires s != "" && forall i :: 0 <= i < |s| ==> !IsBlank(s[i])
    ensures Words(s) == [s]
  {
    var n := |s| - 1;
    if n > 0 {
      WordIs(s[..n]);
      assert s[..n] + [s[n]] == s;
    } else {
      assert s[..0] == "" && s == [s[0]];
    }
  }

  lemma {:induction false} NoBreak(ws: seq<string>)
    requires forall i :: 0 <= i < |ws| ==> '\n' !in ws[i]
    ensures '\n' !in Join(" ", ws)
  {
    if |ws| > 1 { NoBreak(ws[..|ws| - 1]); }
  }

  lemma NormalisedHasNoBreak(title: string)
    ensures '\n' !in Normalised(title)
  {
    WordsAreSolid(title);
    assert IsBlank('\n');
    forall i | 0 <= i < |Words(title)| ensures '\n' !in Words(title)[i] { }
    NoBreak(Words(title));
    var joined := Join(" ", Words(title));
    forall k | 0 <= k < |joined| ensures Lower(joined)[k] != '\n' { assert joined[k] in joined; }
  }

  /** An ideal hash of a text. */
  datatype TextDigest = TextDigest(of: string)

  const BODY_PREFIX := 2000

  function Prefix(body: string): string { if |body| > BODY_PREFIX then body[..BODY_PREFIX] else body }

  lemma PrefixIs(body: string)
    ensures Prefix(body) <= body && |Prefix(body)| == if |body| <= 2000 then |body| else 2000
  {
  }

  function Payload(cu: string, title: string, body: string): string {
    cu + "\n" + Normalised(title) + "\n" + Prefix(body)
  }

  function ContentHash(cu: string, title: string, body: string): TextDigest { TextDigest(Payload(cu, title, body)) }

  /** For newline-free URLs two items have one hash exactly when the URLs, the titles up to blanks and
      case, and the first 2000 characters of the bodies agree. */
  lemma SameHashIff(cu: string, title: string, body: string, cu': string, title': string, body': string)
    requires '\n' !in cu && '\n' !in cu'
    ensures ContentHash(cu, title, body) == ContentHash(cu', title', body') <==>
              cu == cu' && Normalised(title) == Normalised(title') && Prefix(body) == Prefix(body')
  {
    hide Normalised, Prefix;
    if ContentHash(cu, title, body) == ContentHash(cu', title', body') {
      var tail, tail' := Normalised(title) + "\n" + Prefix(body), Normalised(title') + "\n" + Prefix(body');
      assert Payload(cu, title, body) == cu + "\n" + tail;
      assert Payload(cu', title', body') == cu' + "\n" + tail';
      FirstPartUnique('\n', cu, cu', tail, tail');
      NormalisedHasNoBreak(title);
      NormalisedHasNoBreak(title');
      FirstPartUnique('\n', Normalised(title), Normalised(title'), Prefix(body), Prefix(body'));
    }
  }

  lemma OneWord(c: char)
    requires 'a' <= c <= 'z'
    ensures Normalised([c]) == [c]
  {
    WordIs([c]);
    JoinLaws(" ", [], [], [c]);
    assert Lower([c]) == [c];
  }

  /** With a newline inside a fallback URL two different URLs can share a hash. */
  lemma NewlineUrlsCollide()
    ensures ContentHash("x", "y", "z\nb") == ContentHash("x\ny", "z", "b")
  {
    OneWord('y');
    OneWord('z');
    hide Normalised;
    assert Payload("x", "y", "z\nb") == "x\ny\nz\nb" == Payload("x\ny", "z", "b");
  }
}
