/** Which product list queries the database answers alike (services/inventory/domains/catalog/repository/
    product_repository.go), and which share a cache entry with one that it answers differently. */
module ListQueries {
  import opened Text
  import opened CacheKeys

  datatype Column = ByName | BySku | ByCreatedAt | ByUpdatedAt | ByPrice | ByReorderLevel

  /** An unknown sort means the name. */
  function SortColumn(sort: string): Column {
    var s := ToLower(TrimSpace(sort));
    if s == "sku" then BySku
    else if s == "created_at" then ByCreatedAt
    else if s == "updated_at" then ByUpdatedAt
    else if s == "price" then ByPrice
    else if s == "reorder_level" then ByReorderLevel
    else ByName
  }

  predicate Descending(order: string) {
    ToLower(TrimSpace(order)) == "desc"
  }

  /** The columns by their names, whatever the case and the space around them. */
  lemma ColumnsHaveNames(s: string)
    ensures SortColumn(s) == BySku <==> ToLower(TrimSpace(s)) == "sku"
    ensures SortColumn(s) == ByCreatedAt <==> ToLower(TrimSpace(s)) == "created_at"
    ensures SortColumn(s) == ByUpdatedAt <==> ToLower(TrimSpace(s)) == "updated_at"
    ensures SortColumn(s) == ByPrice <==> ToLower(TrimSpace(s)) == "price"
    ensures SortColumn(s) == ByReorderLevel <==> ToLower(TrimSpace(s)) == "reorder_level"
    ensures Descending(s) <==> ToLower(TrimSpace(s)) == "desc"
  {
    assert |"sku"| == 3 && |"created_at"| == 10 && |"updated_at"| == 10 && |"price"| == 5 && |"reorder_level"| == 13;
    assert "created_at"[0] != "updated_at"[0];
  }

  /** What the SQL of a list query depends on; ILIKE does not see the case of the search. */
  datatype Listing = Listing(
    page: int,
    perPage: int,
    search: string,
    column: Column,
    descending: bool,
    category: string)

  function Effective(q: Query): Listing {
    var a := Normalize(q);
    Listing(a.page, a.perPage, a.search, SortColumn(a.sort), Descending(a.order), a.category)
  }

  predicate IsHex(c: char) {
    IsDigit(c) || 'a' <= c <= 'f' || 'A' <= c <= 'F'
  }

  /** The rest of a UUID after `pairs` pairs of digits. PostgreSQL allows a hyphen after every second pair but the
      last. */
  predicate UuidFrom(s: string, pairs: nat)
    decreases 16 - pairs
  {
    if pairs >= 16 then s == ""
    else
      && |s| >= 2 && IsHex(s[0]) && IsHex(s[1])
      && UuidFrom(if pairs % 2 == 1 && pairs < 15 && |s| > 2 && s[2] == '-' then s[3..] else s[2..], pairs + 1)
  }

  /** What PostgreSQL reads as a UUID, in braces or not. */
  predicate IsUuid(s: string) {
    UuidFrom(s, 0) || (|s| >= 2 && s[0] == '{' && s[|s| - 1] == '}' && UuidFrom(s[1..|s| - 1], 0))
  }

  /** The database answers with an error when the search contains a NUL or the category is no UUID. */
  predicate Answerable(q: Query) {
    var a := Normalize(q);
    Storable(a.search) && (a.category == "" || IsUuid(a.category))
  }

  // ---- Sharing an entry ------------------------------------------------------------------------

  predicate SharesEntry(q: Query, r: Query) {
    r.page == q.page && r.perPage == q.perPage && Tail(Normalize(r)) == Tail(Normalize(q))
  }

  /** Three separators of a joined text. */
  predicate IsCut(t: string, f: nat, m: nat, l: nat) {
    f < m < l < |t| && t[f] == '|' && t[m] == '|' && t[l] == '|'
  }

  /** The query that the text stands for when it is cut there. */
  function CutQuery(q: Query, t: string, f: nat, m: nat, l: nat): Query
    requires IsCut(t, f, m, l)
  {
    Query(q.page, q.perPage, t[..f], t[f + 1..m], t[m + 1..l], t[l + 1..])
  }

  predicate IsNormal(q: Query) {
    Normalize(q) == q
  }

  /** However the joined text of the query is cut into a query that the database answers, the answer is the one of
      the query itself. */
  ghost predicate Agrees(q: Query) {
    var t := Tail(Normalize(q));
    forall f, m, l :: IsCut(t, f, m, l) ==>
      var r := CutQuery(q, t, f, m, l);
      IsNormal(r) && Answerable(r) ==> Answerable(q) && Effective(r) == Effective(q)
  }

  lemma NormalizeTwice(q: Query)
    ensures IsNormal(Normalize(q))
    ensures Effective(Normalize(q)) == Effective(q) && (Answerable(Normalize(q)) <==> Answerable(q))
  {
    NormalParts(q);
    var a := Normalize(q);
    TrimmedIsFixed(a.search);
    LowerIsFixed(a.search);
    TrimmedIsFixed(a.category);
  }

  lemma CutJoins(q: Query, t: string, f: nat, m: nat, l: nat)
    requires IsCut(t, f, m, l)
    ensures Tail(CutQuery(q, t, f, m, l)) == t
  {
    assert t == t[..f] + "|" + t[f + 1..m] + "|" + t[m + 1..l] + "|" + t[l + 1..];
  }

  lemma OwnCut(q: Query) returns (f: nat, m: nat, l: nat)
    ensures f == |Normalize(q).search| && m == f + 1 + |q.sort| && l == m + 1 + |q.order|
    ensures IsCut(Tail(Normalize(q)), f, m, l) && CutQuery(q, Tail(Normalize(q)), f, m, l) == Normalize(q)
  {
    var a := Normalize(q);
    var t := Tail(a);
    f := |a.search|;
    m := f + 1 + |q.sort|;
    l := m + 1 + |q.order|;
    assert t[..f] == a.search && t[f + 1..m] == a.sort && t[m + 1..l] == a.order && t[l + 1..] == a.category;
  }

  /** A query agrees exactly when every query that shares its entry and is answered has the same answer. */
  lemma AgreesWithAll(q: Query)
    ensures Agrees(q) <==>
            forall r :: SharesEntry(q, r) && Answerable(r) ==> Answerable(q) && Effective(r) == Effective(q)
  {
    if Agrees(q) {
      forall r | SharesEntry(q, r) && Answerable(r)
        ensures Answerable(q) && Effective(r) == Effective(q)
      {
        AgreesWith(q, r);
      }
    } else {
      var r := Disagreeing(q);
    }
  }

  lemma AgreesWith(q: Query, r: Query)
    requires Agrees(q) && SharesEntry(q, r) && Answerable(r)
    ensures Answerable(q) && Effective(r) == Effective(q)
  {
    var f, m, l := OwnCut(r);
    NormalizeTwice(r);
    assert CutQuery(q, Tail(Normalize(q)), f, m, l) == Normalize(r);
  }

  lemma Disagreeing(q: Query) returns (r: Query)
    requires !Agrees(q)
    ensures SharesEntry(q, r) && Answerable(r) && !(Answerable(q) && Effective(r) == Effective(q))
  {
    var t := Tail(Normalize(q));
    var f, m, l :| IsCut(t, f, m, l) && IsNormal(CutQuery(q, t, f, m, l)) && Answerable(CutQuery(q, t, f, m, l))
                   && !(Answerable(q) && Effective(CutQuery(q, t, f, m, l)) == Effective(q));
    r := CutQuery(q, t, f, m, l);
    CutJoins(q, t, f, m, l);
  }

  /** A query that shares its entry with no other query agrees. */
  lemma OwnEntryAgrees(q: Query)
    requires HasInts(q) && Unambiguous(q) && Answerable(q)
    ensures Agrees(q)
  {
    var id := (s: string) => s;
    forall r | SharesEntry(q, r) && Answerable(r)
      ensures Effective(r) == Effective(q)
    {
      FingerprintIsTail(id, q, r);
      UnambiguousIsOwn(id, q, r);
    }
    AgreesWithAll(q);
  }

  // ---- The condition on the query itself -------------------------------------------------------------

  lemma {:induction false} UuidHasNoBar(s: string, pairs: nat)
    requires UuidFrom(s, pairs)
    ensures '|' !in s
    decreases 16 - pairs
  {
    if pairs < 16 {
      var rest := if pairs % 2 == 1 && pairs < 15 && |s| > 2 && s[2] == '-' then s[3..] else s[2..];
      UuidHasNoBar(rest, pairs + 1);
      assert s == s[..|s| - |rest|] + rest;
    }
  }

  lemma CategoryHasNoBar(s: string)
    requires s == "" || IsUuid(s)
    ensures '|' !in s
  {
    if s != "" {
      if UuidFrom(s, 0) {
        UuidHasNoBar(s, 0);
      } else {
        UuidHasNoBar(s[1..|s| - 1], 0);
        assert s == [s[0]] + s[1..|s| - 1] + [s[|s| - 1]];
      }
    }
  }

  lemma {:induction false} LowerKeeps(s: string, c: char)
    requires c in s && LowerChar(c) == c
    ensures c in ToLower(s)
  {
    var i :| 0 <= i < |s| && s[i] == c;
    assert ToLower(s)[i] == c;
  }

  lemma {:induction false} TrimKeeps(s: string, c: char)
    requires c in s && !IsSpace(c)
    ensures c in TrimSpace(s)
  {
    TrimLeftKeeps(s, c);
    TrimRightKeeps(TrimLeft(s), c);
  }

  lemma {:induction false} TrimLeftKeeps(s: string, c: char)
    requires c in s && !IsSpace(c)
    ensures c in TrimLeft(s)
  {
    if IsSpace(s[0]) {
      assert s == [s[0]] + s[1..];
      TrimLeftKeeps(s[1..], c);
    }
  }

  lemma {:induction false} TrimRightKeeps(s: string, c: char)
    requires c in s && !IsSpace(c)
    ensures c in TrimRight(s)
  {
    if IsSpace(s[|s| - 1]) {
      assert s == s[..|s| - 1] + [s[|s| - 1]];
      TrimRightKeeps(s[..|s| - 1], c);
    }
  }

  /** A text with a separator is no column and no direction. */
  lemma BarIsDefault(s: string)
    requires '|' in s
    ensures SortColumn(s) == ByName && !Descending(s)
  {
    TrimKeeps(s, '|');
    LowerKeeps(TrimSpace(s), '|');
    assert '|' !in "sku" && '|' !in "created_at" && '|' !in "updated_at" && '|' !in "price" && '|' !in "reorder_level"
           && '|' !in "desc";
  }

  /** Sort and order as the fingerprint joins them. */
  function Ordering(q: Query): string {
    q.sort + "|" + q.order
  }

  /** A piece of the ordering cannot have been the end of a search: trimming or lower-casing would have changed it, or
      the database refuses it. */
  predicate CannotEndSearch(u: string) {
    (u != "" && IsSpace(u[|u| - 1])) || (exists c <- u :: LowerChar(c) != c) || !Storable(u)
  }

  /** Separators inside sort or order do no harm. */
  ghost predicate OrderingIsSteady(w: string) {
    forall a, b :: 0 <= a < b < |w| && w[a] == '|' && w[b] == '|' ==>
      && CannotEndSearch(w[..a])
      && SortColumn(w[..a]) == ByName && !Descending(w[b + 1..])
  }

  /** Every separator in the search follows white space, and those in sort and order do no harm. */
  ghost predicate Steady(q: Query) {
    SearchIsSealed(Normalize(q).search) && OrderingIsSteady(Ordering(q))
  }

  /** The separators before and behind the ordering in the joined text. */
  lemma OrderingEnds(a: Query)
    ensures var t, f, l := Tail(a), |a.search|, LastBar(a);
            && l < |t| && t[f] == '|' && t[l] == '|'
            && t[..f] == a.search && t[f + 1..l] == Ordering(a) && t[l + 1..] == a.category
  {
    Regroup(a.search, a.sort, a.order);
    assert Tail(a) == a.search + "|" + Ordering(a) + "|" + a.category;
  }

  function LastBar(a: Query): nat {
    |a.search| + 1 + |Ordering(a)|
  }

  lemma SliceOfSlice(t: string, lo: nat, hi: nat, i: nat, j: nat)
    requires lo <= hi <= |t| && i <= j <= hi - lo
    ensures t[lo..hi][i..j] == t[lo + i..lo + j]
    ensures t[lo..hi][..j] == t[lo..lo + j] && t[lo..hi][i..] == t[lo + i..hi]
  {
    var u := t[lo..hi];
    assert forall n :: 0 <= n < |u| ==> u[n] == t[lo + n];
    assert |u[i..j]| == |t[lo + i..lo + j]|;
    forall n | 0 <= n < j - i
      ensures u[i..j][n] == t[lo + i..lo + j][n]
    {
    }
  }

  lemma ThroughBar(t: string, f: nat, i: nat)
    requires f < i <= |t| && t[f] == '|'
    ensures t[..i] == t[..f] + "|" + t[f + 1..i]
  {
  }

  /** Cutting the ordering elsewhere. */
  lemma OrderingCut(a: Query, b: nat)
    requires b < |Ordering(a)| && Ordering(a)[b] == '|'
    ensures IsCut(Tail(a), |a.search|, |a.search| + 1 + b, LastBar(a))
    ensures CutQuery(a, Tail(a), |a.search|, |a.search| + 1 + b, LastBar(a)) ==
            a.(sort := Ordering(a)[..b], order := Ordering(a)[b + 1..])
  {
    OrderingEnds(a);
    SliceOfSlice(Tail(a), |a.search| + 1, LastBar(a), 0, b);
    SliceOfSlice(Tail(a), |a.search| + 1, LastBar(a), b + 1, |Ordering(a)|);
  }

  /** Ending the search inside itself. */
  lemma SearchCut(a: Query, i: nat)
    requires i < |a.search| && a.search[i] == '|'
    ensures IsCut(Tail(a), i, |a.search|, LastBar(a))
    ensures CutQuery(a, Tail(a), i, |a.search|, LastBar(a)) ==
            a.(search := a.search[..i], sort := a.search[i + 1..], order := Ordering(a))
  {
    OrderingEnds(a);
    SliceOfSlice(Tail(a), 0, |a.search|, 0, i);
    SliceOfSlice(Tail(a), 0, |a.search|, i + 1, |a.search|);
  }

  /** Ending the search inside the ordering. */
  function LaterQuery(a: Query, x: nat, b: nat): Query
    requires x < b < |Ordering(a)|
  {
    a.(search := a.search + "|" + Ordering(a)[..x], sort := Ordering(a)[x + 1..b], order := Ordering(a)[b + 1..])
  }

  lemma LaterCut(a: Query, x: nat, b: nat)
    requires x < b < |Ordering(a)| && Ordering(a)[x] == '|' && Ordering(a)[b] == '|'
    ensures IsCut(Tail(a), |a.search| + 1 + x, |a.search| + 1 + b, LastBar(a))
    ensures CutQuery(a, Tail(a), |a.search| + 1 + x, |a.search| + 1 + b, LastBar(a)) == LaterQuery(a, x, b)
  {
    OrderingEnds(a);
    var t, f, l := Tail(a), |a.search|, LastBar(a);
    LaterSlices(t, f, l, Ordering(a), x, b);
    SameParts(a, t, f + 1 + x, f + 1 + b, l, LaterQuery(a, x, b));
  }

  lemma LaterSlices(t: string, f: nat, l: nat, w: string, x: nat, b: nat)
    requires f < l < |t| && t[f] == '|' && t[l] == '|' && t[f + 1..l] == w
    requires x < b < |w| && w[x] == '|' && w[b] == '|'
    ensures IsCut(t, f + 1 + x, f + 1 + b, l)
    ensures t[..f + 1 + x] == t[..f] + "|" + w[..x]
    ensures t[f + 2 + x..f + 1 + b] == w[x + 1..b] && t[f + 2 + b..l] == w[b + 1..]
  {
    assert t[f + 1 + x] == w[x] && t[f + 1 + b] == w[b];
    SliceOfSlice(t, f + 1, l, 0, x);
    ThroughBar(t, f, f + 1 + x);
    SliceOfSlice(t, f + 1, l, x + 1, b);
    SliceOfSlice(t, f + 1, l, b + 1, |w|);
  }

  lemma SameParts(q: Query, t: string, f: nat, m: nat, l: nat, r: Query)
    requires IsCut(t, f, m, l) && r.page == q.page && r.perPage == q.perPage
    requires r.search == t[..f] && r.sort == t[f + 1..m] && r.order == t[m + 1..l] && r.category == t[l + 1..]
    ensures CutQuery(q, t, f, m, l) == r
  {
  }

  // ---- A steady query agrees -----------------------------------------------------------------------------

  lemma NoBarBehind(t: string, l: nat)
    requires l < |t| && '|' !in t[l + 1..]
    ensures forall i :: l < i < |t| ==> t[i] != '|'
  {
    assert forall i :: l < i < |t| ==> t[i] == t[l + 1..][i - l - 1];
  }

  /** In a cut that the database answers the category begins behind the last separator. */
  lemma LastCut(q: Query, f: nat, m: nat, l: nat)
    requires Answerable(q) && IsCut(Tail(Normalize(q)), f, m, l) && Answerable(CutQuery(q, Tail(Normalize(q)), f, m, l))
    requires IsNormal(CutQuery(q, Tail(Normalize(q)), f, m, l))
    ensures l == LastBar(Normalize(q))
  {
    var t := Tail(Normalize(q));
    OrderingEnds(Normalize(q));
    CategoryHasNoBar(Normalize(q).category);
    CategoryHasNoBar(t[l + 1..]);
    NoBarBehind(t, l);
    NoBarBehind(t, LastBar(Normalize(q)));
  }

  lemma SealedSearchStays(q: Query, f: nat, m: nat, l: nat)
    requires SearchIsSealed(Normalize(q).search) && IsCut(Tail(Normalize(q)), f, m, l)
    requires IsNormal(CutQuery(q, Tail(Normalize(q)), f, m, l))
    ensures f >= |Normalize(q).search|
  {
    var t, s := Tail(Normalize(q)), Normalize(q).search;
    OrderingEnds(Normalize(q));
    assert forall i :: 0 <= i < |s| ==> t[i] == s[i];
    NormalParts(CutQuery(q, t, f, m, l));
    assert f > 0 ==> t[f - 1] == t[..f][f - 1];
  }

  /** What ends the search of a query that the database answers. */
  lemma CanEndSearch(r: Query, s: string, u: string)
    requires IsNormal(r) && Answerable(r) && r.search == s + "|" + u
    ensures !CannotEndSearch(u)
  {
    NormalParts(r);
    assert forall c <- u :: c in r.search;
    assert u != "" ==> r.search[|r.search| - 1] == u[|u| - 1];
  }

  /** Wherever a steady ordering is cut, column and direction are the same. */
  lemma SteadyOrdering(q: Query, b: nat)
    requires OrderingIsSteady(Ordering(q)) && b < |Ordering(q)| && Ordering(q)[b] == '|'
    ensures SortColumn(Ordering(q)[..b]) == SortColumn(q.sort)
    ensures Descending(Ordering(q)[b + 1..]) <==> Descending(q.order)
  {
    var w := Ordering(q);
    var own := |q.sort|;
    assert w[own] == '|' && w[..own] == q.sort && w[own + 1..] == q.order;
    if b < own {
      CutTwice(w, b, own);
    } else if own < b {
      CutTwice(w, own, b);
    }
  }

  lemma CutTwice(w: string, a: nat, b: nat)
    requires a < b < |w| && w[a] == '|' && w[b] == '|' && OrderingIsSteady(w)
    ensures SortColumn(w[..a]) == ByName && SortColumn(w[..b]) == ByName
    ensures !Descending(w[a + 1..]) && !Descending(w[b + 1..])
  {
    assert w[..b][a] == '|' && w[a + 1..][b - a - 1] == '|';
    BarIsDefault(w[..b]);
    BarIsDefault(w[a + 1..]);
  }

  lemma CutInOrdering(a: Query, i: nat)
    requires |a.search| < i < LastBar(a) < |Tail(a)| && Tail(a)[i] == '|'
    ensures Ordering(a)[i - |a.search| - 1] == '|'
  {
    OrderingEnds(a);
  }

  lemma SteadyAgrees(q: Query, f: nat, m: nat, l: nat)
    requires Answerable(q) && Steady(q) && IsCut(Tail(Normalize(q)), f, m, l)
    requires var r := CutQuery(q, Tail(Normalize(q)), f, m, l); IsNormal(r) && Answerable(r)
    ensures Effective(CutQuery(q, Tail(Normalize(q)), f, m, l)) == Effective(q)
  {
    LastCut(q, f, m, l);
    SealedSearchStays(q, f, m, l);
    SteadyFrom(q, Normalize(q), CutQuery(q, Tail(Normalize(q)), f, m, l), f, m);
  }

  lemma SteadyFrom(q: Query, a: Query, r: Query, f: nat, m: nat)
    requires OrderingIsSteady(Ordering(q)) && a == Normalize(q) && |a.search| <= f
    requires IsCut(Tail(a), f, m, LastBar(a)) && r == CutQuery(a, Tail(a), f, m, LastBar(a))
    requires IsNormal(r) && Answerable(r)
    ensures Effective(r) == Effective(q)
  {
    CutInOrdering(a, m);
    var b := m - |a.search| - 1;
    if f == |a.search| {
      SteadyCut(q, a, r, b);
    } else {
      CutInOrdering(a, f);
      EndsLater(a, r, f - |a.search| - 1, b);
    }
  }

  /** A search that ends inside the ordering is not steady. */
  lemma EndsLater(a: Query, r: Query, x: nat, b: nat)
    requires x < b < |Ordering(a)| && Ordering(a)[x] == '|' && Ordering(a)[b] == '|'
    requires IsCut(Tail(a), |a.search| + 1 + x, |a.search| + 1 + b, LastBar(a))
    requires r == CutQuery(a, Tail(a), |a.search| + 1 + x, |a.search| + 1 + b, LastBar(a))
    requires IsNormal(r) && Answerable(r)
    ensures !OrderingIsSteady(Ordering(a))
  {
    LaterCut(a, x, b);
    CanEndSearch(r, a.search, Ordering(a)[..x]);
  }

  lemma SteadyCut(q: Query, a: Query, r: Query, b: nat)
    requires OrderingIsSteady(Ordering(q)) && a == Normalize(q) && b < |Ordering(a)| && Ordering(a)[b] == '|'
    requires IsCut(Tail(a), |a.search|, |a.search| + 1 + b, LastBar(a)) && IsNormal(r)
    requires r == CutQuery(a, Tail(a), |a.search|, |a.search| + 1 + b, LastBar(a))
    ensures Effective(r) == Effective(q)
  {
    OrderingCut(a, b);
    SteadyOrdering(q, b);
  }

  // ---- A query that agrees is steady ------------------------------------------------------------------------

  /** A query cut out of the text that is normal and answered has the answer of the query itself. */
  lemma CutAgrees(q: Query, a: Query, f: nat, m: nat, l: nat, r: Query)
    requires Answerable(q) && Agrees(q) && a == Normalize(q)
    requires IsCut(Tail(a), f, m, l) && r == CutQuery(a, Tail(a), f, m, l)
    ensures IsNormal(r) && Answerable(r) ==> Effective(r) == Effective(q)
  {
    assert r == CutQuery(q, Tail(a), f, m, l);
  }

  lemma NormalSearch(q: Query, r: Query, u: string)
    requires Answerable(q) && r.category == Normalize(q).category && r.search == u
    requires ToLower(TrimSpace(u)) == u && Storable(u)
    ensures IsNormal(r) && Answerable(r)
  {
    NormalizeTwice(q);
  }

  lemma OtherSearchDiffers(q: Query, r: Query)
    requires |r.search| != |Normalize(q).search|
    ensures IsNormal(r) ==> Effective(r) != Effective(q)
  {
  }

  lemma AgreeingIsSealed(q: Query, a: Query, i: nat)
    requires Answerable(q) && Agrees(q) && a == Normalize(q) && i < |a.search| && a.search[i] == '|'
    ensures i > 0 && IsSpace(a.search[i - 1])
  {
    SearchCut(a, i);
    var r := a.(search := a.search[..i], sort := a.search[i + 1..], order := Ordering(a));
    CutAgrees(q, a, i, |a.search|, LastBar(a), r);
    OtherSearchDiffers(q, r);
    NormalParts(q);
    if i == 0 || !IsSpace(a.search[i - 1]) {
      PrefixIsNormal(a.search, i);
      NormalSearch(q, r, a.search[..i]);
    }
  }

  lemma LaterSearchIsNormal(s: string, u: string)
    requires IsTrimmed(s) && (forall c <- s :: LowerChar(c) == c) && Storable(s) && !CannotEndSearch(u)
    ensures var t := s + "|" + u; ToLower(TrimSpace(t)) == t && Storable(t)
  {
    var t := s + "|" + u;
    assert t[|t| - 1] == if u == "" then '|' else u[|u| - 1];
    TrimmedIsFixed(t);
    LowerIsFixed(t);
  }

  lemma LaterDisagrees(q: Query, a: Query, x: nat, b: nat)
    requires Answerable(q) && Agrees(q) && a == Normalize(q)
    requires x < b < |Ordering(a)| && Ordering(a)[x] == '|' && Ordering(a)[b] == '|'
    ensures !(IsNormal(LaterQuery(a, x, b)) && Answerable(LaterQuery(a, x, b)))
  {
    LaterCut(a, x, b);
    CutAgrees(q, a, |a.search| + 1 + x, |a.search| + 1 + b, LastBar(a), LaterQuery(a, x, b));
    OtherSearchDiffers(q, LaterQuery(a, x, b));
  }

  lemma LaterIsAnswered(q: Query, a: Query, x: nat, b: nat)
    requires Answerable(q) && a == Normalize(q) && x < b < |Ordering(a)| && !CannotEndSearch(Ordering(a)[..x])
    ensures IsNormal(LaterQuery(a, x, b)) && Answerable(LaterQuery(a, x, b))
  {
    NormalParts(q);
    LaterSearchIsNormal(a.search, Ordering(a)[..x]);
    NormalSearch(q, LaterQuery(a, x, b), LaterQuery(a, x, b).search);
  }

  lemma AgreeingEndsNoSearch(q: Query, a: Query, x: nat, b: nat)
    requires Answerable(q) && Agrees(q) && a == Normalize(q)
    requires x < b < |Ordering(a)| && Ordering(a)[x] == '|' && Ordering(a)[b] == '|'
    ensures CannotEndSearch(Ordering(a)[..x])
  {
    LaterDisagrees(q, a, x, b);
    if !CannotEndSearch(Ordering(a)[..x]) {
      LaterIsAnswered(q, a, x, b);
    }
  }

  /** Cutting the ordering at a separator gives the column and the direction of the query. */
  lemma AgreeingCut(q: Query, a: Query, b: nat)
    requires Answerable(q) && Agrees(q) && a == Normalize(q) && b < |Ordering(a)| && Ordering(a)[b] == '|'
    ensures SortColumn(Ordering(a)[..b]) == SortColumn(q.sort)
    ensures Descending(Ordering(a)[b + 1..]) <==> Descending(q.order)
  {
    OrderingCut(a, b);
    NormalizeTwice(q);
    var r := a.(sort := Ordering(a)[..b], order := Ordering(a)[b + 1..]);
    NormalSearch(q, r, a.search);
    CutAgrees(q, a, |a.search|, |a.search| + 1 + b, LastBar(a), r);
  }

  lemma AgreeingIsSteady(q: Query)
    requires Answerable(q) && Agrees(q)
    ensures OrderingIsSteady(Ordering(q))
  {
    var w := Ordering(q);
    forall a, b | 0 <= a < b < |w| && w[a] == '|' && w[b] == '|'
      ensures CannotEndSearch(w[..a]) && SortColumn(w[..a]) == ByName && !Descending(w[b + 1..])
    {
      AgreeingEndsNoSearch(q, Normalize(q), a, b);
      AgreeingCut(q, Normalize(q), a);
      AgreeingCut(q, Normalize(q), b);
      assert w[..b][a] == '|' && w[a + 1..][b - a - 1] == '|';
      BarIsDefault(w[..b]);
      BarIsDefault(w[a + 1..]);
    }
  }

  /** For a query that the database answers: every query that shares its entry has its answer exactly when each
      separator in its search follows white space, and, where sort and order contain separators, what precedes one that
      is not the last names no column and cannot have ended a search, and what follows one that is not the first does
      not ask for a descending order. */
  lemma AgreesIsSteady(q: Query)
    requires Answerable(q)
    ensures Agrees(q) <==> Steady(q)
  {
    if Agrees(q) {
      forall i | 0 <= i < |Normalize(q).search| && Normalize(q).search[i] == '|'
        ensures i > 0 && IsSpace(Normalize(q).search[i - 1])
      {
        AgreeingIsSealed(q, Normalize(q), i);
      }
      AgreeingIsSteady(q);
    }
    if Steady(q) {
      var t := Tail(Normalize(q));
      forall f, m, l | IsCut(t, f, m, l) && IsNormal(CutQuery(q, t, f, m, l)) && Answerable(CutQuery(q, t, f, m, l))
        ensures Effective(CutQuery(q, t, f, m, l)) == Effective(q)
      {
        SteadyAgrees(q, f, m, l);
      }
    }
  }
}
