/** Cache keys, invalidation patterns and query fingerprints (pkg/cache/keys.go). */
module CacheKeys {
  import opened Common
  import opened Schema
  import opened Text

  const PREFIX := "cache:t:"

  function KeyProduct(tenant: Id, product: Id): string {
    PREFIX + tenant + ":product:" + product
  }

  function KeyProductsList(tenant: Id, fingerprint: string): string {
    PREFIX + tenant + ":products:list:" + fingerprint
  }

  function PatternProducts(tenant: Id): string {
    PREFIX + tenant + ":product*"
  }

  function PatternCategories(tenant: Id): string {
    PREFIX + tenant + ":categories:*"
  }

  function PatternDashboardMovementsChart(tenant: Id): string {
    PREFIX + tenant + ":dashboard:movements:chart:*"
  }

  function KeyDashboardSummary(tenant: Id): string {
    PREFIX + tenant + ":dashboard:summary"
  }

  /** Redis glob matching without character classes and escapes. */
  predicate Matches(pattern: string, key: string)
    decreases |pattern| + |key|
  {
    if pattern == "" then key == ""
    else if pattern[0] == '*' then Matches(pattern[1..], key) || (key != "" && Matches(pattern, key[1..]))
    else key != "" && (pattern[0] == '?' || pattern[0] == key[0]) && Matches(pattern[1..], key[1..])
  }

  predicate Literal(s: string) {
    forall c <- s :: c !in {'*', '?', '[', '\\'}
  }

  /** A tenant id is a UUID: no colon and nothing a pattern gives a meaning to. */
  predicate TenantId(t: Id) {
    Literal(t) && ':' !in t
  }

  // ---- Patterns ----------------------------------------------------------------------------------

  lemma {:induction false} StarMatchesAll(key: string)
    ensures Matches("*", key)
    decreases |key|
  {
    if key == "" {
    } else {
      StarMatchesAll(key[1..]);
    }
  }

  lemma {:induction false} LiteralThenStar(p: string, key: string)
    requires Literal(p)
    ensures Matches(p + "*", key) <==> p <= key
    decreases |p|
  {
    if p == "" {
      assert p + "*" == "*";
      StarMatchesAll(key);
    } else {
      assert (p + "*")[1..] == p[1..] + "*" && (p + "*")[0] == p[0];
      assert p[0] in p;
      if key != "" {
        assert forall c <- p[1..] :: c in p;
        LiteralThenStar(p[1..], key[1..]);
        assert p <= key <==> p[0] == key[0] && p[1..] <= key[1..];
      }
    }
  }

  lemma TenantPrefix(t: Id, x: string, u: Id, rest: string)
    requires ':' !in t && ':' !in u
    ensures PREFIX + t + ":" + x <= PREFIX + u + ":" + rest <==> t == u && x <= rest
  {
    var p, s := PREFIX + t + ":" + x, PREFIX + u + ":" + rest;
    if p <= s {
      var tail := s[|p|..];
      assert s == p + tail;
      assert s[|PREFIX|..] == u + ":" + rest && s[|PREFIX|..] == t + ":" + (x + tail);
      FirstSeparator(t, x + tail, u, rest, ':');
    }
    if t == u && x <= rest {
      assert rest == x + rest[|x|..];
      assert s == p + rest[|x|..];
    }
  }

  /** A tenant's product pattern matches exactly that tenant's keys that begin with `product`, so invalidating
      one tenant leaves the others alone. */
  lemma PatternIsTenantLocal(t: Id, u: Id, rest: string)
    requires TenantId(t) && TenantId(u)
    ensures Matches(PatternProducts(t), PREFIX + u + ":" + rest) <==> t == u && "product" <= rest
  {
    var p := PREFIX + t + ":" + "product";
    assert PatternProducts(t) == p + "*";
    assert Literal(p) by {
      forall c <- p ensures c !in {'*', '?', '[', '\\'} {
        assert c in PREFIX || c in t || c in ":" || c in "product";
      }
    }
    LiteralThenStar(p, PREFIX + u + ":" + rest);
    TenantPrefix(t, "product", u, rest);
  }

  lemma PatternCoversProductKeys(t: Id, product: Id, fingerprint: string)
    requires TenantId(t)
    ensures Matches(PatternProducts(t), KeyProduct(t, product))
    ensures Matches(PatternProducts(t), KeyProductsList(t, fingerprint))
  {
    PatternIsTenantLocal(t, t, "product:" + product);
    assert KeyProduct(t, product) == PREFIX + t + ":" + ("product:" + product);
    PatternIsTenantLocal(t, t, "products:list:" + fingerprint);
    assert KeyProductsList(t, fingerprint) == PREFIX + t + ":" + ("products:list:" + fingerprint);
  }

  lemma PatternSparesOthers(t: Id, u: Id, product: Id, fingerprint: string)
    requires TenantId(t) && TenantId(u) && t != u
    ensures !Matches(PatternProducts(t), KeyProduct(u, product))
    ensures !Matches(PatternProducts(t), KeyProductsList(u, fingerprint))
  {
    PatternIsTenantLocal(t, u, "product:" + product);
    assert KeyProduct(u, product) == PREFIX + u + ":" + ("product:" + product);
    PatternIsTenantLocal(t, u, "products:list:" + fingerprint);
    assert KeyProductsList(u, fingerprint) == PREFIX + u + ":" + ("products:list:" + fingerprint);
  }

  // ---- Keys ------------------------------------------------------------------------------------------

  /** Different products, different lists, and a product and a list, never share a key. */
  lemma KeysAreDistinct(t: Id, u: Id, x: string, y: string)
    requires ':' !in t && ':' !in u
    ensures KeyProduct(t, x) == KeyProduct(u, y) <==> t == u && x == y
    ensures KeyProductsList(t, x) == KeyProductsList(u, y) <==> t == u && x == y
    ensures KeyProduct(t, x) != KeyProductsList(u, y)
  {
    var p, q := "product:", "products:list:";
    assert KeyProduct(t, x) == PREFIX + (t + ":" + (p + x)) && KeyProduct(u, y) == PREFIX + (u + ":" + (p + y));
    assert KeyProductsList(t, x) == PREFIX + (t + ":" + (q + x))
        && KeyProductsList(u, y) == PREFIX + (u + ":" + (q + y));
    SamePrefix(PREFIX, t + ":" + (p + x), u + ":" + (p + y));
    SamePrefix(PREFIX, t + ":" + (q + x), u + ":" + (q + y));
    SamePrefix(PREFIX, t + ":" + (p + x), u + ":" + (q + y));
    Peel(t, p + x, u, p + y);
    Peel(t, q + x, u, q + y);
    Peel(t, p + x, u, q + y);
    SamePrefix(p, x, y);
    SamePrefix(q, x, y);
    assert (p + x)[7] == ':' && (q + y)[7] == 's';
  }

  lemma SamePrefix(p: string, x: string, y: string)
    ensures p + x == p + y <==> x == y
  {
    assert (p + x)[|p|..] == x && (p + y)[|p|..] == y;
  }

  lemma Peel(t: Id, x: string, u: Id, y: string)
    requires ':' !in t && ':' !in u
    ensures t + ":" + x == u + ":" + y <==> t == u && x == y
  {
    if t + ":" + x == u + ":" + y {
      FirstSeparator(t, x, u, y, ':');
    }
  }

  // ---- Fingerprints ----------------------------------------------------------------------------------------

  /** The inputs of a product list after their defaults; page and perPage are Go ints. */
  datatype Query = Query(page: int, perPage: int, search: string, sort: string, order: string, category: string)

  /** The query as the fingerprint and the SQL see it: the search is compared without regard to case. */
  function Normalize(q: Query): Query {
    q.(search := ToLower(TrimSpace(q.search)), category := TrimSpace(q.category))
  }

  function Join(parts: seq<string>): string {
    if parts == [] then ""
    else if |parts| == 1 then parts[0]
    else parts[0] + "|" + Join(parts[1..])
  }

  function Parts(q: Query): seq<string> {
    [Itoa(q.page), Itoa(q.perPage), q.search, q.sort, q.order, q.category]
  }

  /** The digest stands for the first 16 hexadecimal digits of SHA-256. */
  function ProductsFP(digest: string -> string, q: Query): string {
    digest(Join(Parts(Normalize(q))))
  }

  ghost predicate CollisionFree(digest: string -> string) {
    forall a, b :: digest(a) == digest(b) ==> a == b
  }

  predicate IsInt64(n: int) {
    MIN_INT64 <= n <= MAX_INT64
  }

  /** Page and perPage are Go ints. */
  predicate HasInts(q: Query) {
    IsInt64(q.page) && IsInt64(q.perPage)
  }

  lemma JoinSix(p: seq<string>)
    requires |p| == 6
    ensures Join(p) == p[0] + "|" + (p[1] + "|" + (p[2] + "|" + p[3] + "|" + p[4] + "|" + p[5]))
  {
    assert Join(p[5..]) == p[5];
    assert p[4..][1..] == p[5..] && p[3..][1..] == p[4..] && p[2..][1..] == p[3..] && p[1..][1..] == p[2..];
    assert Join(p[4..]) == p[4] + "|" + Join(p[5..]);
    assert Join(p[3..]) == p[3] + "|" + Join(p[4..]);
    assert Join(p[2..]) == p[2] + "|" + Join(p[3..]);
    assert Join(p[1..]) == p[1] + "|" + Join(p[2..]);
    assert Join(p[2..]) == p[2] + "|" + p[3] + "|" + p[4] + "|" + p[5];
  }

  // ---- Which queries have an entry of their own ------------------------------------------------------------

  /** Every separator in the search has white space before it. */
  predicate SearchIsSealed(search: string) {
    forall i :: 0 <= i < |search| && search[i] == '|' ==> i > 0 && IsSpace(search[i - 1])
  }

  /** Every separator in the category has white space behind it. */
  predicate CategoryIsSealed(category: string) {
    forall i :: 0 <= i < |category| && category[i] == '|' ==> i + 1 < |category| && IsSpace(category[i + 1])
  }

  /** Nothing in the query can be mistaken for the boundary between two of its parts: trimming removes the white space
      next to a boundary, so a separator next to white space is none. */
  predicate Unambiguous(q: Query) {
    && '|' !in q.sort && '|' !in q.order
    && SearchIsSealed(Normalize(q).search) && CategoryIsSealed(Normalize(q).category)
  }

  function Four(a: string, b: string, c: string, d: string): string {
    a + "|" + b + "|" + c + "|" + d
  }

  /** The parts behind page and perPage, joined. */
  function Tail(q: Query): string {
    Four(q.search, q.sort, q.order, q.category)
  }

  /** A separator inside a part can be read as the boundary to the next part, or from the previous one. */
  lemma FourShifts(u: string, v: string, x: string, y: string, z: string)
    ensures Four(u + "|" + v, x, y, z) == Four(u, v + "|" + x, y, z)
    ensures Four(x, u + "|" + v, y, z) == Four(x, u, v + "|" + y, z)
    ensures Four(x, y, u + "|" + v, z) == Four(x, y + "|" + u, v, z)
    ensures Four(x, y, z, u + "|" + v) == Four(x, y, z + "|" + u, v)
  {
    Regroup(u, v, x);
    Regroup(x, u, v);
    Regroup(x, y, u);
    Regroup(x + "|" + y, u, v);
    Regroup(x + "|" + u, v, y);
    Regroup(x + "|" + y, z, u);
    Regroup(x + "|" + y + "|" + z, u, v);
  }

  lemma Regroup(a: string, b: string, c: string)
    ensures a + "|" + b + "|" + c == a + "|" + (b + "|" + c)
  {
  }

  lemma FingerprintIsTail(digest: string -> string, q: Query, r: Query)
    requires CollisionFree(digest) && HasInts(q) && HasInts(r)
    ensures ProductsFP(digest, q) == ProductsFP(digest, r) <==>
            q.page == r.page && q.perPage == r.perPage && Tail(Normalize(q)) == Tail(Normalize(r))
  {
    var a, b := Normalize(q), Normalize(r);
    JoinSix(Parts(a));
    JoinSix(Parts(b));
    if ProductsFP(digest, q) == ProductsFP(digest, r) {
      ItoaHasNoBar(q.page);
      ItoaHasNoBar(q.perPage);
      ItoaHasNoBar(r.page);
      ItoaHasNoBar(r.perPage);
      FirstSeparator(Itoa(q.page), Itoa(q.perPage) + "|" + Tail(a), Itoa(r.page), Itoa(r.perPage) + "|" + Tail(b), '|');
      FirstSeparator(Itoa(q.perPage), Tail(a), Itoa(r.perPage), Tail(b), '|');
      ItoaIsInjective(q.page, r.page);
      ItoaIsInjective(q.perPage, r.perPage);
    }
  }

  lemma NormalParts(q: Query)
    ensures IsTrimmed(Normalize(q).search) && IsTrimmed(Normalize(q).category)
    ensures forall c <- Normalize(q).search :: LowerChar(c) == c
  {
    TrimmedIsFixed(q.search);
    TrimmedIsFixed(q.category);
    assert forall c: char :: IsSpace(LowerChar(c)) <==> IsSpace(c);
  }

  /** Where the three boundaries of a joined text are. */
  predicate SplitsAt(t: string, q: Query, f: nat, m: nat, l: nat) {
    && f < m < l < |t| && t[f] == '|' && t[m] == '|' && t[l] == '|'
    && q.search == t[..f] && q.sort == t[f + 1..m] && q.order == t[m + 1..l] && q.category == t[l + 1..]
  }

  ghost predicate Splits(t: string, q: Query) {
    exists f, m, l :: SplitsAt(t, q, f, m, l)
  }

  lemma TailSplits(q: Query)
    ensures Splits(Tail(q), q)
  {
    var f := |q.search|;
    var m := f + 1 + |q.sort|;
    assert SplitsAt(Tail(q), q, f, m, m + 1 + |q.order|);
  }

  /** A text that splits into an unambiguous query splits into no other. */
  lemma SplitIsUnique(t: string, q: Query, r: Query, f: nat, m: nat, l: nat, f': nat, m': nat, l': nat)
    requires SplitsAt(t, q, f, m, l) && SplitsAt(t, r, f', m', l')
    requires '|' !in q.sort && '|' !in q.order && SearchIsSealed(q.search) && CategoryIsSealed(q.category)
    requires IsTrimmed(r.search) && IsTrimmed(r.category)
    ensures f == f' && m == m' && l == l'
  {
    assert forall i :: 0 <= i < f ==> q.search[i] == t[i];
    assert f' > 0 ==> r.search[f' - 1] == t[f' - 1];
    assert f <= f';
    assert forall i :: l < i < |t| ==> q.category[i - l - 1] == t[i];
    assert l' + 1 < |t| ==> r.category[0] == t[l' + 1];
    assert l' <= l;
    assert forall i :: f < i < m ==> t[i] == q.sort[i - f - 1];
    assert forall i :: m < i < l ==> t[i] == q.order[i - m - 1];
    assert forall i :: f <= i <= l && t[i] == '|' ==> i == f || i == m || i == l;
  }

  lemma SameTextSameParts(t: string, q: Query, r: Query)
    requires Splits(t, q) && Splits(t, r)
    requires '|' !in q.sort && '|' !in q.order && SearchIsSealed(q.search) && CategoryIsSealed(q.category)
    requires IsTrimmed(r.search) && IsTrimmed(r.category)
    ensures q.search == r.search && q.sort == r.sort && q.order == r.order && q.category == r.category
  {
    var f, m, l :| SplitsAt(t, q, f, m, l);
    var f', m', l' :| SplitsAt(t, r, f', m', l');
    SplitIsUnique(t, q, r, f, m, l, f', m', l');
    SameSplit(t, q, r, f, m, l);
  }

  lemma SameSplit(t: string, q: Query, r: Query, f: nat, m: nat, l: nat)
    requires SplitsAt(t, q, f, m, l) && SplitsAt(t, r, f, m, l)
    ensures q.search == r.search && q.sort == r.sort && q.order == r.order && q.category == r.category
  {
  }

  lemma UnambiguousIsOwn(digest: string -> string, q: Query, r: Query)
    requires CollisionFree(digest) && HasInts(q) && HasInts(r) && Unambiguous(q)
    ensures ProductsFP(digest, q) == ProductsFP(digest, r) <==> Normalize(q) == Normalize(r)
  {
    FingerprintIsTail(digest, q, r);
    if ProductsFP(digest, q) == ProductsFP(digest, r) {
      NormalParts(r);
      TailSplits(Normalize(q));
      TailSplits(Normalize(r));
      SameTextSameParts(Tail(Normalize(q)), Normalize(q), Normalize(r));
    }
  }

  /** Another query with the same joined text, for one whose parts can be mistaken. */
  lemma AmbiguousHasRival(q: Query) returns (r: Query)
    requires !Unambiguous(q)
    ensures IsRival(q, r)
  {
    if '|' in q.sort {
      r := SortRival(q);
    } else if '|' in q.order {
      r := OrderRival(q);
    } else if !SearchIsSealed(Normalize(q).search) {
      r := SearchRival(q);
    } else {
      r := CategoryRival(q);
    }
  }

  predicate IsRival(q: Query, r: Query) {
    && r.page == q.page && r.perPage == q.perPage
    && Tail(Normalize(r)) == Tail(Normalize(q)) && Normalize(r) != Normalize(q)
  }

  lemma CutAt(s: string, i: nat)
    requires i < |s| && s[i] == '|'
    ensures s == s[..i] + "|" + s[i + 1..]
  {
  }

  lemma SortRival(q: Query) returns (r: Query)
    requires '|' in q.sort
    ensures IsRival(q, r)
  {
    var i :| 0 <= i < |q.sort| && q.sort[i] == '|';
    var u, v, a := q.sort[..i], q.sort[i + 1..], Normalize(q);
    CutAt(q.sort, i);
    FourShifts(u, v, a.search, q.order, a.category);
    r := q.(sort := u, order := v + "|" + q.order);
  }

  lemma OrderRival(q: Query) returns (r: Query)
    requires '|' in q.order
    ensures IsRival(q, r)
  {
    var i :| 0 <= i < |q.order| && q.order[i] == '|';
    var u, v, a := q.order[..i], q.order[i + 1..], Normalize(q);
    CutAt(q.order, i);
    FourShifts(u, v, a.search, q.sort, a.category);
    r := q.(sort := q.sort + "|" + u, order := v);
  }

  lemma SearchRival(q: Query) returns (r: Query)
    requires !SearchIsSealed(Normalize(q).search)
    ensures IsRival(q, r)
  {
    var s := Normalize(q).search;
    var i :| 0 <= i < |s| && s[i] == '|' && (i == 0 || !IsSpace(s[i - 1]));
    var u, v := s[..i], s[i + 1..];
    CutAt(s, i);
    NormalParts(q);
    PrefixIsNormal(s, i);
    FourShifts(u, v, q.sort, q.order, Normalize(q).category);
    r := q.(search := u, sort := v + "|" + q.sort);
  }

  lemma PrefixIsNormal(s: string, i: nat)
    requires IsTrimmed(s) && i <= |s| && (i == 0 || !IsSpace(s[i - 1])) && forall c <- s :: LowerChar(c) == c
    ensures ToLower(TrimSpace(s[..i])) == s[..i]
  {
    TrimmedIsFixed(s[..i]);
    assert forall c <- s[..i] :: c in s;
    LowerIsFixed(s[..i]);
  }

  lemma CategoryRival(q: Query) returns (r: Query)
    requires !CategoryIsSealed(Normalize(q).category)
    ensures IsRival(q, r)
  {
    var c := Normalize(q).category;
    var i :| 0 <= i < |c| && c[i] == '|' && (i + 1 == |c| || !IsSpace(c[i + 1]));
    var u, v := c[..i], c[i + 1..];
    CutAt(c, i);
    NormalParts(q);
    SuffixIsTrimmed(c, i + 1);
    FourShifts(u, v, Normalize(q).search, q.sort, q.order);
    r := q.(order := q.order + "|" + u, category := v);
  }

  lemma SuffixIsTrimmed(s: string, i: nat)
    requires IsTrimmed(s) && i <= |s| && (i == |s| || !IsSpace(s[i]))
    ensures TrimSpace(s[i..]) == s[i..]
  {
    TrimmedIsFixed(s[i..]);
  }

  /** A query has a cache entry of its own, which no different query ever reads or writes, exactly when neither its sort
      nor its order contains the separator, and every one in its search follows white space and every one in its
      category precedes it. */
  lemma FingerprintIsOwn(digest: string -> string, q: Query)
    requires CollisionFree(digest) && HasInts(q)
    ensures (forall r :: HasInts(r) && ProductsFP(digest, q) == ProductsFP(digest, r) ==> Normalize(q) == Normalize(r))
            <==> Unambiguous(q)
  {
    if Unambiguous(q) {
      forall r | HasInts(r) && ProductsFP(digest, q) == ProductsFP(digest, r)
        ensures Normalize(q) == Normalize(r)
      {
        UnambiguousIsOwn(digest, q, r);
      }
    } else {
      var r := AmbiguousHasRival(q);
      FingerprintIsTail(digest, q, r);
    }
  }
}
