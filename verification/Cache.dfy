/** The Redis cache (pkg/cache/redis.go). Every command can be refused, or done although the client sees an error. */
module Cache {
  import opened Common
  import CacheKeys

  /** Nothing was added or changed. */
  ghost predicate Within<V>(a: map<string, V>, b: map<string, V>) {
    forall k <- a :: k in b && a[k] == b[k]
  }

  ghost predicate NoneMatches<V>(entries: map<string, V>, pattern: string) {
    forall k <- entries :: !CacheKeys.Matches(pattern, k)
  }

  ghost predicate KeepsOthers<V>(before: map<string, V>, after: map<string, V>, pattern: string) {
    Within(after, before) && forall k <- before :: !CacheKeys.Matches(pattern, k) ==> k in after
  }

  class Redis<V> {
    var entries: map<string, V>

    /** The fate of the commands to come; after the script every command succeeds. */
    var script: seq<Outcome>

    constructor (script: seq<Outcome>)
      ensures entries == map[] && this.script == script
    {
      entries, this.script := map[], script;
    }

    method Command() returns (outcome: Outcome)
      modifies this`script
      ensures outcome == if old(script) == [] then Done else old(script)[0]
      ensures script == if old(script) == [] then [] else old(script)[1..]
    {
      if script == [] {
        return Done;
      }
      outcome := script[0];
      script := script[1..];
    }

    /** An error and a missing key look the same to every caller. */
    method Get(key: string) returns (hit: Option<V>)
      modifies this`script
      ensures hit.Some? ==> key in entries && hit.value == entries[key]
      ensures old(script) == [] ==> script == [] && (hit.Some? <==> key in entries)
    {
      var outcome := Command();
      hit := if outcome == Done && key in entries then Some(entries[key]) else None;
    }

    method Set(key: string, value: V)
      modifies this`script, this`entries
      ensures entries == old(entries) || entries == old(entries)[key := value]
      ensures old(script) == [] ==> script == [] && entries == old(entries)[key := value]
    {
      var outcome := Command();
      if outcome != Refused {
        entries := entries[key := value];
      }
    }

    method Delete(keys: set<string>) returns (ok: bool)
      modifies this`script, this`entries
      ensures entries == old(entries) || entries == old(entries) - keys
      ensures ok ==> entries == old(entries) - keys
      ensures old(script) == [] ==> script == [] && ok
    {
      if keys == {} {
        assert entries == entries - keys;
        return true;
      }
      var outcome := Command();
      if outcome != Refused {
        entries := entries - keys;
      }
      ok := outcome == Done;
    }

    /** One full SCAN iteration. Which key comes in which page, and how often, is up to Redis; callers may only rely
        on every matching key being in some page. */
    method Iteration(pattern: string) returns (pages: seq<set<string>>)
      ensures pages != []
      ensures forall k <- entries :: CacheKeys.Matches(pattern, k) ==> exists i :: 0 <= i < |pages| && k in pages[i]
      ensures forall i, k :: 0 <= i < |pages| && k in pages[i] ==> CacheKeys.Matches(pattern, k)
    {
      var page := set k <- entries | CacheKeys.Matches(pattern, k);
      pages := [page];
      forall k <- entries | CacheKeys.Matches(pattern, k)
        ensures exists i :: 0 <= i < |pages| && k in pages[i]
      {
        assert k in pages[0];
      }
    }

    /** DeletePattern follows the cursor to the end, deleting page by page; it stops at the first error. */
    method DeletePattern(pattern: string) returns (ok: bool)
      modifies this`script, this`entries
      ensures KeepsOthers(old(entries), entries, pattern)
      ensures ok && pattern != "" ==> NoneMatches(entries, pattern)
      ensures old(script) == [] ==> script == [] && ok
    {
      if pattern == "" {
        return true;
      }
      var pages := Iteration(pattern);
      var cursor := 0;
      while true
        invariant 0 <= cursor < |pages|
        invariant KeepsOthers(old(entries), entries, pattern)
        invariant forall i, k :: 0 <= i < cursor && k in pages[i] ==> k !in entries
        invariant old(script) == [] ==> script == []
        decreases |pages| - cursor
      {
        var scanned := Command();
        if scanned != Done {
          return false;
        }
        var deleted := Delete(pages[cursor]);
        if !deleted {
          return false;
        }
        if cursor + 1 == |pages| {
          break;
        }
        cursor := cursor + 1;
      }
      forall k <- entries | CacheKeys.Matches(pattern, k)
        ensures false
      {
        var i :| 0 <= i < |pages| && k in pages[i];
      }
      return true;
    }
  }
}
