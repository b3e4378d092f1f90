/**
 * The policy functions of the GraphQL client configuration (apollo.js):
 * the Authorization header computed for every outgoing operation, and the
 * field policy of the paginated `getAvailableBooks` list (its cache key and
 * its merge of pages).
 */
module Apollo {
  import opened Wrappers

  // ---------------------------------------------------------------------
  // Authentication link
  // ---------------------------------------------------------------------

  const AuthorizationName := "Authorization"
  const BearerPrefix := "Bearer "

  /** JavaScript truthiness of the stored token: `null` and `""` are both falsy. */
  predicate HasToken(token: Option<string>) {
    token.Some? && token.value != ""
  }

  /**
   * The header value computed from the token read from storage: the bearer
   * credential when a token is stored, the empty string otherwise.
   */
  function AuthorizationHeader(token: Option<string>): (h: string)
    ensures h == "" <==> !HasToken(token)
    ensures h != "" ==>
      |h| > |BearerPrefix| && h[..|BearerPrefix|] == BearerPrefix && h[|BearerPrefix|..] == token.value
  {
    if HasToken(token) then BearerPrefix + token.value else ""
  }

  /** The context the authentication link hands to the next link. */
  datatype RequestContext = RequestContext(headers: map<string, string>)

  /**
   * The context returned for every operation: a `headers` object whose only
   * key is `Authorization`, present even when no token is stored.
   */
  function AuthContext(token: Option<string>): (c: RequestContext)
    ensures c.headers.Keys == {AuthorizationName}
    ensures HasToken(token) ==> c.headers[AuthorizationName] == BearerPrefix + token.value
    ensures !HasToken(token) ==> c.headers[AuthorizationName] == ""
  {
    RequestContext(map[AuthorizationName := AuthorizationHeader(token)])
  }

  /**
   * How a receiver reads a bearer credential back out of the header; the
   * inverse of AuthorizationHeader.
   */
  function BearerCredential(h: string): (t: Option<string>)
    ensures t.Some? ==> BearerPrefix + t.value == h && t.value != ""
  {
    if |h| > |BearerPrefix| && h[..|BearerPrefix|] == BearerPrefix then Some(h[|BearerPrefix|..]) else None
  }

  /** The header carries exactly the stored token, and nothing when the token is falsy. */
  lemma HeaderRoundTrip(token: Option<string>)
    ensures BearerCredential(AuthorizationHeader(token)) == (if HasToken(token) then token else None)
  {
  }

  /** Distinct stored tokens yield distinct headers (absent and empty coincide). */
  lemma HeaderInjective(t1: Option<string>, t2: Option<string>)
    requires HasToken(t1) || HasToken(t2)
    requires AuthorizationHeader(t1) == AuthorizationHeader(t2)
    ensures t1 == t2
  {
  }

  // ---------------------------------------------------------------------
  // Field policy of Query.getAvailableBooks
  // ---------------------------------------------------------------------

  /** The arguments that distinguish cache entries of the field. */
  const KeyArgs: set<string> := {"searchString", "typeCode"}

  /**
   * The identity of the cache entry an argument set is stored under: the
   * arguments projected onto `searchString` and `typeCode`.
   */
  function StorageKey<V(==)>(args: map<string, V>): (k: map<string, V>)
    ensures k.Keys == args.Keys * KeyArgs
    ensures forall a :: a in k ==> k[a] == args[a]
  {
    map a | a in args && a in KeyArgs :: args[a]
  }

  /** Two argument sets agree on the key arguments: same presence, same value. */
  predicate AgreeOnKeyArgs<V(==)>(a1: map<string, V>, a2: map<string, V>) {
    forall n :: n in KeyArgs ==> (n in a1 <==> n in a2) && (n in a1 ==> a1[n] == a2[n])
  }

  /** Argument sets share one entry exactly when they agree on the key arguments. */
  lemma SameEntryIff<V>(a1: map<string, V>, a2: map<string, V>)
    ensures StorageKey(a1) == StorageKey(a2) <==> AgreeOnKeyArgs(a1, a2)
  {
    var k1, k2 := StorageKey(a1), StorageKey(a2);
    if AgreeOnKeyArgs(a1, a2) {
      assert k1.Keys == k2.Keys;
      assert forall a :: a in k1 ==> k1[a] == k2[a];
    } else {
      var n :| n in KeyArgs && !((n in a1 <==> n in a2) && (n in a1 ==> a1[n] == a2[n]));
      if n in a1 && n in a2 {
        assert k1[n] != k2[n];
      } else if n in a1 {
        assert n in k1 && n !in k2;
      } else {
        assert n in k2 && n !in k1;
      }
    }
  }

  /** Setting or dropping a pagination (non-key) argument does not move the entry. */
  lemma PaginationArgsIgnored<V>(args: map<string, V>, p: string, v: V)
    requires p !in KeyArgs
    ensures StorageKey(args[p := v]) == StorageKey(args)
    ensures StorageKey(args - {p}) == StorageKey(args)
  {
  }

  /** Two different search strings never share an entry. */
  lemma SearchStringsSeparate<V>(a1: map<string, V>, a2: map<string, V>)
    requires "searchString" in a1 && "searchString" in a2
    requires a1["searchString"] != a2["searchString"]
    ensures StorageKey(a1) != StorageKey(a2)
  {
  }

  /**
   * The merge function: the incoming page appended after the cached list,
   * with an absent cached list read as the empty one. Nothing is dropped,
   * reordered or de-duplicated.
   */
  function Merge<T>(existing: Option<seq<T>>, incoming: seq<T>): (r: seq<T>)
    ensures |r| == |existing.GetOr([])| + |incoming|
    ensures r[..|existing.GetOr([])|] == existing.GetOr([])
    ensures r[|existing.GetOr([])|..] == incoming
    ensures multiset(r) == multiset(existing.GetOr([])) + multiset(incoming)
  {
    existing.GetOr([]) + incoming
  }

  /** The first page, merged into nothing, is returned unchanged. */
  lemma MergeFirstPage<T>(incoming: seq<T>)
    ensures Merge(None, incoming) == incoming
  {
  }

  /** Merging two pages one after the other equals merging their concatenation. */
  lemma MergeAssociative<T>(existing: Option<seq<T>>, a: seq<T>, b: seq<T>)
    ensures Merge(Some(Merge(existing, a)), b) == Merge(existing, a + b)
  {
  }

  /** All pages of a list, one after another. */
  function Concat<T>(pages: seq<seq<T>>): seq<T>
    decreases |pages|
  {
    if pages == [] then [] else pages[0] + Concat(pages[1..])
  }

  /** The cached list after each page in turn has been merged into it. */
  function MergeEach<T>(existing: Option<seq<T>>, pages: seq<seq<T>>): (r: seq<T>)
    ensures |r| >= |existing.GetOr([])|
    ensures r[..|existing.GetOr([])|] == existing.GetOr([])
    decreases |pages|
  {
    if pages == [] then existing.GetOr([])
    else MergeEach(Some(Merge(existing, pages[0])), pages[1..])
  }

  /** Successive merges of pages give the cached list followed by every page in order. */
  lemma {:induction false} MergeEachIsConcatenation<T>(existing: Option<seq<T>>, pages: seq<seq<T>>)
    ensures MergeEach(existing, pages) == existing.GetOr([]) + Concat(pages)
    decreases |pages|
  {
    if pages != [] {
      MergeEachIsConcatenation(Some(Merge(existing, pages[0])), pages[1..]);
    }
  }

  /**
   * The entries of the field: one cached list per storage key. This is only
   * the slice of the normalised cache that the field policy governs.
   */
  type FieldEntries<V(==), T> = map<map<string, V>, seq<T>>

  /** Storing a response page for `args`: merged into the entry of its storage key. */
  function StorePage<V(==), T>(entries: FieldEntries<V, T>, args: map<string, V>, incoming: seq<T>): (r: FieldEntries<V, T>)
    ensures r.Keys == entries.Keys + {StorageKey(args)}
    ensures StorageKey(args) in entries ==> r[StorageKey(args)] == entries[StorageKey(args)] + incoming
    ensures StorageKey(args) !in entries ==> r[StorageKey(args)] == incoming
    ensures forall k :: k in entries && k != StorageKey(args) ==> r[k] == entries[k]
  {
    var key := StorageKey(args);
    var existing := if key in entries then Some(entries[key]) else None;
    entries[key := Merge(existing, incoming)]
  }

  /** The cached list of an entry, empty when nothing has been stored under it. */
  function Cached<V(==), T>(entries: FieldEntries<V, T>, key: map<string, V>): seq<T> {
    if key in entries then entries[key] else []
  }

  /**
   * Pages fetched with arguments that agree on searchString and typeCode
   * (whatever their pagination arguments) accumulate in one list; any other
   * entry is left as it was.
   */
  lemma PagesAccumulate<V, T>(entries: FieldEntries<V, T>, a1: map<string, V>, a2: map<string, V>,
                                  p1: seq<T>, p2: seq<T>, other: map<string, V>)
    requires AgreeOnKeyArgs(a1, a2)
    requires other != StorageKey(a1)
    ensures Cached(StorePage(StorePage(entries, a1, p1), a2, p2), StorageKey(a1)) == Cached(entries, StorageKey(a1)) + p1 + p2
    ensures Cached(StorePage(StorePage(entries, a1, p1), a2, p2), other) == Cached(entries, other)
  {
    SameEntryIff(a1, a2);
  }
}
