/** Sizzle's bounded caches, the token cache in use, and the in-place editing of token lists in
    select (src/main/webapp/javascript/jquery-1.10.2.js). */
module TokenCaches {
  import opened Tokenizer

  /** Expr.cacheLength */
  const CACHE_LENGTH: nat := 50

  ghost predicate Distinct(keys: seq<string>) {
    forall i, j :: 0 <= i < j < |keys| ==> keys[i] != keys[j]
  }

  /** The last n of xs, or all of them. */
  function LastOf(xs: seq<string>, n: nat): seq<string> {
    if |xs| <= n then xs else xs[|xs| - n..]
  }

  /** What createCache returns. */
  class Cache<V> {
    var keys: seq<string>
    var entries: map<string, V>
    /** Every key ever stored, in order. */
    ghost var history: seq<string>

    /** The keys are those of the entries, each once, at most fifty, the most recent ones. */
    ghost predicate Valid()
      reads this
    {
      && Distinct(keys) && (forall k :: k in entries <==> k in keys)
      && |keys| <= CACHE_LENGTH && keys == LastOf(history, CACHE_LENGTH)
    }

    constructor ()
      ensures Valid() && entries == map[] && history == []
    {
      keys, entries, history := [], map[], [];
    }

    /** cache( key, value ): the cache stays in order exactly when the key is not in it yet, or is
        the very one that the store throws out. */
    method Store(key: string, value: V)
      requires Valid()
      modifies this
      ensures history == old(history) + [key + " "]
      ensures key + " " in entries && entries[key + " "] == value
      ensures forall k :: k in entries && k != key + " " ==> k in old(entries) && entries[k] == old(entries)[k]
      ensures Valid() <==>
        key + " " !in old(entries) || (|old(keys)| == CACHE_LENGTH && old(keys)[0] == key + " ")
    {
      var k := key + " ";
      keys := keys + [k];
      history := history + [k];
      if |keys| > CACHE_LENGTH {
        var oldest := keys[0];
        keys := keys[1..];
        entries := entries - {oldest};
      }
      entries := entries[k := value];
      StoredKeys(old(keys), k);
      StoredHistory(old(history), k);
      assert keys == KeysAfter(old(keys), k);
      if k !in old(entries) || (|old(keys)| == CACHE_LENGTH && old(keys)[0] == k) {
        MembersAfter(old(keys), k);
      }
    }
  }

  /** The keys after storing k. */
  function KeysAfter(keys: seq<string>, k: string): seq<string> {
    if |keys| + 1 > CACHE_LENGTH then (keys + [k])[1..] else keys + [k]
  }

  lemma StoredKeys(keys: seq<string>, k: string)
    requires Distinct(keys) && |keys| <= CACHE_LENGTH
    ensures Distinct(KeysAfter(keys, k)) <==> k !in keys || (|keys| == CACHE_LENGTH && keys[0] == k)
  {
    var after := KeysAfter(keys, k);
    if k in keys {
      var i :| 0 <= i < |keys| && keys[i] == k;
      if |keys| < CACHE_LENGTH {
        assert after[i] == after[|keys|];
      } else if i > 0 {
        assert after[i - 1] == after[|keys| - 1];
      }
    }
  }

  lemma StoredHistory(history: seq<string>, k: string)
    ensures LastOf(history + [k], CACHE_LENGTH) == KeysAfter(LastOf(history, CACHE_LENGTH), k)
  {
  }

  lemma MembersAfter(keys: seq<string>, k: string)
    requires Distinct(keys) && |keys| <= CACHE_LENGTH
    ensures forall x :: x in KeysAfter(keys, k) <==> x == k || (x in keys && !(|keys| == CACHE_LENGTH && x == keys[0]))
  {
    var after := KeysAfter(keys, k);
    assert after[|after| - 1] == k;
    forall x | x in keys && x != k && !(|keys| == CACHE_LENGTH && x == keys[0]) ensures x in after {
      var i :| 0 <= i < |keys| && keys[i] == x;
      assert (keys + [k])[i] == x;
      if |keys| + 1 > CACHE_LENGTH { assert after[i - 1] == x; }
    }
  }

  // ----- token lists on the heap -----

  /** One token list, and an array of token lists, as JavaScript arrays. */
  class TokenList {
    var a: seq<Token>

    constructor (a: seq<Token>)
      ensures this.a == a
    {
      this.a := a;
    }
  }

  class GroupList {
    var a: seq<TokenList>

    constructor (a: seq<TokenList>)
      ensures this.a == a
    {
      this.a := a;
    }
  }

  /** The token lists of g hold groups. */
  ghost predicate Holds(g: GroupList, groups: seq<seq<Token>>)
    reads g, g.a
  {
    |g.a| == |groups| && forall i :: 0 <= i < |groups| ==> g.a[i].a == groups[i]
  }

  /** g is what the selector that the key k stands for tokenizes to. */
  ghost predicate Tokenizes(lx: Lexer, k: string, g: GroupList)
    reads g, g.a
  {
    |k| > 0 && Tokenization(lx, k[..|k| - 1]).1 == "" && Holds(g, TokensOf(Tokenization(lx, k[..|k| - 1]).0))
  }

  class Engine {
    const lx: Lexer
    const tokenCache: Cache<GroupList>
    /** The objects reachable from the cache. */
    ghost var lists: set<TokenList>
    ghost var arrays: set<GroupList>

    ghost predicate Valid()
      reads this, tokenCache, lists, arrays
    {
      && tokenCache.Valid() && Owns()
      && (forall k :: k in tokenCache.entries ==> Tokenizes(lx, k, tokenCache.entries[k]))
    }

    ghost predicate Owns()
      reads this, tokenCache, arrays
    {
      && (forall k :: k in tokenCache.entries ==> tokenCache.entries[k] in arrays)
      && (forall g :: g in arrays ==> forall i :: 0 <= i < |g.a| ==> g.a[i] in lists)
    }

    constructor (lx: Lexer)
      ensures Valid() && fresh(tokenCache)
    {
      this.lx := lx;
      tokenCache := new Cache<GroupList>();
      lists, arrays := {}, {};
    }

    /** tokenize with its cache: what it returns is a copy of the array, though not of the lists. */
    method CachedTokenize(selector: string) returns (matched: GroupList?)
      requires Valid()
      modifies this, tokenCache
      ensures Valid()
      ensures matched == null <==> Tokenization(lx, selector).1 != ""
      ensures matched != null ==> fresh(matched) && matched !in arrays && Holds(matched, TokensOf(Tokenization(lx, selector).0))
    {
      var k := selector + " ";
      if k in tokenCache.entries {
        assert k[..|k| - 1] == selector;
        assert Tokenizes(lx, k, tokenCache.entries[k]);
        matched := new GroupList(tokenCache.entries[k].a);
        return;
      }
      var r := Tokenize(lx, selector, false);
      match r {
        case Groups(groups) =>
          var stored := Build(groups);
          Remember(selector, stored);
          matched := new GroupList(stored.a);
        case _ =>
          matched := null;
      }
    }

    /** tokenize with parseOnly: the length of what cannot be parsed; the cache is read only. */
    method Excess(selector: string) returns (length: nat)
      requires Valid()
      ensures length == |Tokenization(lx, selector).1|
    {
      var k := selector + " ";
      if k in tokenCache.entries {
        assert k[..|k| - 1] == selector;
        assert Tokenizes(lx, k, tokenCache.entries[k]);
        return 0;
      }
      var r := Tokenize(lx, selector, true);
      length := r.length;
    }

    /** tokenCache( selector, groups ) on a miss. */
    method Remember(selector: string, stored: GroupList)
      requires Valid() && selector + " " !in tokenCache.entries
      requires Tokenization(lx, selector).1 == "" && Holds(stored, TokensOf(Tokenization(lx, selector).0))
      modifies this`lists, this`arrays, tokenCache
      ensures Valid() && arrays == old(arrays) + {stored}
    {
      var k := selector + " ";
      assert k[..|k| - 1] == selector;
      assert Tokenizes(lx, k, stored);
      arrays := arrays + {stored};
      lists := lists + set t | t in stored.a;
      StoreTokens(selector, stored);
    }

    method StoreTokens(selector: string, stored: GroupList)
      requires tokenCache.Valid() && selector + " " !in tokenCache.entries && stored in arrays && Owns()
      requires forall k :: k in tokenCache.entries ==> Tokenizes(lx, k, tokenCache.entries[k])
      requires Tokenizes(lx, selector + " ", stored)
      modifies tokenCache
      ensures Valid()
    {
      ghost var was := tokenCache.entries;
      tokenCache.Store(selector, stored);
      forall x | x in tokenCache.entries ensures Tokenizes(lx, x, tokenCache.entries[x]) {
        var g := tokenCache.entries[x];
        assert g == if x == selector + " " then stored else was[x];
        assert old(Tokenizes(lx, x, g));
      }
    }

    /** The first part of select: a selector of one group may lose a leading id and a trailing
        token whose matches are looked up instead.  The edits are made on copies, as this method
        changes no list of the cache; and what is left of the group spells the selector with which
        it will be compiled. */
    method Narrow(selector: string, w: Lookup) returns (way: Way, matched: GroupList?)
      requires Valid()
      modifies this, tokenCache
      ensures Valid()
      ensures way.Malformed? <==> Tokenization(lx, selector).1 != ""
      ensures matched == null <==> way.Malformed?
      ensures matched != null ==> fresh(matched)
      ensures matched != null && |matched.a| != 1 ==>
        way == Compile(selector) && Holds(matched, TokensOf(Tokenization(lx, selector).0))
      ensures matched != null && |matched.a| == 1 ==>
        && |Tokenization(lx, selector).0| == 1
        && var ts := Tokenization(lx, selector).0[0].tokens;
           && fresh(matched.a[0])
           && (way.NoContext? <==> DropsId(w, ts) && !w.idFound)
           && (!way.NoContext? ==> way == AfterSeed(w, AfterId(w, ts)) && matched.a[0].a == Narrowed(w, ts))
           && (way.Compile? ==> Text(matched.a[0].a) == way.selector)
    {
      matched := CachedTokenize(selector);
      if matched == null {
        return Malformed, matched;
      }
      if |matched.a| != 1 {
        return Compile(selector), matched;
      }
      OneGroupText(lx, selector);
      way := NarrowCopy(matched, w, selector);
    }
  }

  /** tokens = match[0] = match[0].slice( 0 ), and the edits of it. */
  method NarrowCopy(matched: GroupList, w: Lookup, selector: string) returns (way: Way)
    requires |matched.a| == 1 && Text(matched.a[0].a) == selector
    modifies matched
    ensures |matched.a| == 1 && fresh(matched.a[0])
    ensures var ts := old(matched.a[0].a);
      && (way.NoContext? <==> DropsId(w, ts) && !w.idFound)
      && (!way.NoContext? ==> way == AfterSeed(w, AfterId(w, ts)) && matched.a[0].a == Narrowed(w, ts))
      && (way.Compile? ==> Text(matched.a[0].a) == way.selector)
    ensures !way.Malformed?
  {
    var tokens := new TokenList(matched.a[0].a);
    matched.a := [tokens];
    way := NarrowList(tokens, w, selector);
  }

  /** How select goes on: there is no such context, the looked-up seed is all there is to add to
      the results, or the selector is compiled and run. */
  datatype Way = Malformed | NoContext | SeedOnly | Compile(selector: string)

  /** The edits of the one token list: the id shortcut, then the seed. */
  method NarrowList(tokens: TokenList, w: Lookup, selector: string) returns (way: Way)
    requires Text(tokens.a) == selector
    modifies tokens
    ensures way.NoContext? <==> DropsId(w, old(tokens.a)) && !w.idFound
    ensures !way.NoContext? ==> way == AfterSeed(w, AfterId(w, old(tokens.a))) && tokens.a == Narrowed(w, old(tokens.a))
    ensures way.Compile? ==> Text(tokens.a) == way.selector
  {
    var rest := selector;
    if DropsId(w, tokens.a) {
      if !w.idFound { return NoContext; }
      var first := tokens.a[0];
      assert [first] + tokens.a[1..] == tokens.a;
      TextCons(first, tokens.a[1..]);
      rest := rest[|first.value|..];
      tokens.a := tokens.a[1..];
    }
    way := FetchSeed(tokens, w, rest);
  }

  /** The seed set for right-to-left matching: its token is spliced out.  An empty seed, or one
      that no token is left to filter, ends the search. */
  method FetchSeed(tokens: TokenList, w: Lookup, selector: string) returns (way: Way)
    requires Text(tokens.a) == selector
    modifies tokens
    ensures way == AfterSeed(w, old(tokens.a)) && tokens.a == WithoutSeed(w, old(tokens.a))
    ensures way.Compile? ==> Text(tokens.a) == way.selector
  {
    var i := SeedToken(tokens.a, w, selector);
    if i < 0 {
      return Compile(selector);
    }
    var token := tokens.a[i];
    tokens.a := tokens.a[..i] + tokens.a[i + 1..];
    var left := ToSelector(tokens.a);
    way := if w.emptySeed(token) || left == "" then SeedOnly else Compile(left);
  }

  /** The loop that looks for a token with a seed, from the right. */
  method SeedToken(tokens: seq<Token>, w: Lookup, selector: string) returns (i: int)
    ensures i == FoundAt(w, tokens, if w.needsContext(selector) then 0 else |tokens|)
    ensures i >= 0 ==> !w.needsContext(selector) && GivesSeed(w, tokens, i)
    ensures i < 0 ==> w.needsContext(selector) || forall j: nat :: !GivesSeed(w, tokens, j)
  {
    SeedIs(w, tokens);
    i := if w.needsContext(selector) then 0 else |tokens|;
    ghost var from := i;
    while i > 0
      invariant 0 <= i <= from <= |tokens|
      invariant FoundAt(w, tokens, from) == FoundAt(w, tokens, i)
    {
      i := i - 1;
      var token := tokens[i];
      if token.kind == 0 { return -1; }
      if w.finds(token) { return i; }
    }
    i := -1;
  }

  /** What select learns from the document: whether an id shortcut applies and hits, which
      selectors need their context, for which tokens a seed set is looked up and comes out empty. */
  datatype Lookup = Lookup(byId: bool, idFound: bool, isId: Token -> bool, needsContext: string -> bool,
                           finds: Token -> bool, emptySeed: Token -> bool)

  predicate DropsId(w: Lookup, ts: seq<Token>) {
    |ts| > 2 && w.isId(ts[0]) && w.byId && ts[1].kind == 0
  }

  /** The last token before n, with no combinator after it, for which a seed is found; -1 if none. */
  function FoundAt(w: Lookup, ts: seq<Token>, n: nat): (i: int)
    requires n <= |ts|
    ensures -1 <= i < n
  {
    if n == 0 || ts[n - 1].kind == 0 then -1
    else if w.finds(ts[n - 1]) then n - 1
    else FoundAt(w, ts, n - 1)
  }

  /** A seed is found for token i, and for none behind it; no combinator stands there or behind. */
  ghost predicate GivesSeed(w: Lookup, ts: seq<Token>, i: nat) {
    && i < |ts| && ts[i].kind != 0 && w.finds(ts[i])
    && forall j :: i < j < |ts| ==> ts[j].kind != 0 && !w.finds(ts[j])
  }

  lemma {:induction false} FoundAtMeans(w: Lookup, ts: seq<Token>, n: nat)
    requires n <= |ts|
    ensures var i := FoundAt(w, ts, n);
      && (i >= 0 ==> ts[i].kind != 0 && w.finds(ts[i]) && forall j :: i < j < n ==> ts[j].kind != 0 && !w.finds(ts[j]))
      && (i < 0 ==> forall j :: 0 <= j < n && (forall m :: j <= m < n ==> ts[m].kind != 0) ==> !w.finds(ts[j]))
  {
    if n > 0 { FoundAtMeans(w, ts, n - 1); }
  }

  lemma SeedIs(w: Lookup, ts: seq<Token>)
    ensures var i := FoundAt(w, ts, |ts|);
      if i >= 0 then GivesSeed(w, ts, i) else forall j: nat :: !GivesSeed(w, ts, j)
  {
    FoundAtMeans(w, ts, |ts|);
  }

  /** The token that ts gives its seed for, or -1. */
  function SeedAt(w: Lookup, ts: seq<Token>): int { FoundAt(w, ts, if w.needsContext(Text(ts)) then 0 else |ts|) }

  function WithoutSeed(w: Lookup, ts: seq<Token>): seq<Token> {
    var i := SeedAt(w, ts);
    if i == -1 then ts else ts[..i] + ts[i + 1..]
  }

  /** The search is over when a seed was looked up and is empty or needs no filter. */
  function AfterSeed(w: Lookup, ts: seq<Token>): Way {
    var i, left := SeedAt(w, ts), Text(WithoutSeed(w, ts));
    if i >= 0 && (w.emptySeed(ts[i]) || left == "") then SeedOnly else Compile(left)
  }

  function AfterId(w: Lookup, ts: seq<Token>): seq<Token> { if DropsId(w, ts) then ts[1..] else ts }

  /** The tokens that select leaves of a single group. */
  function Narrowed(w: Lookup, ts: seq<Token>): seq<Token> { WithoutSeed(w, AfterId(w, ts)) }

  /** A leading id that is looked up goes, if a combinator and more follow. */
  ghost predicate IdGone(w: Lookup, ts: seq<Token>, rest: seq<Token>) {
    rest == if |ts| > 2 && w.isId(ts[0]) && w.byId && ts[1].kind == 0 then ts[1..] else ts
  }

  /** What select makes of the rest of a single group that gives no seed, or that needs its context: it
      compiles its text. */
  lemma NarrowedUnseeded(w: Lookup, ts: seq<Token>, rest: seq<Token>)
    requires IdGone(w, ts, rest) && (w.needsContext(Text(rest)) || forall i: nat :: !GivesSeed(w, rest, i))
    ensures Narrowed(w, ts) == rest && AfterSeed(w, AfterId(w, ts)) == Compile(Text(rest))
  {
    SeedIs(w, rest);
  }

  /** Where token i gives the seed, that token goes too; the search is over when the seed is empty or
      nothing is left to filter it by, and otherwise goes on with the text of what is left. */
  lemma NarrowedSeeded(w: Lookup, ts: seq<Token>, rest: seq<Token>, i: nat)
    requires IdGone(w, ts, rest) && !w.needsContext(Text(rest)) && GivesSeed(w, rest, i)
    ensures var left := rest[..i] + rest[i + 1..];
      && Narrowed(w, ts) == left
      && AfterSeed(w, AfterId(w, ts)) == if w.emptySeed(rest[i]) || Text(left) == "" then SeedOnly else Compile(Text(left))
  {
    SeedOne(w, rest, i);
  }

  lemma SeedOne(w: Lookup, ts: seq<Token>, i: nat)
    requires GivesSeed(w, ts, i)
    ensures FoundAt(w, ts, |ts|) == i
  {
    SeedIs(w, ts);
    var j := FoundAt(w, ts, |ts|);
    assert j >= 0 && GivesSeed(w, ts, j);
  }

  lemma OneGroupText(lx: Lexer, selector: string)
    requires Tokenization(lx, selector).1 == "" && |Tokenization(lx, selector).0| == 1
    ensures Text(Tokenization(lx, selector).0[0].tokens) == selector
  {
    var gs := Tokenization(lx, selector).0;
    Lossless(lx, selector);
    assert gs == [gs[0]] + [];
    SourceCons(gs[0], []);
    assert gs[0].lead == "";
  }

  /** Fresh token lists for groups. */
  method Build(groups: seq<seq<Token>>) returns (g: GroupList)
    ensures fresh(g) && Holds(g, groups)
    ensures forall i :: 0 <= i < |g.a| ==> fresh(g.a[i])
  {
    var lists: seq<TokenList> := [];
    for i := 0 to |groups|
      invariant |lists| == i && forall j :: 0 <= j < i ==> fresh(lists[j]) && lists[j].a == groups[j]
    {
      var t := new TokenList(groups[i]);
      lists := lists + [t];
    }
    g := new GroupList(lists);
  }
}
