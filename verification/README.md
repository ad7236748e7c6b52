# Models of the login front end

This project models and proves, in Dafny, the algorithms of a CAS login server's web front end:
the selector engine, callback machinery, event lists and class editing of the jQuery file it
serves, the login throttle it adds to the server, and its forgotten-password flow.  Verify it
with `dafny verify dfyconfig.toml`.

| file | what it models | form |
|---|---|---|
| `Combinators.dfy` | compiled selectors with per-node answer caches | class `Engine` refining functions on the slots, and these against the cache-free `Plain` and the CSS reading `Selects` |
| `PreFilter.dfy` | compiled matchers as filters of set matchers | a document built for every token list |
| `SetMatcher.dfy`, `SuperMatcher.dfy` | set matchers moving entries between parallel arrays; the mixed matching of a seed | methods on shared mutable lists against `Outcome`, `Picked`, `Matches` |
| `NthChild.dfy` | nth-child search with two position caches | class `PositionCache` |
| `DocumentOrder.dfy` | the fallback comparator and `uniqueSort` | methods with loops against preorder |
| `Tokenizer.dfy`, `TokenCache.dfy` | `tokenize`, `toSelector`, `createCache`, the editing in `select` | methods; heap objects for lists that may be shared |
| `CallbackQueue.dfy`, `Callbacks.dfy`, `CallbackRuns.dfy` | `jQuery.Callbacks` | a queue machine, the class of closure variables that refines it, and its runs in terms of the operations alone |
| `Deferred.dfy`, `Progress.dfy`, `When.dfy` | `jQuery.Deferred` and `jQuery.when` | classes over callback lists; the progress list over runs |
| `FxQueue.dfy` | the fx queue and its sentinel | class |
| `EventHandlers.dfy` | handler lists, `handlers`, `dispatch` | class and methods |
| `ClassNames.dfy` | `addClass`, `removeClass`, `hasClass` | class on the class string, specified on lists of names |
| `Throttle.dfy` | interceptor, failure records, sweeper, captcha flag | class with store, clock and history |
| `Basics.dfy` | options, subsequences and texts in texts, shared | functions |
| `ForgetFlow.dfy` | the forgotten-password flow | transition table and class of its actions |

Re-entrancy is modelled by suspension: a firing that has called a callback is a state of its own
(the cursor stands on the call in progress), and any sequence of operations may follow before the
call returns.  So a lemma over all sequences of operations covers callbacks that add, remove, fire
or settle from inside.  Regular expressions, element tests, handlers' effects, the user directory,
the senders, the code generators and the clock are parameters.

## What the proofs brought out

- A compiled matcher may stand before a positional pseudo, as a filter.  Then `condense` calls it on
  element after element and `cachedruns` stays, so a miss that a successful walk has left ends the
  walks of later elements: of two elements in one wrapper, `.a .b:last` matches the first
  (`SharedWrapper`, `LastOfShared`).  What such a filter accepts is right (`AcceptedIsPlain`); that it
  accepts all it should is certain exactly if it has no descendant or general sibling combinator
  (`FilterAgreesIff`; the seed that shows the failure names one element twice).
- A set matcher without a pre-filter gives its post-filter the new hits and the earlier matches of
  other set matchers in one list.  So it may take back an earlier match (`EarlierMatchLost`) or miss
  a hit of its own (`HitLost`).  `EarlierMatchesIff` gives the exact condition for one set matcher,
  `SomeMatcherPicks` for a row of them, after every turn; for the end alone the condition suffices but
  is not needed, as a match taken back may be picked again.
- `realKey` removes every occurrence of the key prefix, so the failures of a session whose id
  contains the prefix flag another session.  Ids are issued by the servlet container
  (`src/main/java/com/gionee/cas/util/RequestUtils.java:11`), so that a flag means a record is an
  assumption about the container: `FlagsBackedIff` is exact, over all runs.
- With a zero threshold and a positive range the gate refuses every post while a record lasts, so a
  session fails at most once between two sweeps that find its record stale, never gets a flag, and
  its failures are more than the range apart; the window bound holds as for a threshold of one.
- `empty()` inside a firing does not move the cursor back, so the firing misses as many of the
  callbacks added next as there were entries up to the cursor: `HeardUnlessDeaf`, with
  `EmptyThenAddIsNotHeard`.  It also makes a disabled list usable again, as it assigns a new array.
- `createCache` alone may come to hold an entry its key list does not know; it stays consistent if
  and only if it is used to insert a missing key or the very key being evicted: `Cache.Store`.
- `hasClass` is membership only for selectors that are names or can never match: `hasClass("")`
  holds of an element without classes, and `hasClass("a b")` of one with `a b` (`HasClassIff`,
  `NotAName`).
- Adding to a class string `\va`, where `\v` is a vertical tab, loses the tab (`TabLost`, `VerticalTab`):
  `addClass` and `removeClass` split their argument at all white space but the class string only at
  the characters of `rclass`, so a vertical tab, say, is part of a class name, and `jQuery.trim`
  takes it off when it stands at an end; `StripIff` is exact.

## Model

| member | source | states |
|---|---|---|
| `Combinators.Engine.Search` | src/main/webapp/javascript/jquery-1.10.2.js:2708-2756 | over a whole run (every group of the selector compiled, every seed element visited in the given order), the results grow by exactly the elements some group selects (what selecting means, a leading combinator and the default one included, is said by `DescendantByDefault`, `OneTestSelects`, `LeadingSelects`), whatever earlier runs left in the caches; with the `xml` flag the caches are not touched |
| `Combinators.Engine.MatchElements` | src/main/webapp/javascript/jquery-1.10.2.js:2713-2756 | a fresh `dirruns` makes all old slots stale, `cachedruns` moves on after each element, so every element gets the answer of the uncached matcher; the hits left for the set matchers are true |
| `Combinators.NextElement` | src/main/webapp/javascript/jquery-1.10.2.js:2742-2745 | when `cachedruns` moves on, all walks are settled, whatever the last answer was |
| `Combinators.Engine.Match` | src/main/webapp/javascript/jquery-1.10.2.js:2525-2537 | the nested closures, called on a node with any slots, answer and leave the slots as the function `Answer` says, the parts of a compound from the last to the first |
| `Combinators.AnswerIsPlain` | src/main/webapp/javascript/jquery-1.10.2.js:2481-2537 | with settled slots the cached answer is that of `Plain`, which has no cache; every hit and miss left behind is true of its node, and after a negative answer all slots are settled again, because the combinator is tried last |
| `Combinators.AnswerXml` | src/main/webapp/javascript/jquery-1.10.2.js:2496-2503 | with the `xml` flag the answer is that of `Plain` and no slot changes, whatever the slots hold |
| `Combinators.AnswerTouches` | src/main/webapp/javascript/jquery-1.10.2.js:2505-2520 | matching on a node changes only slots of nodes before it, in favour of combinators inside the matcher |
| `Combinators.Engine.MatchNearest` | src/main/webapp/javascript/jquery-1.10.2.js:2481-2488 | the loop of the first-only combinators (`>` and `+`) answers for the nearest eligible node as `NearestFrom` says |
| `Combinators.Engine.WalkPlain` | src/main/webapp/javascript/jquery-1.10.2.js:2496-2503 | the loop of the `xml` branch does what `WalkFrom` says without slots |
| `Combinators.Engine.WalkCached` | src/main/webapp/javascript/jquery-1.10.2.js:2504-2521 | the loop of the caching branch does what `WalkFrom` says, slot by slot |
| `Combinators.WalkIsPlain` | src/main/webapp/javascript/jquery-1.10.2.js:2504-2521 | for an element whose walks are settled, the cached walk finds a match exactly when some eligible node further along is one, although one slot per node and direction is shared by every combinator nested inside |
| `Combinators.Engine.Probe` | src/main/webapp/javascript/jquery-1.10.2.js:2512-2517 | the slot is claimed, the inner matcher asked, its answer stored, as `Probed` says |
| `Combinators.ProbeIsPlain` | src/main/webapp/javascript/jquery-1.10.2.js:2512-2517 | an unclaimed slot is filled with the truth, and the walk that claimed it may go on |
| `Combinators.Engine.Filter` | src/main/webapp/javascript/jquery-1.10.2.js:2546-2548 | a compiled matcher called on one element after the other while `cachedruns` stays: from slots whose hits are true, whatever misses they hold, it accepts only elements that `Plain` accepts |
| `Combinators.AcceptedIsPlain` | src/main/webapp/javascript/jquery-1.10.2.js:2481-2537 | the same for one call: hits stay true, misses need not be |
| `Combinators.AnswerAllFirst` | src/main/webapp/javascript/jquery-1.10.2.js:2480-2488 | a matcher with first-only combinators answers plainly and stores nothing |
| `PreFilters.FilterAgreesIff` | src/main/webapp/javascript/jquery-1.10.2.js:2504-2521 | a compiled filter answers like `Plain` on every document tree and every seed, if and only if neither its tokens nor a root that is not exempt make a combinator that is not first-only |
| `PreFilters.AgreesIfNoneKeeps` | src/main/webapp/javascript/jquery-1.10.2.js:2480-2488 | the half of it that holds for any token list |
| `PreFilters.SecondCallFails` | src/main/webapp/javascript/jquery-1.10.2.js:2508-2515 | for every other filter, a document tree and an element that matches, whose second call in the seed is answered no |
| `PreFilters.SharedWrapper` | src/main/webapp/javascript/jquery-1.10.2.js:2508-2515 | `.a .b` on two elements in one wrapper: both match, the filter accepts the first only |
| `PreFilters.LastOfShared` | src/main/webapp/javascript/jquery-1.10.2.js:2576-2635 | so `.a .b:last` matches the first of them |
| `PreFilters.PickedIsPlain` | src/main/webapp/javascript/jquery-1.10.2.js:2576-2595 | what a set matcher picks through a compiled pre-filter, the pre-filter accepts plainly |
| `PreFilters.PassesIffPlain` | src/main/webapp/javascript/jquery-1.10.2.js:2546-2548 | with first-only combinators an entry passes exactly when the plain meaning of the tokens holds of it |
| `PreFilters.XmlAgrees` | src/main/webapp/javascript/jquery-1.10.2.js:2496-2503 | in an XML document every filter answers plainly |
| `Combinators.WalkMeansRelated` | src/main/webapp/javascript/jquery-1.10.2.js:2475-2503 | the walk means what CSS says: some ancestor or earlier sibling (or the nearest one) that the combinator may see satisfies the part to the left |
| `Combinators.RelatedStep` | src/main/webapp/javascript/jquery-1.10.2.js:2483-2487 | moving one node along the direction splits the related nodes into that node and those related to it |
| `Combinators.ReachesDown` | src/main/webapp/javascript/jquery-1.10.2.js:2496-2505 | a walk leads to finitely many nodes, all of lower number, so walks end and slots of other nodes stay as they are |
| `Combinators.CompoundSelects` | src/main/webapp/javascript/jquery-1.10.2.js:2653-2706 | the nest of matchers built from a token list holds of an element exactly when the token list selects it, read from the right |
| `Combinators.DescendantByDefault` | src/main/webapp/javascript/jquery-1.10.2.js:2653-2676 | a selector that begins with a test selects from a root that is not exempt just what it selects with a descendant combinator written in front |
| `Combinators.OneTestSelects` | src/main/webapp/javascript/jquery-1.10.2.js:2653-2676 | one test and a context node: an element is selected if and only if it passes and some proper ancestor, of any node type, is the context |
| `Combinators.LeadingSelects` | src/main/webapp/javascript/jquery-1.10.2.js:2653-2657 | a leading combinator relates the element to the context by its own direction, to the nearest node only if it is a first-only one |
| `Combinators.RelatedMeans` | src/main/webapp/javascript/jquery-1.10.2.js:2475-2503 | from an element the descendant combinator sees its proper ancestors and the sibling combinator its earlier siblings that are elements, or, for a context, any ancestor node |
| `Combinators.FirstMeans` | src/main/webapp/javascript/jquery-1.10.2.js:2481-2488 | the first-only combinators lead to the parent and to the previous sibling, if these are elements |
| `Combinators.MatcherFromTokens` | src/main/webapp/javascript/jquery-1.10.2.js:2653-2706 | the loop over the tokens builds the nest above, with a different `doneName` for each combinator and none used before |
| `Combinators.SameShapeSameMeaning` | src/main/webapp/javascript/jquery-1.10.2.js:2475-2480 | the number a combinator gets for its cache has no influence on what it answers |
| `Combinators.SelectedIsChosen` | src/main/webapp/javascript/jquery-1.10.2.js:2809-2834 | compiling the groups from the last to the first selects the same elements, in the same order |
| `SetMatchers.Condense` | src/main/webapp/javascript/jquery-1.10.2.js:2539-2558 | returns a new list of the entries for which the filter, called on them in turn, answers yes, and the ascending list of their indexes |
| `SetMatchers.Positional` | src/main/webapp/javascript/jquery-1.10.2.js:1411-1427 | moves exactly the entries at the matched indexes from seed to matches, same index, in place |
| `SetMatchers.Apply` | src/main/webapp/javascript/jquery-1.10.2.js:2560-2635 | the two arrays end up as `Outcome` of what they were, through both index maps, also when a result array is used as the intermediate |
| `SetMatchers.PostFilter` | src/main/webapp/javascript/jquery-1.10.2.js:2597-2609 | exactly the entries the post-filter does not pick, in the condensed list, move back |
| `SetMatchers.MoveMatched` | src/main/webapp/javascript/jquery-1.10.2.js:2626-2634 | the matched entries move to results at the index the pre-filter map gives, no other entry changes |
| `SetMatchers.CleanOutcome` | src/main/webapp/javascript/jquery-1.10.2.js:2560-2635 | where there is a pre-filter, or no post-filter, or no earlier result, entry i moves if and only if it is picked: the pre-filter, called on the entries in turn, accepts it, its rank among the accepted ones is matched, and its rank among the matched ones passes the post-filter |
| `SetMatchers.PickedThroughPre` | src/main/webapp/javascript/jquery-1.10.2.js:2576-2609 | with a pre-filter, entry i is picked just when, at its rank in the condensed list, it is placed and not un-matched |
| `SetMatchers.FailingIsUnpicked` | src/main/webapp/javascript/jquery-1.10.2.js:2597-2609 | through `postMap`, an entry is un-matched exactly when the post-filter does not pick it at its rank |
| `SetMatchers.LiveRank` | src/main/webapp/javascript/jquery-1.10.2.js:2539-2558 | the index map sends the rank of a passing entry back to that entry |
| `SetMatchers.RankLive` | src/main/webapp/javascript/jquery-1.10.2.js:2539-2558 | and every mapped index is that of a passing entry with that rank |
| `SetMatchers.CondenseThrough` | src/main/webapp/javascript/jquery-1.10.2.js:2539-2558 | condensing an array scattered through an index map gives the same list as condensing the short one |
| `SetMatchers.NothingLost` | src/main/webapp/javascript/jquery-1.10.2.js:2567-2635 | for every set matcher and any earlier results, each index keeps its element on exactly one side |
| `SetMatchers.EarlierMatchesIff` | src/main/webapp/javascript/jquery-1.10.2.js:2576-2635 | for every set matcher and any earlier matches: the picked entries move and nothing else happens, if and only if the post-filter, given hits and earlier matches in one list, lets each earlier match through and each hit exactly as among the hits alone |
| `SetMatchers.ElementTestSpares` | src/main/webapp/javascript/jquery-1.10.2.js:2581-2609 | for a post-filter that answers for the element alone, that condition is that every earlier match passes it |
| `SetMatchers.EarlierMatchLost` | src/main/webapp/javascript/jquery-1.10.2.js:2581-2609 | `:eq(1).c, :first` on two elements: a later set matcher takes back an earlier match |
| `SetMatchers.HitLost` | src/main/webapp/javascript/jquery-1.10.2.js:2597-2609 | `:eq(1):first, :first` on two elements: no earlier match is lost, but the later matcher's own pick is not matched |
| `SuperMatchers.SuperMatch` | src/main/webapp/javascript/jquery-1.10.2.js:2713-2785 | for any seed and any mix of element and set matchers, the results are the old results followed by exactly the matched seed elements in seed order |
| `SuperMatchers.TryElementMatchers` | src/main/webapp/javascript/jquery-1.10.2.js:2731-2763 | accepted elements are pushed in order; the others stay at their index for the set matchers; `matchedCount` ends as their number after the negative counts |
| `SuperMatchers.AcceptsEither` | src/main/webapp/javascript/jquery-1.10.2.js:2736-2741 | no element matchers accept nothing, one what it passes, two lists what either does |
| `SuperMatchers.Reintegrate` | src/main/webapp/javascript/jquery-1.10.2.js:2770-2778 | popping from the end of results puts each early match back at its own index and leaves the old results untouched |
| `SuperMatchers.InTurnKeeps` | src/main/webapp/javascript/jquery-1.10.2.js:2764-2768 | after any number of set matchers every seed element is still on exactly one side at its index |
| `SuperMatchers.WhoHolds` | src/main/webapp/javascript/jquery-1.10.2.js:2764-2778 | an index is empty on both sides exactly when an element matcher has taken its element, which is what makes the pops line up |
| `SuperMatchers.SomeMatcherPicks` | src/main/webapp/javascript/jquery-1.10.2.js:2764-2768 | with any number of set matchers of any kind, the results hold after every turn exactly what some matcher has picked so far, if and only if each matcher spares, in its turn, the earlier matches |
| `SuperMatchers.IdealByResults` | src/main/webapp/javascript/jquery-1.10.2.js:2611-2635 | a turn is right on both sides as soon as its results are, since no element is lost |
| `SuperMatchers.OneSetMatcher` | src/main/webapp/javascript/jquery-1.10.2.js:2764-2782 | with one set matcher of any kind, the matched elements are the accepted ones and those it picks from the rest |
| `SuperMatchers.AllMatches` | src/main/webapp/javascript/jquery-1.10.2.js:2780-2785 | the array with the early matches put back condenses to the matched elements in seed order |
| `NthChild.FinalTestIsCycle` | src/main/webapp/javascript/jquery-1.10.2.js:2139-2141 | with JavaScript's `%` and `/`, the final test holds if and only if position = a*n + b for some n >= 0, for negative and zero a too |
| `NthChild.PositionMeans` | src/main/webapp/javascript/jquery-1.10.2.js:2120-2138 | the position is the number of siblings that count, those of the name of the element or all elements, from the first up to the element, or from the element to the last |
| `NthChild.QuotientSign` | src/main/webapp/javascript/jquery-1.10.2.js:2141 | the sign test on the quotient is a comparison of signs |
| `NthChild.PositionCache.Nth` | src/main/webapp/javascript/jquery-1.10.2.js:2061-2142 | for any sequence of queries in a run the answer is that of the true position in the cycle, with every cache (per parent, per element, none) |
| `NthChild.PositionCache.SeekFromParentCache` | src/main/webapp/javascript/jquery-1.10.2.js:2095-2114 | the search that starts from the parent's cached index, restarting at most once, ends at the element with its true position |
| `NthChild.PositionCache.Seek` | src/main/webapp/javascript/jquery-1.10.2.js:2120-2136 | the search from the start (or from a cached spot) stops at the element with the number of counted siblings up to it, caching true positions on the way |
| `NthChild.PositionCache.NewRun` | src/main/webapp/javascript/jquery-1.10.2.js:2723-2724 | a new `dirruns` makes every cached position stale |
| `NthChild.CountedAlike` | src/main/webapp/javascript/jquery-1.10.2.js:2126-2135 | when all elements count, the count does not depend on which element asks, so the cached ones can be shared |
| `NthChild.SlotIsTrue` | src/main/webapp/javascript/jquery-1.10.2.js:2116-2130 | a count cached on a node met on the way is that node's own position from the end |
| `DocumentOrder.SortOrder` | src/main/webapp/javascript/jquery-1.10.2.js:1731-1782 | the fallback comparator returns 0 on equal nodes, else -1 or 1 by document order, and sets the duplicate flag exactly on equal nodes |
| `DocumentOrder.ComparePaths` | src/main/webapp/javascript/jquery-1.10.2.js:1745-1781 | the two ancestor lists are walked to their first difference and decided there by their siblings |
| `DocumentOrder.SiblingCheck` | src/main/webapp/javascript/jquery-1.10.2.js:1362-1383 | the walk along the next siblings decides which of two different children comes first; a missing one comes first |
| `DocumentOrder.Ancestors` | src/main/webapp/javascript/jquery-1.10.2.js:1759-1767 | the loop up the tree lists the prefixes of the path, root first |
| `DocumentOrder.Trichotomy` | src/main/webapp/javascript/jquery-1.10.2.js:1731-1782 | of two nodes exactly one holds: before, equal, after |
| `DocumentOrder.BeforeTransitive` | src/main/webapp/javascript/jquery-1.10.2.js:1731-1782 | document order is transitive |
| `DocumentOrder.PreorderIsAll` | src/main/webapp/javascript/jquery-1.10.2.js:1731-1782 | the preorder listing holds exactly the nodes of the tree |
| `DocumentOrder.PreorderAscends` | src/main/webapp/javascript/jquery-1.10.2.js:1731-1782 | and lists them strictly ascending in the comparator's order |
| `DocumentOrder.OrderIsPreorder` | src/main/webapp/javascript/jquery-1.10.2.js:1731-1782 | hence a node is before another exactly when preorder lists it earlier |
| `DocumentOrder.UniqueSort` | src/main/webapp/javascript/jquery-1.10.2.js:1857-1880 | from a sorted list it leaves a strictly ascending one with the same nodes |
| `DocumentOrder.RemoveDuplicates` | src/main/webapp/javascript/jquery-1.10.2.js:1868-1877 | the splices, made from the highest index down, remove exactly the repeats |
| `DocumentOrder.FindDuplicates` | src/main/webapp/javascript/jquery-1.10.2.js:1869-1873 | the listed indexes are exactly those of entries equal to their predecessor, ascending |
| `DocumentOrder.KeptAscends` | src/main/webapp/javascript/jquery-1.10.2.js:1857-1880 | a sorted list without its repeats is strictly ascending |
| `DocumentOrder.KeptMembers` | src/main/webapp/javascript/jquery-1.10.2.js:1857-1880 | and has the same nodes |
| `DocumentOrder.SpliceLast` | src/main/webapp/javascript/jquery-1.10.2.js:1874-1876 | one splice at the last listed index leaves the others valid |
| `CallbackQueue.RunInv` | src/main/webapp/javascript/jquery-1.10.2.js:3015-3176 | the queue invariant holds after every sequence of operations, re-entrant ones included |
| `CallbackQueue.CalledExactlyOnce` | src/main/webapp/javascript/jquery-1.10.2.js:3040-3065 | in every run, a finished firing has called exactly the occurrences present at its start or appended during it, each once and in order, but for those that an operation of the run took out before their turn, cut the firing off from, or added unheard |
| `CallbackQueue.StruckIff` | src/main/webapp/javascript/jquery-1.10.2.js:3100-3130 | in every run, what the books of a firing strike out is exactly what a `remove` of that callback, or an `empty`, took away while it waited for its turn in that firing |
| `CallbackQueue.MissedIff` | src/main/webapp/javascript/jquery-1.10.2.js:3048-3147 | in every run, what a firing passes over is exactly what was due in it when a `disable`, a `lock` without memory or a stop on false came, or was added while it was deaf |
| `CallbackQueue.RunCalm` | src/main/webapp/javascript/jquery-1.10.2.js:3040-3065 | when no firing is emptied, disabled, locked or stopped, none is passed over, and the firings are those that were accepted, in that order, none lost; which are accepted is said by `FiresInOrder` |
| `CallbackRuns.FiresInOrder` | src/main/webapp/javascript/jquery-1.10.2.js:3040-3098 | in every run without disable and lock, the data of the firings begun and of those waiting, in order, is `Wanted`, computed from the operations: that of every fire, or of the first of a once list, and with memory the last again for each addition between firings, unless the last firing was stopped |
| `CallbackRuns.EveryFireOnce` | src/main/webapp/javascript/jquery-1.10.2.js:3153-3164 | without memory that is the data of the fires, each once and in turn, or of the first fire of a once list |
| `CallbackRuns.ListHeld` | src/main/webapp/javascript/jquery-1.10.2.js:3069-3130 | what a list that is not once holds is what the additions, removals and emptyings of the run leave, and firing does not change it |
| `CallbackRuns.AppendedMeans` | src/main/webapp/javascript/jquery-1.10.2.js:3073-3085 | additions append everything, and to a unique list what is not there yet, each once, in the order of first places |
| `CallbackRuns.DroppedMeans` | src/main/webapp/javascript/jquery-1.10.2.js:3100-3117 | a removal takes out every occurrence and nothing else, and keeps the order |
| `CallbackRuns.StepOffers` | src/main/webapp/javascript/jquery-1.10.2.js:3040-3058 | a firing begun by a fire or from the stack is offered the list as it stands then |
| `CallbackRuns.AddingOffers` | src/main/webapp/javascript/jquery-1.10.2.js:3086-3095 | additions are offered to the firing in progress, or to a firing of their own when something is remembered, and not the rest of the list |
| `CallbackRuns.StepCalls` | src/main/webapp/javascript/jquery-1.10.2.js:3047-3052 | each operation makes at most one call, and the next callback is not called before the one in progress has returned |
| `CallbackRuns.CallsItsQueue` | src/main/webapp/javascript/jquery-1.10.2.js:3047-3053 | left alone, a firing calls its whole queue, one call for each return, and ends |
| `CallbackRuns.MemoryIsLast` | src/main/webapp/javascript/jquery-1.10.2.js:3041-3049 | what is remembered is the data of the last firing begun |
| `CallbackRuns.DisabledForGood` | src/main/webapp/javascript/jquery-1.10.2.js:3132-3147 | after disable, or lock with nothing to remember, no callback is ever called, whatever follows except empty |
| `CallbackRuns.LockedForGood` | src/main/webapp/javascript/jquery-1.10.2.js:3141-3147 | a list locked after it fired is never fired again: what firings follow are for callbacks added, with the data remembered then |
| `CallbackRuns.OnceCloses` | src/main/webapp/javascript/jquery-1.10.2.js:3054-3063 | a once list without memory is disabled when its only firing has ended |
| `CallbackRuns.EmptiedHolds` | src/main/webapp/javascript/jquery-1.10.2.js:3126-3130 | emptied between firings, a list, even a disabled one, holds just what is added next |
| `CallbackRuns.EmptiedIsDeaf` | src/main/webapp/javascript/jquery-1.10.2.js:3126-3130 | emptied during a firing, the list has as many of the next additions passed over as the firing had gone past entries |
| `Callbacks.HeardUnlessDeaf` | src/main/webapp/javascript/jquery-1.10.2.js:3047-3098 | callbacks added during a firing are all called by it if and only if `firingIndex` is within the list; otherwise it passes over the first of them, up to and with that position |
| `CallbackQueue.EmptyThenAddIsNotHeard` | src/main/webapp/javascript/jquery-1.10.2.js:3126-3130 | a run in which a callback empties the list and adds another, which is then not called |
| `CallbackQueue.StepInv` | src/main/webapp/javascript/jquery-1.10.2.js:3069-3164 | every single operation keeps the queue invariant |
| `Callbacks.CallbackList.Add` | src/main/webapp/javascript/jquery-1.10.2.js:3069-3098 | the index arithmetic refines the queue: appended callbacks join a firing in progress, or are called with the remembered data |
| `Callbacks.CallbackList.Push` | src/main/webapp/javascript/jquery-1.10.2.js:3073-3085 | arguments are appended in order, without those already there when the list is unique |
| `Callbacks.CallbackList.Remove` | src/main/webapp/javascript/jquery-1.10.2.js:3100-3118 | each callback loses all its occurrences; the cursor fix-ups never skip or repeat another one |
| `Callbacks.CallbackList.SpliceOut` | src/main/webapp/javascript/jquery-1.10.2.js:3103-3115 | the loop of splices keeps the cursor on the same callback and `firingLength` equal to the length of the list |
| `Callbacks.CallbackList.FireWith` | src/main/webapp/javascript/jquery-1.10.2.js:3153-3164 | a fire is ignored, queued behind the one in progress or started, as the queue says; over runs that means `FiresInOrder` and `EveryFireOnce` |
| `Callbacks.CallbackList.FireNow` | src/main/webapp/javascript/jquery-1.10.2.js:3040-3046 | fire() sets up a firing that goes through the list from the given start |
| `Callbacks.CallbackList.Loop` | src/main/webapp/javascript/jquery-1.10.2.js:3047-3052 | one step of the firing loop calls the next occurrence due or ends the loop |
| `Callbacks.CallbackList.AfterLoop` | src/main/webapp/javascript/jquery-1.10.2.js:3053-3065 | after the loop the next queued fire starts, or a memory list is cleared, or the list is disabled |
| `Callbacks.CallbackList.Return` | src/main/webapp/javascript/jquery-1.10.2.js:3047-3052 | when a callback returns, the queue goes on, or stops on false |
| `Callbacks.CallbackList.Empty` | src/main/webapp/javascript/jquery-1.10.2.js:3126-3130 | the list and the rest of the firing go; a disabled list becomes usable again |
| `Callbacks.CallbackList.Disable` | src/main/webapp/javascript/jquery-1.10.2.js:3132-3135 | list, queued fires and memory go together |
| `Callbacks.CallbackList.Lock` | src/main/webapp/javascript/jquery-1.10.2.js:3141-3147 | no more fires; without memory the list is disabled |
| `Deferreds.CallbacksOnceInOrder` | src/main/webapp/javascript/jquery-1.10.2.js:3180-3265 | after every run, re-entrant calls included: pending means no callback ran; once settled, those of the other side never run, and the user callbacks of the settled side run once each in registration order, all with what the first resolve or reject passed; all of them have run whenever no call is in progress |
| `Deferreds.SettledForGood` | src/main/webapp/javascript/jquery-1.10.2.js:3230-3253 | a Deferred leaves pending at the first resolve or reject and never changes again; it is pending if and only if neither was called |
| `Progress.ProgressRun` | src/main/webapp/javascript/jquery-1.10.2.js:3230-3253 | over every run the progress list is a callback list with memory that the notifies fire, registrations add to, and the first resolve or reject locks |
| `Progress.SettledIgnoresNotify` | src/main/webapp/javascript/jquery-1.10.2.js:3244-3252 | once the first resolve or reject has come, notify changes nothing at all |
| `Progress.NeverNotified` | src/main/webapp/javascript/jquery-1.10.2.js:3244-3252 | settled before it was ever notified, a Deferred has a disabled progress list and never calls a progress callback |
| `Progress.SettledRepeats` | src/main/webapp/javascript/jquery-1.10.2.js:3244-3252 | otherwise a progress callback registered after the settling is called at once with what was notified last |
| `Progress.PendingProgress` | src/main/webapp/javascript/jquery-1.10.2.js:3230-3253 | while pending, the list holds every progress callback registered, in order, and the data they are called with is that of each notify in turn, and the last again for one registered between firings |
| `Progress.NotifyCallsAll` | src/main/webapp/javascript/jquery-1.10.2.js:3247-3252 | a notify between firings calls each progress callback registered by then once, in order, with its data |
| `Progress.ProgressCallsAll` | src/main/webapp/javascript/jquery-1.10.2.js:3247-3252 | every progress firing that has ended, before or after the settling, has called all it was offered, each once and in order |
| `Deferreds.DoSound` | src/main/webapp/javascript/jquery-1.10.2.js:3180-3265 | every action keeps the agreement between status, the three lists, the callbacks registered so far and the act that settled it |
| `Deferreds.FirstSettlingIs` | src/main/webapp/javascript/jquery-1.10.2.js:3230-3253 | that act is the first resolve or reject of the run, and stays it |
| `Deferreds.RunSound` | src/main/webapp/javascript/jquery-1.10.2.js:3180-3265 | hence it holds after every run |
| `Deferreds.ResolvePending` | src/main/webapp/javascript/jquery-1.10.2.js:3237-3252 | the first resolve sets the status, disables the fail list, locks the progress list as `Queue.Lock` does, in this order, before any user callback, and its data is what they are called with |
| `Deferreds.RejectPending` | src/main/webapp/javascript/jquery-1.10.2.js:3237-3252 | the first reject does the same for the fail list, and disables the done list |
| `Deferreds.Deferred.Resolve` | src/main/webapp/javascript/jquery-1.10.2.js:3247-3252 | over three real callback lists, resolving does what the action on the abstract promise does; for the progress list that means `SettledIgnoresNotify` and `NeverNotified` |
| `Deferreds.Deferred.Reject` | src/main/webapp/javascript/jquery-1.10.2.js:3247-3252 | the same for rejecting |
| `Deferreds.Deferred.Done` | src/main/webapp/javascript/jquery-1.10.2.js:3229-3235 | the same for registering on the done side, before, during or after settling |
| `Deferreds.Deferred.DoneReturns` | src/main/webapp/javascript/jquery-1.10.2.js:3047-3065 | the same for the return of a user callback |
| `Whens.When.constructor` | src/main/webapp/javascript/jquery-1.10.2.js:3268-3317 | for any arguments, some perhaps settled already, the setup ends with `remaining` counting the unresolved subordinates and the master settled just as they demand; a single promise is the master itself |
| `Whens.When.Attach` | src/main/webapp/javascript/jquery-1.10.2.js:3294-3309 | the setup loop over the arguments keeps the count and loses no subordinate that settles during it |
| `Whens.When.Update` | src/main/webapp/javascript/jquery-1.10.2.js:3279-3290 | a resolving subordinate stores its value at its own index, lowers the count by one, and resolves the master exactly at zero |
| `Whens.When.SubordinateResolves` | src/main/webapp/javascript/jquery-1.10.2.js:3279-3290 | in any order of settling, the master resolves only when every subordinate has, with the values in argument order, and never when one has been rejected |
| `Whens.When.SubordinateRejects` | src/main/webapp/javascript/jquery-1.10.2.js:3299-3304 | the first rejection rejects the master with its reason, later ones change nothing |
| `Whens.UnresolvedZero` | src/main/webapp/javascript/jquery-1.10.2.js:3286-3288 | the count is zero if and only if all subordinates have resolved |
| `Whens.UnresolvedStep` | src/main/webapp/javascript/jquery-1.10.2.js:3286-3288 | settling one subordinate lowers the count by one if it resolves and not at all if it does not |
| `FxQueues.FxQueue.Enqueue` | src/main/webapp/javascript/jquery-1.10.2.js:3969-3993 | a function is appended, and started at once exactly when nothing is in progress |
| `FxQueues.FxQueue.Next` | src/main/webapp/javascript/jquery-1.10.2.js:3928-3936 | a running function that calls next starts the following one in enqueue order, or lets the queue drain |
| `FxQueues.FxQueue.Dequeue` | src/main/webapp/javascript/jquery-1.10.2.js:3921-3952 | at most one sentinel, only at the head; functions start in enqueue order, each at most once, none before its predecessor has called next |
| `Throttles.ExceedsIff` | src/main/java/com/gionee/cas/throttle/RedisThrottledSubmissionByIpHandlerInterceptorAdapter.java:153-176 | for a clock that does not go back, the rate test in doubles (taken as reals) refuses exactly the attempts d ms after the last failure with d * T < 1000 * R |
| `Throttles.FailuresInWindow` | src/main/java/com/gionee/cas/throttle/RedisThrottledSubmissionByIpHandlerInterceptorAdapter.java:101-193 | in every state the throttle can reach with R at least one, any window of L milliseconds holds at most L*T/(1000*R) + 1 recorded failures of a session, however often the sweeper has deleted its record; with T = 0 as many as with T = 1 |
| `Throttles.WindowBound` | src/main/java/com/gionee/cas/throttle/RedisThrottledSubmissionByIpHandlerInterceptorAdapter.java:153-176 | the bound for any list of times spaced as the gate spaces them |
| `Throttles.SpacesAddUp` | src/main/java/com/gionee/cas/throttle/RedisThrottledSubmissionByIpHandlerInterceptorAdapter.java:158-193 | failures i and j of a session are at least (j - i) * 1000 * R / T milliseconds apart, with T = 0 as with T = 1 |
| `Throttles.AdmittedSpaced` | src/main/java/org/jasig/cas/web/support/AbstractThrottledSubmissionHandlerInterceptorAdapter.java:61-77 | a request that passes the gate is far enough from the last recorded failure, also when the sweep has deleted its record meanwhile; with T = 0 and R > 0 more than the range |
| `Throttles.HistoryGrows` | src/main/java/com/gionee/cas/throttle/RedisThrottledSubmissionByIpHandlerInterceptorAdapter.java:179-193 | recording a failure keeps the spacing of all recorded failures of every session |
| `Throttles.HistorySwept` | src/main/java/com/gionee/cas/throttle/RedisThrottledSubmissionByIpHandlerInterceptorAdapter.java:101-126 | a sweep keeps it, although it deletes records |
| `Throttles.DrainsInExactly` | src/main/java/com/gionee/cas/throttle/RedisThrottledSubmissionByIpHandlerInterceptorAdapter.java:101-126 | sweeps later than R seconds after the record's date lower its count by one each, keep the date, and delete it after exactly as many as its count |
| `Throttles.FlagDrainsWithRecord` | src/main/java/com/gionee/cas/throttle/RedisThrottledSubmissionByIpHandlerInterceptorAdapter.java:101-126 | and its captcha flag goes in the same sweep as the record, no earlier and no later |
| `Throttles.FreshUntouched` | src/main/java/com/gionee/cas/throttle/RedisThrottledSubmissionByIpHandlerInterceptorAdapter.java:101-126 | a sweep within R seconds leaves the record as it is, whatever the others |
| `Throttles.RealKeyIff` | src/main/java/com/gionee/cas/throttle/RedisThrottledSubmissionByIpHandlerInterceptorAdapter.java:142-144 | taking the prefix off a key gives the id back if and only if the id does not contain the prefix itself |
| `Throttles.EraseShortens` | src/main/java/com/gionee/cas/throttle/RedisThrottledSubmissionByIpHandlerInterceptorAdapter.java:142-144 | erasing changes a text, and shortens it, if and only if the target occurs in it |
| `Throttles.FlagsBackedIff` | src/main/java/com/gionee/cas/throttle/RedisThrottledSubmissionByIpHandlerInterceptorAdapter.java:142-193 | for every configuration and every set of session ids: in all runs of posts judged, failing or ending otherwise, sweeps and logins, in any interleaving, a flagged id has a record, if and only if none of the ids contains the prefix, or the threshold is zero and the range positive |
| `Throttles.FlagMeansRecord` | src/main/java/com/gionee/cas/throttle/RedisThrottledSubmissionByIpHandlerInterceptorAdapter.java:101-126 | when no recorded id contains the prefix, a flag means a record |
| `Throttles.ForeignFlag` | src/main/java/com/gionee/cas/throttle/RedisThrottledSubmissionByIpHandlerInterceptorAdapter.java:179-193 | for every id that contains the prefix, its failures, as close as the gate admits, set the flag of another id that has no record |
| `Throttles.NothingFlagged` | src/main/java/com/gionee/cas/throttle/RedisThrottledSubmissionByIpHandlerInterceptorAdapter.java:158-193 | with a zero threshold and a positive range no run ever sets a flag, and no record counts more than one failure |
| `Throttles.RunOwned` | src/main/java/com/gionee/cas/throttle/RedisThrottledSubmissionByIpHandlerInterceptorAdapter.java:101-193 | in every run each flag goes back to the record of some session |
| `Throttles.SweptOwned` | src/main/java/com/gionee/cas/throttle/RedisThrottledSubmissionByIpHandlerInterceptorAdapter.java:101-126 | a sweep keeps every flag backed by a record |
| `Throttles.Throttle.PreHandle` | src/main/java/org/jasig/cas/web/support/AbstractThrottledSubmissionHandlerInterceptorAdapter.java:61-77 | only posts are judged, and refused exactly when the record's rate exceeds the threshold rate |
| `Throttles.Throttle.PostHandle` | src/main/java/org/jasig/cas/web/support/AbstractThrottledSubmissionHandlerInterceptorAdapter.java:80-94 | a failed post is recorded and keeps all invariants, a redirect or other success is not |
| `Throttles.Throttle.Abandon` | src/main/java/org/jasig/cas/web/support/AbstractThrottledSubmissionHandlerInterceptorAdapter.java:61-94 | a request whose handler threw leaves everything as it was, and the session may go on |
| `Throttles.Throttle.RecordSubmissionFailure` | src/main/java/com/gionee/cas/throttle/RedisThrottledSubmissionByIpHandlerInterceptorAdapter.java:179-193 | the count goes up by one with the new date; over runs, `FlaggedIff` and `FailuresCount` say when the flag is set |
| `Throttles.FlaggedIff` | src/main/java/com/gionee/cas/throttle/RedisThrottledSubmissionByIpHandlerInterceptorAdapter.java:101-193 | in every run a key is flagged if and only if some failure left its session, or one whose id becomes that key without the prefix, with a count of at least two and of at least the threshold, and no login and no sweep that deletes such a record has taken the flag off since |
| `Throttles.FailuresCount` | src/main/java/com/gionee/cas/throttle/RedisThrottledSubmissionByIpHandlerInterceptorAdapter.java:179-193 | k failures in a row, as close as the gate admits, leave a count of k, and the flag and no other if and only if k is at least two and at least the threshold |
| `Throttles.Throttle.DecrementCounts` | src/main/java/com/gionee/cas/throttle/RedisThrottledSubmissionByIpHandlerInterceptorAdapter.java:101-126 | the loop over all keys sweeps every record and flag as `Swept` says and touches nothing else |
| `Throttles.Throttle.SweepOne` | src/main/java/com/gionee/cas/throttle/RedisThrottledSubmissionByIpHandlerInterceptorAdapter.java:101-126 | one stale record is lowered, or deleted with its flag |
| `Throttles.Throttle.DetermineShowCaptcha` | src/main/java/com/gionee/cas/webflow/CaptchaEvaluator.java:13-21 | the captcha is shown exactly when the id has text and the flag is set, and then the session has a record with a count of at least one, unless some id contains the prefix |
| `Throttles.Throttle.ClearAfterLoginSuccess` | src/main/java/com/gionee/cas/webflow/CaptchaEvaluator.java:23-26 | a successful login removes this session's flag only |
| `ForgetFlow.Flow.Proceed` | src/main/webapp/WEB-INF/webflow/forget/forget-webflow.xml:8-87 | over the transition table: a password is reset only from the password page, for the user whose submitted value was compared equal last, and that user stays in scope; the flow ends successfully with no stored value for the user; texts stay two minutes apart; no field read without a null check is missing |
| `ForgetFlow.TransitionsOf` | src/main/webapp/WEB-INF/webflow/forget/forget-webflow.xml:8-87 | a decision has its two answers, an action its two events, a page its own buttons, and the end state nothing |
| `ForgetFlow.WrongLeadsBack` | src/main/webapp/WEB-INF/webflow/forget/forget-webflow.xml:8-87 | what is submitted and found wrong leads back to the page it was submitted on, from every action on the way |
| `ForgetFlow.RightLeadsOn` | src/main/webapp/WEB-INF/webflow/forget/forget-webflow.xml:8-87 | the link, the mail and the text message lead to the end in these steps |
| `ForgetFlow.OtherButtons` | src/main/webapp/WEB-INF/webflow/forget/forget-webflow.xml:24-63 | the two first pages lead to each other, and the page of the code can be asked to send again |
| `ForgetFlow.WaysToChangePage` | src/main/webapp/WEB-INF/webflow/forget/forget-webflow.xml:8-87 | the password page is entered from a valid link, from a right code and from a failed reset only |
| `ForgetFlow.Flow.Signal` | src/main/webapp/WEB-INF/webflow/forget/forget-webflow.xml:8-87 | a user event follows the table or is ignored; it compares nothing, resets nothing and cannot change the user in scope |
| `ForgetFlow.Flow.Evaluate` | src/main/webapp/WEB-INF/webflow/forget/forget-webflow.xml:8-87 | every event an action yields has a transition, and its target finds the fields it needs in flow scope |
| `ForgetFlow.Flow.Enter` | src/main/webapp/WEB-INF/webflow/forget/forget-webflow.xml:8-87 | entering the SMS page sends a text if and only if two minutes have passed since the last |
| `ForgetFlow.Flow.SendConfirmMail` | src/main/java/org/jasig/cas/web/flow/ForgetAction.java:154-188 | the code is stored before the mail goes out, and stays stored when sending fails late |
| `ForgetFlow.Flow.SendConfirmSMS` | src/main/java/org/jasig/cas/web/flow/ForgetAction.java:195-209 | the clock is read before the test and again for the record of the last text |
| `ForgetFlow.Flow.CheckUsernameAndEmail` | src/main/java/org/jasig/cas/web/flow/ForgetAction.java:96-117 | succeeds exactly for well-formed parameters of a known user, and only then puts them in scope |
| `ForgetFlow.Flow.CheckUsernameAndPhone` | src/main/java/org/jasig/cas/web/flow/ForgetAction.java:125-146 | the same with a phone number |
| `ForgetFlow.Flow.ValidateConfirmURL` | src/main/java/org/jasig/cas/web/flow/ForgetAction.java:217-230 | succeeds exactly when the link's value equals the stored one of the link's user, who then is the user in scope |
| `ForgetFlow.Flow.ValidateSMS` | src/main/java/org/jasig/cas/web/flow/ForgetAction.java:238-257 | succeeds exactly when the submitted code equals the stored one of the user in scope |
| `ForgetFlow.Flow.ChangePassword` | src/main/java/org/jasig/cas/web/flow/ForgetAction.java:265-292 | the reset is called exactly for two equal non-empty passwords; the stored value is removed exactly on success |
| `ForgetFlow.ResetsChecked` | src/main/java/org/jasig/cas/web/flow/ForgetAction.java:265-292 | earlier comparisons go on covering earlier resets as both lists grow |
| `ForgetFlow.KeysDiffer` | src/main/java/org/jasig/cas/web/flow/ForgetAction.java:265-292 | different users have different keys in the store |
| `EventHandlers.HandlerList.Add` | src/main/webapp/javascript/jquery-1.10.2.js:4832-4837 | splice or push keeps the delegated handlers in front, each kind in registration order |
| `EventHandlers.HandlerList.Remove` | src/main/webapp/javascript/jquery-1.10.2.js:4881-4908 | the handlers left keep their order and number: those of another guid when one is given, of another type unless mapped, outside a given namespace, with another selector than the given one, and for `**` the direct ones; all others are gone; delegated ones are still counted by `delegateCount` and in front |
| `EventHandlers.LeftMeans` | src/main/webapp/javascript/jquery-1.10.2.js:4883-4887 | so for the list before and the list after, on every list and every removal |
| `EventHandlers.PartitionMeans` | src/main/webapp/javascript/jquery-1.10.2.js:4832-4837 | the front part has the handlers with a selector and the back part those with none or an empty one, each as often and in the order they were added |
| `EventHandlers.HandlerList.RemoveHits` | src/main/webapp/javascript/jquery-1.10.2.js:4881-4908 | the downward loop of splices leaves the survivors of both parts in order, with the count of the front part |
| `EventHandlers.LeftPartition` | src/main/webapp/javascript/jquery-1.10.2.js:4881-4908 | removing and splitting by kind commute |
| `EventHandlers.Handlers` | src/main/webapp/javascript/jquery-1.10.2.js:5115-5162 | for a bubbling event the queue is the matching delegated handlers, element by element from the target up, then the direct handlers |
| `EventHandlers.DelegatedEntries` | src/main/webapp/javascript/jquery-1.10.2.js:5121-5154 | the walk from the target up lists an entry for each eligible element with some matching handler |
| `EventHandlers.PathSteps` | src/main/webapp/javascript/jquery-1.10.2.js:5127 | the path holds the target and the nodes above it, from one to the next, up to but without the owner, or to the topmost |
| `EventHandlers.MatchingOrder` | src/main/webapp/javascript/jquery-1.10.2.js:5133-5148 | the matching handlers of one element keep the order of the list |
| `EventHandlers.MatchesOf` | src/main/webapp/javascript/jquery-1.10.2.js:5133-5148 | the matching handlers of one element, in registration order, each selector asked once |
| `EventHandlers.EachPairOnce` | src/main/webapp/javascript/jquery-1.10.2.js:5121-5154 | each pair of an eligible element on the path and a delegated handler that matches it is in the queue, in one entry only and there as often as the handler is bound, inner elements first, and no other pair is |
| `EventHandlers.EntriesDescend` | src/main/webapp/javascript/jquery-1.10.2.js:5127-5153 | entries come strictly from inner to outer elements |
| `EventHandlers.Dispatch` | src/main/webapp/javascript/jquery-1.10.2.js:5080-5105 | the handlers run are a prefix of the queue, cut exactly where a stop flag demands: at once if the event comes stopped, after the call for an immediate stop, after the rest of the element for a plain one |
| `EventHandlers.CallsOfMeans` | src/main/webapp/javascript/jquery-1.10.2.js:5084-5090 | the calls of one entry are those of its handlers in order, each as often as it stands there, and for an event with a namespace of those in it only |
| `EventHandlers.RunEntry` | src/main/webapp/javascript/jquery-1.10.2.js:5084-5104 | the inner loop runs the handlers of one element until an immediate stop |
| `EventHandlers.StoppedBetween` | src/main/webapp/javascript/jquery-1.10.2.js:5080-5105 | cutting at the end of an element's handlers is cutting the whole list of calls at the right place |
| `Tokenizer.Lossless` | src/main/webapp/javascript/jquery-1.10.2.js:2398-2463 | comma texts and token values in order, followed by what is left over, are the input |
| `Tokenizer.ScanLossless` | src/main/webapp/javascript/jquery-1.10.2.js:2398-2463 | the same for any rest of the input in the middle of a group |
| `Tokenizer.GroupInSource` | src/main/webapp/javascript/jquery-1.10.2.js:2465-2473 | on success the text of each group is its source substring |
| `Tokenizer.GroupsLed` | src/main/webapp/javascript/jquery-1.10.2.js:2411-2420 | every group after the first stands where a comma is seen and has taken it, unless that would leave nothing, and no comma is seen between the rounds of one group |
| `Tokenizer.RoundSees` | src/main/webapp/javascript/jquery-1.10.2.js:2424-2447 | the tokens of a round are a combinator, if one is seen, and then what each filter finds where the one before ends, in the order of the filters |
| `Tokenizer.Tokenize` | src/main/webapp/javascript/jquery-1.10.2.js:2398-2463 | the loop computes the tokenization and ends: each round that matches shortens the rest; with `parseOnly` it returns the length left over |
| `Tokenizer.OneRound` | src/main/webapp/javascript/jquery-1.10.2.js:2411-2451 | one round of comma, combinator and filters consumes a non-empty prefix or is the last |
| `Tokenizer.RunFilters` | src/main/webapp/javascript/jquery-1.10.2.js:2435-2447 | one pass over the filter types takes a token of each that matches, in order |
| `Tokenizer.ToSelector` | src/main/webapp/javascript/jquery-1.10.2.js:2465-2473 | the loop joins the token values |
| `TokenCaches.Cache.Store` | src/main/webapp/javascript/jquery-1.10.2.js:1298-1310 | the new entry is stored, no other changes but the evicted one, and the cache keeps distinct keys equal to its domain, at most fifty, the most recent ones, if and only if the key was missing or is the one being evicted |
| `TokenCaches.StoredKeys` | src/main/webapp/javascript/jquery-1.10.2.js:1298-1310 | the keys stay distinct if and only if the inserted one was missing or is the one shifted out |
| `TokenCaches.StoredHistory` | src/main/webapp/javascript/jquery-1.10.2.js:1298-1310 | the kept keys are the last fifty inserted |
| `TokenCaches.MembersAfter` | src/main/webapp/javascript/jquery-1.10.2.js:1298-1310 | a key is kept exactly when it is the new one or an old one that is not shifted out |
| `TokenCaches.Engine.CachedTokenize` | src/main/webapp/javascript/jquery-1.10.2.js:2398-2463 | with any cache content the answer is the tokenization, in a list of its own that no cache entry shares; it fails exactly when some text is left over |
| `TokenCaches.Engine.Excess` | src/main/webapp/javascript/jquery-1.10.2.js:2398-2463 | with `parseOnly` it is the length of what is left over, zero on a hit, and the cache stays as it is |
| `TokenCaches.Engine.Remember` | src/main/webapp/javascript/jquery-1.10.2.js:2457-2462 | every cached list stays the tokenization of its key |
| `TokenCaches.Engine.Narrow` | src/main/webapp/javascript/jquery-1.10.2.js:2845-2895 | the in-place shift and splice in select leave every cached list as it was; select stops early exactly when the context is missing, or a seed was looked up that is empty or needs no filter; else what remains of the tokens spells the selector they are compiled under |
| `TokenCaches.NarrowList` | src/main/webapp/javascript/jquery-1.10.2.js:2850-2894 | cutting the id's text off the selector and shifting its token agree, and the two early returns are taken exactly when they should be |
| `TokenCaches.NarrowedUnseeded` | src/main/webapp/javascript/jquery-1.10.2.js:2849-2894 | a group that gives no seed, or whose rest needs its context, loses a looked-up id at most, and its text is compiled |
| `TokenCaches.NarrowedSeeded` | src/main/webapp/javascript/jquery-1.10.2.js:2866-2893 | a group whose token i gives the seed loses just that token as well; the search ends if the seed is empty or nothing is left, and else goes on with the text of what is left |
| `TokenCaches.SeedToken` | src/main/webapp/javascript/jquery-1.10.2.js:2866-2893 | the downward loop finds the last token after the last combinator that has a seed, or none where there is none |
| `TokenCaches.OneGroupText` | src/main/webapp/javascript/jquery-1.10.2.js:2845-2851 | the one group of a selector without commas spells the whole selector |
| `ClassNames.Element.AddClass` | src/main/webapp/javascript/jquery-1.10.2.js:4082-4119 | as lists of names: exactly the missing ones are appended, once each and in order, then white characters at the two ends of the string go; the edit is the list edit if and only if those ends are clean; nothing changes for other nodes or an empty value |
| `ClassNames.Element.RemoveClass` | src/main/webapp/javascript/jquery-1.10.2.js:4121-4157 | as lists of names: every occurrence of each given name goes, the others keep their order, then as for addClass; without an argument the string is emptied |
| `ClassNames.Element.HasClass` | src/main/webapp/javascript/jquery-1.10.2.js:4205-4216 | for a name, or a text with a tab or line end, it is membership in the list of names; for any text it is a search in the padded string |
| `ClassNames.HasClassIff` | src/main/webapp/javascript/jquery-1.10.2.js:4205-4216 | the search is membership on every class string if and only if the selector is a name or holds a tab or line end |
| `ClassNames.RemoveAllOf` | src/main/webapp/javascript/jquery-1.10.2.js:4146-4149 | the shrinking replace loop ends and leaves the list of names without this one |
| `ClassNames.RemoveAt` | src/main/webapp/javascript/jquery-1.10.2.js:4147-4148 | one replacement shortens the string and removes one occurrence of the name only |
| `ClassNames.AppendMissing` | src/main/webapp/javascript/jquery-1.10.2.js:4105-4111 | the loop appends the names not found in the padded string, seeing those it has appended itself |
| `ClassNames.AddMissingMeans` | src/main/webapp/javascript/jquery-1.10.2.js:4105-4111 | that is: the old names stay in front, behind them come the new ones that were not there, each once, in the order of their first places in the argument |
| `ClassNames.DropAllMeans` | src/main/webapp/javascript/jquery-1.10.2.js:4144-4150 | dropping names works on each name by itself: it stays where it stands if and only if it is not among those to drop |
| `ClassNames.OccursIffMember` | src/main/webapp/javascript/jquery-1.10.2.js:4205-4216 | in a padded string, a name between spaces occurs if and only if it is one of the names |
| `ClassNames.WordsAround` | src/main/webapp/javascript/jquery-1.10.2.js:4147-4148 | cutting a name between two spaces out of any string removes one name, between those before and those after |
| `ClassNames.WordsJoin` | src/main/webapp/javascript/jquery-1.10.2.js:4106-4111 | the names of two strings joined by a space are those of the one, then those of the other |
| `ClassNames.BlankedWords` | src/main/webapp/javascript/jquery-1.10.2.js:4100-4103 | replacing tabs and line ends by spaces does not change the names |
| `ClassNames.Trim` | src/main/webapp/javascript/jquery-1.10.2.js:4112 | trimming takes off the white characters at the ends of the list of names, and with them a name that has no others |
| `ClassNames.StripIff` | src/main/webapp/javascript/jquery-1.10.2.js:4112 | trimming leaves a list of names as it is if and only if neither end has a white character |
| `ClassNames.NamesAreNames` | src/main/webapp/javascript/jquery-1.10.2.js:4096 | what `\S+` matches in the argument are names for the class string too, since every character of `rclass` is white |
| `ClassNames.NamesJoin` | src/main/webapp/javascript/jquery-1.10.2.js:4096 | every white character separates names of the argument, and a text without any is one name |
| `ClassNames.SpacesSplit` | src/main/webapp/javascript/jquery-1.10.2.js:4100-4103 | blanks, tabs, line feeds, carriage returns and form feeds separate the names of a class string, and nothing else does |
| `ClassNames.NotAName` | src/main/webapp/javascript/jquery-1.10.2.js:4205-4216 | an element without classes is said to have the class of empty name, and one with `a b` the class `a b` |
| `ClassNames.TabLost` | src/main/webapp/javascript/jquery-1.10.2.js:4100-4112 | a class string of a white character that `rclass` lacks and one more: adding a name leaves that one character and the name |
| `ClassNames.VerticalTab` | src/main/webapp/javascript/jquery-1.10.2.js:4100-4112 | a vertical tab before `a` is such a string, and adding `b` leaves `a` and `b` |

## Left out

- Set matching without a seed, `postFinder`, nested matchers (`:not`, `:has`) and the floating
  `dirruns` of nested runs; the model covers the runs with a seed or a list of candidates.
- SuperMatchers.SuperMatch: a seed with falsy entries is not modelled; the set matchers skip them.
- Combinators.MatcherFromTokens: the branch for a positional token, which returns a set matcher
  built from the tokens before and after it; set matchers are modelled as such.
- PreFilters.FilterAgreesIff: token lists with a `~` or descendant combinator right behind another
  combinator, which `tokenize` lets through though the grammar of selectors has none, are covered by
  `AgreesIfNoneKeeps` only; the test for the context is taken to be none of the token tests.
- SetMatchers.Apply: calls without a seed or with a `postFinder`; an array that JavaScript leaves
  shorter, or with holes, is padded to the length of the seed, as both read as falsy.
- NthChild.PositionCache.Nth: whether two elements have the same node name is a relation given
  with the document; `:first-child`, `:last-child` and `:only-child`, which use no cache, are absent.
- DocumentOrder.SortOrder: the branches with `compareDocumentPosition`, `sourceIndex` or
  disconnected nodes depend on the browser and are absent; `Array.sort` itself is assumed to sort
  and to compare any two entries that end up side by side.
- DocumentOrder.UniqueSort: the sorting itself, taken over through its precondition; the list is passed
  and returned by value.
- Deferreds.Deferred.Resolve: `then`, `always` and the chaining of promises are absent, as are
  exceptions thrown by callbacks here and in Callbacks.
- Whens.When.constructor: progress notifications; the master is kept as its status, contexts and
  values.
- Callbacks.CallbackList.Add: nested arrays of callbacks arrive flattened; the parsing of option
  strings is absent.
- FxQueues.FxQueue.Enqueue: queues of other types, delays, `clearQueue`, `stop`, the hook that
  removes an empty queue, and replacing the whole array.
- EventHandlers.HandlerList.Add: special events, data and namespaces of the stored handler beyond
  what removal and dispatch ask of them; handler lists of other types and elements are independent.
- Tokenizer.Tokenize: the regular expressions are functions that tell how much of the front they
  match, and of a combinator token only its text is kept, not which combinator it is.
- TokenCaches.Engine.Narrow: what is added to the results; the compiled-matcher cache is only
  covered by `Cache.Store`.
- ClassNames.Element.AddClass: function arguments, `toggleClass`, and the loop over the elements of a
  set; white space is that of ECMA-262 5.1, later editions leave out U+180E.
- Throttles.ExceedsIff: the rounding of doubles; the rate is a quotient of reals.
- Throttles.Throttle.DecrementCounts: other requests between reading the keys and the records; the
  sweep is one step.  The scheduling of the sweeper is absent.
- Throttles.Throttle.RecordSubmissionFailure: a LoginRecord is a value, since the store keeps
  serialised copies; its user name and address fields are absent.
- ForgetFlow.Flow.SendConfirmMail: the text of the mail and the link in it; flash messages of all
  actions.
- Snapshots of the flow made by the browser's back button, and two requests of one session at a time.
- Ticket registry, JWT and REST services, JDBC handlers, encoders, configuration and pages.
