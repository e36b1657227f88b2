# Models of the sample-graphs scripts and of SNMP counter deltas

This project states and proves what the stateful core of the repository promises. Most of that core is in two
checked-in scripts, jQuery 1.9.1 and jQuery UI 1.10.3; one arithmetic class is Java. `dafny verify dfyconfig.toml`
checks everything.

**Selector engine** (`Selectors`, `SelectorText`, `SearchRoots`, `Matchers`, `Sizzle`, `SetMatchers`,
`EarlierResults`, `NthChild`, `DocumentOrder`). A document is a finite numbering of nodes with parents and previous
siblings, a simple selector is any fixed test on nodes. `Selectors` says declaratively which elements a chain of
compounds and combinators accepts: elements can be assigned to all compounds so that every combinator relates its
neighbours. `SelectorText` writes selectors as the token lists that are compiled, and `SearchRoots` says what a search
is tied to. `Matchers` has the compiled matchers and the search they stand for, without caches. `Sizzle` has the
compiler and the matcher as they are, with `done`, `dirruns`, `cachedruns` and a cache entry per node and direction
that walks overwrite. The main results are `Engine.MatcherFromTokens` (compilation preserves meaning) and
`SuperMatcher.Run` (over any sequence of elements, with whatever the caches hold, the accepted elements are selected).
`SetMatchers` has the positional selectors, which move elements between two JavaScript arrays, `NthChild` the child
index caches, and `DocumentOrder` the fallback comparison and the removal of duplicates. `EarlierResults` has what
becomes of positional selectors that share an array with the results of earlier ones.

**Callbacks** (`Callbacks`, `CallbackRuns`, `CallbackPromises`, `Deferreds`, `DeferredFires`, `DeferredProgress`,
`Whens`). `Callbacks` has the list as it is kept, an array with two indices that `add` and `remove` repair under a
running fire, and the list as its users see it, without indices; the class is proved equal to the latter. What a
callback does when it is called is given by a script, any sequence of operations for each invocation, so that every
re-entrant run is covered. `CallbackRuns.EveryLife` is the main result about batches; `CallbackPromises` has what
fires, memory, once, unique, stopOnFalse, locks and disabling mean for the calls that a list makes. `Deferreds` wires
three lists into a promise and proves what every run of it keeps, where an event is a call from outside or from inside
a running callback, or the return of one; `DeferredFires` ties its fires to the verified list, `DeferredProgress` has
notifications, and `Whens` has the counting barrier.

**Node data, event handlers and the fx queue** (`DataIds`, `DataLaws`, `EventHandlers`, `EventLaws`, `Namespaces`,
`FxQueue`). `DataIds` proves that numbering nodes through a free list is invisible: through any run of operations,
with `cleanData` entered again by `event.remove`, each node finds what a plain map from nodes to data would hold;
`DataLaws` says what is read after what was written. `Namespaces` reads the regular expression of `event.remove` as it
matches strings and proves that it selects by inclusion. `EventHandlers` keeps delegates in front of direct handlers,
and its dispatch climbs over the parent links of a document; `EventLaws` says what a removal takes and what a dispatch
runs. `FxQueue` compares the queue with its sentinel, entered again by the steps it runs, with a reference that only
counts, and proves that every call of every step that starts is made.

**Dates and colours** (`Calendar`, `Decimal`, `DateLanguage`, `FormatText`, `DateMeaning`, `DateRoundTrip`, `Hsl`). A
date is a day number of the proleptic Gregorian calendar; colours are exact reals. `FormatText` gives the language of
formats, `DateMeaning` what its letters print and what a parse finds. The main results are `DateRoundTrip.RoundTrip`,
the lemmas about ISO weeks, and the two colour round trips with the exact bound of what rounding the hue costs.

**Counters** (`Counters`). When the guess between a 32-bit and a 64-bit wrap is right, and what sums of deltas mean.

`Arithmetic` and `Wrappers` hold what several modules use.

## Where the code does less than it promises

- On a given seed, a positional selector with a filter behind it and none in front applies that filter to the results
  of other selectors too, because they share the array (lines 5197-5225 of jquery-1.9.1.js). The selectors of a list run
  from the last to the first, so that this can happen in `:last.y, x:first`, where `SetMatchers.EarlierMatchLost` gives
  an earlier match that is taken back, and in `:last:first, x:first`, where `EarlierResults.ChosenRefused` gives a
  chosen element that is refused because an earlier result takes its position. `EarlierResults.WhenRight` says when
  every index ends right, `PlainBehind` when a plain filter stands behind, and `RightOnAll` which selectors are right on
  all arrays.
- The fallback `sortOrder` puts the root of a detached tree after its own descendants (lines 4313-4318): the branch for
  parentless nodes only knows the document. `DocumentOrder.SortOrder` says exactly which comparisons follow document
  order. The order is strict and total either way.
- A number printed without padding is read back wrongly exactly when it is shorter than its field and a digit follows
  (`DateRoundTrip.NumberReadBack`), and a two-digit year exactly when it lies outside its window
  (`DateRoundTrip.TwoDigitWindow`).
- `formatDate` prints the wrong day of the year for dates in the year 0 from March on, because the constructor of Date
  takes the year for 1900, which is no leap year (`Calendar.DayOfYearRoundTrip`).
- `CounterValue.delta` loses exactly 2^64 - 2^32 events when a 64-bit counter wraps within a step of at least that
  size (`Counters.MistakenWidth`); an earlier sample that is passed as a plain number goes through a signed 64-bit value
  first (`Counters.PlainNumber`).

## Model

| member | source | states |
|---|---|---|
| `Selectors.AcceptsRoot` | sample-graphs/src/main/resources/html/jquery/jquery-1.9.1.js:5271-5288 | A selector without compounds accepts exactly the elements that its first combinator ties to the context; without a leading combinator it accepts everything, unless the context is the outermost one of an HTML document. |
| `Selectors.AcceptsSimple` | sample-graphs/src/main/resources/html/jquery/jquery-1.9.1.js:5294-5314 | One more simple selector at the end accepts what was accepted and passes the new filter too. |
| `Selectors.AcceptsRelative` | sample-graphs/src/main/resources/html/jquery/jquery-1.9.1.js:5290-5292 | One more combinator at the end accepts the elements that stand in its relation to some accepted element: the combinator semantics of section 8 of CSS Selectors Level 3, one step at a time, both directions. |
| `SearchRoots.CombinatorsMean` | sample-graphs/src/main/resources/html/jquery/jquery-1.9.1.js:4551-4556 | An element has at most one parent and one adjacent predecessor; descendants are the children and theirs in turn, later siblings the adjacent elements and theirs in turn. |
| `SearchRoots.SelectedAnywhere` | sample-graphs/src/main/resources/html/jquery/jquery-1.9.1.js:5283-5286 | In XML, and from the document, an outermost match selects what the selector describes wherever it stands. |
| `SearchRoots.SelectedBelow` | sample-graphs/src/main/resources/html/jquery/jquery-1.9.1.js:5283-5288 | From any other context, exactly where the first element of the selector is a descendant of the context. |
| `SearchRoots.OnlyBelow` | sample-graphs/src/main/resources/html/jquery/jquery-1.9.1.js:5283-5288 | Whatever the combinators, nothing outside the context is then selected. |
| `SearchRoots.CheckSkipped` | sample-graphs/src/main/resources/html/jquery/jquery-1.9.1.js:5339-5342 | Leaving the check out at the document changes nothing for elements below it. |
| `SelectorText.ParseTokens` | sample-graphs/src/main/resources/html/jquery/jquery-1.9.1.js:5269-5319 | A token list is read as the selector it is the text of: combinator in front, filters of each compound, combinators between. |
| `SelectorText.TokensParse` | sample-graphs/src/main/resources/html/jquery/jquery-1.9.1.js:5269-5319 | Every token list is the text of one selector and of no other. |
| `Matchers.WalkFinds` | sample-graphs/src/main/resources/html/jquery/jquery-1.9.1.js:5091-5119 | An uncached walk from a node, along parents or previous siblings, succeeds iff some node in the relation of its combinator satisfies the inner matcher. |
| `Matchers.NamesAreUnique` | sample-graphs/src/main/resources/html/jquery/jquery-1.9.1.js:5092-5094 | No two walks of one compiled matcher have the same `doneName`, so a cache key names one walk. |
| `Matchers.OneMoreFilter` | sample-graphs/src/main/resources/html/jquery/jquery-1.9.1.js:5141-5153 | A list of matchers holds of an element iff every one of them does, whatever the order they are tried in. |
| `Matchers.MeansRoot` | sample-graphs/src/main/resources/html/jquery/jquery-1.9.1.js:5276-5288 | The foundational matcher means the empty selector, with or without a leading combinator, in every scope. |
| `Matchers.MeansSimple` | sample-graphs/src/main/resources/html/jquery/jquery-1.9.1.js:5294-5314 | Pushing a filter keeps the meaning: the matcher accepts what the longer selector accepts, for every document, context and filter. |
| `Matchers.MeansRelative` | sample-graphs/src/main/resources/html/jquery/jquery-1.9.1.js:5290-5292 | Wrapping the matchers so far in a combinator keeps the meaning, with all the backtracking over mixed combinators that the declarative reading allows. |
| `Sizzle.OthersUndisturbed` | sample-graphs/src/main/resources/html/jquery/jquery-1.9.1.js:5109-5130 | Running some walks leaves the cache entries of every other walk as they were. |
| `Sizzle.OpenEntry` | sample-graphs/src/main/resources/html/jquery/jquery-1.9.1.js:5129 | Creating an entry that has no answer yet keeps every other entry true and disturbs none of the inner walks. |
| `Sizzle.CloseEntry` | sample-graphs/src/main/resources/html/jquery/jquery-1.9.1.js:5124-5133 | Filling in the answer keeps the invariant: `true` means a match, a number means no match, and the current `cachedruns` means that nothing further along matches either. |
| `Sizzle.NextElement` | sample-graphs/src/main/resources/html/jquery/jquery-1.9.1.js:5355-5358 | Counting `cachedruns` up for the next element turns every recorded miss into one of an earlier element, and no entry becomes false. |
| `Sizzle.Engine.constructor` | sample-graphs/src/main/resources/html/jquery/jquery-1.9.1.js:5091-5094 | A fresh engine has no cache entries to trust. |
| `Sizzle.Engine.Match` | sample-graphs/src/main/resources/html/jquery/jquery-1.9.1.js:5091-5153 | With the memo data of any earlier elements of the same run, a compiled matcher answers exactly what the uncached search answers, and leaves true memo data. |
| `Sizzle.Engine.MatchContext` | sample-graphs/src/main/resources/html/jquery/jquery-1.9.1.js:5283-5288 | The test for the search root agrees with the uncached one. |
| `Sizzle.Engine.MatchAll` | sample-graphs/src/main/resources/html/jquery/jquery-1.9.1.js:5141-5153 | Trying the matchers from last to first gives their conjunction. |
| `Sizzle.Engine.FirstWalk` | sample-graphs/src/main/resources/html/jquery/jquery-1.9.1.js:5096-5104 | A child or adjacent walk asks the closest element only, and agrees with the uncached search. |
| `Sizzle.Engine.PlainWalk` | sample-graphs/src/main/resources/html/jquery/jquery-1.9.1.js:5111-5119 | The walk over XML nodes, without a cache, agrees with the search. |
| `Sizzle.Engine.MemoWalk` | sample-graphs/src/main/resources/html/jquery/jquery-1.9.1.js:5120-5137 | The memoising walk, which stops at a hit or at a miss of the current element and passes over older misses, returns exactly what the uncached walk returns. |
| `Sizzle.Engine.Probe` | sample-graphs/src/main/resources/html/jquery/jquery-1.9.1.js:5128-5133 | Asking the inner matcher about a node not seen in this run answers what the search answers and records it truthfully. |
| `Sizzle.Engine.AddCombinator` | sample-graphs/src/main/resources/html/jquery/jquery-1.9.1.js:5091-5094 | Each combinator gets a new `doneName`. |
| `Sizzle.Engine.MatcherFromTokens` | sample-graphs/src/main/resources/html/jquery/jquery-1.9.1.js:5269-5319 | Compilation preserves meaning: the right-to-left matcher accepts an element iff elements can be assigned to all compounds of the selector that the token list is read as (`SelectorText` says which); its walks have distinct names. |
| `SelectorText.MeansText` | sample-graphs/src/main/resources/html/jquery/jquery-1.9.1.js:5269-5319 | The matcher compiled from the text of a selector accepts exactly the elements the selector accepts, on every document and from every context. |
| `Sizzle.Engine.Compile` | sample-graphs/src/main/resources/html/jquery/jquery-1.9.1.js:5433-5441 | The matchers of a comma-separated list accept an element iff one of its selectors does. |
| `Sizzle.FilteredIsSelected` | sample-graphs/src/main/resources/html/jquery/jquery-1.9.1.js:5346-5354 | Filtering elements by the compiled matchers selects, in order, exactly those some selector of the list accepts. |
| `Sizzle.SelectedParts` | sample-graphs/src/main/resources/html/jquery/jquery-1.9.1.js:5346-5354 | Selecting goes element by element: each one stays, in its place, iff some selector of the list accepts it. |
| `Sizzle.SuperMatcher.Run` | sample-graphs/src/main/resources/html/jquery/jquery-1.9.1.js:5326-5359 | One outermost match over any sequence of elements, on an engine with caches left by any earlier matches, appends exactly the accepted elements, each once per occurrence and in order. |
| `Sizzle.SuperMatcher.MatchEach` | sample-graphs/src/main/resources/html/jquery/jquery-1.9.1.js:5346-5359 | The loop over elements, with the caches growing from one to the next, filters as the uncached search would. |
| `Sizzle.SuperMatcher.AnyMatch` | sample-graphs/src/main/resources/html/jquery/jquery-1.9.1.js:5348-5354 | Trying one element against the matchers until one accepts it finds out whether any does. |
| `SetMatchers.Condense` | sample-graphs/src/main/resources/html/jquery/jquery-1.9.1.js:5155-5174 | The items that are present and pass the filter, closed up, with the index each came from. |
| `SetMatchers.Indexes` | sample-graphs/src/main/resources/html/jquery/jquery-1.9.1.js:4960-5002 | The computed index list holds an index of the seed iff the positional pseudo asks for it, negative arguments included. |
| `SetMatchers.PositionsMean` | sample-graphs/src/main/resources/html/jquery/jquery-1.9.1.js:4960-5002 | What the pseudos ask for: one index for each number and what is before and behind it, negative numbers counted from the end, even and odd in turn from an even 0. |
| `SetMatchers.Pick` | sample-graphs/src/main/resources/html/jquery/jquery-1.9.1.js:4487-4503 | Every index asked for moves its element from the seed to the matches; every other index stays as it was. |
| `SetMatchers.MoveMatched` | sample-graphs/src/main/resources/html/jquery/jquery-1.9.1.js:5243-5250 | Every match is moved through the index map to its own index of the seed and the results; all other indexes stay. |
| `SetMatchers.PostFilter` | sample-graphs/src/main/resources/html/jquery/jquery-1.9.1.js:5214-5225 | Elements the filter behind the pseudo rejects are moved back to the index they came from, the others stay matched. |
| `SetMatchers.FilteredChosen` | sample-graphs/src/main/resources/html/jquery/jquery-1.9.1.js:5193-5211 | Filtering, closing up, picking by position and filtering again chooses exactly the elements that pass the first filter, are asked for by their position among those, and pass the second filter. |
| `SetMatchers.Apply` | sample-graphs/src/main/resources/html/jquery/jquery-1.9.1.js:5183-5267 | A whole set matcher on a seed and results: what becomes of each index of both, for nested positional filters too; the two stay synchronised. |
| `SetMatchers.ApplyFiltered` | sample-graphs/src/main/resources/html/jquery/jquery-1.9.1.js:5190-5251 | The same where a filter stands in front of the pseudo and the matches pass through an intermediate array. |
| `SetMatchers.FreshResults` | sample-graphs/src/main/resources/html/jquery/jquery-1.9.1.js:5183-5251 | With no results yet, an index ends with its element moved to the results iff the element is chosen, and left in the seed otherwise. |
| `SetMatchers.EarlierMatchSurvives` | sample-graphs/src/main/resources/html/jquery/jquery-1.9.1.js:5197-5225 | Without a filter in front and with a plain one behind, an earlier match stays a result iff that filter accepts it too; otherwise it goes back to the seed. |
| `SetMatchers.EarlierMatchLost` | sample-graphs/src/main/resources/html/jquery/jquery-1.9.1.js:5197-5225 | A seed and results, those of `:last.y, x:first`, in which an earlier match is taken back. |
| `SetMatchers.EarlierMatchSafe` | sample-graphs/src/main/resources/html/jquery/jquery-1.9.1.js:5197-5225 | A filter in front, or none behind, keeps every earlier match. |
| `EarlierResults.RightIsAgreement` | sample-graphs/src/main/resources/html/jquery/jquery-1.9.1.js:5197-5225 | Where the promise can fail: without a filter in front, chosen elements move and everything else stays at every index iff the filter behind the pseudo, positional or not, treats the earlier results and the new picks on the shared list as if they had not met. |
| `EarlierResults.WhenRight` | sample-graphs/src/main/resources/html/jquery/jquery-1.9.1.js:5183-5251 | For every set matcher and every synchronised seed and results: every index ends right if a check of filters and positions made before the call succeeds, and only if it does, where at most two pseudos behind one another ask for positions. |
| `EarlierResults.PlainBehind` | sample-graphs/src/main/resources/html/jquery/jquery-1.9.1.js:5197-5225 | With a plain filter behind, every index ends right iff every earlier result passes that filter. |
| `EarlierResults.RightOnAll` | sample-graphs/src/main/resources/html/jquery/jquery-1.9.1.js:5183-5251 | A set matcher is right on all arrays iff it has a filter in front, or nothing behind, or a plain filter behind that no element fails. |
| `EarlierResults.ChosenRefused` | sample-graphs/src/main/resources/html/jquery/jquery-1.9.1.js:5197-5225 | An input on which a chosen element is not matched because an earlier result takes its position: the second run of `:last:first, x:first` on two elements of which the first passes x. |
| `EarlierResults.FirstRun` | sample-graphs/src/main/resources/html/jquery/jquery-1.9.1.js:5183-5251 | The first run of that list leaves exactly the arrays that the second one is given there. |
| `NthChild.FinalTestIsHits` | sample-graphs/src/main/resources/html/jquery/jquery-1.9.1.js:4763-4764 | The last line holds iff some n >= 0 gives place = a*n + b (section 6.6.5.2 of CSS Selectors Level 3), for zero, positive and negative a. |
| `NthChild.FirstPlace` | sample-graphs/src/main/resources/html/jquery/jquery-1.9.1.js:4743-4760 | The first child that counts, an element or one of that type, has index 1; from the back it is the last. |
| `NthChild.NextPlace` | sample-graphs/src/main/resources/html/jquery/jquery-1.9.1.js:4743-4760 | The next one that counts has the next index, in either direction. |
| `NthChild.Parent.NewRun` | sample-graphs/src/main/resources/html/jquery/jquery-1.9.1.js:5337-5342 | A new run makes every cached index stale. |
| `NthChild.Parent.Nth` | sample-graphs/src/main/resources/html/jquery/jquery-1.9.1.js:4692-4765 | The whole test, with whatever the caches hold, is the declarative one, for all four pseudo-classes. |
| `NthChild.Parent.SeekFromCache` | sample-graphs/src/main/resources/html/jquery/jquery-1.9.1.js:4718-4737 | From any valid resume point the search ends with the true 1-based index, falling back to the first child when the element is behind it. |
| `NthChild.Parent.Seek` | sample-graphs/src/main/resources/html/jquery/jquery-1.9.1.js:4743-4760 | The search from the first or last child ends with the true index. |
| `NthChild.Parent.SeekForward` | sample-graphs/src/main/resources/html/jquery/jquery-1.9.1.js:4746-4759 | The same from the first child, by type or not. |
| `NthChild.Parent.SeekBackward` | sample-graphs/src/main/resources/html/jquery/jquery-1.9.1.js:4746-4759 | The same from the last child, recording the true index of every element passed. |
| `NthChild.Parent.Simple` | sample-graphs/src/main/resources/html/jquery/jquery-1.9.1.js:4701-4714 | first-, last- and only-child (or of-type) hold iff no other child counts on the sides in question. |
| `DocumentOrder.RankIsPlace` | sample-graphs/src/main/resources/html/jquery/jquery-1.9.1.js:4299-4348 | The rank that the order is compared with is the place in the preorder listing of the tree. |
| `DocumentOrder.AncestorFirst` | sample-graphs/src/main/resources/html/jquery/jquery-1.9.1.js:4335-4342 | An ancestor ranks before its descendants. |
| `DocumentOrder.EarlierBranchFirst` | sample-graphs/src/main/resources/html/jquery/jquery-1.9.1.js:4335-4342 | Where two paths part, the one with the earlier sibling ranks first. |
| `DocumentOrder.SiblingCheck` | sample-graphs/src/main/resources/html/jquery/jquery-1.9.1.js:4449-4468 | It tells which of two siblings comes first; an absent node counts as an ancestor of the other. |
| `DocumentOrder.IsFollowing` | sample-graphs/src/main/resources/html/jquery/jquery-1.9.1.js:4458-4465 | The search along next siblings ends, and meets the other sibling iff that one comes later. |
| `DocumentOrder.Ancestors` | sample-graphs/src/main/resources/html/jquery/jquery-1.9.1.js:4326-4333 | The path from the root down to the node, in that order. |
| `DocumentOrder.CompareAncestors` | sample-graphs/src/main/resources/html/jquery/jquery-1.9.1.js:4325-4347 | Walking down both ancestor lists to where they part compares any two nodes as their preorder ranks do, ancestors first. |
| `DocumentOrder.SortOrder` | sample-graphs/src/main/resources/html/jquery/jquery-1.9.1.js:4299-4348 | The comparison agrees with preorder rank iff neither node is the root of a detached tree or both are the same node; such a root is sorted last. It is negative or positive exactly as the sort keys are ordered, and reports a duplicate iff the nodes are the same. |
| `DocumentOrder.KeysDiffer` | sample-graphs/src/main/resources/html/jquery/jquery-1.9.1.js:4299-4348 | Distinct nodes have distinct sort keys, so that the comparison, which is that of the keys, is strict and total. |
| `DocumentOrder.FindDuplicates` | sample-graphs/src/main/resources/html/jquery/jquery-1.9.1.js:4436-4440 | The indexes of exactly the elements that repeat their predecessor, in order. |
| `DocumentOrder.RemoveAt` | sample-graphs/src/main/resources/html/jquery/jquery-1.9.1.js:4441-4443 | Splicing them out from the back leaves exactly the elements that do not repeat their predecessor. |
| `DocumentOrder.FreshIsStrict` | sample-graphs/src/main/resources/html/jquery/jquery-1.9.1.js:4435-4444 | Of a sorted list these are strictly increasing. |
| `DocumentOrder.FreshKeepsAll` | sample-graphs/src/main/resources/html/jquery/jquery-1.9.1.js:4435-4444 | No element disappears altogether. |
| `DocumentOrder.UniqueSort` | sample-graphs/src/main/resources/html/jquery/jquery-1.9.1.js:4425-4447 | The result is strictly increasing in document order and has the same element set as the input. |
| `Callbacks.WithoutSplice` | sample-graphs/src/main/resources/html/jquery/jquery-1.9.1.js:1093-1094 | Splicing out one occurrence of a callback leaves the same list without that callback. |
| `Callbacks.SpliceRest` | sample-graphs/src/main/resources/html/jquery/jquery-1.9.1.js:1093-1103 | Moving the firing index back when the spliced slot is not behind it keeps the rest of the batch the same. |
| `Callbacks.CallbackList.constructor` | sample-graphs/src/main/resources/html/jquery/jquery-1.9.1.js:1004-1027 | A new list has no entries, and a queue of fires unless it is a once list. |
| `Callbacks.CallbackList.AddCallbacks` | sample-graphs/src/main/resources/html/jquery/jquery-1.9.1.js:1058-1087 | Adding during a fire extends the batch under way; with memory it fires the new entries at once; what happens then is that of the index-free list. |
| `Callbacks.CallbackList.RemoveCallbacks` | sample-graphs/src/main/resources/html/jquery/jquery-1.9.1.js:1089-1108 | Removing during a fire removes from the list and from what is left of the batch, every occurrence. |
| `Callbacks.CallbackList.SpliceAll` | sample-graphs/src/main/resources/html/jquery/jquery-1.9.1.js:1093-1104 | After the loop no occurrence is left, and neither the list nor the rest of the batch lost anything else. |
| `Callbacks.CallbackList.Splice` | sample-graphs/src/main/resources/html/jquery/jquery-1.9.1.js:1094-1103 | One splice with both firing indices repaired: still the slots after `firingIndex` up to `firingLength` are what is left to call. |
| `Callbacks.CallbackList.DisableList` | sample-graphs/src/main/resources/html/jquery/jquery-1.9.1.js:1120-1123 | A disabled list has nothing left to call, to fire or to remember. |
| `Callbacks.CallbackList.LockList` | sample-graphs/src/main/resources/html/jquery/jquery-1.9.1.js:1129-1135 | A locked list takes no more fires, and is disabled unless it has memory. |
| `Callbacks.CallbackList.FireWithData` | sample-graphs/src/main/resources/html/jquery/jquery-1.9.1.js:1141-1152 | A fire during a fire is queued; otherwise it runs, unless the list has fired and may not again. What running one means is in `CallbackPromises`. |
| `Callbacks.CallbackList.Perform` | sample-graphs/src/main/resources/html/jquery/jquery-1.9.1.js:1056-1162 | Every operation, made from outside or from inside a callback, has the effect it has on the list without indices. |
| `Callbacks.CallbackList.Invoke` | sample-graphs/src/main/resources/html/jquery/jquery-1.9.1.js:1037 | One call of a callback, with whatever operations it performs re-entrantly, drains as calling the first pending entry of the index-free list does. |
| `Callbacks.CallbackList.Fire` | sample-graphs/src/main/resources/html/jquery/jquery-1.9.1.js:1029-1054 | A fire with all it sets off, including queued fires, ends in the state that draining the index-free list ends in. |
| `Callbacks.CallbackList.CallBatch` | sample-graphs/src/main/resources/html/jquery/jquery-1.9.1.js:1036-1041 | The index loop, under changes of the array, calls exactly what was pending. |
| `Callbacks.CallbackList.Finish` | sample-graphs/src/main/resources/html/jquery/jquery-1.9.1.js:1042-1053 | After a batch the next queued fire runs, or a once list is emptied or disabled. |
| `Callbacks.Live` | sample-graphs/src/main/resources/html/jquery/jquery-1.9.1.js:1004-1165 | Any series of operations on the array-and-index list ends in the state of the index-free list. |
| `CallbackRuns.NestedAllEvolves` | sample-graphs/src/main/resources/html/jquery/jquery-1.9.1.js:1058-1108 | Whatever one callback does to the list, entries come only from new registrations, order is kept, and a pending entry is dropped only by leaving the list. |
| `CallbackRuns.SurvivorsRunOnce` | sample-graphs/src/main/resources/html/jquery/jquery-1.9.1.js:1036-1041 | In one batch only due entries are called, each once, in list order, with the data of the fire; none is called after a call that stops the fire; every due entry that is still on the list at the end has been called, or, if the fire was stopped, every one of them up to the entry that stopped it. |
| `CallbackRuns.GoneIsNotCalled` | sample-graphs/src/main/resources/html/jquery/jquery-1.9.1.js:1036-1041 | An entry that is off the list before its turn is not called in the rest of the batch. |
| `CallbackRuns.RemovedIsNotCalled` | sample-graphs/src/main/resources/html/jquery/jquery-1.9.1.js:1089-1108 | An entry that a callback removes is not called later in the batch, whatever that callback does before and after. |
| `CallbackRuns.DrainIsBatchFirst` | sample-graphs/src/main/resources/html/jquery/jquery-1.9.1.js:1036-1047 | A batch is finished before a queued fire starts. |
| `CallbackRuns.FireRests` | sample-graphs/src/main/resources/html/jquery/jquery-1.9.1.js:1042-1053 | Each batch of a fire calls the surviving entries once, up to one that stops it if there is one, and fires that were queued start first in, first out, until none waits. |
| `CallbackRuns.EveryLife` | sample-graphs/src/main/resources/html/jquery/jquery-1.9.1.js:1004-1165 | Over every life of every list, for every option and whatever its callbacks add, remove, fire, lock, disable or return: each batch calls the surviving entries exactly once in order, all of them unless a callback stops the fire and then all up to that one, and fires run first in, first out. `CallbackPromises.CallsOfLife` says that these batches are all there is. |
| `CallbackPromises.CallsOfLife` | sample-graphs/src/main/resources/html/jquery/jquery-1.9.1.js:1029-1054 | The calls of a life are those of its batches, one batch after another and each starting where the one before it ended; there is no other call. |
| `CallbackPromises.FireStarts` | sample-graphs/src/main/resources/html/jquery/jquery-1.9.1.js:1042-1047 | Within one fire each further batch begins with every entry then on the list and with the data of the fire that has waited longest. |
| `CallbackPromises.FireCalls` | sample-graphs/src/main/resources/html/jquery/jquery-1.9.1.js:1141-1152 | A fire of a list at rest is carried out unless the list is disabled or has fired and may not again: it is recorded and calls the first entry first; callbacks that do nothing are all called, in order, with its data. A fire that is not accepted does nothing. |
| `CallbackPromises.AddAllAdds` | sample-graphs/src/main/resources/html/jquery/jquery-1.9.1.js:1058-1075 | What is added is one entry for each callback handed over, behind the others and in order; on a unique list only for those not there yet, each once. |
| `CallbackPromises.AddCalls` | sample-graphs/src/main/resources/html/jquery/jquery-1.9.1.js:1076-1084 | Adding to a list at rest calls nothing without memory; with it the new entries, and no others, are called at once with the remembered data. |
| `CallbackPromises.RemoveTakes` | sample-graphs/src/main/resources/html/jquery/jquery-1.9.1.js:1089-1108 | Removing takes every entry of the callbacks handed over and no other, keeps the order and calls nothing. |
| `CallbackPromises.MemoryLife` | sample-graphs/src/main/resources/html/jquery/jquery-1.9.1.js:1030 | memory: over every life, what is remembered is what the last fire was started with, and nothing without the option. |
| `CallbackPromises.UniqueLife` | sample-graphs/src/main/resources/html/jquery/jquery-1.9.1.js:1065-1067 | unique: over every life, whatever callbacks do, no callback is on the list twice. |
| `CallbackPromises.StoppedForgets` | sample-graphs/src/main/resources/html/jquery/jquery-1.9.1.js:1037-1040 | stopOnFalse: the callback that returns false is the last one called, and nothing is remembered for late ones. |
| `CallbackPromises.OnceLife` | sample-graphs/src/main/resources/html/jquery/jquery-1.9.1.js:1141-1152 | once: over every life the list is fired at most once. |
| `CallbackPromises.LockedForGood` | sample-graphs/src/main/resources/html/jquery/jquery-1.9.1.js:1129-1135 | After a lock no fire is accepted through any further operations; a list with memory keeps its entries and its memory. |
| `CallbackPromises.DisabledForGood` | sample-graphs/src/main/resources/html/jquery/jquery-1.9.1.js:1120-1123 | A disabled list calls nothing through any further operations. |
| `CallbackPromises.ClosingStops` | sample-graphs/src/main/resources/html/jquery/jquery-1.9.1.js:1120-1135 | A callback that disables its list is the last one called, and one that locks it drops the fires that wait. |
| `CallbackPromises.EveryFireStarts` | sample-graphs/src/main/resources/html/jquery/jquery-1.9.1.js:1141-1152 | Over every life of a list that may fire again and is never closed, exactly the fires asked for, from outside and by the callbacks called, have been carried out, in the order they were asked for. |
| `Deferreds.InvHolds` | sample-graphs/src/main/resources/html/jquery/jquery-1.9.1.js:1168-1253 | In every run of calls, from outside and from inside callbacks, the three lists are as the calls made so far and the first resolution say. |
| `Deferreds.PromiseKept` | sample-graphs/src/main/resources/html/jquery/jquery-1.9.1.js:1217-1241 | The state is resolved or rejected as the first of the two calls says; done and fail callbacks never both run; the settled list calls its listeners in the order they were registered, before, during or after the resolution, with the resolving arguments, none twice and, once no callback is running, none missed. |
| `Deferreds.StateIsFinal` | sample-graphs/src/main/resources/html/jquery/jquery-1.9.1.js:1226-1232 | The state leaves pending at most once. |
| `Deferreds.AdvanceFirst` | sample-graphs/src/main/resources/html/jquery/jquery-1.9.1.js:1227-1232 | The first resolution sets the state, disables the rival list and locks the progress list before any user callback runs. |
| `Deferreds.TooLate` | sample-graphs/src/main/resources/html/jquery/jquery-1.9.1.js:1232-1240 | A second resolve or reject has no effect at all. |
| `Deferreds.NotifyIgnored` | sample-graphs/src/main/resources/html/jquery/jquery-1.9.1.js:1232-1240 | A settled Deferred ignores notify. |
| `Deferreds.AdvanceProgress` | sample-graphs/src/main/resources/html/jquery/jquery-1.9.1.js:1232-1240 | Firing the progress list touches neither the state nor the other lists, and a locked one stays locked. |
| `DeferredProgress.PendingHolds` | sample-graphs/src/main/resources/html/jquery/jquery-1.9.1.js:1232-1240 | In every run that has not settled, the progress list has every listener registered so far, in order, and no notify is left waiting when none is under way. |
| `DeferredProgress.EveryoneIsTold` | sample-graphs/src/main/resources/html/jquery/jquery-1.9.1.js:1235-1240 | While pending, a notify calls every progress listener registered so far, each once, in order and with its data, as control comes back from one after another. |
| `Deferreds.ListenSpent` | sample-graphs/src/main/resources/html/jquery/jquery-1.9.1.js:1081-1083 | A listener added after the fact is fired with the remembered arguments. |
| `DeferredFires.SessionIsDrain` | sample-graphs/src/main/resources/html/jquery/jquery-1.9.1.js:1029-1054 | The promise uses the list that was verified: whatever its callbacks do to the list that calls them, a fire advanced callback by callback until it is over leaves that list as draining the list of `Callbacks` does, and touches no other list, nor the state. |
| `DeferredFires.OpeningIsDrain` | sample-graphs/src/main/resources/html/jquery/jquery-1.9.1.js:1217-1241 | The same for the first resolution, in which the own callbacks of the Deferred come first and do nothing to the list that calls them. |
| `Whens.Start` | sample-graphs/src/main/resources/html/jquery/jquery-1.9.1.js:1282-1302 | After the setup loop `remaining` counts the promises not yet resolved, and the master is settled already if nothing is outstanding or something was rejected. |
| `Whens.Update` | sample-graphs/src/main/resources/html/jquery/jquery-1.9.1.js:1268-1278 | One event at a subordinate: the master, the count, the values and the progress values are again what the whole history says. |
| `Whens.When` | sample-graphs/src/main/resources/html/jquery/jquery-1.9.1.js:1256-1305 | Under every interleaving the master resolves iff all subordinates resolve, with values in argument order, and is rejected with the first rejection; `remaining` counts the subordinates not yet resolved and is positive while the master is pending; progress reports carry the latest report of each. |
| `Whens.NoneOutstanding` | sample-graphs/src/main/resources/html/jquery/jquery-1.9.1.js:1274 | Nothing is outstanding iff every argument is done. |
| `Whens.OutstandingAfter` | sample-graphs/src/main/resources/html/jquery/jquery-1.9.1.js:1274 | The count goes down by one exactly when an unsettled argument resolves. |
| `Whens.RejectedForGood` | sample-graphs/src/main/resources/html/jquery/jquery-1.9.1.js:1291 | After a rejection some argument has failed, so they are never all done. |
| `Whens.Exclusive` | sample-graphs/src/main/resources/html/jquery/jquery-1.9.1.js:1274-1291 | All done and rejected exclude each other. |
| `Whens.MasterIsFinal` | sample-graphs/src/main/resources/html/jquery/jquery-1.9.1.js:1274-1291 | A master that has settled keeps its outcome through any further events. |
| `Whens.StoredSays` | sample-graphs/src/main/resources/html/jquery/jquery-1.9.1.js:1272 | What is stored for an argument says what its callback was called with: one argument as a plain value, several as a list, none as undefined. |
| `Namespaces.RestMeans` | sample-graphs/src/main/resources/html/jquery/jquery-1.9.1.js:2858 | The tail of the regular expression, name by name, over the joined namespaces of a handler. |
| `Namespaces.RegexIsWithin` | sample-graphs/src/main/resources/html/jquery/jquery-1.9.1.js:2858 | The regular expression finds exactly the lists that have the requested names as an ordered sublist. |
| `Namespaces.WithinIsIncludes` | sample-graphs/src/main/resources/html/jquery/jquery-1.9.1.js:2845-2858 | For sorted distinct names an ordered sublist is just a subset. |
| `Namespaces.RegexSelects` | sample-graphs/src/main/resources/html/jquery/jquery-1.9.1.js:2845-2867 | The expression selects exactly the handlers whose namespaces include all requested ones. |
| `EventHandlers.MatchesByNames` | sample-graphs/src/main/resources/html/jquery/jquery-1.9.1.js:2865-2868 | A removal with namespaces removes exactly the handlers a removal without them would, and that carry all the names. |
| `EventLaws.Taken` | sample-graphs/src/main/resources/html/jquery/jquery-1.9.1.js:2865-2868 | A removal takes exactly the handlers that meet every restriction it was given: type unless all are meant, function, all of the namespaces, and selector. |
| `EventLaws.OneByOne` | sample-graphs/src/main/resources/html/jquery/jquery-1.9.1.js:2860-2878 | Removal and the split go through a list handler by handler and keep the order. |
| `EventLaws.NoneLost` | sample-graphs/src/main/resources/html/jquery/jquery-1.9.1.js:2812-2817 | Delegates and direct handlers together are all that is registered, each as often as it was. |
| `EventHandlers.SplitWithout` | sample-graphs/src/main/resources/html/jquery/jquery-1.9.1.js:2860-2878 | Removal and the split into delegates and direct handlers commute. |
| `EventHandlers.HandlerList.Add` | sample-graphs/src/main/resources/html/jquery/jquery-1.9.1.js:2812-2817 | A handler is added to the registrations; the array stays delegates in front, each part in order of registration, `delegateCount` the number of delegates. |
| `EventHandlers.HandlerList.Remove` | sample-graphs/src/main/resources/html/jquery/jquery-1.9.1.js:2828-2878 | Removal takes out exactly the matching registrations, and the array stays split. |
| `EventHandlers.HandlerList.RemoveMatching` | sample-graphs/src/main/resources/html/jquery/jquery-1.9.1.js:2860-2878 | The loop from the back splices out exactly what matches and keeps the count of delegates. |
| `EventHandlers.HandlerList.Dispatch` | sample-graphs/src/main/resources/html/jquery/jquery-1.9.1.js:3094-3139 | The queue has one batch for exactly each eligible element from the target up to just below this one that triggers a delegate, innermost first, with the delegates it triggers in list order, and then the direct handlers; no delegates when the event cannot be delegated. |
| `EventHandlers.Climb` | sample-graphs/src/main/resources/html/jquery/jquery-1.9.1.js:3105-3130 | The climb over parent links ends, below this element or not; it collects exactly the eligible elements on the way that trigger something, each a proper descendant of the next, and of this element if the target is. |
| `EventHandlers.MatchDelegates` | sample-graphs/src/main/resources/html/jquery/jquery-1.9.1.js:3110-3125 | Looking each selector up once gives the same matches as looking it up for each handler. |
| `EventLaws.TriggeredAre` | sample-graphs/src/main/resources/html/jquery/jquery-1.9.1.js:3110-3125 | The delegates run for an element are those whose selector matches it, in order. |
| `EventLaws.ClicksAreSpecial` | sample-graphs/src/main/resources/html/jquery/jquery-1.9.1.js:3101-3108 | Of the elements from the target up to just below this one, exactly those that trigger a delegate get a batch; but a click runs none on disabled elements, and none at all unless it is of the left button. |
| `EventHandlers.Replay` | sample-graphs/src/main/resources/html/jquery/jquery-1.9.1.js:2812-2878 | Over every sequence of additions and removals the first `delegateCount` handlers are exactly those with a selector. |
| `DataIds.Attach` | sample-graphs/src/main/resources/html/jquery/jquery-1.9.1.js:1578-1592 | Giving a node without a number one that is free or new keeps the numbers on nodes distinct, disjoint from the free list and below `guid`. |
| `DataIds.OwnIsSafe` | sample-graphs/src/main/resources/html/jquery/jquery-1.9.1.js:1578-1592 | A number given to a node was on no other, and a recycled one finds no old data. |
| `DataIds.ReleaseIsSafe` | sample-graphs/src/main/resources/html/jquery/jquery-1.9.1.js:6592-6611 | Freeing a number takes it from exactly one node and the cache and puts it once on the free list. |
| `DataIds.CleanAllIsSafe` | sample-graphs/src/main/resources/html/jquery/jquery-1.9.1.js:6564-6614 | Cleaning any nodes, repeated or refused ones among them, keeps the numbers safe and removes exactly the entries of those it may. |
| `DataIds.StepRefines` | sample-graphs/src/main/resources/html/jquery/jquery-1.9.1.js:1549-1720 | Every operation keeps the numbers safe and loses none, and does to the entries what it would do in a store that needs no numbers. |
| `DataIds.EveryRun` | sample-graphs/src/main/resources/html/jquery/jquery-1.9.1.js:1549-1720 | Over every run of data, handler and cleaning operations, live numbers are distinct, disjoint from a duplicate-free free list, all below `guid`; a node has a number iff it has an entry; and each node finds the data that a plain map from nodes to data would hold. |
| `DataIds.OtherNodes` | sample-graphs/src/main/resources/html/jquery/jquery-1.9.1.js:6564-6614 | No operation touches the entry of a node it does not name; a cleaned node has neither number nor entry. |
| `DataLaws.WriteThenRead` | sample-graphs/src/main/resources/html/jquery/jquery-1.9.1.js:1600-1640 | What was written under a name is read under it, on the side it was written on; every other name reads as before on both sides, the public data being the private name "data". |
| `DataLaws.WriteAnswers` | sample-graphs/src/main/resources/html/jquery/jquery-1.9.1.js:1612-1640 | A write returns what it wrote. |
| `DataLaws.ReadOnly` | sample-graphs/src/main/resources/html/jquery/jquery-1.9.1.js:1563-1576 | A read by name changes nothing. |
| `DataLaws.ExtendThenRead` | sample-graphs/src/main/resources/html/jquery/jquery-1.9.1.js:1594-1606 | An object handed over is copied name by name. |
| `DataLaws.WholeThenRead` | sample-graphs/src/main/resources/html/jquery/jquery-1.9.1.js:1578-1612 | Asking for the whole object changes nothing that is read by name. |
| `DataLaws.RemoveThenRead` | sample-graphs/src/main/resources/html/jquery/jquery-1.9.1.js:1645-1720 | Names that were removed are gone from their side; all others read as before on both sides, but for "toJSON" and empty public data, which go when nothing else is left. |
| `DataLaws.RemoveAllThenRead` | sample-graphs/src/main/resources/html/jquery/jquery-1.9.1.js:1645-1720 | Removing without names removes the public data as a whole, or everything. |
| `DataLaws.OthersAre` | sample-graphs/src/main/resources/html/jquery/jquery-1.9.1.js:2860-2878 | The handlers that a removal of a type leaves, handler by handler: those asked for under other types, in order. |
| `DataLaws.DropsWhenEmpty` | sample-graphs/src/main/resources/html/jquery/jquery-1.9.1.js:1687-1716 | An entry goes, and its number with it, exactly when nothing but "toJSON" and empty public data is left. |
| `DataLaws.OthersRead` | sample-graphs/src/main/resources/html/jquery/jquery-1.9.1.js:1549-1720 | What is read of other nodes stays as it is. |
| `DataLaws.AddThenHandlers` | sample-graphs/src/main/resources/html/jquery/jquery-1.9.1.js:2786-2817 | A new handler comes behind those of its type; other types and other data stay. |
| `DataLaws.RemoveThenHandlers` | sample-graphs/src/main/resources/html/jquery/jquery-1.9.1.js:2860-2899 | Removing a type takes its handlers but for those asked for under another type; other types and other data stay. |
| `DataLaws.FreeNumbersFirst` | sample-graphs/src/main/resources/html/jquery/jquery-1.9.1.js:1578-1592 | A new number is made only when none is free. |
| `DataIds.DataStore.Allocate` | sample-graphs/src/main/resources/html/jquery/jquery-1.9.1.js:1578-1592 | The last freed number, or else the next new one. |
| `DataIds.DataStore.InternalData` | sample-graphs/src/main/resources/html/jquery/jquery-1.9.1.js:1549-1643 | Reading and writing, public and private; a mere lookup creates nothing. What is read after what is in `DataLaws`. |
| `DataIds.DataStore.InternalRemoveData` | sample-graphs/src/main/resources/html/jquery/jquery-1.9.1.js:1645-1720 | Removing names drops the entry, and frees the number, exactly when nothing but empty public data is left. |
| `DataIds.DataStore.Strip` | sample-graphs/src/main/resources/html/jquery/jquery-1.9.1.js:1663-1716 | What is left of an entry when names are removed, and whether it is to be dropped. |
| `DataIds.DataStore.CleanData` | sample-graphs/src/main/resources/html/jquery/jquery-1.9.1.js:6564-6614 | Cleaning releases each node once, although removing handlers may re-enter it and free the number first. |
| `DataIds.DataStore.CleanNode` | sample-graphs/src/main/resources/html/jquery/jquery-1.9.1.js:6574-6613 | One element: whatever `event.remove` did to the entry meanwhile, the number ends on the free list exactly once. |
| `DataIds.DataStore.EventRemove` | sample-graphs/src/main/resources/html/jquery/jquery-1.9.1.js:2828-2899 | Removing the last handlers of an element removes the entry if nothing else is in it. |
| `DataIds.DataStore.EventAdd` | sample-graphs/src/main/resources/html/jquery/jquery-1.9.1.js:2736-2817 | Storing a handler gives the element a number and an entry if it had none. |
| `DataIds.DataStore.TakeGuid` | sample-graphs/src/main/resources/html/jquery/jquery-1.9.1.js:2737-2739 | A number taken for handlers is the counter, is not issued to any node so far, and is not handed out again. |
| `DataIds.TakenForGood` | sample-graphs/src/main/resources/html/jquery/jquery-1.9.1.js:2737-2739 | A number taken for handlers is on no node and is not issued to any over any later run of operations. |
| `DataIds.DataStore.Replay` | sample-graphs/src/main/resources/html/jquery/jquery-1.9.1.js:1549-1720 | The class itself, through any run of calls. |
| `FxQueue.PushIsCorrect` | sample-graphs/src/main/resources/html/jquery/jquery-1.9.1.js:1970-1981 | A push starts the step iff none is under way, and otherwise makes it wait behind the others. |
| `FxQueue.NextIsCorrect` | sample-graphs/src/main/resources/html/jquery/jquery-1.9.1.js:1908-1942 | A call of `next` starts the step that has waited longest, or fires the empty hook iff none waits. |
| `FxQueue.PlayConcat` | sample-graphs/src/main/resources/html/jquery/jquery-1.9.1.js:1908-1942 | Calls that a step makes synchronously have the effect of the same calls made one after another. |
| `FxQueue.PushPlays` | sample-graphs/src/main/resources/html/jquery/jquery-1.9.1.js:1970-1981 | A push to an idle queue starts its step, which makes all its calls in order before anything else; a push to a busy one only waits. |
| `FxQueue.NextPlays` | sample-graphs/src/main/resources/html/jquery/jquery-1.9.1.js:1908-1942 | A call of `next` starts the step behind, which makes all its calls in order, or empties the queue after the last step. |
| `FxQueue.EveryActIsMade` | sample-graphs/src/main/resources/html/jquery/jquery-1.9.1.js:1936 | Over every run, all calls of all steps that start are made and no others: as many calls of `next`, and those pushes, as the agenda and the started steps hold. |
| `FxQueue.EveryRun` | sample-graphs/src/main/resources/html/jquery/jquery-1.9.1.js:1889-1953 | Over every run: steps start first in, first out, each once; and unless `next` is called with no step under way, each start comes first of all, after its predecessor called `next` or after the queue ran empty, and the empty hook fires exactly when the last step has finished. |
| `FxQueue.FxQueue.Queue` | sample-graphs/src/main/resources/html/jquery/jquery-1.9.1.js:1970-1981 | Pushing to the real queue, sentinel and all, is a push of the reference; the sentinel stands at the head exactly while a step is under way. |
| `FxQueue.FxQueue.Dequeue` | sample-graphs/src/main/resources/html/jquery/jquery-1.9.1.js:1908-1942 | Dequeuing, with the step that starts calling back in, does what the reference does and leaves no queue behind when the last step has finished; `FxQueue.NextPlays` and `FxQueue.PushPlays` say what that is. |
| `FxQueue.FxQueue.Call` | sample-graphs/src/main/resources/html/jquery/jquery-1.9.1.js:1936 | Any calls a step makes before it returns. |
| `Calendar.FieldsOfMakeDay` | sample-graphs/src/main/resources/html/jquery/jquery-ui-1.10.3.js:8826-8829 | A day has the year, month and day it was made from iff these name a day of the proleptic Gregorian calendar. |
| `Calendar.FieldsAreValid` | sample-graphs/src/main/resources/html/jquery/jquery-ui-1.10.3.js:8826-8829 | Every day has fields that name it. |
| `Calendar.DaysInMonthIsLength` | sample-graphs/src/main/resources/html/jquery/jquery-ui-1.10.3.js:9481-9483 | 32 minus the date of day 32 is the length of the month, for every year and for months beyond its ends; of the years 0 to 99 it is that of the year 1900 later, which the constructor of Date takes them for. |
| `Calendar.SplitDayOfYear` | sample-graphs/src/main/resources/html/jquery/jquery-ui-1.10.3.js:8813-8824 | The loop terminates for every day number, and ends with a month and a day in it that name that day of the year; the check accepts them iff the year has that many days. |
| `Calendar.DayOfYearAccepted` | sample-graphs/src/main/resources/html/jquery/jquery-ui-1.10.3.js:8813-8829 | The check after the split rejects exactly the day numbers outside the year. |
| `Calendar.DayOfYearNamed` | sample-graphs/src/main/resources/html/jquery/jquery-ui-1.10.3.js:8813-8826 | The date made of the month and the day that the loop ends with is that day of the year. |
| `Calendar.DayOfYearRoundTrip` | sample-graphs/src/main/resources/html/jquery/jquery-ui-1.10.3.js:8929-8932 | The printed day of the year is a day number of the year of the date, and counted from its first day gives the date back iff the date does not lie in the year 0 after February. |
| `Calendar.ConsistentIsValid` | sample-graphs/src/main/resources/html/jquery/jquery-ui-1.10.3.js:8827-8829 | The check accepts exactly the year, month and day triples of the calendar. |
| `Calendar.Iso8601Week` | sample-graphs/src/main/resources/html/jquery/jquery-ui-1.10.3.js:8644-8655 | The Date arithmetic computes the week number of the Thursday of the week. |
| `Calendar.FirstWeekday` | sample-graphs/src/main/resources/html/jquery/jquery-ui-1.10.3.js:8644-8655 | Years begin on the weekday that the rule of Gauss gives, which fixes where the weekdays fall. |
| `Calendar.WeekIsConstant` | sample-graphs/src/main/resources/html/jquery/jquery-ui-1.10.3.js:8644-8655 | The number is the same from Monday to Sunday and lies in 1..53. |
| `Calendar.WeekOne` | sample-graphs/src/main/resources/html/jquery/jquery-ui-1.10.3.js:8644-8655 | It is 1 iff the week has a 4 January in it (section 2.2.10 of ISO 8601:2004). |
| `Calendar.NextWeek` | sample-graphs/src/main/resources/html/jquery/jquery-ui-1.10.3.js:8644-8655 | From week to week it grows by one, or is 1 again exactly when the new week has a 4 January. |
| `Decimal.DigitsRead` | sample-graphs/src/main/resources/html/jquery/jquery-ui-1.10.3.js:8714 | Reading the digits of a number gives the number. |
| `Decimal.Positions` | sample-graphs/src/main/resources/html/jquery/jquery-ui-1.10.3.js:8714 | In a numeral each digit counts ten times the one behind it. |
| `Decimal.PaddedRead` | sample-graphs/src/main/resources/html/jquery/jquery-ui-1.10.3.js:8900-8902 | Leading zeros change nothing. |
| `Decimal.RunIs` | sample-graphs/src/main/resources/html/jquery/jquery-ui-1.10.3.js:8708-8709 | The expression takes a run of digits whole when it fills the field or no digit follows. |
| `DateLanguage.FormatDate` | sample-graphs/src/main/resources/html/jquery/jquery-ui-1.10.3.js:8878-8963 | The loop over the format, with its quoting and doubling, prints the pieces of the format one after another; `FormatText` says which pieces a format has, `DateMeaning` what each prints. |
| `DateLanguage.PrintNext` | sample-graphs/src/main/resources/html/jquery/jquery-ui-1.10.3.js:8914-8959 | One round of the formatting loop prints the next piece and leaves the rest of the format to print. |
| `DateLanguage.ParseDate` | sample-graphs/src/main/resources/html/jquery/jquery-ui-1.10.3.js:8670-8831 | The loop over format and value, with every error it can end in, reads the same pieces one after another and concludes as `DateMeaning.ConcludesExactly` says. |
| `DateLanguage.ReadNext` | sample-graphs/src/main/resources/html/jquery/jquery-ui-1.10.3.js:8747-8797 | One round of the parsing loop reads the next piece, or ends in the error that reading it gives. |
| `DateLanguage.MonthAndDay` | sample-graphs/src/main/resources/html/jquery/jquery-ui-1.10.3.js:8813-8829 | The month and day that were read, or those of the day of the year, pass the check iff they are accepted, and then name that day. |
| `DateLanguage.Finish` | sample-graphs/src/main/resources/html/jquery/jquery-ui-1.10.3.js:8799-8830 | Trailing text, missing and two-digit years, the day of the year and the final check. |
| `FormatText.DoubleLetter` | sample-graphs/src/main/resources/html/jquery/jquery-ui-1.10.3.js:8888-8894 | A doubled letter is one piece, the doubled form of its number or name, and the rest of the format is read behind it. |
| `FormatText.SingleLetter` | sample-graphs/src/main/resources/html/jquery/jquery-ui-1.10.3.js:8888-8894 | A letter that does not come again is the single form. |
| `FormatText.TwoQuotes` | sample-graphs/src/main/resources/html/jquery/jquery-ui-1.10.3.js:8914-8955 | Two quotes are a quote, inside and outside of a quotation. |
| `FormatText.OneQuote` | sample-graphs/src/main/resources/html/jquery/jquery-ui-1.10.3.js:8914-8955 | One quote opens or closes a quotation. |
| `FormatText.Itself` | sample-graphs/src/main/resources/html/jquery/jquery-ui-1.10.3.js:8914-8958 | Inside a quotation letters stand for themselves, other characters always do. |
| `FormatText.ReadWritten` | sample-graphs/src/main/resources/html/jquery/jquery-ui-1.10.3.js:8914-8960 | Every series of pieces in which no single letter is followed by the same letter has a text, with quotes where needed, that is read as just that series. |
| `FormatText.WritableIsRead` | sample-graphs/src/main/resources/html/jquery/jquery-ui-1.10.3.js:8914-8960 | Exactly those series are what some format is read as. |
| `DateMeaning.LettersMean` | sample-graphs/src/main/resources/html/jquery/jquery-ui-1.10.3.js:8896-8945 | For the day d of month m of year y: d prints d, m the month from 1, y the year or its last two digits, doubled ones filled up to two digits, M and D the names of the month and of the weekday. |
| `DateMeaning.DayLetterMeans` | sample-graphs/src/main/resources/html/jquery/jquery-ui-1.10.3.js:8929-8932 | o prints the number of days before the month, plus the day. |
| `DateMeaning.DefaultFormat` | sample-graphs/src/main/resources/html/jquery/jquery-ui-1.10.3.js:8878-8963 | mm/dd/yy prints two digits of the month, a slash, two digits of the day, a slash and four digits of the year. |
| `DateMeaning.LongestIs` | sample-graphs/src/main/resources/html/jquery/jquery-ui-1.10.3.js:8717-8738 | A name is read as the longest that stands there, and of those the first in the table. |
| `DateMeaning.AnyCase` | sample-graphs/src/main/resources/html/jquery/jquery-ui-1.10.3.js:8727-8731 | A name is read in whatever case it is written, and only so. |
| `DateMeaning.ConcludesExactly` | sample-graphs/src/main/resources/html/jquery/jquery-ui-1.10.3.js:8799-8830 | The parse ends with a date iff nothing but text that begins with a blank is left over and the date has the year, and the day of the year or the month and day, that were read; which of the two errors it ends with otherwise. |
| `DateRoundTrip.TwoDigitWindow` | sample-graphs/src/main/resources/html/jquery/jquery-ui-1.10.3.js:8808-8811 | Exactly which years a two-digit year can stand for. |
| `DateRoundTrip.NumberReadBack` | sample-graphs/src/main/resources/html/jquery/jquery-ui-1.10.3.js:8704-8715 | A printed number is read back iff it fills its field or no digit follows. |
| `DateRoundTrip.NameFound` | sample-graphs/src/main/resources/html/jquery/jquery-ui-1.10.3.js:8717-8738 | In a prefix-free table the name that is there is found, and no other. |
| `DateRoundTrip.AllReadBack` | sample-graphs/src/main/resources/html/jquery/jquery-ui-1.10.3.js:8747-8797 | A whole delimited format is read back, to the end of the text. |
| `DateRoundTrip.FieldsTaken` | sample-graphs/src/main/resources/html/jquery/jquery-ui-1.10.3.js:8747-8797 | The fields read are those of the date for what the format mentions, and untouched otherwise. |
| `DateRoundTrip.RoundTrip` | sample-graphs/src/main/resources/html/jquery/jquery-ui-1.10.3.js:8670-8963 | parseDate(f, formatDate(f, d)) = d for years 1000 to 9999 and every format that fixes the date within its year and in which undoubled numbers are followed by something that starts with no digit; two-digit years within their window, and formats without a year in the current one. |
| `Hsl.WaveIsLipschitz` | sample-graphs/src/main/resources/html/jquery/jquery-ui-1.10.3.js:5206-5218 | A channel moves by at most six times the move of the hue, across the wrap as well. |
| `Hsl.ScaledWave` | sample-graphs/src/main/resources/html/jquery/jquery-ui-1.10.3.js:5206-5218 | A channel is a fixed profile around the wheel, scaled to the range of the colour. |
| `Hsl.HueSplits` | sample-graphs/src/main/resources/html/jquery/jquery-ui-1.10.3.js:5235-5243 | At the hue of a colour the three profiles have the heights of its channels, in every sector and on every tie. |
| `Hsl.UpperIsMax` | sample-graphs/src/main/resources/html/jquery/jquery-ui-1.10.3.js:5247-5266 | Lightness and saturation give back the largest and smallest channel. |
| `Hsl.RoundTrip` | sample-graphs/src/main/resources/html/jquery/jquery-ui-1.10.3.js:5206-5274 | Without the roundings `from` undoes `to` for all channels in [0,255]; what becomes of absent channels and alpha. |
| `Hsl.RoundTripBack` | sample-graphs/src/main/resources/html/jquery/jquery-ui-1.10.3.js:5206-5274 | Without the roundings `to` undoes `from` for every colour with a hue. |
| `Hsl.PureColours` | sample-graphs/src/main/resources/html/jquery/jquery-ui-1.10.3.js:5220-5252 | Red, yellow, green, cyan, blue and magenta have the hues 0, 60, 120, 180, 240 and 300, full saturation and lightness one half. |
| `Hsl.Greys` | sample-graphs/src/main/resources/html/jquery/jquery-ui-1.10.3.js:5220-5252 | A grey has hue and saturation 0 and is as light as its channels. |
| `Hsl.RoundedHue` | sample-graphs/src/main/resources/html/jquery/jquery-ui-1.10.3.js:5254-5274 | Rounding the hue to whole degrees moves each unrounded channel by at most 17/8. |
| `Hsl.BoundIsReached` | sample-graphs/src/main/resources/html/jquery/jquery-ui-1.10.3.js:5254-5274 | No smaller bound holds. |
| `Hsl.WholeChannels` | sample-graphs/src/main/resources/html/jquery/jquery-ui-1.10.3.js:5206-5274 | With every rounding in place, whole channels come back off by at most 2. |
| `Counters.LongValue` | sample-api/src/main/java/org/opennms/netmgt/api/sample/CounterValue.java:117-123 | The low 64 bits of a number, signed. |
| `Counters.DeltaIsExact` | sample-api/src/main/java/org/opennms/netmgt/api/sample/CounterValue.java:23-39 | For readings of a wrapping counter the delta is never negative, never more than the true step, and equals it iff the step is below the range and, where a 64-bit reading went down, below 2^64 - 2^32. |
| `Counters.SmallSteps` | sample-api/src/main/java/org/opennms/netmgt/api/sample/CounterValue.java:23-39 | The bound that needs no look at the readings: 2^32 for a 32-bit counter, 2^64 - 2^32 for a 64-bit one (sections 7.1.6 and 7.1.10 of RFC 2578). |
| `Counters.MistakenWidth` | sample-api/src/main/java/org/opennms/netmgt/api/sample/CounterValue.java:26-34 | Beyond it, a wrapped 64-bit step is taken for a 32-bit wrap and exactly 2^64 - 2^32 events are lost. |
| `Counters.PlainNumber` | sample-api/src/main/java/org/opennms/netmgt/api/sample/CounterValue.java:24-39 | Exactly when an earlier sample given as a plain number, through a signed 64-bit value, leads to the same delta. |
| `Counters.SumOfDeltas` | sample-api/src/main/java/org/opennms/netmgt/api/sample/CounterValue.java:23-44 | Over every run of samples the deltas, added up, are at most the true increase, and equal it iff every step was guessed right. |

## Left out

- Sizzle.Engine.MatcherFromTokens: token lists without positional pseudos; those are compiled into the set matchers of `SetMatchers`, which are modelled from there on, not from tokens.
- Sizzle.Engine.Compile: selectors without positional pseudos, and no compiler cache.
- Sizzle.SuperMatcher.Run: the outermost match only; nested selectors (`:has`, `:not`), selectors that change the document while it is matched, the set matchers run after the elements (lines 5375-5406) and the compiler cache are not in it.
- EarlierResults.WhenRight: where three or more pseudos behind one another ask for positions, the check is proved to be enough but not to be needed; `EarlierResults.RightIsAgreement` has no such limit, but its condition asks what the filter behind chooses.
- SetMatchers.EarlierMatchSurvives: a plain filter behind the pseudo, and indexes matched earlier; the general case is in `EarlierResults`.
- SetMatchers.Apply: a seed is given and there is no postFinder; matching without a seed collects elements through other selectors.
- SetMatchers.ApplyFiltered: as `SetMatchers.Apply`.
- DocumentOrder.SiblingCheck: without the `sourceIndex` shortcut.
- DocumentOrder.SortOrder: two nodes of one tree, compared without the native `compareDocumentPosition` and `sourceIndex`; nodes of different trees are left out.
- DocumentOrder.UniqueSort: the native sort is represented by a result that is sorted and has the same elements.
- NthChild.Parent.Nth: the element has a parent and the document does not change during a run.
- Callbacks.CallbackList.AddCallbacks: a flat sequence of functions; argument lists inside argument lists are flattened first.
- Callbacks.Live: callbacks do not throw, and `empty` is not called, which during a fire would leave the end of the batch stale (lines 1115-1118).
- Deferreds.PromiseKept: the promise is modelled on values, as a machine over the states of `Callbacks` that takes one call or one return at a time, because its callbacks may call any operation of any of the three lists; `then`, `always`, contexts and aliasing between promises are not in it.
- DeferredProgress.EveryoneIsTold: listeners that do nothing to the Deferred; for others `DeferredFires.SessionIsDrain` and `CallbackRuns` apply.
- Whens.Start: as `Whens.When`.
- Whens.When: one argument that is itself a promise is returned as it is (line 1265) and is not modelled; contexts are left out, and the promises are modelled by the events they deliver.
- EventHandlers.HandlerList.Remove: one event type; parsing several types, special event types, native listeners and the deletion of the list when it is empty are left out (the deletion is in `DataIds`).
- EventHandlers.HandlerList.Dispatch: whether a selector matches an element below the listening one is a parameter, the document does not change during the climb, and an element is disabled or not throughout.
- EventHandlers.Climb: as `EventHandlers.HandlerList.Dispatch`.
- Namespaces.RegexSelects: names hold no dots, white space or characters that are special in regular expressions.
- DataIds.DataStore.InternalData: data on plain objects, which is stored on the object itself, camel-casing and splitting of names, and the object that is returned for a whole entry are left out; the private name "data" is taken to hold an object.
- DataIds.DataStore.InternalRemoveData: a list of names or none; splitting and camel-casing of names are left out.
- DataIds.DataStore.EventAdd: what is stored in the cache for one handler of one type; its place among the handlers is in `EventHandlers`.
- DataIds.DataStore.EventRemove: one type without handler, namespaces or selector, as `cleanData` calls it; teardown hooks are not run.
- DataLaws.WriteThenRead: the private name "data" holds an object or nothing, as in all of `DataLaws`.
- FxQueue.FxQueue.Queue: the fx queue only; replacing a queue by an array, `clearQueue`, `delay`, the hooks `cur` and `stop`, and callbacks that others add to the empty hook are left out.
- Calendar.SplitDayOfYear: years other than 0 to 99, which `parseDate` moves into a century before; so for the two lemmas about the split.
- Calendar.Iso8601Week: time zones and daylight saving are left out, days are whole numbers.
- DateLanguage.FormatDate: the pieces `@` and `!`, which print timestamps, are excluded.
- DateLanguage.ParseDate: the pieces `@` and `!`, which read and print timestamps, are excluded; upper and lower case are compared, and white space recognised, in ASCII only; the current year is at least 200; null arguments and settings with a numeric cutoff string are resolved by the caller.
- DateLanguage.ReadNext: names are tried longest first and, among names of the same length, in the order of the table.
- Hsl.To: channels outside [0,255] are excluded, where the original can divide by zero; floating-point rounding is left out.
- Counters.DeltaIsExact: a counter that is reset or replaced between two samples is not modelled, and neither is a missing value.
- Sizzle's tokeniser and its native shortcuts, `querySelectorAll` and `matchesSelector`.
- Ajax, JSONP, script loading, DOM-ready detection, CSS, offsets, animation and the other jQuery UI widgets.
- `SampleMath`, `AbsoluteValue` and `DeriveValue`, the Minion controller, the trap parser, and the Camel, JAXB and OSGi plumbing.
