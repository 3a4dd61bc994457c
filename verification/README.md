# Lightbox: a verified model of the logic it ships

Lightbox is a launcher around prebuilt tools. This Dafny project models the stateful logic in the
JavaScript and Python that come with those tools, and in Lightbox's own editor extension, and proves
what that logic is for. Each module follows one component:

| module | component |
|---|---|
| `Dom`, `SelectorSemantics`, `Selectors` | Sizzle's selector compiler with its ancestor and sibling result cache, against Selectors Level 3 section 8 |
| `DocumentOrder`, `NthChild` | Sizzle's fallback document order and `uniqueSort`; the child filters and their caches |
| `Callbacks`, `Deferred`, `ProgressHandlers`, `Then` | jQuery's re-entrant callback lists, deferreds, and the resolution procedure of `then` |
| `EventHandlers`, `FxQueue` | jQuery's event handler lists and fx queue |
| `Timing`, `Escaping` | Underscore's `throttle`, `debounce`, `escape` and `unescape` |
| `Breakpoints`, `Registry`, `PrettyPrinters` | gdb's DAP breakpoint requests, handler registries, and enabling of pretty-printers |
| `Filters`, `Wrappers` | an order-preserving filter and an option type, used throughout |
| `Quoting` | the command line of Lightbox's VS Code extension, read back by a POSIX shell |

Documents are finite ordered trees and simple selector filters are arbitrary predicates. User code
that may re-enter an object is modelled by steps: whatever a callback does is an arbitrary sequence
of operations, so a statement about every sequence of steps is one about every program of callbacks.
Objects that the sources update in place are classes, and each method is tied to a specification
that does not mention how it computes.

Results of note, in reading order:

- `Selectors.Engine.Select`: compiled, cached, right-to-left matching selects exactly what a
  left-to-right chain does. The heart is `RunCached`, where nested walks overwrite each other's
  records and one shared array changes what is recorded on many nodes at once.
- `DocumentOrder.SortOrder` and `UniqueSort`; `NthChild.NthCache.Filter`.
- `Callbacks.EveryRun`, `Deferred.ExactlyOnce` and `SettledForever`,
  `ProgressHandlers.ProgressDelivered`, `Then.Derived.Resolve`.
- `Timing.Throttle.Call`, `Timing.Debounce.Later`; `Escaping.RoundTrip` and `ReverseTrip`;
  `Quoting.CommandLineWords`.
- `Breakpoints.Session.SetBreakpoints` and `SetTwice`; `Registry.Locus.Register`;
  `PrettyPrinters.EnableTwice`.

Seven properties one might expect do not hold of the code as it is. Each has a precise condition and
an instance:

- `Callbacks.empty` during a pass can make that pass miss callbacks added afterwards: `EmptyExact`
  says exactly when, `EmptyMisses` shows the shortest run.
- The cache of `:nth-last-child` is wrong for an element asked about after a later sibling that was
  the first asked about under their parent, and for no other: `SeekLast` and `SeekLasts`, with
  `AskBackwards` for two elements. Asking in document order is safe (`InOrderLeads`), but a selector
  like `x:nth-last-child(2) ~ y` asks backwards, since the walk goes to earlier siblings.
- A breakpoint request in which one key succeeds twice leaves a breakpoint that no map remembers:
  `SetBreakpoints` gives the exact condition, `RequestTwice` an instance.
- A breakpoint request raises exactly if the user has meanwhile deleted a breakpoint recorded for its
  kind: `SetBreakpoints`, with `SetAfterDeletion` for what follows. That gdb refuses any access to a
  deleted breakpoint is documented in its manual
  (`prebuilts/gdb/usr/local/share/info/gdb.info`, lines 31667-31677).
- Replacing a handler deletes from the list being iterated, and an old namesake survives exactly if
  two stand side by side (`LeftBehind`, `PurgeExact`, `TwoNamesakes`). Registration alone never makes
  that happen.
- The number of printers reported by `enable pretty-printer` can be less than the change in the count.
  It is the change exactly under `CountsOnce`: every printer that it changes, and that stands for
  something enabled, is registered in one place, and every subprinter that it changes counts in one place at most,
  with the first printer through which the command comes to it (`DoEnable`; `EnableShared` and
  `EnableHidden` are instances).
- `escape` does not undo `unescape` in general, only for the strings that `WellEscaped` describes
  (`ReverseTrip`, `BareBracket`).

`dafny verify dfyconfig.toml` checks the whole project.

## Model

| member | source | states |
|---|---|---|
| `SelectorSemantics.SelectsStart` | prebuilts/qemu/share/doc/qemu/_static/jquery.js:2610-2629 | A group of no compounds selects exactly what its anchor (the scoping context, or nothing when unscoped) admits |
| `SelectorSemantics.SelectsFilter` | prebuilts/qemu/share/doc/qemu/_static/jquery.js:2635-2662 | In the chain semantics of Selectors Level 3 section 8, one more simple filter selects exactly the previously selected nodes that pass it |
| `SelectorSemantics.SelectsRelative` | prebuilts/qemu/share/doc/qemu/_static/jquery.js:1768-1773 | One more combinator selects exactly the nodes that have a selected element to their left across it |
| `Selectors.WalkAnyMeans` | prebuilts/qemu/share/doc/qemu/_static/jquery.js:2414-2459 | The walk over all ancestors or preceding siblings answers whether some stop on it is accepted |
| `Selectors.WalkFirstMeans` | prebuilts/qemu/share/doc/qemu/_static/jquery.js:2404-2412 | The `first` walk answers for the nearest stop and no other |
| `Selectors.CombinatorMeans` | prebuilts/qemu/share/doc/qemu/_static/jquery.js:2395-2459 | For each of the four combinators, the walk accepts a node iff an accepted stop stands to its left in the Level 3 relation |
| `Selectors.ScopeMeans` | prebuilts/qemu/share/doc/qemu/_static/jquery.js:2613-2629 | The foundational matcher accepts exactly the nodes that are anchored in the context |
| `Selectors.DenotesRelative` | prebuilts/qemu/share/doc/qemu/_static/jquery.js:2632-2633 | Wrapping the matchers so far in a combinator keeps their list meaning the tokens read so far |
| `Selectors.DenotesFilter` | prebuilts/qemu/share/doc/qemu/_static/jquery.js:2635-2662 | Appending a filter keeps the list of matchers meaning the tokens read so far |
| `Selectors.Engine.AddCombinator` | prebuilts/qemu/share/doc/qemu/_static/jquery.js:2395-2400 | Every combinator gets a number of its own, above those of everything inside it |
| `Selectors.Engine.MatcherFromTokens` | prebuilts/qemu/share/doc/qemu/_static/jquery.js:2606-2667 | In every tree, context and document type, the compiled matcher accepts a node iff a left-to-right chain of elements satisfying the compounds and combinators ends at it |
| `Selectors.Engine.Run` | prebuilts/qemu/share/doc/qemu/_static/jquery.js:2462-2474 | Applying a matcher with caches gives the answer of the uncached reading, whatever this run has already recorded, and keeps every record right |
| `Selectors.Engine.RunFirst` | prebuilts/qemu/share/doc/qemu/_static/jquery.js:2404-2412 | The nearest-stop walk with caches inside agrees with the uncached one |
| `Selectors.Engine.RunPlain` | prebuilts/qemu/share/doc/qemu/_static/jquery.js:2420-2427 | The XML branch agrees with the uncached walk |
| `Selectors.Engine.RunCached` | prebuilts/qemu/share/doc/qemu/_static/jquery.js:2428-2458 | The cached branch agrees with the uncached walk and leaves only right records, although one shared array back-propagates and combinators of one direction overwrite each other |
| `Selectors.Engine.Reuse` | prebuilts/qemu/share/doc/qemu/_static/jquery.js:2440-2444 | A record found on the way holds the answer still to be found, and copying it makes every node behind right at once |
| `Selectors.Engine.Try` | prebuilts/qemu/share/doc/qemu/_static/jquery.js:2445-2454 | A recorded stop either matches, or the walk goes on with all its own records still due the same answer; other walks' records are untouched |
| `Selectors.Engine.Settled` | prebuilts/qemu/share/doc/qemu/_static/jquery.js:2443-2454 | Once the shared array holds the answer of the walk, it is right on every node that carries it |
| `Selectors.Engine.SuperMatcher` | prebuilts/qemu/share/doc/qemu/_static/jquery.js:2684-2720 | Over one run the results are, in order, exactly the candidates that some uncached matcher accepts |
| `Selectors.Engine.Select` | prebuilts/qemu/share/doc/qemu/_static/jquery.js:2794-2814 | Compiling all groups and running them yields, in order, exactly the candidates that some group selects in the Level 3 sense |
| `DocumentOrder.Met` | prebuilts/qemu/share/doc/qemu/_static/jquery.js:1533-1598 | The preorder traversal meets each node at its position, so positions tell nodes apart |
| `DocumentOrder.OnlyNodes` | prebuilts/qemu/share/doc/qemu/_static/jquery.js:1533-1598 | The traversal meets nothing but the nodes of the tree, and each once |
| `DocumentOrder.PositionsOrder` | prebuilts/qemu/share/doc/qemu/_static/jquery.js:1533-1598 | Comparing positions is the same as coming first in the traversal |
| `DocumentOrder.DecidedAt` | prebuilts/qemu/share/doc/qemu/_static/jquery.js:1572-1590 | Where two paths part decides the order: ancestors first, then siblings from left to right |
| `DocumentOrder.BranchDecided` | prebuilts/qemu/share/doc/qemu/_static/jquery.js:1580-1590 | The first discrepancy between two ancestor lines exists, and gives the order of the nodes by the order of those siblings or by which line ends |
| `DocumentOrder.SiblingCheck` | prebuilts/qemu/share/doc/qemu/_static/jquery.js:973-993 | Negative exactly if the first sibling precedes the second or is missing, never zero; the browser's numbering and the sibling walk agree |
| `DocumentOrder.CompareBranches` | prebuilts/qemu/share/doc/qemu/_static/jquery.js:1571-1590 | For different nodes the sign is that of preorder, and never zero |
| `DocumentOrder.SortOrder` | prebuilts/qemu/share/doc/qemu/_static/jquery.js:1533-1598 | Negative exactly if the first node precedes the second in preorder; zero, reporting a duplicate, exactly for the same node |
| `DocumentOrder.AncestorsOf` | prebuilts/qemu/share/doc/qemu/_static/jquery.js:1571-1578 | The list holds the node and all its ancestors, outermost first |
| `DocumentOrder.Duplicates` | prebuilts/qemu/share/doc/qemu/_static/jquery.js:1698-1702 | The recorded indices are exactly those of members equal to the one before, increasing |
| `DocumentOrder.SpliceOut` | prebuilts/qemu/share/doc/qemu/_static/jquery.js:1703-1705 | Splicing the recorded indices from last to first leaves exactly the members that do not repeat the one before |
| `DocumentOrder.FreshSorted` | prebuilts/qemu/share/doc/qemu/_static/jquery.js:1697-1706 | Dropping repetitions from an array sorted by position leaves it strictly increasing |
| `DocumentOrder.UniqueSort` | prebuilts/qemu/share/doc/qemu/_static/jquery.js:1686-1713 | The result is strictly increasing in document order and has the same members as the input |
| `NthChild.InCycleMeans` | prebuilts/qemu/share/doc/qemu/_static/jquery.js:2041-2043 | The final test holds iff the index is a*n+b for some n >= 0, for every a and b, zero and negative included |
| `NthChild.SeekAmong` | prebuilts/qemu/share/doc/qemu/_static/jquery.js:1971-1986 | Seeking from any right stored position, with one restart on overshoot, ends with the number of element siblings up to the element |
| `NthChild.SeekPlain` | prebuilts/qemu/share/doc/qemu/_static/jquery.js:2009-2038 | Without a cache the loop from the first or last child ends with the place of the element among those counted |
| `NthChild.Alone` | prebuilts/qemu/share/doc/qemu/_static/jquery.js:1937-1952 | The walk to one side finds no counted sibling iff the element is the first, or the last, of them |
| `NthChild.StoreFrom` | prebuilts/qemu/share/doc/qemu/_static/jquery.js:1990-2038 | The first cached count from the back under a parent is right, and what it stores on each sibling is the right count from that element on and a partial one before it |
| `NthChild.LeftIsRight` | prebuilts/qemu/share/doc/qemu/_static/jquery.js:2012-2031 | What the first query stored on an element is its place from the back iff the element is not before the one asked about |
| `NthChild.LastMiscounts` | prebuilts/qemu/share/doc/qemu/_static/jquery.js:2012-2031 | Of two elements, with the second asked about first, what is stored on the first says that it is the last |
| `NthChild.AskBackwards` | prebuilts/qemu/share/doc/qemu/_static/jquery.js:1988-2039 | Asked about two elements in that order, the filter counts one of them wrongly |
| `NthChild.NthCache.Start` | prebuilts/qemu/share/doc/qemu/_static/jquery.js:2684-2684 | A new run makes everything stored before it irrelevant |
| `NthChild.NthCache.Seek` | prebuilts/qemu/share/doc/qemu/_static/jquery.js:1955-1986 | The index is right, and so is what is stored on the parent, in whatever order elements are asked for |
| `NthChild.NthCache.SeekLast` | prebuilts/qemu/share/doc/qemu/_static/jquery.js:1988-2039 | The cached count from the back is right iff no later sibling was the first asked about under the parent |
| `NthChild.NthCache.SeekLasts` | prebuilts/qemu/share/doc/qemu/_static/jquery.js:1988-2039 | Over a sequence of queries in one run all cached counts from the back are right iff no element comes after a later sibling that was the first of all |
| `NthChild.InOrderLeads` | prebuilts/qemu/share/doc/qemu/_static/jquery.js:1988-2039 | Queries in document order meet that condition |
| `NthChild.NthCache.Count` | prebuilts/qemu/share/doc/qemu/_static/jquery.js:1955-2039 | Whichever branch counts, cached or not, the count is right, but for the condition on `:nth-last-child` |
| `NthChild.NthCache.Filter` | prebuilts/qemu/share/doc/qemu/_static/jquery.js:1919-2044 | All child filters, with and without of-type, in HTML and XML, select what they mean, unless a cached `:nth-last-child` asks about an element after a later sibling that was first; and even then exactly if the place reckoned with passes the test as the right one does |
| `Callbacks.PushAllKeeps` | prebuilts/qemu/share/doc/qemu/_static/jquery.js:3542-3554 | `add` only appends, and numbers the additions after everything registered before |
| `Callbacks.RemoveCovered` | prebuilts/qemu/share/doc/qemu/_static/jquery.js:3564-3577 | `remove` keeps the split at the firing index: called callbacks before it, callbacks still to come after it |
| `Callbacks.EndPassInv` | prebuilts/qemu/share/doc/qemu/_static/jquery.js:3493-3506 | The end of a pass records a complete pass and turns to the next queued value or out |
| `Callbacks.MoveInv` | prebuilts/qemu/share/doc/qemu/_static/jquery.js:3485-3632 | Every operation and every move of the firing loop keeps the invariant, for all options |
| `Callbacks.EveryRun` | prebuilts/qemu/share/doc/qemu/_static/jquery.js:3485-3632 | In every run each pass calls its callbacks in registration order, none twice and none missed that is still registered; queued values are taken in order and none is left over; while firing, what is still to be called is exactly what lies past the index |
| `Callbacks.EmptyExact` | prebuilts/qemu/share/doc/qemu/_static/jquery.js:3588-3593 | After `empty` every pass of every continuation is complete if and only if no pass was past its first callback |
| `Callbacks.EmptyMisses` | prebuilts/qemu/share/doc/qemu/_static/jquery.js:3588-3593 | A concrete run in which a callback empties the list, adds another, and the pass misses it |
| `Callbacks.RemoveAllMembers` | prebuilts/qemu/share/doc/qemu/_static/jquery.js:3564-3577 | `remove` takes away every registration of the functions named, and no other |
| `Callbacks.PushAllMembers` | prebuilts/qemu/share/doc/qemu/_static/jquery.js:3542-3554 | `add` registers the functions named, and no other; with `unique`, none twice |
| `Callbacks.StaysLocked` | prebuilts/qemu/share/doc/qemu/_static/jquery.js:3595-3619 | In every run a locked list stays locked and `fire` does nothing to it |
| `Callbacks.OnceRun` | prebuilts/qemu/share/doc/qemu/_static/jquery.js:3487-3527 | With `once`, every pass of every run is made with the first value |
| `Callbacks.CallbackList.PushEach` | prebuilts/qemu/share/doc/qemu/_static/jquery.js:3542-3554 | The loop appends each callback, or skips it when `unique` and registered |
| `Callbacks.CallbackList.RemoveOne` | prebuilts/qemu/share/doc/qemu/_static/jquery.js:3566-3574 | Repeated splicing, each search going on where the last ended, leaves the list without the function and the index lowered by the removals at or before it |
| `Callbacks.CallbackList.Perform` | prebuilts/qemu/share/doc/qemu/_static/jquery.js:3533-3632 | An operation made by a callback while firing does what the machine's step does and keeps the invariant, `empty` exactly where it is harmless |
| `Callbacks.CallbackList.Pass` | prebuilts/qemu/share/doc/qemu/_static/jquery.js:3495-3505 | One pass over a list that its own callbacks change ends, complete |
| `Callbacks.CallbackList.FireQueue` | prebuilts/qemu/share/doc/qemu/_static/jquery.js:3485-3527 | The queue is worked off and the list ends idle with its promises kept |
| `Callbacks.CallbackList.FireWith` | prebuilts/qemu/share/doc/qemu/_static/jquery.js:3622-3632 | A locked list ignores the call; otherwise the next pass made is with this value |
| `Callbacks.CallbackList.AddFns` | prebuilts/qemu/share/doc/qemu/_static/jquery.js:3533-3561 | A spent list ignores additions; one with memory calls them at once with the remembered value; otherwise they are appended |
| `Deferred.FiredMove` | prebuilts/qemu/share/doc/qemu/_static/jquery.js:3493-3506 | A fired one-shot list calls exactly its next callback with the settling value, or ends having called all |
| `Deferred.FiredAdd` | prebuilts/qemu/share/doc/qemu/_static/jquery.js:3533-3561 | A callback added to a fired list, firing or idle, is due exactly once after all others |
| `Deferred.SettleSound` | prebuilts/qemu/share/doc/qemu/_static/jquery.js:3932-3960 | The first settlement decides state and value, disables the other outcome and locks progress; every later one changes nothing |
| `Deferred.NotifySound` | prebuilts/qemu/share/doc/qemu/_static/jquery.js:3970-3973 | While pending every notification is accepted; once settled it changes nothing |
| `Deferred.ContinueSound` | prebuilts/qemu/share/doc/qemu/_static/jquery.js:3957-3960 | Every move of a firing list keeps all promises, state and, once settled, the last progress value |
| `Deferred.ActSound` | prebuilts/qemu/share/doc/qemu/_static/jquery.js:3922-3974 | Everything user code may do, at rest or from inside a callback, has its effect (a handler given, a value accepted, the state set, or nothing once settled) and keeps all promises |
| `Deferred.NewSound` | prebuilts/qemu/share/doc/qemu/_static/jquery.js:3692-3703 | A new deferred keeps all promises |
| `Deferred.ExactlyOnce` | prebuilts/qemu/share/doc/qemu/_static/jquery.js:3692-3974 | In every run the handlers of the outcome are called at most once each, in order, with the settling value, and all of them once nothing runs; handlers of the other outcome never; every progress pass is complete, and while pending the progress lists hold all handlers given |
| `ProgressHandlers.ProgressDelivered` | prebuilts/qemu/share/doc/qemu/_static/jquery.js:3692-3974 | In every run the calls to progress handlers are those of the passes: one pass for each accepted value, in order, none left over at rest, each calling once and in order, with its value, exactly the handlers held at its end that it is for |
| `ProgressHandlers.ToldAdd` | prebuilts/qemu/share/doc/qemu/_static/jquery.js:3533-3561 | A progress handler given late is called with the last value and is not due any earlier one |
| `ProgressHandlers.ToldCall` | prebuilts/qemu/share/doc/qemu/_static/jquery.js:3493-3506 | The next call of a pass is to the next handler in the order given, with the value of the pass |
| `ProgressHandlers.ToldEnd` | prebuilts/qemu/share/doc/qemu/_static/jquery.js:3493-3527 | A pass ends having called all it was for |
| `Deferred.SettledForever` | prebuilts/qemu/share/doc/qemu/_static/jquery.js:3932-3955 | A settled deferred keeps state, value and last progress value in every continuation |
| `Then.First` | prebuilts/qemu/share/doc/qemu/_static/jquery.js:3757-3762 | Finds an event at a level iff there is one |
| `Then.DecisionStays` | prebuilts/qemu/share/doc/qemu/_static/jquery.js:3757-3762 | Later calls and throws never change the decision that the first event at each level makes |
| `Then.OneMore` | prebuilts/qemu/share/doc/qemu/_static/jquery.js:3754-3855 | What one more event does: at a level above the deepest nothing, at the deepest it decides or opens one more level |
| `Then.Derived.Resolve` | prebuilts/qemu/share/doc/qemu/_static/jquery.js:3754-3855 | The derived deferred is settled as the first event at each level says (Promises/A+ 2.3.3.3.3); a resolver below the maximal depth does nothing |
| `Then.Derived.ThenThrows` | prebuilts/qemu/share/doc/qemu/_static/jquery.js:3827-3854 | A throw counts exactly if the thenable had called no resolver before (Promises/A+ 2.3.3.3.4.1) |
| `Then.Derived.Caught` | prebuilts/qemu/share/doc/qemu/_static/jquery.js:3840-3853 | An exception rejects exactly if no deeper level has been opened and nothing is settled |
| `Then.Derived.Report` | prebuilts/qemu/share/doc/qemu/_static/jquery.js:3754-3831 | Progress is passed on only from the deepest level and only while unsettled; a thenable or an exception from a progress handler decides nothing, and nobody catches the exception |
| `FxQueue.Queue.Dequeue` | prebuilts/qemu/share/doc/qemu/_static/jquery.js:4579-4612 | Starts the next function in the order enqueued, behind the sentinel, or clears the sentinel when none waits |
| `FxQueue.Queue.Enqueue` | prebuilts/qemu/share/doc/qemu/_static/jquery.js:4626-4651 | A function queued while one is unfinished waits its turn; otherwise it starts at once |
| `FxQueue.Queue.Next` | prebuilts/qemu/share/doc/qemu/_static/jquery.js:4586-4588 | Started functions stay a prefix of those enqueued, at most one unfinished, with the sentinel at the head exactly then |
| `EventHandlers.HandlerList.Add` | prebuilts/qemu/share/doc/qemu/_static/jquery.js:5293-5298 | Delegated handlers stay in front of direct ones, both in registration order, with the count right |
| `EventHandlers.HandlerList.Remove` | prebuilts/qemu/share/doc/qemu/_static/jquery.js:5341-5359 | Exactly the matching registrations go; order and count stay right |
| `EventHandlers.HandlerList.CountSplits` | prebuilts/qemu/share/doc/qemu/_static/jquery.js:5293-5298 | A handler has a selector iff it stands before the delegate count |
| `EventHandlers.MatchedAt` | prebuilts/qemu/share/doc/qemu/_static/jquery.js:5473-5489 | The per-node memo of selectors never changes which handlers match |
| `EventHandlers.DelegatedFor` | prebuilts/qemu/share/doc/qemu/_static/jquery.js:5468-5494 | The climb lists, innermost first, each eligible node with its matching handlers |
| `EventHandlers.HandlersFor` | prebuilts/qemu/share/doc/qemu/_static/jquery.js:5448-5504 | The result is the matching delegated handlers node by node, then all direct ones |
| `EventHandlers.ListedOn` | prebuilts/qemu/share/doc/qemu/_static/jquery.js:5468-5494 | A handler is listed on a node iff it is delegated, the node is on the way up and eligible, and its selector selects it |
| `Timing.Throttle.Call` | prebuilts/qemu/share/doc/qemu/_static/underscore.js:1111-1129 | A call is delivered at once iff its window is over; invocations stay at least `wait` apart for all options; with trailing calls, a timer for the end of the window is pending iff the latest call is undelivered |
| `Timing.Throttle.Later` | prebuilts/qemu/share/doc/qemu/_static/underscore.js:1104-1109 | The timer delivers the latest call, `wait` or more after the last invocation |
| `Timing.Debounce.Called` | prebuilts/qemu/share/doc/qemu/_static/underscore.js:1159-1168 | A timer is pending after every call, only one, and due no later than `wait` after that call; immediate mode invokes exactly if none was, which means after a quiet gap |
| `Timing.Debounce.Later` | prebuilts/qemu/share/doc/qemu/_static/underscore.js:1147-1157 | Trailing mode delivers the last call once, with its arguments, at least `wait` after it, and sets the timer again otherwise |
| `Timing.JustifiedCall` | prebuilts/qemu/share/doc/qemu/_static/underscore.js:1159-1168 | A further call takes nothing away from what was promised of earlier deliveries |
| `Escaping.Invert` | prebuilts/qemu/share/doc/qemu/_static/underscore.js:556-563 | Every value becomes a key once and leads to the last key that had it; the columns are simply exchanged iff no value repeats |
| `Escaping.UnescapeMapIsInverse` | prebuilts/qemu/share/doc/qemu/_static/underscore.js:822-836 | The unescape table is the escape table with its columns exchanged, and no value repeats |
| `Escaping.TestIsShortcut` | prebuilts/qemu/share/doc/qemu/_static/underscore.js:816-819 | The test before the replacement never changes the result |
| `Escaping.EscapeCons` | prebuilts/qemu/share/doc/qemu/_static/underscore.js:808-833 | Escaping goes character by character and never rescans its output |
| `Escaping.UnescapeCode` | prebuilts/qemu/share/doc/qemu/_static/underscore.js:835-839 | Unescaping takes the code of a character back to that character, whatever follows |
| `Escaping.RoundTrip` | prebuilts/qemu/share/doc/qemu/_static/underscore.js:808-839 | `unescape(escape(s)) == s` for every string |
| `Escaping.EscapeIsWellEscaped` | prebuilts/qemu/share/doc/qemu/_static/underscore.js:822-833 | In escaped output every `&` starts an entity and no other special character occurs |
| `Escaping.ReverseTrip` | prebuilts/qemu/share/doc/qemu/_static/underscore.js:808-839 | `escape(unescape(s)) == s` iff s is well escaped |
| `Escaping.BareBracket` | prebuilts/qemu/share/doc/qemu/_static/underscore.js:808-839 | A bare `<` comes back as its entity |
| `Quoting.ScanArg` | scripts/vscode/src/extension.ts:38-43 | A quoted argument is read by the shell as one word, itself, whatever follows |
| `Quoting.RoundTrip` | scripts/vscode/src/extension.ts:68-72 | The shell reads the joined quoted arguments as exactly the original list, empty strings included |
| `Quoting.ScanThenMore` | scripts/vscode/src/extension.ts:71-72 | Text that is a complete word list is read the same with more words after it |
| `Quoting.CommandLineWords` | scripts/vscode/src/extension.ts:65-72 | A script that is a path is one word, other text its own words, and the arguments follow unchanged |
| `Breakpoints.Session.Treat` | prebuilts/gdb/usr/local/share/gdb/python/gdb/dap/breakpoint.py:159-205 | One item is reused, created or failed, and a failed one is deleted; the exception escapes iff the breakpoint to reuse no longer exists |
| `Breakpoints.RoundStep` | prebuilts/gdb/usr/local/share/gdb/python/gdb/dap/breakpoint.py:159-205 | Treating one more item keeps the whole account: results, new map, what exists, what was deleted and what is set |
| `Breakpoints.Session.DeleteLeft` | prebuilts/gdb/usr/local/share/gdb/python/gdb/dap/breakpoint.py:207-209 | Exactly what was not reused is deleted, each once, iff all of it still exists |
| `Breakpoints.StandingStep` | prebuilts/gdb/usr/local/share/gdb/python/gdb/dap/breakpoint.py:159-205 | Whether or not all old breakpoints still exist, what is recorded exists, is recorded once, and nothing else has gone |
| `Breakpoints.Session.SetBreakpoints` | prebuilts/gdb/usr/local/share/gdb/python/gdb/dap/breakpoint.py:150-210 | The request ends without an exception iff every breakpoint saved for the kind still exists. Then results answer the items by position; of the kind exactly the breakpoints they name exist, and these are the values of the new map iff no key succeeds twice; every old one is reused or deleted once; other kinds and their attributes are untouched. In either case what is recorded exists |
| `Breakpoints.Session.SetAfterDeletion` | prebuilts/gdb/usr/local/share/gdb/python/gdb/dap/breakpoint.py:150-210 | After the user deletes a recorded breakpoint the next request of the kind raises and the one after it is answered |
| `Breakpoints.AllRecorded` | prebuilts/gdb/usr/local/share/gdb/python/gdb/dap/breakpoint.py:168-188 | The new map holds every breakpoint that was left iff no two items with one key both succeed, given what was saved; distinct keys suffice |
| `Breakpoints.RepeatedKeyIsLeftBehind` | prebuilts/gdb/usr/local/share/gdb/python/gdb/dap/breakpoint.py:166-187 | A map that records a request naming one key twice does not hold the first of the two breakpoints |
| `Breakpoints.RequestTwice` | prebuilts/gdb/usr/local/share/gdb/python/gdb/dap/breakpoint.py:150-210 | Such a request to a new session leaves a breakpoint that no map remembers |
| `Breakpoints.OwnedAfter` | prebuilts/gdb/usr/local/share/gdb/python/gdb/dap/breakpoint.py:152-157 | However a request ends, every breakpoint is recorded under one kind and key only |
| `Breakpoints.SameAnswers` | prebuilts/gdb/usr/local/share/gdb/python/gdb/dap/breakpoint.py:172-188 | A repeated request reuses, item by item, what the first one left |
| `Breakpoints.Session.SetTwice` | prebuilts/gdb/usr/local/share/gdb/python/gdb/dap/breakpoint.py:150-210 | Repeating a fully successful request creates and deletes nothing and gives the same answers |
| `Registry.Locus.Walk` | prebuilts/gdb/usr/local/share/gdb/python/gdb/missing_files.py:196-203 | Deleting from the list being iterated leaves exactly the list in which one entry after each deletion was passed over unseen; without `replace` a namesake stops it with no change |
| `Registry.Locus.Register` | prebuilts/gdb/usr/local/share/gdb/python/gdb/unwinder.py:131-139 | Fails iff not replacing and the name is taken, changing nothing; otherwise the new entry stands before the old list without its namesake; names stay unique |
| `Registry.PurgeExact` | prebuilts/gdb/usr/local/share/gdb/python/gdb/missing_files.py:196-203 | The walk removes exactly the namesakes iff no two of them stand side by side |
| `Registry.LeftBehind` | prebuilts/gdb/usr/local/share/gdb/python/gdb/missing_files.py:196-203 | An old namesake survives replacement iff two stand side by side |
| `Registry.TwoNamesakes` | prebuilts/gdb/usr/local/share/gdb/python/gdb/missing_files.py:196-203 | Of two namesakes side by side the walk deletes the first and leaves the second |
| `Registry.WithoutUnique` | prebuilts/gdb/usr/local/share/gdb/python/gdb/unwinder.py:131-139 | In a registry of unique names no two namesakes stand side by side, and removal keeps it so |
| `Registry.ValidateName` | prebuilts/gdb/usr/local/share/gdb/python/gdb/missing_files.py:64-84 | Accepts exactly the names made of ASCII letters, digits, `_` and `-` |
| `Registry.RegisterHandler` | prebuilts/gdb/usr/local/share/gdb/python/gdb/missing_files.py:135-204 | Which refusal comes first, that each leaves the list alone, and that handlers stay unique by type and name |
| `PrettyPrinters.CountEnabledPrinters` | prebuilts/gdb/usr/local/share/gdb/python/gdb/command/pretty_printers.py:184-199 | The two counters are the numbers of enabled and of all printers, subprinters counted one by one |
| `PrettyPrinters.CountAll` | prebuilts/gdb/usr/local/share/gdb/python/gdb/command/pretty_printers.py:202-220 | The same over all loci |
| `PrettyPrinters.SumExact` | prebuilts/gdb/usr/local/share/gdb/python/gdb/command/pretty_printers.py:184-199 | When one count moves by so much and no other the wrong way, their sum moves by just that iff no other moves |
| `PrettyPrinters.TouchedIsFinal` | prebuilts/gdb/usr/local/share/gdb/python/gdb/command/pretty_printers.py:253-295 | Treating one printer after the other, shared objects included, sets a printer iff it is picked where the command looks, and a subprinter iff it belongs to such a printer and is named |
| `PrettyPrinters.TouchedTwice` | prebuilts/gdb/usr/local/share/gdb/python/gdb/command/pretty_printers.py:298-326 | The command done twice sets what the command done once sets |
| `PrettyPrinters.ChangedNext` | prebuilts/gdb/usr/local/share/gdb/python/gdb/command/pretty_printers.py:272-281 | The loop counts each subprinter object that changes once, however often it is listed |
| `PrettyPrinters.SubsReachedNext` | prebuilts/gdb/usr/local/share/gdb/python/gdb/command/pretty_printers.py:270-281 | One more subprinter keeps the account of what is set and of the number against the count |
| `PrettyPrinters.EnableSubs` | prebuilts/gdb/usr/local/share/gdb/python/gdb/command/pretty_printers.py:270-281 | Exactly the named subprinters are set; the number is that of the objects that change; the count moves by it iff none of them is listed twice, and by more otherwise |
| `PrettyPrinters.EnableShared` | prebuilts/gdb/usr/local/share/gdb/python/gdb/command/pretty_printers.py:270-281 | A subprinter listed twice: one is reported, and the count moves by two |
| `PrettyPrinters.EnableHidden` | prebuilts/gdb/usr/local/share/gdb/python/gdb/command/pretty_printers.py:270-281 | A disabled subprinter listed by a disabled printer and then by an enabled one: nothing is reported, and the count moves by one |
| `PrettyPrinters.SetOne` | prebuilts/gdb/usr/local/share/gdb/python/gdb/command/pretty_printers.py:254-294 | Exactly what the command names on the printer is set, the rest preserved, and what is reported is the change in what it counts for iff nothing that counts changes in two places |
| `PrettyPrinters.ReportedEach` | prebuilts/gdb/usr/local/share/gdb/python/gdb/command/pretty_printers.py:254-294 | The count over all printers moves by what treating one reports iff that moves the count of one place only |
| `PrettyPrinters.EnableList` | prebuilts/gdb/usr/local/share/gdb/python/gdb/command/pretty_printers.py:239-295 | Over a list, whatever the printers share, exactly what the command names is set, and the count moves by the total iff what is changed counts once, with the printer through which it is reached first |
| `PrettyPrinters.OnceIsSolo` | prebuilts/gdb/usr/local/share/gdb/python/gdb/command/pretty_printers.py:239-326 | A condition on what is registered and set beforehand says exactly whether every printer treated moves the count of one place only: a printer that is changed, and stands for something enabled, is registered once; a subprinter that is changed counts in one place at most, with the printer through which it is reached first |
| `PrettyPrinters.ApartIsOnce` | prebuilts/gdb/usr/local/share/gdb/python/gdb/command/pretty_printers.py:239-326 | Where no object is registered twice the condition holds |
| `PrettyPrinters.DoEnable` | prebuilts/gdb/usr/local/share/gdb/python/gdb/command/pretty_printers.py:298-326 | Over all loci exactly what the command names is set, and the count of enabled printers moves by the total reported, or by more; by just that iff what is changed counts once, with the printer through which it is reached first |
| `PrettyPrinters.EnableTwice` | prebuilts/gdb/usr/local/share/gdb/python/gdb/command/pretty_printers.py:298-326 | The total is at most the difference of two counts made before and after, and equals it on that condition; the number of printers is unchanged; and a second identical command reports 0 and changes nothing |

## Left out

- Selectors.Engine.MatcherFromTokens: positional pseudos, and the set matchers they are compiled to, are not modelled.
- Selectors.Engine.RunCached: the `skip` case of `addCombinator`, which serves `inDisabledFieldset` only, is not modelled.
- Tokenizing of selectors, attribute and pseudo regular expressions, native `querySelectorAll` and browser-bug probes: filters are arbitrary predicates.
- Nested queries made by `:has` and `:not`, for which `dirruns` takes non-integer steps: a filter is a predicate without effects.
- The compiler cache by selector text, and seeding and filtering of candidates in `select`.
- The parsing of an+b.
- DocumentOrder.UniqueSort: the host's `Array.prototype.sort` is given by its contract, a permutation in the order of the comparator whose calls report adjacent duplicates; the sort itself is not modelled.
- DocumentOrder.SortOrder: detached trees, which are ordered by special rules, are not modelled.
- Callbacks: nested arrays of callbacks are flattened beforehand, and callbacks that throw are modelled in `Then` only.
- Deferred: the six lists are values and the methods of the object are steps on them, so update in place and aliasing of the lists are not captured; the five callbacks that settling runs first are one step. `pipe`, `always`, `jQuery.when` and extending another object are left out.
- Then: the context and argument lists passed on, the exception hook, and the delay by `setTimeout` of the outermost level.
- FxQueue: queues of other types, `clearQueue`, arrays of functions, the `stop` hook and the `empty` callbacks; each function calls `next` at most once and nothing else dequeues.
- EventHandlers: attaching and detaching of the native listener, special event types, and the building of the namespace expression; eligibility of a node and selection by a selector are arbitrary predicates.
- Timing: `cancel`, and wrapped functions that call the wrapper back, which break spacing by design; timers may be late but not early, and the clock does not run backwards.
- Escaping.Invert: keys that look like array indices, which JavaScript lists first, keep the order they were set in.
- Quoting: variable expansion before quoting and the handling of terminals; text with double quotes, expansions, patterns, operators or comments counts as more than a list of words.
- Breakpoints: the descriptor does not raise, and the events that are suppressed meanwhile are not modelled.
- Registry: output in verbose mode and the invalidation of cached frames; for unwinders, the check of the type of the locus.
- PrettyPrinters: parsing of the command's regular expressions, and the messages printed.
- Other parts of the repository: documentation search scripts, themes, `explore.py`, styling, headers of prebuilt libraries.
