# Verified model of the wtmcp core

wtmcp is an MCP host: it discovers plugins, starts them as child processes,
talks to them over a line protocol and makes HTTP requests, cache lookups and
credential lookups on their behalf. This project models the parts of it that
carry algorithms or protocol state, and proves what they promise, for all
inputs, all runs and all interleavings.

| module | what it models |
|---|---|
| `PluginGraph` | skip propagation, depth-first topological sort with cycle detection, priority order (`internal/plugin/manager.go`) |
| `StartOrder` | when the order of plugins with equal priorities shows in the start order |
| `StartLevels`, `Launch` | grouping into start levels, the pipeline of `LoadAll`, and `StartPending` with its goroutines as a state machine |
| `Routing` | the pending-call table, the reader loop and its final drain, timeouts and per-call contexts, as steps that interleave freely (`internal/plugin/transport.go`, `dispatch.go`) |
| `Outcomes` | what every caller is told, in terms of the run alone (`internal/plugin/transport.go`, `dispatch.go`) |
| `Session` | core and plugin SDK composed at concurrency 1, joined by two pipes (`pkg/handler`) |
| `Restart` | the sliding-window restart limit, for serialized and for interleaving calls (`internal/plugin/dispatch.go`) |
| `Template` | the `${...}` expander against a syntax tree with a meaning (`internal/config/config.go`) |
| `MemoryCache`, `CacheRefinement` | the namespaced cache with its counter index, and its refinement of a plain TTL map (`internal/cache/memory.go`) |
| `EnvFile`, `EnvForms` | the KEY=VALUE file parser, printer and deleter, and the forms an assignment may be written in |
| `Credentials`, `Backup`, `CredentialRuns` | credential resolution with its cache, migration state, backup and restore, and their runs against the service without a cache (`internal/credentials`) |
| `RateLimit` | the two-level limiter with first-in first-out eviction (`internal/ratelimit/ratelimit.go`) |
| `TagEscape` | escaping of the output tag (`internal/server/framing.go`) |
| `Stats`, `Figures`, `Calendar` | cumulative totals, daily buckets, merging, saving, loading, pruning; what the figures count and how dates compare (`internal/stats`) |
| `Allowlist` | the subdomain test and the growth of a plugin's domain list (`internal/domaincheck`, `internal/proxy/proxy.go`) |
| `Wrappers`, `Text`, `Sequences` | `Option`, splitting and joining text, sequences without repetition |

Objects whose methods update fields are classes here (`Sorter`, `MemoryStore`,
`MigrationState`, `Cache`, `Service`, `Limiter`, `Registry`, `Collector`,
`Proxy`, `Handle`), loops are loops, and each is proved against a
specification function or predicate about which the lemmas then speak. The
order in which Go walks a map is left open: a loop over a map picks any
remaining key. Clock readings are parameters. Where goroutines interleave
(`Routing`, `Launch`, `Session`, the lock phases of the cache and of the rate
limiter, the pending requests of `Allowlist`) each critical section or channel
operation is one step, and the theorems hold for every sequence of steps.

Where a promise does not hold of the code, the model keeps the code and the
exact condition is proved:

- The start order is called deterministic (`internal/plugin/manager.go:1798`).
  The order in which plugins are visited is unique exactly when no two share a
  priority (`PluginGraph.PriorityOrderUniqueIff`). The start order, which is
  the depth-first order of that visit, is unique exactly when every two plugins
  of one priority can be visited in either order with the same result, once all
  smaller priorities are done (`StartOrder.StartOrderDeterminedIff`).
- A tool call that registers behind the drain waits for its timeout although
  the reader has exited (`Routing.WaitersReturnAfterExit`,
  `Routing.LateToolCallWaitsForTimeout`); such a run exists
  (`Routing.LateToolCallIsReachable`).
- A session gets stuck until the call times out exactly when a message of the
  open call is lost: a request or result that `send` cannot marshal, one that
  the reader cannot unmarshal, or a response that the reader cannot marshal.
  Each place logs the failure and goes on (`Session.OpenCallStuckIff`,
  `Session.EveryLossHangs`).
- `Set` reads the clock before it locks. An entry that is accessed in between is
  later than the one being stored, which can then be the victim of its own
  eviction (`CacheRefinement.OvertakenSetLosesItsEntry`). The new entry stays,
  whichever victim is picked, exactly when `Set` does not evict, or the entry has
  not expired and the other live entries leave room or one of them was accessed
  before it (`CacheRefinement.NewEntryStaysIff`).
- The rate limiter's library reads the clock before it locks, so readings can
  reach the bucket out of order, and each step back lets the rate count the same
  time again. The calls allowed in a window are bounded by the burst plus the
  rate times all forward moves of the readings (`RateLimit.WindowBound`); the
  length of the window is enough exactly when no window that ends where it began
  or later goes back in between (`RateLimit.LengthSufficesIff`).
- Expanding a printed template gives its meaning whatever the variables hold
  exactly when, for every choice of which are set, the tree and what the
  scanners read come to the same pieces (`Template.MeansTemplateIff`, for all
  trees). The guards of the code, that texts are copied, references close at
  their own brace and names end at the first pattern, hold exactly when the very
  tree is read back (`Template.ReadBackIff`); then the meaning is kept. They are
  not necessary, because a branch that no choice of variables takes may break
  them (`Template.DeadBranchHides`). For plain texts and for single references
  behind a plain name a guard alone is exact (`Template.TextStandsIff`,
  `Template.DefaultMeansIff`, `Template.IfSetMeansIff`).
- `Flush` skips an entry with an empty key but drops the whole counter; the
  index survives exactly when there is no such entry
  (`MemoryCache.FlushIndex`).
- Env files round-trip exactly when every entry is clean
  (`EnvFile.RoundTripIffClean`).
- A failed restore leaves the cache as it was. For each way to fail it is still
  right exactly when every cached answer survives: one from the keyring needs
  its slot to be left alone or written with the same value, one from the
  environment needs its slot not to be written, one from env.d needs its group
  not to be newly marked (`Backup.FailedRestoreCoherentIff`); each failure can
  spoil it (`Backup.FailuresCanSpoil`), except a failed write while merging.
- Deleting a line that was too long for the scanner can bring the other keys of
  the file to light behind cached answers (`Credentials.RemovalCanExpose`). The
  cache stays right exactly when the file loaded before, or does not load after
  either, or its group is migrated, or none of its other cached keys is in the
  file that is left (`Credentials.RemovalKeepsCoherentIff`).
- An output holding a tag opening that it never closes swallows the closing
  tag of the frame; this is exactly when an inner tag remains visible
  (`TagEscape.BodyTagsIffOpening`).
- Interleaved restart checks of one plugin can overrun the restart limit. With
  at most n calls between their check and their record, any n + 3 successive
  restarts span the window, and no fewer do (`Restart.RestartsSpan`,
  `Restart.BoundIsTight`); n = 1 is the promised limit.
- A request that began before its plugin was registered again can add a domain
  the new base domains do not cover. A request that finishes keeps every
  allowed domain under a base domain exactly when each of its domains that finds
  room is allowed already or lies under the current base domains
  (`Allowlist.FinishAnchoredIff`, `Allowlist.StaleRequestEscapes`).

## Model

| member | source | states |
|---|---|---|
| `PluginGraph.PropagateSkips` | internal/plugin/manager.go:1736-1761 | for any map order the fixpoint loop ends; the skipped set is exactly the plugins with a dependency path to an undiscovered name, each with a reason that describes such a path |
| `PluginGraph.SkipReason` | internal/plugin/manager.go:1745-1759 | the scan of one plugin finds a reason iff some dependency is undiscovered or already skipped |
| `PluginGraph.SkipFixpointIsLeast` | internal/plugin/manager.go:1733-1761 | any explained fixpoint skips exactly the unresolvable plugins, so the result does not depend on iteration order |
| `PluginGraph.ExplainedIsUnresolvable` | internal/plugin/manager.go:1747-1754 | a recorded reason is witnessed by a real path to an undiscovered name |
| `PluginGraph.LiveIsClosed` | internal/plugin/manager.go:1763-1770 | the graph left after skipping contains all dependencies of its plugins |
| `PluginGraph.Sorter.Visit` | internal/plugin/manager.go:1776-1796 | the recursive visit terminates; failure names a plugin on a cycle, success restores the stack and extends the order by the depth-first order of the name, all of it reached from the name |
| `PluginGraph.Sorter.VisitDeps` | internal/plugin/manager.go:1786-1790 | its loop visits every dependency in the order given |
| `PluginGraph.VisitRoots` | internal/plugin/manager.go:1798-1807 | success gives a topological order of all live plugins, built root by root; failure names a plugin on a cycle |
| `PluginGraph.TopologicalSort` | internal/plugin/manager.go:1732-1810 | fails iff the non-skipped graph has a cycle (self-loops included) and names a plugin on one; otherwise the order is the depth-first order over a priority order of the names: every live plugin once, dependencies first, root by root, with exact skip reasons |
| `PluginGraph.OrderedIsAcyclic` | internal/plugin/manager.go:1776-1809 | a graph with a topological order has no cycle, so an order is never reported for a cyclic graph |
| `PluginGraph.PathDescends` | internal/plugin/manager.go:1786-1794 | inside an order with dependencies first every dependency path runs backwards |
| `PluginGraph.SortedByPriority` | internal/plugin/manager.go:1844-1864 | lists every plugin once, ordered by priority |
| `PluginGraph.SortEntries` | internal/plugin/manager.go:1853-1858 | the in-place insertion sort keeps the listing and orders it |
| `PluginGraph.SiftDown` | internal/plugin/manager.go:1855-1857 | one inner pass exchanges downwards to the place found by the specification and extends the ordered part by one element |
| `PluginGraph.SiftedOrders` | internal/plugin/manager.go:1855-1857 | that pass orders one element more |
| `PluginGraph.PriorityOrderUniqueIff` | internal/plugin/manager.go:1798-1799 | the priority order is unique iff priorities are distinct; on a tie two orders exist |
| `StartOrder.StartOrderDeterminedIff` | internal/plugin/manager.go:1798-1809 | the start order is the same for every order of the map walk iff every two plugins of one priority commute once all smaller priorities are done |
| `StartOrder.ClassOrder` | internal/plugin/manager.go:1798-1807 | plugins of one priority that commute in pairs can be visited in any order at all |
| `StartOrder.DeterminedTiesCommute` | internal/plugin/manager.go:1798-1807 | if the start order is determined, every two tied plugins commute |
| `StartOrder.PrefixMembers` | internal/plugin/manager.go:1844-1864 | any two priority orders have the same plugins before a change of priority |
| `StartOrder.DistinctPrioritiesDetermine` | internal/plugin/manager.go:1798-1799 | distinct priorities determine the start order |
| `StartLevels.DependencyLevels` | internal/plugin/manager.go:1820-1842 | on any filtered topological order, level k lists in order the plugins whose longest dependency chain inside the list has k edges |
| `StartLevels.KeepOrdered` | internal/plugin/manager.go:302-326 | filtering a topological order keeps listed dependencies in front |
| `StartLevels.LevelIsDepth` | internal/plugin/manager.go:1812-1830 | a plugin is in level k iff its longest chain inside the list has k edges |
| `StartLevels.LevelsNonEmpty` | internal/plugin/manager.go:1832-1840 | every level is in use |
| `StartLevels.LevelsArePermutation` | internal/plugin/manager.go:1832-1841 | the levels together are a permutation of the list |
| `StartLevels.DepsInEarlierLevels` | internal/plugin/manager.go:1812-1819 | a listed dependency lies in a strictly earlier level |
| `StartLevels.GroupByDepth` | internal/plugin/manager.go:1832-1841 | the grouping loop fills every level in list order |
| `Launch.LoadAll` | internal/plugin/manager.go:279-360 | loading fails iff the live plugins have a cycle; else the pending levels hold exactly the live plugins that passed and were prepared, each once, with dependencies in earlier levels, and each in the level of its longest chain of live and passed plugins |
| `Launch.PreparedLevelsArePlan` | internal/plugin/manager.go:331-357 | dropping failed or processless plugins from the levels leaves a plan: no plugin stands twice, in one level or in two, and dependencies are in earlier levels |
| `Launch.StartsRespectDependencies` | internal/plugin/manager.go:368-434 | in every interleaving of the goroutines, one for each position, no plugin starts twice and a start begins only after start has returned for all surviving dependencies |
| `Launch.RepeatedIsStartedTwice` | internal/plugin/manager.go:411-431 | nothing but the plan prevents a second start: a level that lists a plugin twice starts it twice |
| `Launch.StartPendingEnds` | internal/plugin/manager.go:368-434 | every run ends: no run has more steps than the levels have work, a shorter one can go on, and a run of that length is past the last level with every pending plugin that has a handle started and returned |
| `Launch.StartPendingProgress` | internal/plugin/manager.go:368-434 | some step is possible iff a level is left |
| `Routing.IdsDistinct` | internal/plugin/transport.go:46-49 | ids with different counters differ whatever their prefixes |
| `Routing.StepKeepsTables` | internal/plugin/transport.go:71-305 | every step of callers and reader keeps the table invariants |
| `Routing.RunKeeps` | internal/plugin/transport.go:71-305 | the invariants hold in every reachable state |
| `Routing.RepliesReachTheirCaller` | internal/plugin/transport.go:276-283 | ids are never reused, and a caller only returns with a reply bearing its own id |
| `Outcomes.OutcomeIff` | internal/plugin/dispatch.go:201-232 | in every run a caller has left with an outcome iff the run says so: with the first message, id and body, that the plugin addressed to it, when it received after one was; with the exit of the plugin when it received after none was, its channel having been closed by the drain; with the end of the transport, a failed send or a timeout when these happened |
| `Outcomes.ReceiverGetsTheReply` | internal/plugin/transport.go:81-92 | a caller that receives leaves with the first message addressed to it iff there is one, and with the exit of the plugin iff there is none and its channel was closed |
| `Outcomes.RepliedCanLeave` | internal/plugin/dispatch.go:201-225 | once a reply was handed over its caller can receive it, or end its extra wait |
| `Outcomes.RunHistory` | internal/plugin/transport.go:156-283 | behind every state lie the events it speaks of: slots hold first replies, closed channels had none, callers left as the run says |
| `Routing.ReaderNeverPanicsOrBlocks` | internal/plugin/transport.go:278-299 | no channel is sent to twice, after its close, or closed twice: the reader never blocks or panics |
| `Routing.LateReplyIsDropped` | internal/plugin/transport.go:280-283 | a reply after its caller gave up changes nothing |
| `Routing.ServiceRunsUnderLiveCall` | internal/plugin/transport.go:116-138 | a service request runs only under the context of a call in flight: the named one, or for an unnamed request the only one, demoted to read; it is refused only when there is none |
| `Routing.WaitersReturnAfterExit` | internal/plugin/transport.go:81-91 | after the reader exits every SendAndWait waiter can return; a tool call can iff its channel has left the table, as for all calls the drain found |
| `Routing.LateToolCallWaitsForTimeout` | internal/plugin/dispatch.go:183-226 | a tool call that registered behind the drain stays waiting under every step but its timeout |
| `Routing.LateToolCallIsReachable` | internal/plugin/dispatch.go:183-226 | such a call exists in some run |
| `Session.ReachableShape` | pkg/handler/handler.go:134-234 | in every reachable state exactly one party has the turn for the open call, or one message carries it |
| `Session.OneMessageAtATime` | pkg/handler/services.go:323-339 | at most one message is in flight, nothing is discarded or orphaned, every service request finds its call's context |
| `Session.EveryMessageIsExpected` | pkg/handler/services.go:323-339 | whoever reads next finds what it waits for: waitFor the response to its request, Run a tool call, the core the open call's result or a request under its context |
| `Session.ResultsMatchCalls` | pkg/handler/handler.go:177-234 | every tool call is answered once, under its id, in order, and every caller gets the result of its own call |
| `Session.CallsHaveOwnIds` | internal/plugin/transport.go:46-49 | the calls that were sent are exactly those that could be marshalled, each with the number of its locking, and no two have the same id |
| `Session.RequestsHaveOwnIds` | pkg/handler/handler.go:317-319 | no two service requests have the same id, so waitFor cannot mistake a response |
| `Session.UnknownToolsNeverRun` | pkg/handler/handler.go:177-234 | a plugin that knows none of the tools asked for runs none and answers every call |
| `Session.OpenCallStuckIff` | pkg/handler/handler.go:306-314 | while a call is open nothing can move iff some move lost a message of it: a request or result not marshalled or not unmarshalled, or a response not marshalled |
| `Session.StuckIffLost` | internal/plugin/transport.go:156-190 | the same in terms of the state |
| `Session.EveryLossHangs` | pkg/handler/services.go:323-339 | each of the five losses is reachable, with its caller waiting |
| `Restart.PruningKeepsRecent` | internal/plugin/dispatch.go:447-455 | pruning at one cutoff does not change the count at any later one |
| `Restart.LatestCount` | internal/plugin/dispatch.go:425-437 | in order, if the k-th latest restart counts then at least k do |
| `Restart.Handle.RestartAllowed` | internal/plugin/dispatch.go:425-437 | allowed iff fewer than three recorded restarts lie inside the window |
| `Restart.Handle.PruneRestarts` | internal/plugin/dispatch.go:447-455 | the kept list is the recorded one without the times at or before the cutoff |
| `Restart.Handle.RecordRestart` | internal/plugin/dispatch.go:439-445 | the new list is the pruned one followed by the new time |
| `Restart.Handle.AutoRestart` | internal/plugin/dispatch.go:145-156 | for serialized calls the pruned list decides as the full history would, and any four successive restarts span at least the window |
| `Restart.RestartsSpan` | internal/plugin/dispatch.go:145-156 | over all interleavings: with at most n calls between check and record, any n + 3 successive restarts span the window |
| `Restart.BoundIsTight` | internal/plugin/dispatch.go:145-156 | a run in which every record follows its own allowed check and n + 2 restarts fall into one window |
| `Restart.RunKeeps` | internal/plugin/dispatch.go:425-455 | in every such run the pruned list decides as the full history, and every record's check was allowed by the history it saw |
| `Restart.RecordDecides` | internal/plugin/dispatch.go:439-455 | recording with pruning keeps the list deciding as the full history |
| `Template.MeansTemplateIff` | internal/config/config.go:542-645 | for every template tree whatsoever and any parser of URLs that finds a one-letter host: resolving the printed text gives the meaning whatever the variables hold iff, for every choice of which of them are set, the tree and what is read come to the same pieces |
| `Template.SameMeaningIff` | internal/config/config.go:608-645 | two trees mean the same whatever the variables hold iff they come to the same pieces |
| `Template.ExpandIsReading` | internal/config/config.go:542-645 | resolving any text gives the meaning of the tree the scanners read |
| `Template.PrintOfRead` | internal/config/config.go:542-645 | reading loses no character |
| `Template.ReadBackIff` | internal/config/config.go:542-645 | the printed tree is read back iff its texts are copied, its references close at their own brace and its names end at the first pattern |
| `Template.ExpandMeansTemplate` | internal/config/config.go:542-586 | resolving the printed text of any readable tree, at any nesting, gives the meaning of the tree; looked-up values are inserted verbatim |
| `Template.ExpressibleIsReadable` | internal/config/config.go:542-645 | trees with plain names and texts free of dollar signs, and of closing braces inside references, are readable unless a body ends in the modifier or an escape stands before a brace |
| `Template.EvaluateMeansRef` | internal/config/config.go:608-645 | the text between braces of any readable reference evaluates to the meaning of the variable, default, conditional or hostname reference |
| `Template.DefaultMeansIff` | internal/config/config.go:608-632 | behind a plain name a default with any body is honoured whatever the variables hold iff the first modifier does not stand at its end |
| `Template.IfSetMeansIff` | internal/config/config.go:608-640 | likewise a conditional |
| `Template.ResolveVarsFunc` | internal/config/config.go:542-586 | the index loop with its builder computes Expand; the mutual recursion terminates |
| `Template.ScanBraces` | internal/config/config.go:557-573 | the inner loop finds the matching brace, or none |
| `Template.FindTopLevelPattern` | internal/config/config.go:589-606 | the position of the first occurrence outside nested braces, or -1 |
| `Template.ResolveVarExpression` | internal/config/config.go:608-645 | the branching on hostname, default, conditional and plain variable computes Evaluate |
| `Template.ClosingPrinted` | internal/config/config.go:557-573 | the brace scanner passes over a printed nested template as a whole |
| `Template.DoublingProtects` | internal/config/config.go:548-553 | doubling every dollar sign of any text and resolving returns the text |
| `Template.UnclosedIsCopied` | internal/config/config.go:553-584 | a reference that never closes loses nothing: its two characters are kept and the rest is resolved as if they were not there |
| `Template.NoBraceOnlyUnescapes` | internal/config/config.go:547-584 | in a text without a closing brace only doubled dollar signs change |
| `Template.TextStandsIff` | internal/config/config.go:542-586 | a text stands for itself whatever the variables hold iff it holds no doubled dollar sign and no reference that closes |
| `Template.DeadBranchHides` | internal/config/config.go:608-640 | a tree that breaks the guards in a branch never taken still means what it says |
| `Template.EscapeFailsInsideBraces` | internal/config/config.go:557-573 | an escaped dollar before a brace inside a reference leaves that reference unclosed |
| `Template.HostnameSuffixIsCaptured` | internal/config/config.go:609-620 | a default that ends in the hostname modifier is lost |
| `MemoryCache.StorageKeysDistinct` | internal/cache/store.go:41-43 | NUL-free namespaces: equal storage keys mean equal namespace and key |
| `MemoryCache.NamespaceOfKey` | internal/cache/memory.go:271-279 | the text before the first NUL is the namespace, so a key is counted for one namespace only |
| `MemoryCache.MemoryStore.GetRead` | internal/cache/memory.go:69-82 | first lock phase of Get: hit, miss or stale; a hit moves the access time; index and limit are kept |
| `MemoryCache.MemoryStore.GetExpire` | internal/cache/memory.go:83-91 | second lock phase: removes the entry only if it is still there and expired; index and limit are kept |
| `MemoryCache.MemoryStore.Set` | internal/cache/memory.go:96-120 | stores or refuses by size, counts a new key once, evicts only when over the limit; on return the counters are exact and within the limit |
| `MemoryCache.MemoryStore.Del` | internal/cache/memory.go:123-135 | removes the entry and its count, and reports whether it was there |
| `MemoryCache.MemoryStore.EvictLRU` | internal/cache/memory.go:205-238 | removes the expired entries of the namespace and, if still over, one least recently accessed entry; back within the limit |
| `MemoryCache.MemoryStore.SweepExpired` | internal/cache/memory.go:209-217 | removes exactly the expired entries of the namespace, keeping the index |
| `MemoryCache.MemoryStore.FindLeastRecent` | internal/cache/memory.go:223-233 | finds an entry of the namespace with the least access time |
| `MemoryCache.MemoryStore.Flush` | internal/cache/memory.go:174-189 | removes the namespace's entries with non-empty keys and counts them; the index survives iff there was no entry with an empty key |
| `MemoryCache.FlushIndex` | internal/cache/memory.go:178-187 | that condition on the index, both directions |
| `MemoryCache.MemoryStore.CleanupDelete` | internal/cache/memory.go:256-280 | deleting keys listed under an earlier lock removes only entries that are still there and expired, keeping index and limit |
| `CacheRefinement.Drive` | internal/cache/memory.go:69-280 | any sequence of critical sections keeps every counter equal to the entries it counts and every namespace within its limit |
| `CacheRefinement.RunKeepsLimit` | internal/cache/memory.go:96-120 | in every reachable state no namespace exceeds a positive limit |
| `CacheRefinement.RunAgrees` | internal/cache/memory.go:69-189 | in every run, also with reads overlapping under the read lock, the store answers like a plain TTL map or misses; without a limit it is exactly that map |
| `CacheRefinement.HitsAreCurrent` | internal/cache/memory.go:69-91 | every hit is the TTL map's answer; without a limit a read hits iff the map has the key |
| `CacheRefinement.HitIsLatestSet` | internal/cache/memory.go:69-120 | a read answers only with the latest accepted Set of that namespace and key, not deleted or flushed since, and only while its TTL, counted from when Set was called, has not run out; without a limit it answers whenever there is such a Set |
| `CacheRefinement.AccessIsLatestUse` | internal/cache/memory.go:88-106 | in every run an entry's access time is that of the latest Set that stored it or read that found it, so eviction takes the least recently used |
| `CacheRefinement.EntriesFit` | internal/cache/memory.go:96-99 | in every run no value in the cache exceeds a positive size limit |
| `CacheRefinement.SetCountsIffFits` | internal/cache/memory.go:96-99 | a Set is accepted iff there is no size limit or its value fits |
| `CacheRefinement.CleanedIff` | internal/cache/memory.go:270-280 | cleaning removes exactly the entries that are listed and have expired when their turn comes |
| `CacheRefinement.HeldIsLatestSet` | internal/cache/memory.go:96-135 | the TTL map holds the latest accepted Set that nothing touched since, and nothing else |
| `CacheRefinement.EvictionDropsOne` | internal/cache/memory.go:205-238 | eviction drops at most one unexpired entry, one with the least access time, and leaves other namespaces alone |
| `CacheRefinement.SetDropsAtMostOne` | internal/cache/memory.go:96-120 | a Set drops at most one unexpired entry, no surviving one was accessed before it; other namespaces are untouched and without a limit nothing is dropped |
| `CacheRefinement.NewEntryStaysIff` | internal/cache/memory.go:96-120 | whichever victim is picked, an accepted Set leaves its own entry in the cache iff it does not evict, or the entry has not expired and the other live entries leave room or one of them was accessed before it |
| `CacheRefinement.NewEntryGoesIff` | internal/cache/memory.go:205-238 | whichever victim is picked, the entry is lost at once iff Set evicts and the entry has expired, or there is no room and every other live entry was accessed after it |
| `CacheRefinement.OvertakenSetLosesItsEntry` | internal/cache/memory.go:102-116 | a run with clock readings that never go back in which the second Set loses its entry whatever is picked, because the first entry is read between its clock reading and its lock |
| `CacheRefinement.NewEntryStays` | internal/cache/memory.go:96-120 | in particular it stays when its access time is strictly the latest |
| `CacheRefinement.NewEntryStaysInRun` | internal/cache/memory.go:96-120 | and in every run in which its access time is later than all given out before |
| `CacheRefinement.AccessesInThePast` | internal/cache/memory.go:69-120 | no entry's access time is later than those given out, in whatever order overlapping reads store theirs |
| `EnvFile.LoadGroup` | internal/credentials/envd_store.go:215-247 | the scanning loop computes the variables of the file, or reports an overlong line |
| `EnvFile.ScanLine` | cmd/wtmcpctl/cred_ops.go:736-755 | one line: comment, export prefix, first equals sign, trimming, at most one pair of each quote |
| `EnvFile.Delete` | internal/credentials/envd_store.go:125-159 | the rewriting loop drops exactly the lines that assign the key, or reports not found |
| `EnvFile.DeleteThenLoad` | internal/credentials/envd_store.go:111-165 | for any text that loads: deleting then loading gives the old map minus the key, and not-found is reported iff the key was absent; for one that does not, the result loads iff all overlong lines were the key's |
| `EnvFile.FormatEnv` | cmd/wtmcpctl/cred_ops.go:672-686 | the writing loop prints one line a key in the order walked |
| `EnvFile.RoundTripIffClean` | cmd/wtmcpctl/cred_ops.go:672-758 | printing any map in any key order and parsing returns the map iff every entry is clean |
| `EnvFile.CleanRoundTrips` | cmd/wtmcpctl/cred_ops.go:672-758 | clean maps come back |
| `EnvFile.RoundTripsAreClean` | cmd/wtmcpctl/cred_ops.go:672-758 | maps that come back are clean |
| `EnvFile.CleanIffReadBack` | cmd/wtmcpctl/cred_ops.go:733-758 | an entry without line break, not too long, is clean iff its own line parses to it |
| `EnvFile.ParseEntry` | cmd/wtmcpctl/cred_ops.go:736-755 | what parsing the line of any entry yields |
| `EnvForms.AssignsIffWritten` | internal/credentials/envd_store.go:217-244 | a line assigns a value to a key iff it is written as: blanks, `export` or not, the key, an equals sign, the value bare or in double, single or both quotes, with blanks between and behind, under stated conditions on key and value |
| `EnvForms.IgnoredIff` | internal/credentials/envd_store.go:219-232 | every other line is a comment or has no equals sign |
| `EnvForms.ExportIsLoadedAndDeleted` | internal/credentials/envd_store.go:135-157 | a line with `export`, its value bare or quoted, gives the key its value, and deleting the key removes that line |
| `EnvForms.LastAssignmentWins` | internal/credentials/envd_store.go:246 | the last line that assigns a key decides its value |
| `EnvForms.TrimOf` | internal/credentials/envd_store.go:217 | trimming leaves the middle between what is blank on both sides |
| `EnvForms.PlainBytes` | internal/credentials/envd_store.go:215-216 | a line of plain characters is too long from 65536 of them on |
| `Text.SplitOfJoin` | internal/credentials/envd_store.go:125-159 | parts without the separator survive joining and splitting |
| `Credentials.MigrationState.MarkMigrated` | internal/credentials/migration_state.go:77-86 | adds the group once, and nothing else changes |
| `Credentials.MigrationState.Unmark` | internal/credentials/migration_state.go:90-106 | removes the group and no other |
| `Credentials.MigrationState.TrackKey` | internal/credentials/migration_state.go:120-138 | tracks the key once; the lists stay duplicate-free |
| `Credentials.MigrationState.UntrackKey` | internal/credentials/migration_state.go:141-167 | untracks the key and no other; the lists stay duplicate-free; fails only on an unsaved change |
| `Credentials.CacheKeysDistinct` | internal/credentials/cache.go:40-42 | credentials of NUL-free groups never share a cache entry |
| `Credentials.Cache.Get` | internal/credentials/cache.go:47-66 | returns a live entry, evicts a stale one |
| `Credentials.Cache.InvalidateGroup` | internal/credentials/cache.go:93-103 | removes the entries of that group and no other |
| `Credentials.Service.Get` | internal/credentials/service.go:59-87 | hit or miss, the answer and its source are those of uncached resolution, and the cache stays coherent |
| `Credentials.Service.GetMigratedCredential` | internal/credentials/service.go:91-115 | a migrated group resolves keyring first, then environment |
| `Credentials.Service.GetLegacyCredential` | internal/credentials/service.go:119-139 | any other group resolves env.d, keyring, environment |
| `Credentials.AnswerComesFrom` | internal/credentials/service.go:91-145 | whose value each answer is, and when there is none |
| `Credentials.MigrationKeepsValuesIff` | internal/credentials/service.go:74-145 | marking a group migrated keeps the value of all its credentials iff each value in its env.d file is also what stands beneath it, and never changes another group's |
| `Credentials.InGroupIff` | internal/credentials/cache.go:92-103 | the prefix test picks the entries of that group's credentials and no others |
| `Credentials.GroupNamesAreNoPaths` | internal/credentials/envd_store.go:175-186 | a valid group name holds no path character, and the ends of the allowed ranges are allowed |
| `Credentials.Service.Set` | internal/credentials/service.go:155-174 | writes iff migrated or forced and the keyring accepts; tracks the key, forgets the cached answer, keeps the cache coherent |
| `Credentials.Service.DeleteFromKeyring` | internal/credentials/service.go:237-249 | removes one slot and its tracking, keeps the cache coherent |
| `Credentials.Service.DeleteFromEnvD` | internal/credentials/service.go:252-258 | the file becomes the rewritten one, the key leaves the cache; coherent afterwards iff the removal is safe |
| `Credentials.Service.Delete` | internal/credentials/service.go:207-234 | removes from both stores, reports which held it; coherent afterwards iff the removal is safe |
| `Credentials.Service.GetAll` | internal/credentials/service.go:337-361 | env.d values overlaid by the keyring values of the tracked keys |
| `Credentials.StoringAnswerKeepsCoherent` | internal/credentials/cache.go:69-81 | caching an answer that resolution gives keeps every cached entry right |
| `Credentials.InvalidatedKeepsCoherent` | internal/credentials/service.go:155-174 | a change to one credential is safe once it left the cache |
| `Credentials.EnvDDeleteIsLocal` | internal/credentials/envd_store.go:111-165 | rewriting a file without a key changes no other credential, unless it makes an unloadable file load |
| `Credentials.EnvDDeleteRemoves` | internal/credentials/envd_store.go:111-165 | where the file loads, a deletion succeeds iff the key was there, the key is gone after it, and the file goes on loading |
| `Credentials.RemovalKeepsCoherentIff` | internal/credentials/service.go:207-258 | removing a credential keeps the rest of the cache right iff the file loaded before, or does not load after, or the group is migrated, or no other cached key of the group is in the file that is left |
| `Credentials.RemovalCanExpose` | internal/credentials/envd_store.go:195-254 | a file and a cache for which it does not |
| `EnvFile.OverlongThenShort` | internal/credentials/envd_store.go:111-165 | a file that does not load, and loads once its first key is deleted |
| `Credentials.Service.RemoveFromFile` | internal/credentials/envd_store.go:111-165 | only the group's file changes, to the rewritten text; refused iff no line assigns the key or the group has no valid name or file |
| `CredentialRuns.Drive` | internal/credentials/service.go:59-258 | refinement: over any run of operations and restores, with failing writes, failing restores and any clock, as long as no deletion makes an unread file readable and no failing restore changes an answer, the cached service gives the answers of the cacheless one and leaves the same stores |
| `CredentialRuns.ChangedAnswerSpoils` | internal/credentials/backup.go:217-250 | a change of the stores keeps every cache that was right iff it changes no answer |
| `CredentialRuns.LoadingFilesStayHarmless` | internal/credentials/service.go:207-258 | that is so in every run on files without an overlong line whose restores do not fail, or merge and fail in writes only |
| `Backup.BuildBackupPayload` | internal/credentials/backup.go:261-293 | collects the tracked keyring values of every migrated group and the migrated list |
| `Backup.PayloadCovers` | internal/credentials/backup.go:261-293 | the payload holds exactly the tracked credentials of migrated groups, and restoring it over an empty keyring gives exactly these |
| `Backup.RestoreOne` | internal/credentials/backup.go:217-242 | one credential: merge keeps a held value, otherwise the value is written; tracked in both cases |
| `Backup.RestoreSlots` | internal/credentials/backup.go:217-243 | success overlays the keyring with the backup; a failed write deletes exactly what was written before it; a failed tracking leaves everything written up to it; the keys tracked are those handled |
| `Backup.MarkAll` | internal/credentials/backup.go:245-250 | marks the groups of the backup in order, each once, up to and including the first that cannot be saved |
| `Backup.RestoreBackup` | internal/credentials/backup.go:155-256 | every outcome leaves the stores as described and the cache cleared only on success; merge never changes a held value; after any failure the cache is right iff every cached answer survives, and always after a failed write while merging |
| `Backup.FailedRestoreCoherentIff` | internal/credentials/backup.go:217-250 | for each failure: the cache is right iff no answer came from a slot or group the restore changed, in terms of cache, backup and old keyring |
| `Backup.FailuresCanSpoil` | internal/credentials/backup.go:230-250 | a failed write, tracking or marking that leaves a stale answer behind |
| `Backup.FailedMergeWriteIsHarmless` | internal/credentials/backup.go:222-237 | a failed write while merging spoils nothing |
| `Backup.BackupAndRestore` | internal/credentials/backup.go:155-293 | restoring a backup into an empty service reproduces every tracked keyring credential of every migrated group and the migrated set, and nothing else |
| `RateLimit.TakeSpends` | internal/ratelimit/ratelimit.go:84-109 | a grant and the tokens left come out of the tokens there were and what the rate added; a clock reading behind the last adds nothing |
| `RateLimit.WindowBound` | internal/ratelimit/ratelimit.go:84-109 | in any window of requests to one bucket, whatever their clock readings, grants plus tokens left are at most the burst plus rate times what the readings move forward |
| `RateLimit.ForwardInOrder` | internal/ratelimit/ratelimit.go:84-109 | readings in order move forward by the length of the window |
| `RateLimit.LengthSufficesIff` | internal/ratelimit/ratelimit.go:84-109 | the length of the window in place of the forward moves bounds the grants, for every bucket and every window that does not end before it begins, iff no such window goes back in between |
| `RateLimit.RefusedIffWindowFull` | internal/ratelimit/ratelimit.go:84-109 | for readings in order a request to a bucket that began full is refused iff granting it would exceed the bound in some window |
| `RateLimit.RefusedCanBeLeftOut` | internal/ratelimit/ratelimit.go:89-105 | a refused request leaves no trace: leaving it out gives the same bucket once a later request has been made |
| `RateLimit.BurstIsWholeRate` | internal/ratelimit/ratelimit.go:155-157 | the burst is the rate in whole requests, at least one |
| `RateLimit.GrantedCounts` | internal/ratelimit/ratelimit.go:84-109 | the number of grants is the number of requests that are granted |
| `RateLimit.AllowedCounts` | internal/ratelimit/ratelimit.go:84-109 | the number of allowed calls likewise |
| `RateLimit.LatestNewcomersStay` | internal/ratelimit/ratelimit.go:121-144 | first in, first out: the keys with a limiter are the latest that came without one, as many as there is room for |
| `RateLimit.Registry.constructor` | internal/ratelimit/ratelimit.go:31-71 | the rate of a key is its override, else the default, else an override of the empty key |
| `RateLimit.Registry.Insert` | internal/ratelimit/ratelimit.go:121-144 | second lock phase of getLimiter: keeps an existing limiter, else evicts the oldest when full; keys equal the duplicate-free insertion order, at most maxEntries long |
| `RateLimit.Perform` | internal/ratelimit/ratelimit.go:84-144 | one critical section of one of many calls, with or without a global limiter: who moves on and how, that only a call that has just begun asks the global limiter, that only the write phase changes keys and order, and what it and the last phase leave in the key's bucket |
| `RateLimit.Registry.Allow` | internal/ratelimit/ratelimit.go:84-144 | a call with nothing in between is granted iff the global bucket grants and the key's limiter, if it has one, grants; a global refusal leaves the keys alone, anything else costs a global token |
| `RateLimit.AllowedWithinGranted` | internal/ratelimit/ratelimit.go:84-109 | the calls allowed are no more than the global bucket's grants |
| `RateLimit.StepKeepsBooks` | internal/ratelimit/ratelimit.go:84-109 | every step keeps the global bucket what its requests made of it, and every call past it granted |
| `RateLimit.EveryWindow` | internal/ratelimit/ratelimit.go:84-109 | the window bound for every sub-run of requests, and the one by length where the readings make no detour |
| `RateLimit.Serve` | internal/ratelimit/ratelimit.go:84-155 | for every interleaving of the critical sections of any calls, with any keys, evictions and clock readings: the keys equal the duplicate-free insertion order, and the calls allowed in any window are at most burst plus rate times what the readings move forward in it, which without a detour is its length |
| `TagEscape.MatchIffDescribed` | internal/server/framing.go:31-33 | the scanner matches a front part iff the regular expression describes it, and that part is unique |
| `TagEscape.NoTagRemains` | internal/server/framing.go:116-120 | the replaced text has no remaining match |
| `TagEscape.UntouchedIffNoTag` | internal/server/framing.go:116-120 | replacement is the identity iff the text has no match |
| `TagEscape.ReplaceIsIdempotent` | internal/server/framing.go:116-120 | replacing twice is replacing once |
| `TagEscape.OpeningsAreKept` | internal/server/framing.go:116-120 | replacement neither makes nor removes an unclosed opening |
| `TagEscape.BodyTagsIffOpening` | internal/server/framing.go:116-120 | in the wrapped output a tag begins inside the body iff the tool's text has an opening it never closes |
| `TagEscape.OnePairOfTagsIff` | internal/server/framing.go:116-120 | the wrapped output shows a tag at its very beginning and one at its end and no other, iff the tool's text has no unclosed opening |
| `Stats.RestoreUndoesSummary` | internal/stats/persist.go:162-182 | an aggregate survives its summary exactly |
| `Stats.OldFormatLoss` | internal/stats/persist.go:163-169 | a snapshot without total durations loses less than one millisecond a call |
| `Stats.RestoreUndoesSave` | internal/stats/persist.go:114-200 | saving and loading restore every total and every daily bucket exactly |
| `Stats.TotalUnion` | internal/stats/stats.go:459-483 | totals over disjoint sets of dates add up, in whatever order the dates are walked |
| `Stats.AllRecordsConserve` | internal/stats/stats.go:198-236 | recording a call keeps every total equal to the sum of its daily buckets and of what pruning dropped |
| `Stats.PruningConserves` | internal/stats/persist.go:216-226 | so does pruning |
| `Stats.Collector.Record` | internal/stats/stats.go:154-239 | adds the call to the total and to its day's bucket, remembers it in the ring buffer, keeps conservation; a closed collector changes nothing |
| `Stats.Collector.Remember` | internal/stats/stats.go:191-196 | the ring buffer holds the last thousand calls, each in the slot of its number |
| `Stats.Collector.Prune` | internal/stats/persist.go:216-226 | drops exactly the buckets before the cutoff, none without a retention |
| `Calendar.KeptIffNotEarlier` | internal/stats/persist.go:220-225 | pruning keeps the buckets of the cutoff's day and of later days, no others |
| `Calendar.RangeIffBetween` | internal/stats/stats.go:459-465 | a range holds its two ends and the days between; an open end bounds nothing |
| `Calendar.DateOrder` | internal/stats/persist.go:220-222 | the texts of two days are ordered as year, month and day are |
| `Calendar.BeforeIff` | internal/stats/stats.go:486-488 | one text comes before another iff it is a proper front part of it, or has the smaller character where they first differ |
| `Stats.Collector.Save` | internal/stats/persist.go:94-139 | prunes, then summarises every total and every remaining bucket |
| `Stats.Collector.Load` | internal/stats/persist.go:142-212 | lays the restored totals and days over what is there |
| `Stats.AggregateDailyRange` | internal/stats/stats.go:456-491 | one line per tool seen in the range, by name, with the totals over the range, averages from those totals and the plugin name of one of its buckets |
| `Stats.AdjacentRangesAdd` | internal/stats/stats.go:459-465 | the totals of two ranges that split the dates at a cut add up to those of their union |
| `Stats.ReportsAgree` | internal/stats/stats.go:324-336 | reports over equal totals are the same lines up to plugin names |
| `Stats.Collector.SummaryForRange` | internal/stats/stats.go:495-519 | reports the range; unbounded and with nothing pruned it agrees with the summary on all numbers |
| `Stats.Collector.Summary` | internal/stats/stats.go:324-336 | one line per tool, by name, with totals and averages |
| `Stats.Restart` | internal/stats/persist.go:94-212 | a save followed by a load into a fresh collector restores the collector |
| `Stats.RunConserves` | internal/stats/stats.go:188-236 | after any run of calls, saves and restarts every total and every bucket is what the calls of that tool and date add up to, and each tool's total is the sum (for the largest output the maximum) of its buckets |
| `Figures.RunFigures` | internal/stats/stats.go:198-236 | after any run each total and each bucket holds the number of its calls, of its failed calls, the sums of their tokens and durations and their largest output |
| `Figures.RunNamesFirst` | internal/stats/stats.go:198-205 | a total names the plugin of the tool's first call |
| `Figures.DaysNameFirst` | internal/stats/stats.go:216-230 | a bucket names that of its first call of the day |
| `Figures.AveragesOfLine` | internal/stats/stats.go:98-116 | each average of a line is the truncated quotient of its own total |
| `Stats.Run` | internal/stats/stats.go:154-239 | from an empty collector with retention off, the recording, saving and loading methods produce exactly that state |
| `Stats.OneListing` | internal/stats/stats.go:332-334 | a set of names has one sorted listing, so a report does not depend on map order |
| `Allowlist.UnderIffLabelSuffix` | internal/domaincheck/validate.go:131-142 | the textual suffix test holds iff the base's labels end the name's label list |
| `Allowlist.UnderIsTransitive` | internal/domaincheck/validate.go:131-142 | the test is transitive |
| `Allowlist.SubdomainIsTransitive` | internal/domaincheck/validate.go:116-145 | subdomains of subdomains of the bases are subdomains of the bases |
| `Allowlist.Proxy.RegisterPlugin` | internal/proxy/proxy.go:260-267 | a registration begins with base and allowed equal to the manifest's list |
| `Allowlist.Proxy.AddAllowedDomains` | internal/proxy/proxy.go:176-199 | appends in order what is neither contained nor above the limit; unknown plugins change nothing |
| `Allowlist.Proxy.AddBaseDomains` | internal/proxy/proxy.go:205-228 | appends to allowed and base likewise, and keeps the growth invariant |
| `Allowlist.Proxy.Filter` | internal/proxy/proxy.go:314-340 | the first ten domains that are valid and below a base domain, in order |
| `Allowlist.Proxy.Extend` | internal/proxy/proxy.go:297-352 | the request's domains are admitted and added, the growth invariant is kept, unknown plugins are refused |
| `Allowlist.AdmittedPasses` | internal/proxy/proxy.go:326-341 | a domain is admitted iff it was asked for, is valid and lies below a base |
| `Allowlist.WithAllowedGrows` | internal/proxy/proxy.go:176-199 | adding admitted domains keeps: every allowed domain under a base, base inside allowed with multiplicity, the limit, no new duplicates |
| `Allowlist.WithBaseGrows` | internal/proxy/proxy.go:205-228 | adding base domains keeps the same |
| `Allowlist.BaseInsideMeans` | internal/proxy/proxy.go:201-228 | there are never more base than allowed domains, and every normalizable base domain is allowed |
| `Allowlist.AskedIsAllowed` | internal/proxy/proxy.go:184-198 | what was added is allowed afterwards unless the list is full |
| `Allowlist.AllowedWasAsked` | internal/proxy/proxy.go:184-198 | and nothing else is |
| `Allowlist.AskedIsBase` | internal/proxy/proxy.go:205-228 | a base domain that was asked for is a base domain and allowed afterwards unless the list is full; what was there stays |
| `Allowlist.AtMostTenAdmitted` | internal/proxy/proxy.go:314-320 | a request adds ten domains at most, the first of its list |
| `Allowlist.ValidateForbids` | internal/domaincheck/validate.go:54-86 | a domain is valid iff it has a normal form that is not empty, localhost, a wildcard, an IP address or in brackets |
| `Allowlist.RequestsAddNothingForbidden` | internal/proxy/proxy.go:176-352 | in every run, across registrations, what is allowed and was not announced by a manifest or at start is valid |
| `Allowlist.RunIsSound` | internal/proxy/proxy.go:176-352 | in every run of one registration, with requests in flight, the growth invariant holds |
| `Allowlist.AllowedStaysUnderManifest` | internal/proxy/proxy.go:297-352 | if the domains announced at start lie under the manifest's list, so does every domain ever allowed |
| `Allowlist.FinishAnchoredIff` | internal/proxy/proxy.go:303-352 | whatever registrations came between: a request that finishes keeps every allowed domain under a base iff the plugin is not registered any more or each of the request's domains that finds room is allowed already or lies under the current bases |
| `Allowlist.CoveredRunIsGrown` | internal/proxy/proxy.go:176-352 | in every run with any registrations whose requests finish so, the growth invariant of the current registration holds |
| `Allowlist.Perform` | internal/proxy/proxy.go:176-352 | each method of the proxy is its step for one plugin and touches no other |
| `Allowlist.Drive` | internal/proxy/proxy.go:176-352 | so any run of the methods, with requests in flight across registrations and removals, is a run of the steps |
| `Allowlist.StaleRequestEscapes` | internal/proxy/proxy.go:303-352 | a run: a request begins, the plugin is registered again, the request finishes, and a domain is outside the new bases |

## Left out

- Process spawning, pipes, signals, sandboxing, TLS, Kerberos, SAML and OAuth: foreign calls; pipes are message queues here.
- Read errors and oversized messages of the plugin's output, which end the reader loop like EOF; in `Routing` a malformed line is skipped and has no step.
- The handlers behind service requests (HTTP, cache, file I/O), the dry-run gate and the goroutines that run them at concurrency above one; a request is modelled up to the context it runs under.
- Routing: init, shutdown and auth exchanges appear as calls of the kinds `Query` and `Bare`, without their payloads.
- Session: no call times out and no resource query interleaves; a panic of a tool function, a tool function that never returns and the exit of the plugin are not modelled, and what the core encodes the plugin can decode.
- Launch: `Load` of auth providers, the checks of the second pass and `preparePlugin` are parameters (sets of plugins that pass); the collection of results after each level is left out.
- PluginGraph: the wording of skip reasons and of error messages; a reason is a datatype that names the dependency and its cause.
- Template: parsing a URL for its host is a parameter, of which only the exact conditions assume anything, namely that a host of one letter is found behind a scheme of one letter; text is a sequence of characters rather than bytes, so invalid UTF-8 is not covered.
- MemoryCache: `List` with its glob patterns, the JSON check of values, and the timer that triggers cleanup; the two lock phases of cleanup are covered.
- MemoryCache.StorageKeysDistinct: for namespaces without NUL only; namespaces are plugin names, which the manifest's name pattern keeps free of it.
- EnvFile.LoadGroup: file permissions, symbolic links and read errors other than an overlong line; `parseEnvFormat` returns the lines before an overlong line together with its error, the model only the error.
- Credentials: an unavailable keyring and the warning it prints; logging; the file that stores the migration state beyond whether writing it succeeds.
- Credentials.Service.Get: the group has no NUL; a caller that marks groups through `GetMigrationState` does not clear the cache and is outside the coherence claim.
- Backup: key derivation, encryption, encoding and file handling; a backup is its payload.
- Backup.RestoreSlots: the nested walks over groups and keys are one walk over slots in any order, and the deletions that undo a failed restore succeed.
- RateLimit: without a global limiter there is no bound to prove, and `Serve` runs with one; the token bucket stands for golang.org/x/time/rate, over real numbers, with an atomic take and no reservations into the future; parsing of rate strings.
- TagEscape: HTML comment sanitizing, where removing one comment can assemble another; the tool name is taken as printed by the quoting verb.
- Stats: schema and resource records, `PluginSummaries` and `SchemaCost` (single-pass sums), the debounce timer, file writing and the wrap-around of 64-bit sums.
- Stats.Run: a save reaches the disk; when writing fails the file keeps the previous snapshot.
- Allowlist: `Normalize` (trimming, lower case, IDNA) and the IP address parser are parameters, arbitrary functions that only need to be functions.
- Restart: the start that follows a recorded restart and whether it succeeds.
- CLI commands, terminal UI, tables, audit logging, MCP tool registration and the Bugzilla, GitLab and GitHub tools: thin or presentational.
- One-branch checks such as read-only gating, elicitation switches and manifest field validation.
