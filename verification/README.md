# Protocols of an LLM router host

This project models the small protocols of the router host and proves what they promise over whole runs: the
shared-store admission protocols and the call ledger (`host_store.py`), the flow scheduler (`flow_runner.py`,
`flow_data.py`), the streaming tail and the life of one proxied request (`auth_proxy.py`), the selector templates
(`policy_templates.py`), the usage aggregates, the control-plane key cache, the Codex event stream and the invite
store. `dafny verify dfyconfig.toml` checks all of it.

Each file is one module. Code that updates state is a class with the same fields, whose methods are proved equal to
a step function; runs are sequences of such steps in any interleaving, and the main results are about every run.

| files | what they model |
|---|---|
| `PendingCalls`, `LedgerWorld`, `LedgerExport` | the background writers, the pending dictionary, ids drawn at insert and visible at commit, the export cursor and its watermark |
| `BudgetStore`, `BudgetRuns`, `BudgetOvershoot` | monthly budget reservations: reserve, sweep, settle in two halves, retry, prune; how far spending can exceed the limit |
| `RateBucket`, `PeerLeases` | the global token bucket; peer concurrency leases |
| `NodeIds`, `TopoOrder`, `FlowData`, `FlowRunner`, `FlowMeaning` | string order, Kahn's scheduler, data nodes, the runner, and the recursive meaning it agrees with |
| `SseTail`, `TailParse` | trimming the tail of a stream in place, and reading it newest first |
| `Lifecycle` | the capacity semaphore and the exits of a proxied request |
| `Text`, `PolicySelectors` | stripping and joining strings; selector terms and provider orders |
| `Rollup` | hourly rollups, direct grouping and the reference fold |
| `KeyCache`, `CodexSse`, `Invites` | the key cache, the Codex event stream, the invite store |

## Where the code and what is written about it differ

- `usage_export` says every call below `watermark_ts` is in a page by `next_after_id` (host_store.py:1704-1711). It reads the pending
  call times after `min(ts)`, so a local write that finishes in between is in neither (`LedgerExport.SlippedWriteIsMissed`);
  `WatermarkCompleteIff` says exactly when the claim holds, and `PendingReadFirstIsComplete` that the other order of reading would do.
- The budget comment bounds overshoot by concurrent calls x (actual cost - reservation) (auth_proxy.py:82-86). A reservation swept after its
  expiry still books its full cost (`BudgetOvershoot.LateSettleOvershoots`). `OverrunBoundIff` says exactly when the bound holds: when the
  limit has room for the amounts of all unsettled reservations, the swept ones included. `OvershootBound` has the term that is missing otherwise.
- `renew_peer_lease` says it extends a live lease (host_store.py:1010). It also extends one that expired and was not swept
  (`PeerLeases.ExpiredLeaseIsRenewed`); `RenewRevivesIff` says exactly when. The cap holds all the same (`PeerLeases.HoldersWithinCap`).
- `_trim_sse_tail` says it keeps the last three complete events (auth_proxy.py:4627-4630); it keeps the last two
  (`SseTail.KeepsThreeIff`, with an input in `ThirdEventIsDropped`).
- `resolve_key` says a stale entry is served for at most the grace period past its lifetime (control_plane_client.py:209-213). The age is
  taken when the fetching call started, so a call that joins later can get an older one (`KeyCache.JoinerOutlivesGrace`);
  `JoinerOutlivesGraceIff` says exactly when, and by how much at most.

## Hypotheses

- Ledger: all processes read one clock; insert times are drawn in id order; an insert commits within the lag; a call reaches its queue
  within the lag of its stamp; for the watermark also, other processes' backlogs are within the lag.
- Budgets: no two requests draw the same reservation id, and a pruned id is never used again. Leases: transactions of one peer are serialized, as the advisory lock does.
- Flows are admitted: inputs name nodes, the graph is acyclic, there is an input and an output node, and operations have the inputs they need.
- Streams stay below the four-mebibyte cap for what is said about events; past it the tail is cut by length (`SseTail.AlwaysAnEnd`).
- Requests: the pump starts before anything cancels it, and closing the upstream neither raises nor is cancelled; the submission itself
  does not fail. A waiter's `wait_for` runs its `acquire` in place, so it is in line at once. `Lifecycle.OnlyPumpsLeak`, `LeakIsForever` and `DeadPumpLeaks` say what happens otherwise.
- Selectors: candidates are distinct routes and `argmax` lists them by descending score; how it breaks ties is left open. Groups are
  disjoint because repeated providers are refused; `PolicySelectors.OverlapBreaksOrder` is an order that would not rank by group number.
- Aggregates: time stamps are positive, the window starts on the hour, and calls are neither pruned nor added while it is rolled up.
- Invites: the clock never reads zero, which the store takes for an absent stamp, and tokens are not drawn twice.

## Model

| member | source | states |
|---|---|---|
| PendingCalls.RoundTrip | host_store.py:548-561 | Counting a call in and out again leaves the pending dictionary exactly as it was |
| PendingCalls.WriterProcess.Enqueue | host_store.py:587-602 | The job joins the in-flight jobs, or the queue was full and nothing at all changes; the counts stay the number of in-flight jobs per call time |
| PendingCalls.WriterProcess.Take | host_store.py:564-566 | Taking a job off the queue does not change what is in flight |
| PendingCalls.WriterProcess.Finish | host_store.py:564-573 | A job leaves the in-flight jobs only after its write returned or failed |
| PendingCalls.WriterProcess.LedgerWatermark | host_store.py:623-633 | The mark is the lag behind the stamp capped by the oldest call in flight, so no call in flight is older than it |
| PendingCalls.WatermarkUnique | host_store.py:623-633 | That description determines the mark: no other number fits it |
| LedgerWorld.RunKeepsInv | host_store.py:540-612 | In every interleaving of any number of writers, ids are unique and each process counts exactly its unfinished calls per call time |
| LedgerWorld.RunIsLater | host_store.py:313-320 | Between any two points of a run visible rows stay, an id drawn later is fresh, and a finished job stays finished |
| LedgerExport.PageOrdered | host_store.py:1715-1724 | A page is in id order, after its cursor and up to the cursor it returns |
| LedgerExport.PageMissesNothing | host_store.py:1715-1724 | No row the query selects is missing up to the returned cursor, and none at all from a page that is not full |
| LedgerExport.PageHolds | host_store.py:1715-1724 | A row is on the page if and only if it is committed, the caller's, after the cursor and recorded by the cutoff, and the page is not full or the row is within its new cursor |
| LedgerExport.FullOrCaughtUp | host_store.py:1715-1724 | In every run each export delivers as many rows as were asked for, or else every row recorded at least the lag before it began has been delivered |
| LedgerExport.ReportedMarkIs | host_store.py:1725-1729 | The reported watermark is the greatest number that is neither above the process watermark nor above the time of a committed row beyond the cursor |
| LedgerExport.PageStaysExact | host_store.py:1704-1711 | A page stays exactly the rows between its two cursors in every later state: no lower id turns up behind it |
| LedgerExport.ExactlyOnce | host_store.py:1700-1724 | Feeding the cursor back delivers every committed row up to it exactly once, in every interleaving |
| LedgerExport.WatermarkCompleteIff | host_store.py:1700-1730 | Every call below the reported watermark has been delivered if and only if no write of the answering process slipped between the min(ts) query and the read of the pending dictionary |
| LedgerExport.WatermarkCompleteIfLocalBacklogShort | host_store.py:1704-1711 | A local backlog within the lag is enough for completeness |
| LedgerExport.WatermarkCompleteIfNothingFinishes | host_store.py:1704-1727 | So is that no local write finishes between the two reads, whatever the backlog |
| LedgerExport.PendingReadFirstIsComplete | host_store.py:1721-1727 | With the two reads the other way round the watermark would be complete whatever the local backlog |
| LedgerExport.SlippedWriteIsMissed | host_store.py:1704-1711 | A concrete run: all other hypotheses hold and a call 780 seconds below the watermark is in no page |
| LedgerExport.SlowestAllowed | host_store.py:1704-1711 | The hypotheses leave a call all the time they name: one that is queued and written two minutes after its stamp satisfies them and is on a page |
| BudgetStore.SweepSums | host_store.py:1757-1766 | After the sweep the live rows of the subject are exactly the held ones; other subjects keep their live sums |
| BudgetStore.ReserveLive | host_store.py:1757-1779 | What is live after a request: the unexpired holders, plus the new amount if it is admitted |
| BudgetStore.RepeatedId | host_store.py:1768-1782 | An id in use is not inserted again: the request fails and changes nothing |
| BudgetStore.HeldUntilExpiry | host_store.py:1757-1773 | An admitted amount counts against the limit exactly until its time to live has passed; a negative amount counts as none |
| BudgetStore.Store.Reserve | host_store.py:1735-1782 | Admits exactly if spent, unexpired reservations and this amount fit the limit, reports spent and reserved as they are, and on a repeated id changes nothing |
| BudgetStore.Store.Book | host_store.py:1804-1815 | Consumes the reservation and adds its cost exactly if it is still there |
| BudgetStore.Store.Settle | host_store.py:1783-1819 | Books once: settled exactly if the reservation row was still there, swept or not |
| BudgetStore.SettleSpends | host_store.py:1793-1817 | Settling a reservation consumes its row and raises what its subject has spent by the cost if that is known and not negative, else by nothing, and no other subject's |
| BudgetStore.UnknownBooksNothing | auth_proxy.py:4306-4309 | Settling for an unknown cost, as a shed request does, leaves what everyone has spent |
| BudgetStore.PruneSums | host_store.py:528-530 | Pruning swept reservations changes no live sum |
| BudgetStore.PruneKeeps | host_store.py:528-530 | Pruned is exactly what was swept and expired more than a day ago |
| BudgetStore.Store.SettleWithRetry | auth_proxy.py:877-890 | Retried after failures and lost acknowledgements: the cost is booked once if any attempt commits, else not at all |
| BudgetRuns.RunKeepsInv | host_store.py:1735-1819 | In every reachable state reserved_usd is the sum of live reservations, spent_usd the sum of bookings, and every issued reservation is in exactly one of: its row, the books, pruned |
| BudgetRuns.ExactlyOnce | host_store.py:1783-1819 | In every run of reserves, sweeps, concurrent settles, retries and prunes a reservation is booked at most once, and exactly once as soon as it is gone without being pruned |
| BudgetRuns.AnsweredMeansBooked | host_store.py:1783-1819 | A settle attempt that reaches the store before pruning leaves its reservation booked, by it or by another |
| BudgetRuns.AbortUndoes | host_store.py:1800-1822 | A settle attempt that fails between its lookup and its booking leaves no trace |
| BudgetRuns.AdmittedIff | host_store.py:1757-1768 | In every reachable state a call is admitted if and only if the bookings of its subject, its unexpired reservations and the amount fit the limit |
| BudgetRuns.BookingSpends | host_store.py:1783-1819 | In every reachable state a booking raises what the subject has spent by the known, non-negative cost if the row is there, else by nothing |
| BudgetRuns.BookableForADay | host_store.py:528-530 | Whatever happens in the day after its expiry, a reservation still has its row or is booked, once |
| BudgetRuns.OthersUntouched | host_store.py:1748-1779 | No step changes the usage row or the live sum of another tenant, subject or period |
| BudgetOvershoot.OvershootBound | host_store.py:1735-1782 | Until the next admission, spent stays within limit + slack at the latest one, plus what the reservations live then cost beyond their amounts and the full cost of those already swept |
| BudgetOvershoot.OverrunBoundIff | auth_proxy.py:82-86 | For every run and every admission: all later spending is within limit + slack + what calls cost beyond their reservations, if and only if at the admission the limit had room for what was spent, this amount, and the amounts of all unsettled reservations of the subject, swept ones included |
| BudgetOvershoot.NoneSweptMeansClaim | auth_proxy.py:82-86 | So the bound holds whenever no reservation of the subject is left swept but unsettled |
| BudgetOvershoot.BoundsAreReached | auth_proxy.py:82-86 | Neither bound has slack in its terms: when every reservation settles at its amount or more, spending reaches both |
| BudgetOvershoot.LateSettleOvershoots | auth_proxy.py:82-86 | A concrete run: no call costs more than it reserved and a limit of one dollar ends with two dollars spent |
| RateBucket.RateStore.Consume | host_store.py:921-957 | One token is taken exactly if the refilled level reaches one; the retry time is what the missing part takes to refill |
| RateBucket.TokensInRange | host_store.py:941-946 | Tokens stay between zero and the burst, also when stamps go back |
| RateBucket.WindowBound | host_store.py:921-957 | Any window of consecutive requests admits at most burst + rate_per_min/60 x the sum of positive stamp increments, rate and burst at least one |
| RateBucket.WindowBoundByTime | host_store.py:921-957 | With stamps that never go back: at most burst + rate_per_min/60 x elapsed time |
| RateBucket.AdmittedIff | host_store.py:921-957 | The bucket is the greedy enforcement of that bound: a request is admitted if and only if, counting it, every window ending with it fits |
| RateBucket.RetryAfterSuffices | host_store.py:951-952 | A lone request that waits out retry_after is admitted |
| RateBucket.RetryIff | host_store.py:951-952 | After a denial a lone retry is admitted if and only if the missing part of a token has flowed in at rate_per_min/60; retry_after is just that long, or a hundredth of a second |
| RateBucket.OwnRequestsOnly | host_store.py:932-950 | With any consumers interleaved on one store, a row is the bucket of its own consumer's requests alone |
| RateBucket.StoreWindowBound | host_store.py:921-957 | So the window bound holds for every consumer of the store, in its own stamps |
| RateBucket.StoreAdmitsIff | host_store.py:921-957 | Whatever other consumers do, the store admits a request if and only if, counting it, every window of the consumer's own requests that ends with it is within burst + rate_per_min/60 x forward time |
| PeerLeases.LeaseStore.TryAcquire | host_store.py:972-1005 | Grants exactly if the peer has fewer unexpired leases than the clamped cap and the lease is new; a refused store call changes nothing |
| PeerLeases.GrantsIff | host_store.py:958-1001 | Granted if and only if peer and lease are well formed, the lease is free and the unexpired leases are fewer than the cap as passed, held to 1..1000 |
| PeerLeases.LeaseLasts | host_store.py:958-1001 | From a grant or renewal a lease is live for exactly the time asked for, held to five seconds..one hour |
| PeerLeases.OtherLeases | host_store.py:985-989 | Another lease is untouched, except that a committed acquire removes it if it is of the same peer and had expired |
| PeerLeases.LeaseStore.Renew | host_store.py:1008-1022 | Extends any row of the peer that is still there, expired or not, and changes no holder |
| PeerLeases.RenewRevivesIff | host_store.py:1008-1022 | A renewal brings back an expired lease if and only if the last write of its row had expired by then and since that write neither a release nor a committed acquire of the peer sweeping at or after that expiry came |
| PeerLeases.ExpiredLeaseIsRenewed | host_store.py:1010 | A concrete run: a lease of five seconds renewed after ten is live again |
| PeerLeases.LeaseStore.Release | host_store.py:1025-1036 | Removes that holder and no other |
| PeerLeases.StepHolders | host_store.py:972-1036 | One step adds no holder beyond the cap it asked for, one slot at least and a thousand at most, and leaves other peers alone |
| PeerLeases.HoldersWithinCap | host_store.py:972-1036 | In every run a peer has at most as many rows, hence unexpired holders, as the largest cap asked for, and never more than a thousand |
| PeerLeases.CrashedSlotIsGrantable | host_store.py:1025-1036 | Once a silent holder has expired, a slot is granted exactly if the other unexpired holders are fewer than the cap |
| TopoOrder.Edges | flow_runner.py:46-51 | In-degrees and successor lists count every edge, duplicates included |
| TopoOrder.TopologicalOrder | flow_runner.py:42-64 | The worklist computes the greedy schedule: always the least ready node |
| TopoOrder.LeastTopologicalOrder | flow_runner.py:42-45 | Of all topological orders of an acyclic graph the schedule is the lexicographically least |
| TopoOrder.ScheduledIff | flow_runner.py:42-64 | On any graph the schedule lists, once each and after its inputs, exactly the nodes with no cyclic ancestor |
| NodeIds.LtIff | flow_runner.py:55-63 | The order of names is by code point at the first difference, a proper prefix first |
| FlowData.RunUnion | flow_data.py:57-65 | Defined exactly if all parts are records, no key is in two of them, and they are at most 128 in all |
| FlowData.RunProject | flow_data.py:66-71 | Follows the path, or fails at the first key that is not there |
| FlowData.RunOverlay | flow_data.py:76-95 | Each kept record takes its replacement exactly under the byte limits |
| FlowData.Run | flow_data.py:57-95 | Every operation, with its error cases, against its meaning |
| FlowData.UnionExact | flow_data.py:57-65 | A union holds each key once, with the value of the one part that has it |
| FlowData.RecordsIff | flow_data.py:50-54 | Records are an object of at most 128 keys of one to 128 bytes |
| FlowData.UnionIff | flow_data.py:57-65 | A union succeeds if and only if all parts are records, share no key and are at most 128 in all |
| FlowData.UnionInOrder | flow_data.py:58-64 | It lists the records in input order |
| FlowData.ProjectIff | flow_data.py:66-71 | A projection yields a value if and only if the path leads to it, key by key, from the first input |
| FlowData.SelectIff | flow_data.py:72-75 | A record is selected if and only if it is in the base and the other input has, under its key, an object whose field is the wanted value, a missing field being null |
| FlowData.SelectInOrder | flow_data.py:73-75 | A selection keeps the order of the base |
| FlowData.SameIff | flow_data.py:74-75 | Values are the same if equal, or one is a truth value and the other its number |
| FlowData.OverlayIff | flow_data.py:72-95 | An overlay is defined exactly for records whose keys are in the base, and holds of every base record that is not removed the replacement within the byte limits, or else the record itself |
| FlowData.DepthIsNesting | flow_data.py:32-47 | The bounded depth is the number of levels below the value |
| FlowData.OverlayKeepsOrder | flow_data.py:81-95 | An overlay neither adds nor reorders keys |
| FlowRunner.FallbackPromise | flow_runner.py:164-166 | A node with a fallback never fails, and the fallback hands on its first input, encoded |
| FlowRunner.DataPromise | flow_runner.py:160-162 | The JSON of a node that succeeds is what its text says, and bounded unless it fell back |
| FlowRunner.JsonPromise | flow_runner.py:156-159 | A node that asks for JSON and succeeds by itself hands on JSON and no tool calls |
| FlowRunner.SkipPromise | flow_runner.py:138-142 | A node is skipped exactly if it asks for that and its first input is an empty structure, which it then hands on |
| FlowRunner.TemplateMeans | flow_runner.py:90-98 | A $ with a number stands for what that input shows, counted from one, or for nothing; the text before and after it is filled in by itself |
| FlowRunner.PlainTemplate | flow_runner.py:90-98 | A template without references is the prompt as it is |
| FlowRunner.ViewShows | flow_runner.py:67-82 | An input shows its text or encoded data, and after a blank line its proposed tool calls, one a line |
| FlowRunner.PromptSays | flow_runner.py:85-101 | Without a template one input passes through and several become numbered sections in input order |
| FlowRunner.ReplyHandedOn | flow_runner.py:137-166 | A model or decision node asks for its prompt and hands on text and tool calls as they are and JSON as its encoding; a failure, a cut or oversized reply gives the error or the fallback |
| FlowRunner.DataHandedOn | flow_runner.py:143-162 | A data node hands on the result of its operation on the data of its inputs |
| FlowRunner.RunFlow | flow_runner.py:104-183 | The loop runs the nodes in scheduled order and stops at the first failure, with the trace so far |
| FlowRunner.ResultIsCoherent | flow_runner.py:180-183 | Whatever the nodes do, a completed flow whose result carries JSON returns the encoding of that JSON as text |
| FlowMeaning.RankFree | flow_runner.py:104-117 | The recursive value of a node does not depend on how the graph is ranked |
| FlowMeaning.RunMeansFlow | flow_runner.py:104-183 | In any topological order the run completes if and only if every node has a recursive value, and then yields the sink's; otherwise it names the first failing node of the order, with the error it fails with on its inputs' values; the trace is exactly the nodes that ran, once each |
| FlowMeaning.OrderDoesNotMatter | flow_runner.py:104-183 | Success and result are the same for every topological order |
| FlowMeaning.PassThrough | flow_runner.py:120-125 | A flow whose output takes up its input hands on what it was given, JSON with its encoding |
| FlowMeaning.EchoRuns | flow_runner.py:120-125 | The flow of one input and one output is admitted and returns the text it is given |
| FlowMeaning.EndpointIsLast | flow_runner.py:32-39 | Of several nodes of a kind the last in dictionary order is the endpoint |
| FlowMeaning.TraceShowsGraph | flow_runner.py:167-172 | Every trace entry shows its node's inputs, and skipped or fallback only where the node asks for it |
| FlowMeaning.RankingExists | flow_runner.py:42-45 | Every admitted flow has such a value: an acyclic graph can be ranked |
| SseTail.TailBuffer.Trim | auth_proxy.py:4617-4644 | The in-place trim drops everything up to the third blank line from the right, then caps the length |
| SseTail.TailBuffer.Receive | auth_proxy.py:4486-4488 | Every chunk is appended and the whole trimmed at once |
| SseTail.ChunkIndependence | auth_proxy.py:4486-4488 | However the stream is split, the buffer is one cut of the whole stream, or that with one line feed before it |
| SseTail.ShortIsBelowCap | auth_proxy.py:4641-4644 | Every stream shorter than four mebibytes is below the cap |
| SseTail.KeepsTwoEvents | auth_proxy.py:4627-4630 | What a cut keeps has exactly two blank lines, and cutting again changes nothing |
| SseTail.KeepsThreeIff | auth_proxy.py:4627-4630 | The cut is where the last two complete events start, so the last three stay whole if and only if there are fewer than three |
| SseTail.AlwaysAnEnd | auth_proxy.py:4617-4644 | For every stream, the cap included, the buffer is an end of what arrived, of at most four mebibytes |
| TailParse.ParseStreamTail | auth_proxy.py:4647-4675 | The newest-first loop computes the scan of the data lines |
| TailParse.NewestFound | auth_proxy.py:4647-4675 | Reported are the usage and the x_router of the newest line that has one, among all lines |
| TailParse.ErrorFound | auth_proxy.py:4669-4674 | And the error of the newest line that has one, unless usage and x_router are both in newer lines |
| TailParse.LinesAt | auth_proxy.py:4653 | A line runs up to the first terminator, of which the longest there is dropped |
| TailParse.DataLine | auth_proxy.py:4655-4660 | A data line contributes what follows `data:`, white space around it ignored; an empty one and [DONE] contribute nothing |
| TailParse.OtherLine | auth_proxy.py:4655-4657 | A line that does not start with `data:` contributes nothing |
| TailParse.LinesSplit | auth_proxy.py:4653-4654 | A cut after a line feed splits the lines and changes none |
| TailParse.DroppedPrefixIff | auth_proxy.py:4653-4675 | Dropping such a prefix changes nothing if and only if usage and x_router are both in the rest, or no dropped line has a field the rest lacks |
| TailParse.ParsedTailIff | auth_proxy.py:4486-4508 | For every chunking below the cap, parsing the buffer gives what parsing the whole stream gives, exactly under that condition |
| TailParse.LastTwoEventsSuffice | auth_proxy.py:4633-4642 | If the newest usage and x_router are within the last two complete events, the buffer gives what the whole stream gives |
| Lifecycle.Proxy.WakeUpNext | auth_proxy.py:267-271 | A free permit goes to the first waiter that has none |
| Lifecycle.Proxy.Acquire | auth_proxy.py:234-257 | Enter, queue, or be shed: shedding settles the reservation at once |
| Lifecycle.Proxy.ResumeAcquire | auth_proxy.py:249-264 | A waiter takes up the permit it was handed, and wakes whom a free permit allows |
| Lifecycle.Proxy.AbandonAcquire | auth_proxy.py:249-264 | A waiter that times out or is cancelled passes on the permit it was handed and settles its reservation |
| Lifecycle.Proxy.SettleReservation | auth_proxy.py:4295-4301 | Submits once per reservation and marks it done |
| Lifecycle.Proxy.Finish | auth_proxy.py:4340-4368 | The first call settles and releases, later calls change nothing |
| Lifecycle.RunKeepsInv | auth_proxy.py:234-271 | The invariant behind the rows below, for every run |
| Lifecycle.PermitsConserved | auth_proxy.py:234-271 | active + free + handed-over permits make up the limit, pending is within its bound, and nobody waits for an idle permit |
| Lifecycle.NoOvertaking | auth_proxy.py:234-271 | Permits go first come, first served: while a request waits, whoever came to wait after it still waits behind it, unless it gave up |
| Lifecycle.NewcomerIff | auth_proxy.py:243-257 | A newcomer enters at once if and only if there is no limit, or a permit is free and nobody is in line; otherwise it waits if the line is short enough, else it is shed and settles for nothing |
| Lifecycle.ExactlyOnce | auth_proxy.py:4295-4317 | The permit is given back exactly once and the reservation submitted exactly once, when the request ends and not before |
| Lifecycle.ClampsNeverFire | auth_proxy.py:261-269 | A counter is positive whenever it is decremented |
| Lifecycle.AllEndedAllFree | auth_proxy.py:267-271 | Once every request has ended, all counters are as at the start |
| Lifecycle.EndBooks | auth_proxy.py:4360-4368 | A request that ends by itself books what it reports; a successful one of unknown cost books its reservation, never nothing |
| Lifecycle.OnlyPumpsLeak | auth_proxy.py:4505-4508 | In every run a request has leaked if and only if its pump died, that is, closing the upstream raised or was cancelled |
| Lifecycle.DeadPumpLeaks | auth_proxy.py:4505-4508 | A concrete run: one pump dies, and the next request is shed although nobody runs |
| Lifecycle.LeakIsForever | auth_proxy.py:4505-4508 | Then its permit is lost in every later state, and its reservation never submitted |
| PolicySelectors.OrOf | policy_templates.py:269-274 | The built disjunction holds exactly if one of its parts does |
| PolicySelectors.OrderedProviderSelector | policy_templates.py:324-336 | The loop over the reversed groups builds the chain of preferences with the first group outermost, and the predicate of all listed providers |
| PolicySelectors.RankSorted | policy_templates.py:8-14 | A nest of stable partitions is a permutation in the lexicographic order of its preferences, outermost first |
| PolicySelectors.SortedUnique | policy_templates.py:8-14 | No other permutation is in that order |
| PolicySelectors.ArgmaxExists | policy_templates.py:8-14 | Any distinct candidates have an order by descending score, which the rankings start from |
| PolicySelectors.OrderedMeans | policy_templates.py:331-336 | With disjoint groups the chain of provider preferences compares group numbers, unlisted last |
| PolicySelectors.DefaultSelector | policy_templates.py:472-482 | The code builds the term that the default ranking is about |
| PolicySelectors.AgentSelector | policy_templates.py:521-526 | The code builds the term that the agent ranking is about |
| PolicySelectors.DefaultRanks | policy_templates.py:472-498 | A permutation of the candidates is the default template's result if and only if it is ordered by (breaker open, outside the top five, group, descending score) |
| PolicySelectors.AgentRanks | policy_templates.py:521-526 | The agent template keeps the first eight by (breaker open, group with unlisted last, descending score): what it leaves out comes after all it keeps |
| PolicySelectors.DefaultGroupOf | policy_templates.py:27-32 | Which group of the default order each provider is in |
| PolicySelectors.AgentGroupOf | policy_templates.py:48-53 | Which group of the agent order each provider is in |
| PolicySelectors.ParseProviderOrder | policy_templates.py:297-321 | The stripped names as given exactly if every group has one, none is empty and none repeats; otherwise what is wrong with the first bad group |
| PolicySelectors.AcceptedRanks | policy_templates.py:438-442 | For every accepted order the result is the one permutation ordered by (breaker open, group, descending score) |
| PolicySelectors.GroupRankIff | policy_templates.py:331-336 | For arbitrary groups the chain compares group numbers if and only if providers of one first group share all later groups |
| Rollup.Ledger.RollUp | host_store.py:1953-1994 | Replaces the hours of the window by the groups of its calls; an empty window is refused |
| Rollup.RollupIdempotent | host_store.py:1954 | Re-running a rollup changes nothing |
| Rollup.RollupReplaces | host_store.py:1961-1987 | A rollup leaves for its hours exactly the groups of their calls, and the other hours as they were |
| Rollup.HourByHourCovers | host_store.py:1961-1987 | Rolling up hour by hour, forwards or backwards, is contiguous and covers just those hours |
| Rollup.RollAllCovers | host_store.py:1961-1987 | Contiguous rollups, in any order and however often repeated, leave exactly the groups of the hours they cover |
| Rollup.GroupsSumToRows | host_store.py:2029-2036 | Adding up the eight-column groups gives the sum of the rows, for every selection of keys |
| Rollup.SameValue | host_store.py:2051-2055 | An hour and its rows agree on every breakdown: hours do not straddle days |
| Rollup.HourlyAgreesWithLedger | host_store.py:2010-2062 | Totals and all seven breakdowns from the hourly table equal those grouped directly, for whole hours covered by contiguous rollups with no later calls |
| Rollup.AddToBuckets | auth_proxy.py:5453-5463 | One row goes to its key in each of the five breakdowns |
| Rollup.SameName | auth_proxy.py:5453-5463 | The fold's `or` chains and the query's COALESCE name every row alike |
| Rollup.NamedBy | host_store.py:1521-1531 | A breakdown shows the first of its columns that is there and not empty, else "unknown"; the key prefix is twelve characters |
| Rollup.AggregateUsageRows | auth_proxy.py:5418-5475 | One pass computes every breakdown of the reference fold |
| Rollup.FoldIsDirect | auth_proxy.py:5055-5074 | Each breakdown of the fold is the direct grouping, the cost present exactly if some row was priced |
| Rollup.RequestsAreDirect | auth_proxy.py:5452 | The counts by status are those of the direct grouping |
| Rollup.ThreeWaysAgree | host_store.py:1502-1516 | For every window of whole hours covered by contiguous rollups, the reference fold over its rows, the direct grouping and the hourly table agree on totals and breakdowns |
| Rollup.StatusCountsAgree | host_store.py:2044-2047 | And on the counts by status |
| KeyCache.Resolver.EvictIfFull | control_plane_client.py:134-142 | A full cache first drops its expired entries, then everything |
| KeyCache.Resolver.Begin | control_plane_client.py:218-229 | Answer from a fresh entry, else join the running fetch, else start one |
| KeyCache.Resolver.Finish | control_plane_client.py:230-250 | A definitive reply replaces the entry; a failed fetch answers a usable stale positive or drops the entry |
| KeyCache.Resolver.Cancel | control_plane_client.py:245-250 | A cancelled fetch leaves the cache alone and ends the flight |
| KeyCache.OneFetchPerDigest | control_plane_client.py:223-229 | In every run at most one fetch per digest is in flight, found under its digest |
| KeyCache.HitsAreFresh | control_plane_client.py:218-221 | An answer from the cache is the last definitive reply for the digest, within its lifetime |
| KeyCache.HitIff | control_plane_client.py:218-221 | A call is answered from the cache if and only if its digest has an entry within its lifetime |
| KeyCache.EntryStays | control_plane_client.py:134-142 | An entry stays as it is until a definitive reply for its digest, a failed fetch with nothing to fall back on, or an eviction of a full cache that it is too old for or that is full of live entries |
| KeyCache.FlightLasts | control_plane_client.py:223-250 | A flight starts with a call that finds no live entry and lasts until its fetch is answered, fails or is cancelled |
| KeyCache.FetchAnswers | control_plane_client.py:230-244 | After a failed fetch only a positive entry is served that is still the last definitive reply and was at most TTL + grace old when the fetching call started |
| KeyCache.StaleIff | control_plane_client.py:230-244 | A failing fetch serves what was cached when it started if and only if that was positive and within TTL + grace |
| KeyCache.NegativeIsFinal | control_plane_client.py:209-213 | After a negative reply neither the cache nor a failing fetch serves the old positive |
| KeyCache.CacheBounded | control_plane_client.py:134-142 | The cache never exceeds 4096 entries |
| KeyCache.FetchWasStarted | control_plane_client.py:218-229 | Every running fetch was started by a call, and falls back on what that call found cached |
| KeyCache.JoinerOutlivesGraceIff | control_plane_client.py:223-225 | Over all runs: a call that joined a fetch that fails is given an entry older than TTL + grace at its own start if and only if the digest was cached when the fetch started, the last definitive reply is positive, and its grace ended between the two starts; and at most as much older as the fetch had been running |
| KeyCache.JoinerOutlivesGrace | control_plane_client.py:209-213 | A concrete run in which it does not |
| CodexSse.AddEvent | codex_backend.py:249-265 | One event changes the call of the item it names and no other |
| CodexSse.Aggregate | codex_backend.py:201-323 | The fold computes the item-by-item meaning of the events up to [DONE] |
| CodexSse.InterleavingIrrelevant | codex_backend.py:201-217 | Interleavings of the same text stream and the same item streams give the same text and calls |
| CodexSse.NeighboursCommute | codex_backend.py:201-217 | Two neighbouring events of separate streams can come in either order |
| CodexSse.TextSplits | codex_backend.py:237-239 | The text of a stream is the text of its parts, in order |
| CodexSse.ToolCallOfItem | codex_backend.py:289-301 | Tool calls come in added order, each with the done string or else the concatenation of its own deltas, {} if that is empty |
| CodexSse.ErrorIff | codex_backend.py:274-279 | The reply is an error if and only if a failure event came before the end |
| CodexSse.ReportedUsage | codex_backend.py:266-270 | The usage is that of the last completion event with one |
| CodexSse.FinishReason | codex_backend.py:271-301 | Any tool call decides the finish reason, else truncation |
| CodexSse.NothingAfterDone | codex_backend.py:231-232 | What follows [DONE] is not read |
| CodexSse.DataLine | codex_backend.py:226-236 | A data line carries what follows `data:`, white space around it ignored, and [DONE] ends the stream |
| CodexSse.OtherLine | codex_backend.py:226-229 | Any other line carries nothing |
| Text.StripIs | codex_backend.py:227 | Stripping takes off all white space on both sides and nothing else |
| Invites.InviteStore.Create | codex_invites.py:77-89 | Drops the unused invites of the name, keeps the used ones, adds the new one |
| Invites.InviteStore.SetDevice | codex_invites.py:113-117 | Starts a device session with no poll yet |
| Invites.InviteStore.DueForPoll | codex_invites.py:128-142 | Grants and stamps exactly if the interval since the last stamp has passed |
| Invites.OnePendingLink | codex_invites.py:82-86 | In every reachable state at most one unused invite exists per name |
| Invites.CreateReplaces | codex_invites.py:77-89 | After create the new link is the only unused one for the name |
| Invites.NewLinkExpires | codex_invites.py:77-89 | A new link is pending for exactly its time to live |
| Invites.MarkedOrRevoked | codex_invites.py:102-126 | A marked invite is used, a revoked one is gone |
| Invites.OnlyItsToken | codex_invites.py:65-142 | Apart from create, an operation changes at most the invite of its token, and nothing if there is none |
| Invites.UsedIsAbsorbing | codex_invites.py:125-149 | A used invite stays used, under its name, until it is revoked |
| Invites.PollsSpaced | codex_invites.py:128-142 | The poll granted n grants after another one in the same device session is stamped at least n intervals later |
| Invites.SessionInterval | codex_invites.py:113-117 | In a new session that interval is the device's own, or five seconds |
| Invites.NextPollIff | codex_invites.py:128-142 | The next poll is granted if and only if that interval has passed |
| Invites.NewSession | codex_invites.py:113-153 | The first poll of a new device session is granted, and an unused, unexpired invite awaits it for exactly fifteen minutes |
| Invites.ClearedAwaitsNothing | codex_invites.py:119-123 | After clear_device an invite awaits nothing until a new device code comes |

## Left out

- Money, token levels and times are exact reals: floating point, the six-decimal rounding, and NaN are not modelled, except that a cost that is not finite books zero.
- A transaction is one atomic step, apart from the two halves of a settle and the four reads of an export; connection failures are modelled only where a result depends on them.
- LedgerExport.ExactlyOnce: retention filtering, project and environment filters and rows with no insert time are left out; one caller at a time.
- PendingCalls.WriterProcess.LedgerWatermark: the lag is a parameter, its environment variable is not read.
- BudgetStore.Store.SettleWithRetry: no other transaction comes between its attempts; with others in between, `BudgetRuns.ExactlyOnce` and `BudgetRuns.AnsweredMeansBooked` say the same.
- BudgetRuns.ExactlyOnce: the delays between retries carry no information and are left out.
- PeerLeases.LeaseStore.TryAcquire: peer and lease names are taken as already stripped and lower-cased.
- FlowRunner.RunFlow: deadlines and timeouts are left out; model calls, `encode` and `decode` are parameters; errors are told apart by kind, not by text; of a trace entry only node, inputs, skipped and fallback are kept.
- FlowRunner.TemplateMeans: `$n` takes ASCII digits only.
- FlowRunner.ReplyHandedOn: exceptions are those of a model call, of decoding and of the data operations.
- FlowData.Run: JSON objects are field sequences, and `select` compares structures in field order, with True equal to 1 at the top only.
- TailParse.ParseStreamTail: decoding a data line is a parameter on bytes; stripping takes ASCII white space only.
- Lifecycle.Proxy.Finish: recording and logging before the settlement are left out; they may raise without changing what follows.
- Lifecycle.RunKeepsInv: the client queue, the drain limits and the estimated cost of a disconnected stream only choose when the pump ends and with what cost, and are parameters here.
- PolicySelectors.RankSorted: the engine is not part of this model; selectors mean what policy_templates.py:8-14 says. Filters, scorers, fail plans and the remaining templates are left out.
- Rollup.AggregateUsageRows: latency fields, recent rows, rejects, the price table and the snapshot's derived ratios are left out.
- Rollup.Ledger.RollUp: the coverage state row is left out; contiguity is a hypothesis instead. Filtered reads are left out: rollups store the requested-model fallback, raw reads filter the raw column.
- Rollup.HourlyAgreesWithLedger: the retention floor of raw reads is left out; no row of the window is pruned.
- KeyCache.Resolver.Begin: the switch that turns the feature off is left out; parsing a reply is part of the reply; so are the tenant credentials, cached likewise.
- CodexSse.Aggregate: reasoning items and summaries, latency and derived token fields are left out; decoding a line is a parameter.
- Invites.InviteStore.Create: slugging the name and drawing the token are parameters; the file on disk is the state itself, corrupt files are left out.
- HTTP handlers, dashboards, metrics, sessions, OAuth, brokers, provider adapters and the Lua engine are not part of this model.
