# Carillon, modelled in Dafny

Carillon is an NTP daemon: it disciplines the local clock from several sources, serves time, and
keeps and distributes the leap-second table. This project models the decisions it takes and proves
properties of them. There is one module for each component, and no module performs I/O.

| component | modules |
|---|---|
| Clock-epoch protocol between engine and sources | `ClockEpoch` |
| Clock filter and the poller that feeds it | `ClockFilter`, `NtpPoller` |
| Selection: screening, intersection, clustering and combining (section 11.2 of RFC 5905) | `Intersection`, `Clustering`, `Selection` |
| Phase-locked loop with phase accounting and slew history (section 11.3 of RFC 5905) | `SlewLog`, `PhaseLoop` |
| UNSYNCED, SETTLING, SYNCED and HOLDOVER | `SyncState` |
| Leap tables, their activation, their durable commit, leap execution | `LeapTable`, `LeapEngine`, `LeapUpdater` |
| Leap-table distribution: field codec, chunked transfer, export budget | `ClpsWire`, `ChunkFetch`, `ExportBudget` |
| NTP packets, replies, the request handler, rate limiting | `NtpPacket`, `Replies`, `Responder`, `RateLimiter` |
| Shared helpers | `Basics`, `Bytes`, `Counting` |

How the model relates to the program:

- Objects whose methods update their fields are classes with the same fields: the filter, the poller,
  the loop, the system, the engine's leap state, the updater, the rate limiter and the request handler.
  Ghost fields record what happened (a ledger of charges, the samples taken, the steps made), and the
  invariants tie the real fields to that record.
- The two places where goroutines interleave are state machines over atomic steps: the epoch protocol,
  and the export budget with its compare-and-swap loop. The updater is both: a class, and a machine whose events
  include failed and half-finished saves, power loss and process restart. A start happens only from a cache that passes its checks. Results about these are about
  every run.
- Floating-point quantities are reals. Root mean squares are compared by their squares. Leap times are
  integers. AES-CMAC is an arbitrary function with a 16-byte result. SHA-256 is taken as collision-free:
  equal manifests mean equal tables and equal bytes.
- Clocks, the network, the outcome of each save and the decision of the export budgets (in `Responder`) are
  parameters that range over all values. The times `SyncState` is given never go back, as the engine sees to
  (internal/engine/engine.go:684-689), and a valid measurement has no negative dispersion or jitter.

What the model brings out about the code:

- A process restart takes whatever the cache shows for committed, and opening the cache does not sync its
  directory. A table whose file was renamed into place, and no more, can therefore be activated after a restart and
  then be lost to a power failure, although the design wants activation to follow durability.
  `LeapUpdater.RestartCanRollBack` is such a run. What a restart finds pending is durable if and only if it was in the
  cache already when a save last completed or power was last lost (`LeapUpdater.TrustworthyExactly`). Over all runs
  whose restarts meet that, activation follows durability and no anchor falls back; every run that ends without it
  can be continued to a rollback (`LeapUpdater.UntrustworthyRollsBack`). If a start synced the directory first no
  condition would be needed (`LeapUpdater.SyncingStartsNeedNoGuard`).
- A leap second that has taken effect can be dropped. A waiting table was checked when it was accepted, and after a
  restart the engine measures it against itself only, so nothing compares it with the table in force at the time it
  is activated. `LeapUpdater.LeapCanBeDropped` is such a run. `LeapUpdater.LaterTablesAgree` says what holds always:
  records in effect when the later tables were accepted are kept. `LeapUpdater.KeepsInForceExactly` says when those in
  effect at activation are kept: if and only if the replacement rule accepts the new table against the one in force.
- A process can write a cache that no later start accepts. A new table that replaces a waiting one is checked
  against that one only, while a start checks it against the active table, and a leap that the waiting table had
  dropped may have taken effect in between. `LeapUpdater.CacheCanBeRefused` is such a run.
  `LeapUpdater.OrderlyExactly` gives the exact guard for every event, and over all runs that keep to it
  `LeapUpdater.CacheAlwaysLoads` holds.
- Trailer framing is right for every list of extension fields followed by a 20-byte code. For other trailers
  it is right exactly when the last field and the trailer together exceed 24 bytes:
  `NtpPacket.AssembledDecodes`, and `NtpPacket.NakAfterShortField` for a family that fails.
- The transfer-time refusal of a leap-file fetch can never trigger, because the spacing has just been capped
  at four seconds and a manifest allows at most 256 chunks: `ChunkFetch.RateBoundIsIdle`.
- The one real-valued sort key of selection orders by stratum first for every source that passes the screen, since no
  such source's distance reaches what one stratum counts: `Selection.SynchIsLexicographic`.
- The bootstrap frequency measurement is taken before the interval that ends with the update has been charged, so it
  misses the phase slewed since the last accounting point: `PhaseLoop.BootstrapMeasures` gives the exact error.
- Ticks two seconds apart, the longest interval charged in full, do not work off a residual below a nanosecond:
  `PhaseLoop.TinyResidualSwings`. Every larger one is worked off where the slew limit is above zero
  and the frequency below 500 ppm: `PhaseLoop.Loop.Drain`.
- From a tick that issued a word on, and until the next update, the residual phase cannot grow over any number of
  ticks, for any time constant of one second or more: `PhaseLoop.Loop.Coast`.

## Model

| member | source | states |
|---|---|---|
| ClockEpoch.AdmittedReadingsAreCurrent | internal/engine/engine.go:709-759 | in every interleaving of the engine with any number of sources, a stamped valid measurement that passes the staleness test rests on clock readings taken after the latest step, with no discontinuity from its first counter reading to its use |
| ClockEpoch.AcquiredReadingsAreCurrent | internal/source/ntp.go:474-518 | in every interleaving, a reply that a stamping source lets into its filter had no discontinuity anywhere in its exchange |
| ClockEpoch.StaleExactly | internal/engine/engine.go:709-742 | the staleness test drops a stamped measurement of a running source if and only if a discontinuity began after its first counter reading |
| ClockEpoch.JudgedExactly | internal/source/ntp.go:474-518 | in every interleaving, an exchange with a new estimate yields a measurement, with its own first counter reading and all its clock readings, if and only if no discontinuity touched it; without either there is no estimate |
| ClockEpoch.ValidWasJudged | internal/source/ntp.go:474-518 | every valid measurement that is ready, queued or used came out of such an exchange |
| ClockEpoch.StampsWereRead | internal/source/ntp.go:560-564 | a stamping source stamps every measurement with a value the counter had while that measurement was made, and another source none |
| ClockEpoch.UnstampedIsHeard | internal/engine/engine.go:717-730 | a measurement without a stamp is dropped exactly when its source has stopped and not been announced again |
| ClockEpoch.StoppedIsSilent | internal/engine/engine.go:717-726 | from its stop until it is announced again, nothing of a source is admitted |
| ClockEpoch.RestartedIsHeard | internal/engine/engine.go:849-897 | from the announcement on its measurements are judged by their stamps again |
| ClockEpoch.StopStands | internal/engine/engine.go:848-897 | the records of stop and restart go exactly with the first measurement admitted after the announcement |
| ClockEpoch.RunInv | internal/source/source.go:19-46 | the protocol's invariant, over counter, queue and every source's place in its exchange, holds at every position of every run |
| ExportBudget.GrantsAreBounded | internal/leap/distributor.go:12-24 | under every interleaving of loads and swaps by any number of listeners, any stretch of grants takes no more than the time between its first and last grant plus the burst, whatever order the callers' times arrive in |
| ExportBudget.RefusalsAreForced | internal/leap/distributor.go:12-24 | a refusal by the guard is forced: granting the call would break that bound for some stretch ending with it |
| ExportBudget.DenialsAreForced | internal/leap/distributor.go:12-24 | in every interleaving, a call that ends without a grant could not have been granted within the bound, or at least eight others were granted while it ran |
| ExportBudget.GivingUpMeansProgress | internal/leap/distributor.go:13-23 | a call that gives up over contention lost to at least eight grants made while it ran |
| ExportBudget.EndAttained | internal/leap/distributor.go:14-18 | the shared word is exactly the latest finish time that some grant and its successors imply |
| Intersection.Intersect | internal/discipline/select.go:531-607 | finds the interval and the survivors in their given order, or reports none exactly when no allowance below half admits an interval |
| Intersection.FindInterval | internal/discipline/select.go:547-590 | the two scans with a rising allowance find the smallest allowance that admits an interval, and its end points |
| Intersection.ScanUp | internal/discipline/select.go:557-568 | finds the first edge at which the count reaches m, with the midpoints before it counted, or passes every edge |
| Intersection.ScanDown | internal/discipline/select.go:569-580 | finds the same from the other end |
| Intersection.ReachIsLeast | internal/discipline/select.go:557-568 | the value where the count first reaches m is the least point covered by m correctness intervals |
| Intersection.ScansDecide | internal/discipline/select.go:556-590 | the pair of scans admits an interval for an allowance exactly when its end points, as smallest and largest covered points, enclose all but that many midpoints |
| Intersection.MajoritySurvives | internal/discipline/select.go:531-607 | a strict majority of the candidates survives, at most the allowance of midpoints lies outside, and every value inside at least n less the allowance intervals lies in the result |
| Intersection.OverlapsMeans | internal/discipline/select.go:598-606 | a candidate survives when its correctness interval shares a point with the result |
| Intersection.OrderIndependent | internal/discipline/select.go:531-607 | permuting the candidates changes neither the interval nor whether there is one |
| Intersection.SelectsOnce | internal/discipline/select.go:531-607 | the candidates determine the outcome |
| Clustering.Cluster | internal/discipline/select.go:613-641 | the loop ends and returns what repeated discarding of the worst survivor gives |
| Clustering.Extremes | internal/discipline/select.go:615-633 | one pass finds the first survivor with the largest selection jitter and the smallest jitter of all |
| Clustering.ClusteredSize | internal/discipline/select.go:614-636 | at least min(n, 3) sources stay, and more than three only when the largest selection jitter is below every remaining jitter |
| Clustering.ClusteredOrder | internal/discipline/select.go:637-640 | the survivors are a subsequence in their given order |
| Clustering.DiscardImproves | internal/discipline/select.go:615-639 | discarding the worst survivor never increases the mean squared pairwise disagreement of the rest |
| Clustering.ClusteredImproves | internal/discipline/select.go:613-641 | nor does the whole run of discards |
| Selection.Select | internal/discipline/select.go:353-524 | the survivors are exactly the candidates that intersection and clustering keep and the pulses one of those vouches for, in rank order; without survivors or below the minimum there is no system source, otherwise it leads its class, and the offset is its own if preferred and the mean with reciprocal distances as weights if not |
| Selection.Gather | internal/discipline/select.go:358-409 | lists exactly the sources that pass the screen, pulses apart, in order of registration |
| Selection.Thin | internal/discipline/select.go:411-412 | what intersection and then clustering leave of the candidates, still in order |
| Selection.Qualify | internal/discipline/select.go:416-447 | a pulse is used if and only if a surviving numbering source within the guard agrees with it |
| Selection.Agrees | internal/discipline/select.go:260-272 | agreement is found exactly when some numbering source is within its own distance plus its jitter allowance |
| Selection.Sort | internal/discipline/select.go:449 | the same sources by stratum, then distance, and equal ones as they stood |
| Selection.SynchIsLexicographic | internal/discipline/select.go:206-209 | for sources that pass the screen the key compares stratum first and distance second |
| Selection.Lead | internal/discipline/select.go:476-498 | the best-ranked survivor of the best class: preferred pulses, then preferred sources, then all |
| Selection.Choose | internal/discipline/select.go:476-522 | the leader, the preferred source's own offset or the weighted mean, and the jitter made of the leader's and the weighted spread |
| Selection.WeightedMean | internal/discipline/select.go:500-511 | the loop's quotient is the mean of the survivors' offsets weighted by the reciprocals of their distances |
| Selection.MeanFitsBest | internal/discipline/select.go:500-511 | every other single offset has a larger weighted sum of squared distances to the survivors' |
| Selection.OffsetFitsBest | internal/discipline/select.go:500-516 | unless a preferred source leads, no other offset has a smaller sum over the survivors of the squared difference divided by the survivor's distance |
| Selection.TwoSurvivorsBalance | internal/discipline/select.go:500-516 | between two survivors the offset lies where its differences from them are as their distances |
| Selection.OffsetWithin | internal/discipline/select.go:500-516 | the combined offset lies within every range that holds all the survivors' |
| Selection.PulsesAreNumbered | internal/discipline/select.go:414-447 | beside every surviving pulse there is a surviving numbering source, itself no pulse, within the guard and in agreement with it |
| Selection.SurvivorsAreFit | internal/discipline/select.go:211-256 | every survivor has a valid estimate, nearer than the maximum distance and no older than its own polling allows |
| Selection.ScreenExactly | internal/discipline/select.go:211-230 | a source is a candidate exactly when it is reachable, selectable, valid, current, synchronized below stratum 16, nearer than 1.5 seconds and in no timing loop; and which refusal the others get |
| Selection.DeadlineIsEightPolls | internal/discipline/select.go:241-256 | an estimate stands for eight polls of its source, within the range of polls, and at least 64 seconds |
| Selection.LoopExactly | internal/discipline/select.go:320-331 | a source is in a timing loop exactly when an address of this host, no text, is its own or is what it follows from above stratum one |
| Selection.NeverFollowsItself | internal/discipline/select.go:305-331 | no survivor is this host or follows it |
| Selection.PreferenceDecides | internal/discipline/select.go:476-498 | a preferred pulse leads if one survives, else a preferred source if one does, and within a class the best-ranked |
| Selection.DistanceBoundsError | internal/discipline/select.go:196-204 | the distance bounds the sum of every plausible set of errors behind a source's offset, and above the minimum delay no smaller number does |
| Selection.SelectsOnce | internal/discipline/select.go:353-524 | sources, time and rules determine the whole outcome |
| RateLimiter.Limiter.Allow | internal/server/ratelimit.go:130-159 | the verdict and the new bucket, what became of every other bucket, that table and list stay in step within the limit, and that for times that never go back exactly the idle buckets are gone, every bucket keeps its bound, and a request is refused exactly when accepting it would break that bound |
| RateLimiter.Limiter.Expire | internal/server/ratelimit.go:161-173 | only buckets idle for over 60 seconds go, and when the list is in order of use all of them do |
| RateLimiter.Limiter.EvictOldest | internal/server/ratelimit.go:175-179 | the least recently used bucket goes and nothing else changes |
| RateLimiter.Limiter.Remove | internal/server/ratelimit.go:181-184 | one key leaves table and list together |
| RateLimiter.Limiter.MakeRoom | internal/server/ratelimit.go:131-139 | what is left is part of what was there, with room for the key, and a key that was there and not idle stays |
| RateLimiter.AcceptedWithin | internal/server/ratelimit.go:140-153 | a bucket that stays in the table accepts at most burst plus rate times T requests in any time T |
| RateLimiter.RefusalIsForced | internal/server/ratelimit.go:140-158 | a refusal is forced: one more acceptance would exceed burst plus rate times T over some stretch that ends now |
| RateLimiter.SpendOk | internal/server/ratelimit.go:150-158 | spending keeps the bound on every stretch of acceptances and four seconds between any two kisses |
| RateLimiter.RefillOk | internal/server/ratelimit.go:140-148 | refilling keeps them |
| ClockFilter.Filter.Add | internal/discipline/filter.go:57-195 | after every sample each slot holds its sample aged by Phi and capped, the estimate rests on the first-ranked sample, an estimate is reported only for a sample later than any reported before, and a new sample nearer than the maximum distance bounds the age of the chosen one |
| ClockFilter.Filter.Shift | internal/discipline/filter.go:57-71 | ageing the register and shifting a sample in keeps the register equal to the last eight samples, each aged from its own start |
| ClockFilter.Filter.Reset | internal/discipline/filter.go:198-200 | empties the register and the record of what was reported |
| ClockFilter.Rank | internal/discipline/filter.go:96-122 | sorts the usable slots by distance, newest first among equals |
| ClockFilter.Estimate | internal/discipline/filter.go:96-189 | offset and delay are the first-ranked sample's, dispersion the rank-weighted sum with the priming term, jitter the mean squared difference from the first |
| ClockFilter.ChosenIsNearest | internal/discipline/filter.go:100-136 | the chosen sample has the least distance of all, and is the newest of those that share it |
| ClockFilter.FoldIsWeightedSum | internal/discipline/filter.go:165-176 | the dispersion recurrence, run from the back, is the sum of the ranked dispersions weighted by 2 to the minus rank, plus the weighted starting value |
| ClockFilter.SeedIsPriming | internal/discipline/filter.go:159-168 | for n samples that starting value contributes 2^-n - 2^-8 times the priming dispersion |
| ClockFilter.AgedTwice | internal/discipline/filter.go:60-65 | ageing step by step with the cap applied each time equals ageing once |
| ClockFilter.ChosenAgeBound | internal/discipline/filter.go:100-136 | however long updates are withheld, a sample that outranks a new one nearer than the maximum distance is no older than its half-delay and dispersion advantage divided by Phi |
| ClockFilter.OldNeverDisplacesNear | internal/discipline/filter.go:100-122 | a sample past the Allan intercept is never chosen over a current one nearer than the maximum distance |
| NtpPoller.Poller.Hit | internal/source/ntp.go:649-717 | a report is made exactly when the filter's estimate rests on a sample later than those reported; it carries the metadata of the very exchange that produced its offset, and is later than every earlier report, across resets and changes of stratum |
| NtpPoller.Poller.Enter | internal/source/ntp.go:679-686 | recording an exchange keeps ring and filter in step and names the sample the estimate rests on |
| NtpPoller.Poller.Prepare | internal/source/ntp.go:659-678 | a pending reset or a changed stratum empties the filter and keeps ring, filter and past reports consistent |
| NtpPoller.Poller.MetaAt | internal/source/ntp.go:463-470 | finds the record with that time, and reports a miss exactly when the ring has none |
| NtpPoller.Poller.NoteMeta | internal/source/ntp.go:450-461 | the ring holds the last eight exchanges |
| NtpPoller.Poller.ResetEndpointState | internal/source/ntp.go:383-391 | nothing of the previous server stays |
| NtpPoller.MetaFound | internal/source/ntp.go:450-470 | every sample the filter still holds has its record in the ring, and no two records share a time |
| SlewLog.CumulativeSlew | internal/discipline/loop.go:414-444 | the binary search over the pruned log gives what a linear scan of all accounting points since the last step gives, for every time within the retained span |
| SlewLog.Bisect | internal/discipline/loop.go:430-443 | the same strictly between the first and last kept point |
| SlewLog.AppliedIsValueAt | internal/discipline/loop.go:414-444 | the scan's answer is the interpolation on the segment around the time asked for |
| SlewLog.AppliedIsIntegral | internal/discipline/loop.go:449-454 | with no gap over two seconds, the difference of two answers is the integral of the recorded transient between them |
| PhaseLoop.ResidualIsAccounted | internal/discipline/loop.go:349-391 | in every reachable state the residual equals the accepted offset less the transients that ran since, interval after interval without gap or overlap, up to less than one snap per interval |
| PhaseLoop.ChargedOnce | internal/discipline/loop.go:377-391 | when no interval was cut short the time charged is exactly the time since the offset was accepted |
| PhaseLoop.Loop.ChargeApplied | internal/discipline/loop.go:377-391 | one charge for the interval that ends now is added to the ledger and the accounting point is logged |
| PhaseLoop.Loop.Debit | internal/discipline/loop.go:377-391 | the residual loses what ran, is never left below a picosecond other than zero, and cannot grow when the transient lies within it |
| PhaseLoop.Loop.Elapsed | internal/discipline/loop.go:473-487 | the seconds to charge, none before the first point, none backwards and at most two |
| PhaseLoop.Loop.Tick | internal/discipline/loop.go:349-367 | charges once, then issues the base frequency and a clamped transient; after a tick that issued a word the residual cannot grow before the next |
| PhaseLoop.Loop.Coast | internal/discipline/loop.go:349-391 | over any number of ticks after one that issued a word, and for a time constant of at least a second, the residual never grows and every word is within 500 ppm |
| PhaseLoop.Loop.Drain | internal/discipline/loop.go:349-391 | ticks between a given step and two seconds apart, for a time constant of two seconds or more, work the residual off at a steady pace at the least, so that enough of them bring it below a nanosecond |
| PhaseLoop.IssuedKeepsPace | internal/discipline/loop.go:358-366 | for a residual of a nanosecond or more the transient points the right way, is no more than the residual over the time constant, and no less than slew limit, time constant and kernel range allow |
| PhaseLoop.TinyResidualSwings | internal/discipline/loop.go:358-366 | below a nanosecond ticks two seconds apart turn the residual over and do not shrink it |
| PhaseLoop.Loop.SetApplied | internal/discipline/loop.go:458-460 | records the word within 500 ppm and the frequency it departs from |
| PhaseLoop.SlewWithin | internal/discipline/loop.go:358-363 | the transient is never more than the residual per second, nor of the other sign, nor above the slew limit unless the residual is below a nanosecond |
| PhaseLoop.ClampWithin | internal/discipline/loop.go:364-366 | clamping the word to 500 ppm can only shorten the transient |
| PhaseLoop.ChargeShrinks | internal/discipline/loop.go:377-391 | a transient within the residual cannot make it larger in at most two seconds |
| PhaseLoop.Loop.Update | internal/discipline/loop.go:200-310 | which of refuse, defer, step, ignore and accept an offset meets; the first two and ignore change nothing, a step clears residual and history, and an accepted offset starts a new ledger, is the one the next change is measured from, and moves frequency and jitter as the lemmas below say |
| PhaseLoop.PolicyExactly | internal/discipline/loop.go:181-245 | when each decision is taken: beyond the panic limit nothing is slewed, and stepped only as the first update under the startup exception; steps end with their limit; the veto only defers |
| PhaseLoop.SpikeMeans | internal/discipline/loop.go:240-245 | an offset is a spike exactly when it differs from the last by over three times the jitter within two poll intervals |
| PhaseLoop.JitterAverages | internal/discipline/loop.go:247-263 | the squared jitter stays above the squared precision, skips the update after a step, and else moves an eighth of the way to the newest squared change |
| PhaseLoop.FrequencyConverges | internal/discipline/loop.go:281-289 | on a clock that needs a fixed frequency, while the slew is not saturated and updates come within two time constants, the estimate moves towards it, never past it, stops only there or at 500 ppm, and what is left of the error is its part 1 - (mu/2tau)^2 |
| PhaseLoop.FrequencyRests | internal/discipline/loop.go:265-285 | the estimate rests on the first update, within the measurement window and while the slew is saturated |
| PhaseLoop.BootstrapMeasures | internal/discipline/loop.go:272-280 | the first measurement finds the frequency the clock needs, wrong exactly by the slew the window has not been charged with, spread over the window |
| PhaseLoop.Loop.Step | internal/discipline/loop.go:312-345 | a step clears residual and history and keeps the frequency |
| PhaseLoop.Loop.AppliedSince | internal/discipline/loop.go:449-454 | how much of an offset has been corrected since, within the retained span as the linear scan would say and without stalls as the integral, and nothing for a time not yet past |
| PhaseLoop.Loop.NoteSlew | internal/discipline/loop.go:395-409 | records the point, drops only history older than the span, and keeps at most one point from before it |
| SyncState.TrustRestsOnEvidence | internal/discipline/system.go:320-502 | SYNCED or HOLDOVER implies that since the last step a non-step loop update ran and the configured number of acquisitions from the system source arrived, through leap resyncs and source loss |
| SyncState.StepsAreApart | internal/discipline/system.go:512-526 | between any two clock steps at least two valid measurements were applied |
| SyncState.StepsAreLimited | internal/discipline/loop.go:181-232 | with a non-negative limit the total number of steps never exceeds it, the startup panic exception included |
| SyncState.System.Play | internal/discipline/system.go:218-546 | from any valid state, after each event of any sequence of measurements, ticks, leaps, discards and changes of sources: a trusted state rests on evidence since the last step, SYNCED and SETTLING have a system source, a tick leaves no holdover beyond its limit, steps are apart and within their limit; and each change of state has its cause: SYNCED is left only for a lost source, a step or a refusal, HOLDOVER is entered only from synchronization and always when the source is lost then |
| SyncState.System.Reselect | internal/discipline/system.go:320-491 | selection over the sources as carried to now decides; without a system source SYNCED and SETTLING end, in HOLDOVER if the clock had been synchronized since its last step and else in UNSYNCED; with one, a refusal ends in UNSYNCED, a step in SETTLING with nothing counted, and an accepted offset in SYNCED if it was or the evidence is there; at most one step, and the evidence behind the state is kept |
| SyncState.System.Follow | internal/discipline/system.go:363-462 | the same for any selection whose survivors are valid registered sources; an observation of the system source is used at most once |
| SyncState.LoseMeans | internal/discipline/system.go:365-388 | losing the source leaves HOLDOVER exactly for a clock synchronized since its last step and UNSYNCED for any other, and never restarts the clock of a holdover |
| SyncState.CoastMeans | internal/discipline/system.go:400-414 | with a source and nothing new, a held or settling clock is SYNCED exactly when the evidence is there |
| SyncState.ReactMeans | internal/discipline/system.go:415-462 | the state each decision leads to, since when it stands, and what it does to the record of synchronization |
| SyncState.System.Elect | internal/discipline/system.go:320-330 | the selection's answer for these sources, by name |
| SyncState.System.Survey | internal/discipline/select.go:358-372 | each offset is carried to now by what the loop has applied since it was observed |
| SyncState.ChosenIsOk | internal/discipline/select.go:449-498 | the survivors selection returns are registered, valid and distinct, and the system source is one of them |
| SyncState.System.Update | internal/discipline/system.go:292-307 | a measurement is counted for its source and, for the system source's acquisition, towards settling; one of an unknown source changes nothing |
| SyncState.System.Note | internal/discipline/select.go:151-187 | the source keeps a valid measurement and its reach and poll in any case, an invalid one leaves its estimate or withdraws it, every other source is as before, and the counters match the record |
| SyncState.System.Tick | internal/discipline/system.go:538-546 | never leaves a holdover standing longer than its limit after its entry, and without a system source ends one exactly then |
| SyncState.System.Resync | internal/discipline/system.go:259-265 | discards every estimate but not the synchronization they had established |
| SyncState.System.InvalidateSources | internal/discipline/system.go:243-248 | discards every estimate and the system source with them, and steps nothing |
| SyncState.System.AddSource | internal/discipline/system.go:218-223 | a new name goes last and a known one keeps its place; either starts without an estimate |
| SyncState.System.RemoveSource | internal/discipline/system.go:226-238 | exactly that source goes, the evidence invariant stays, and an unknown name changes nothing |
| SyncState.MayStep | internal/discipline/system.go:512-526 | allows a further step only on at least two valid measurements since the last, in total or from one source |
| SyncState.ReactKeeps | internal/discipline/system.go:365-462 | each reaction to a loop decision keeps the invariant |
| LeapTable.Build | internal/leap/leap.go:100-147 | a table is built exactly from two or more ordered lines, each at midnight on the first of January or July with an offset in range, that differ by one second each, with expiry after the last line and after the update date |
| LeapTable.BuiltGivesOffsets | internal/leap/leap.go:129-147 | at every time from the baseline on, baseline offset and records give the offset of the last line in effect |
| LeapTable.CalendarIsGregorian | internal/leap/leap.go:109-111 | the dates a line may have are the first of January and July of the Gregorian calendar |
| LeapTable.PastOf | internal/leap/object.go:174-180 | the index loop returns the leading records that have taken effect by the cutoff |
| LeapTable.ChainDates | internal/leap/object.go:152-164 | along any chain of accepted replacements update date and expiry never decrease and the baseline never changes |
| LeapTable.ChainHistory | internal/leap/object.go:165-185 | every later table has the same records as an earlier one up to the smaller of that one's coverage and any time no replacement in between was made before |
| LeapTable.NoRetroactiveChange | internal/leap/object.go:168-183 | along a chain of accepted replacements no single record that had taken effect is dropped, moved or added |
| LeapTable.AgreeMeans | internal/leap/object.go:168-183 | comparing the leading records up to the cutoff is comparing, record by record, what had taken effect within the old table's coverage |
| LeapTable.KeepsExactly | internal/leap/object.go:135-185 | a table that succeeds another by whatever steps keeps its records in effect if and only if the rule accepts it against that one |
| LeapEngine.Engine.ApplyLeap | internal/engine/leap.go:18-116 | the UTC bound never goes back, authority over leap seconds is decided, and a leap is armed only beyond the executed one |
| LeapEngine.Engine.Establish | internal/engine/leap.go:27-43 | UTC is known exactly when the clock is synchronized, held over or settling within the guard, is not before what the start found and at most a second behind what was established; the bound then follows it and never goes back |
| LeapEngine.Engine.CrossLeap | internal/engine/engine.go:909-964 | executes the armed leap exactly when the clock has passed its boundary since it was last looked at, once |
| LeapEngine.CrossedWhenApplied | internal/engine/engine.go:944-963 | for a wall clock that follows the monotonic one to within half a second, the leap counts as executed exactly when the kernel has applied it, for an insertion already in the repeated second unless the clock went unobserved for over two seconds |
| LeapEngine.ExecutedIsNotRearmed | internal/engine/engine.go:968-983 | a boundary just executed is not armed again, also in the repeated second |
| LeapEngine.Engine.NoteStep | internal/engine/engine.go:1026-1031 | a boundary that a step jumped over counts as executed |
| LeapEngine.Engine.NotePending | internal/engine/engine.go:968-983 | latches the announced boundary unless one is latched or it has been executed |
| LeapEngine.Engine.CheckLeap | internal/engine/leap.go:136-165 | accepts exactly what the replacement rule accepts at the bound just brought up to date and what keeps an armed leap, and otherwise names the reason |
| LeapEngine.Engine.LeapRequest | internal/engine/leap.go:174-203 | a table is activated exactly when it passes that test and is the one approved; active and anchor move together as in the updater's machine, and the chain of activations is extended |
| LeapEngine.Engine.Play | internal/engine/engine.go:909-1031 | over any sequence of looks at the clock, steps, status updates and requests: executed dates strictly increase and a pending leap lies after them, the bound never goes back, and each table obeyed keeps the records in effect when it was replaced, the one loaded at the start included under the stated condition |
| LeapEngine.UnbrokenExactly | internal/engine/engine.go:324-328 | the table found active at the start had its records in effect kept by the first activation if and only if no other table was pending or the rule accepts the new one against it |
| LeapEngine.ObeyedHistory | internal/engine/leap.go:174-203 | along the tables obeyed in one process life dates never decrease, and records are kept as of each replacement |
| LeapEngine.ArmedIsRecord | internal/engine/engine.go:968-983 | a leap armed from a table is that table's own record: latched exactly on the eve of a record not yet executed, with its boundary and its kind |
| LeapEngine.ShownIsRecord | internal/engine/leap.go:99-109 | on the eve of a record its warning is shown until it has been executed, and none after that or on any other day |
| LeapEngine.Engine.CurrentExactly | internal/engine/leap.go:44-53 | a table has authority exactly from its baseline up to its expiry, if it is dated plausibly |
| LeapEngine.IndicatorMeans | internal/leap/leap.go:160-172 | for records at least a day apart the warning is that of the one record whose eve it is, and there is none on any other day |
| LeapUpdater.ActivatedIsDurable | internal/leap/updater.go:148-206 | over every run of offers, retries, checkpoints, failed and half-finished saves, power losses and trustworthy restarts, an object is in every possible durable image when it is activated |
| LeapUpdater.LoadedAnchorIsNewest | internal/leap/store.go:45-53 | over every such run the anchor a start loads has neither an earlier update date nor an earlier expiry than any object activated before |
| LeapUpdater.TrustworthyExactly | internal/leap/updater.go:62-89 | over every run, what a start finds pending is in every possible image if and only if it was in the cache when a save last completed or power was last lost |
| LeapUpdater.UntrustworthyRollsBack | internal/leap/updater.go:62-89 | every run that leaves the guard unmet continues to the activation of an object that a power failure can still lose, leaving an older anchor or none |
| LeapUpdater.SyncingStartsNeedNoGuard | internal/leap/store.go:94-136 | with starts that sync the directory before reading, both results hold of every run |
| LeapUpdater.RestartCanRollBack | internal/leap/store.go:397-411 | a save that got no further than the rename leaves the guard unmet |
| LeapUpdater.RunOk | internal/leap/updater.go:145-177 | at every position of every run anchors are in order: last certain image, every possible image, visible image, memory, with the engine's tables below |
| LeapUpdater.SafeRunOk | internal/leap/updater.go:132-239 | at every position of every run with trustworthy restarts, what counts as committed is durable and no image has an anchor below an activated table |
| LeapUpdater.LaterTablesAgree | internal/leap/updater.go:148-206 | of any two tables activated, over any number of process lives, the later has no earlier dates, the same baseline and the same records within the earlier one's coverage up to any time no table in between was accepted before |
| LeapUpdater.FirstTableAgrees | internal/leap/updater.go:148-206 | the same of the table the first start found active, with or without a pending one beside it |
| LeapUpdater.KeepsInForceExactly | internal/engine/leap.go:149-203 | an activation keeps the records in effect of a table that is or was in force if and only if the rule accepts the new table against that one |
| LeapUpdater.KeepsWithoutPending | internal/engine/leap.go:149-203 | it always does when the engine's anchor is the table in force |
| LeapUpdater.ObeyedKeepHistory | internal/leap/object.go:165-185 | over runs whose activations meet that guard, any two activated tables agree up to any time no activation in between was made before |
| LeapUpdater.LeapCanBeDropped | internal/leap/object.go:153-155 | a run of three events, with a trustworthy restart, that activates a table without a leap of the table in force that has taken effect |
| LeapUpdater.OrderlyExactly | internal/leap/store.go:217-241 | from a state that would load, an event leads to one that would if and only if the guard holds |
| LeapUpdater.CacheAlwaysLoads | internal/leap/store.go:158-242 | over every run whose events keep to the guard, every image a start could find passes the checks a start makes of records, dates and bounds |
| LeapUpdater.CacheCanBeRefused | internal/leap/store.go:220-224 | a run of three events, with a trustworthy restart, that leaves a cache no start accepts |
| LeapUpdater.Store.Write | internal/leap/store.go:358-412 | wherever replacing the file stops, only whole flushed images can be found later: as before until the rename, one more after it, and only the new one at the end |
| LeapUpdater.Updater.SaveState | internal/leap/updater.go:132-143 | refines the machine's save, for which SaveIsDueExactly and RetriedSaveCommits say what its flags mean |
| LeapUpdater.SaveIsDueExactly | internal/leap/updater.go:132-143 | over every run a save is due if and only if the state was changed and not completely saved since; when none is due the cache shows the state |
| LeapUpdater.RetriedSaveCommits | internal/leap/updater.go:296-301 | over every run, a completed save makes the state the only image that can be found, settles the flag, and lets what is pending be activated |
| LeapUpdater.GoodTableIsObeyed | internal/leap/updater.go:148-206 | a table both updater and engine accept is, when both saves complete, put in force and the only thing the cache can show as active |
| LeapUpdater.ApprovalIsNeeded | internal/engine/leap.go:174-203 | what is allowed twice is activated, and nothing is that is not allowed or not the one approved |
| LeapUpdater.CheckpointKeepsUp | internal/leap/updater.go:228-239 | the recorded bound is less than 15 minutes behind the established one, behind no executed leap and on the right side of the active expiry, and moves for no other reason |
| LeapUpdater.CheckedKeepsUp | internal/leap/updater.go:373-384 | an answer at a known time brings the bound up to that time, and one at an unknown time nothing |
| LeapUpdater.LoadedIsWithinBound | internal/leap/store.go:158-242 | a start accepts nothing dated beyond the bound, and always an empty cache |
| LeapUpdater.Updater.TryInstall | internal/leap/updater.go:148-177 | refines the machine's offer, followed by an attempt to activate only if it was saved |
| LeapUpdater.Updater.TryActivate | internal/leap/updater.go:179-206 | refines the machine's activation, which needs a committed pending record |
| LeapUpdater.Updater.TakeCheckpoint | internal/leap/updater.go:228-239 | refines the machine's checkpoint |
| LeapUpdater.Updater.NoteChecked | internal/leap/updater.go:373-384 | refines the machine's note of a publisher's answer |
| NtpPacket.AppendTo | internal/ntp/packet.go:145-159 | the buffer filled field by field is the header's encoding |
| NtpPacket.ParseMarshal | internal/ntp/packet.go:145-159 | parsing undoes encoding for every packet |
| NtpPacket.MarshalParse | internal/ntp/packet.go:92-110 | encoding undoes parsing for every 48 bytes |
| NtpPacket.Decode | internal/ntp/packet.go:92-142 | the offset loop computes the decoding, with its error for short, bad-version and badly framed datagrams |
| NtpPacket.AssembledDecodes | internal/ntp/packet.go:112-141 | header, well-formed fields and trailer decode back to exactly those if and only if there are no fields or the last one and the trailer exceed 24 bytes together |
| NtpPacket.DecodedWasAssembled | internal/ntp/packet.go:112-141 | every accepted datagram is its header, well-formed fields and its trailer |
| NtpPacket.MacAtEnd | internal/ntp/packet.go:112-141 | after any list of well-formed fields a 20-byte code is found exactly at the end |
| NtpPacket.TrailersExactly | internal/ntp/packet.go:125-141 | which bytes make a trailer, and which: none, four zero bytes, or key id and digest in 20 or 24 bytes |
| NtpPacket.NakAfterShortField | internal/ntp/packet.go:125-141 | a crypto-NAK after a 16-byte field is read as a 20-byte code |
| ClpsWire.AppendTo | internal/leap/wire.go:81-106 | exactly the valid messages are appended, as one framed field; other messages are an error |
| ClpsWire.DecodeFields | internal/leap/wire.go:110-173 | the loop over the region finds its one message, none, an unsupported one, or refuses it |
| ClpsWire.FieldDecodes | internal/leap/wire.go:81-173 | decoding undoes encoding for every valid message |
| ClpsWire.DecodedIsField | internal/leap/wire.go:110-173 | every accepted field is the encoding of its message, byte for byte |
| ClpsWire.FramedIsFound | internal/leap/wire.go:110-173 | a message among any other well-formed fields is found |
| ClpsWire.FoundWasFramed | internal/leap/wire.go:110-173 | a region with a message is its field among other well-formed fields and nothing else |
| ClpsWire.ReplyFits | internal/leap/wire.go:186-214 | exactly the valid probes and chunk requests have a reply; it is valid, correlated, and no longer than the request when framed |
| ChunkFetch.Collect | internal/leap/fetch.go:211-221 | the chunk loop gathers the chunks in order, and stops at the first timeout or change |
| ChunkFetch.Receive | internal/leap/fetch.go:183-230 | the transfer as a whole, with each of its refusals |
| ChunkFetch.FetchFromHonest | internal/leap/fetch.go:183-230 | against an honest distributor the transfer reports that it holds nothing, refuses dates that do not fit, skips what is cached, yields exactly the advertised object if that is held at every chunk, and otherwise reports a change |
| ChunkFetch.GatheredExactly | internal/leap/fetch.go:211-221 | the bytes arrive if and only if the advertised object was held at every chunk |
| ChunkFetch.FetchedIsAdvertised | internal/leap/fetch.go:222-230 | whatever the network delivers, a fetched object is the advertised one byte for byte |
| ChunkFetch.AdvertisedDecides | internal/leap/fetch.go:232-256 | the early check of a manifest comes to what the full check of its file will, reason included, save for what only the records show |
| ChunkFetch.StraysAreIgnored | internal/leap/fetch.go:156-162 | answers to another request or for another chunk have no effect on a transfer |
| ChunkFetch.ChunksCover | internal/leap/fetch.go:207-212 | that many chunks and no fewer reach to the end of the file |
| ChunkFetch.RateBoundIsIdle | internal/leap/fetch.go:193-210 | for every valid manifest the transfer fits the 30-minute bound |
| Replies.SignedReplyIsProven | internal/ntp/auth/cmac.go:101-119 | a signed reply decodes to its packet and extension, and proves its key to whoever holds it |
| Replies.ProvenExactly | internal/server/responder.go:352-361 | a datagram proves a key exactly when it ends in that key's code over all the bytes before it; without a trailer or with a crypto-NAK it counts as unsigned |
| Replies.ReplyPacket | internal/server/responder.go:403-433 | the reply echoes the request's transmit time and version, carries the host's own stratum, reference, precision, root delay and dispersion in their fields, and is marked unsynchronized exactly in the special cases |
| Replies.ReferenceIsNamed | internal/server/responder.go:304-308 | the reference is the host's own, and INIT only for an unsynchronized host that has none |
| Replies.ExportFits | internal/leap/distributor.go:48-71 | the distributor's extension can always be framed and fits in the room the request's extensions took |
| Replies.ExportExactly | internal/leap/distributor.go:48-71 | what becomes of each kind of extension region: no answer, refusal, charge to the budgets, or the answer from what is offered |
| Replies.OfferedExactly | internal/leap/distributor.go:59-65 | a table is offered exactly while it is in effect |
| Responder.Handler.Handle | internal/server/responder.go:171-318 | exactly one outcome counter of the family goes up by one, with its reason; a reply is no longer than the request, is the stated packet, and is signed only under the key the request proved; a client bound to a key is served only with it; only its own buckets are charged |
| Responder.Handler.Authenticate | internal/server/responder.go:210-256 | trust means a proven key, the required one where one is required; a refusal means an unproven code or a spent bucket; a crypto-NAK costs a token |
| Responder.ScreenedExactly | internal/server/responder.go:171-196 | which datagrams pass to authentication, and which reason each other one is counted under |
| Responder.BucketsApart | internal/server/responder.go:228-259 | two requests share a service bucket exactly when masked address and proven key are the same, and never with the bucket for unproven codes |
| Responder.TablesGoToExporters | internal/server/responder.go:276-294 | leap-table data goes to version 4 clients that proved an exporter's key, and to no others |
| Responder.Handler.Serve | internal/server/responder.go:258-318 | a served request was accepted by the bucket of its proven identity; rate refusals rest on a spent bucket or the export budgets; and where kisses are sent, a bucket refusal goes without one only if the client has had one less than four seconds before |
| Responder.Handler.Respond | internal/server/responder.go:403-446 | what the receiver finds in the reply: the packet, the extension, and a code under the request's key or none |
| Responder.Handler.Publish | internal/server/responder.go:323-329 | the client gauges of both families add up to the table's size |
| Responder.Handler.Listen | internal/server/listener.go:266-344 | over any sequence of datagrams the counters of each family are exactly the tally of the outcomes, one each, with the oversize and misdirected ones under their own; and no reply exceeds its request |
| Responder.NakIsOk | internal/server/responder.go:371-385 | a request whose code proves false can always be answered by a 52-byte crypto-NAK that is no longer than it |
| Responder.NeverLonger | internal/server/responder.go:166-170 | each kind of reply is no longer than the request |
| Responder.CountedServedOk | internal/server/stats.go:29-56 | the version histogram adds up to the served count, and the unsynchronized replies are some of them |
| Responder.CountedNonClientOk | internal/server/stats.go:29-56 | the mode histogram adds up to the non-client count |

## Left out

- Kernel clock, PPS, serial and socket backends, packet timestamps and socket options: system calls and layouts.
- UDP, HTTP, control-socket, monitor and metrics plumbing, statistics files and the command-line programs.
- TOML configuration and its validation: many independent range checks.
- The inside of AES-CMAC and SHA-256, random identifiers and jitter.
- PPS and NMEA sources: their epoch bracket is that of the NTP source, the rest is parsing.
- The leap vote among survivors.
- The status each source gets during selection, its disagreement figures, and the events derived from them (falseticker, timing loop, lost preference): selection returns its survivors as values.
- `Selection.Sort` is an insertion sort; the stable library sort it stands for is not modelled.
- The linked list of the rate limiter: a sequence of keys stands for it, so relinking is not modelled.
- Floating-point rounding and NaN.
- Wrap-around of the 64-bit epoch counter and of the budget word.
- Kernel-applied leap seconds in the epoch claim: the engine finds them after the fact.
- The flag that asks a source to empty its filter is set after the counter has settled; the epoch results speak of clock readings, not of what a filter may still hold.
- Poll-interval and reachability adaptation, address rotation, kiss handling and the validity checks of a time reply.
- System variables computed for serving (root delay and dispersion, reference id, stratum).
- The text scanning of a leap-seconds file; `Build` starts from the numbers on its lines.
- The JSON form of the cache, its provider fields and year ranges, and the seed publisher's bookkeeping.
- Updater scheduling: which provider is asked and when. Offers arrive at any time.
- The address rules of the request handler (prefix lists, martian addresses, key rules, address masks) are arbitrary functions of the client.
- Last-event timestamps and the drift-file writer.
- LeapUpdater.ActivatedIsDurable: holds for runs whose process restarts meet the guard of TrustworthyExactly; without it the claim is false, as RestartCanRollBack shows.
- LeapUpdater.LoadedAnchorIsNewest: under the same guard, for the same reason.
- LeapUpdater.CacheAlwaysLoads: holds for runs whose events meet the guard of OrderlyExactly; without it the claim is false, as CacheCanBeRefused shows.
- LeapUpdater.ObeyedKeepHistory: holds for runs whose activations meet the guard of KeepsInForceExactly; without it the claim is false, as LeapCanBeDropped shows.
- LeapEngine.Engine.LeapRequest: publishing the view after an activation is not part of it; in Play that is the next two duties.
- NtpPoller.Poller.ResetEndpointState: the fields of poll interval, reachability and kisses, which the model leaves out.
- SyncState.System.Reselect: system variables, leap vote and emitted events.
- SyncState.System.Note: the leap indicator and reference fields of a measurement.
- PhaseLoop.Loop.NoteSlew: the branch for a time before the last point, since times never go back.
- ChunkFetch.Receive: request spacing, retries and kisses are folded into whether an exchange brings an answer.
