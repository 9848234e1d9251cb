# cachic, verified

cachic is a slice-based HTTP caching proxy. What it claims is that the bytes a client
gets through the cache are the bytes the origin would have sent, under concurrency,
coalescing and invalidation. This project models the parts that claim rests on, and
proves it for the model, together with the concurrent counters, codecs, parsers and
lookup structures around it.

Code that works by changing things is modelled by classes, methods and loops (the
connection limit, the drain gate, the fill registry, the index table, cursors and
readers, the fill loop, the body loop). Each such method is proved against a
specification function or property. Concurrency is modelled by step machines: one
atomic operation or lock section per step, any number of tasks, any interleaving. A
run is the list of its actions, and the theorems hold for every run.

## Layout

- `Core`, `Text`, `Bytes`, `Counting`: integers, text, bytes, counting threads.
- `Range`, `Pipeline`: range arithmetic and the ordered, bounded body stream.
- `Meta`, `Validators`, `Protocol`, `Orchestrator`: the cache protocol as a step machine,
  and its shared state as an object.
- `ProtocolCells`: what holds of the machine without any hypothesis, and that steps on
  one object leave the others alone.
- `ProtocolSafety`, `ProtocolOrigin`: exactly when generations stay pure, and the theorem
  that no response mixes versions.
- `ProtocolStretches`, `ProtocolLimits`: runs that meet the hypotheses, and runs that
  break one and mix.
- `IndexCodec`, `ObjectIndex`, `SliceCodec`: the object index and the slice format.
- `Filler`, `RunFill`, `FillRuns`: the object-level single flight, the loop that cuts a
  stream, and the two together.
- `Limits`, `LimitsRuns`, `Drain`, `Upstream`: connection limit, drain, upstream permits
  and the retry loop.
- `Matcher`, `ClientHello`, `Readahead`, `PathKey`, `Units`, `CivilDate`: the rest.

## How to read the protocol theorem

`Protocol.Apply` is what the code does. What the code does not enforce is a hypothesis,
and each is about the one object the conclusion is about:

- Only objects whose origin honours `Range`. The other kind is the subject of `Filler`,
  `RunFill` and `FillRuns`.
- `GoodOrigin`: the object's versions are addressable, and versions with matching
  validators have equal bytes. Beyond the addressable length the windows of a plan no
  longer cover the range (`Range.WindowsCoverIffAddressable`). Absent validators match,
  so a silent origin does not qualify; `SilentOriginCanMix` shows what then happens.
- `IndexAssumed`: the object is not purged, and a bump finds its generation below
  2^32 - 1. `PurgeCanMix` and `WrapCanMix` break one of these each.
- `OriginAssumed`: the origin does not move the object while the answer of a probe waits
  to be recorded, nor, while the index holds a fresh entry, while a request that found
  it missing or stale may still probe. A move during a cold or stale lookup is allowed.
  It is not enough that no probe is outstanding when the origin moves: `WaitingLookupCanMix`
  mixes with a request that has not sent its probe yet. `MovingOriginCanMix` breaks only
  the condition about answers that wait.

The last hypothesis is about the origin's timing. Without it the exact condition is about
the puts: `PureIffPutsAgree` shows that every slice, plan and fresh entry of an object is
of the version that owns its generation if and only if no put over a fresh entry records
something else than that version would have, and `AgreeingPutsNeverMix` draws the
conclusion for responses.

`touch`, `invalidate` and the probe's read-then-put are one step each, index writes
succeed, and a 206 body is the asked range clipped to the object. What an index operation
that fails does is stated for each call in `Orchestrator`.

A coalesced waiter is a request that finds the slice stored right after the fetch it
waited for. A prefetch is a slice fetch of any slice of the object. A request whose
`If-Range` does not hold is a request without a range. The store loses slices at will.

## Where the code and its documentation differ

- The range parser uses `u64::from_str`, which accepts a leading `+`; the grammar of
  RFC 9110 does not. The model follows the code.
- `release` is documented as called after the terminal state is published; the code
  releases first. The model follows the code, and nobody is stranded either way.
- `fetch_stream` is documented as counting a whole fill against its service; the permit
  it takes is dropped when it returns, before the body is read. The model follows the code.
- `invalidate` says an unknown object starts at generation 1, but stores nothing, so the
  next probe still uses generation 0. The model follows the code.
- The probe casts its slice index to `u32`, so it wraps, where `plan` saturates. The
  model follows the code.

## Model

| member | source | states |
|---|---|---|
| `Range.ParsedRangesAreWellFormed` | crates/cachic/src/proxy/range.rs:54-82 | a range header either fails as malformed or multiple, or gives bounds that are in order |
| `Range.ParseInvertsFormat` | crates/cachic/src/proxy/range.rs:54-82 | parsing inverts printing for all three forms and every bound up to 2^64 - 1 |
| `Range.ResolveSelectsExactlyWhatIsAsked` | crates/cachic/src/proxy/range.rs:87-123 | a spec resolves if and only if it asks for some byte of the object, and then to exactly the bytes it asks for (section 14.1.2 of RFC 9110) |
| `Range.SliceStart` | crates/cachic/src/proxy/range.rs:185-199 | the start of a slice, and the end of its span, fit in `u64` for every `u32` index and slice size |
| `Range.PlannedSliceStartsInRange` | crates/cachic/src/proxy/range.rs:169-199 | every planned slice starts no later than the range ends, so the window subtraction never underflows, saturated plans included |
| `Range.WindowSumFitsIff` | crates/cachic/src/proxy/range.rs:193-199 | the sum inside a window fits in `u64` if and only if the slice is not the first or the range ends before the last `u64`, which every resolved range does |
| `Range.WindowInsideExtent` | crates/cachic/src/proxy/range.rs:185-199 | inside the addressable length every window of a plan is non-empty and lies inside its slice |
| `Range.WindowRunsBetweenCuts` | crates/cachic/src/proxy/range.rs:193-199 | consecutive windows abut: each runs from one cut point of the range to the next |
| `Range.LeadingPiecesAreContent` | crates/cachic/src/proxy/range.rs:169-199 | the first k windows, laid end to end, are a leading part of the requested bytes |
| `Range.PlanTilesTheRange` | crates/cachic/src/proxy/range.rs:169-199 | all windows of a plan, laid end to end, are exactly the requested bytes |
| `Range.WindowsCoverIffAddressable` | crates/cachic/src/proxy/range.rs:158-180 | for any range whatever, the windows add up to its length if and only if it ends below `max_addressable_len`; otherwise they fall short by exactly the bytes past it |
| `Range.CountOverflowsIffAllIndices` | crates/cachic/src/proxy/range.rs:142-145 | `count()` fits in `u32` if and only if the plan does not span all 2^32 indices |
| `Pipeline.ReachableShape` | crates/cachic/src/proxy/server.rs:531-562 | in every run at most `readahead` slices are outstanding and every accepted result has the length of its window |
| `Pipeline.BodyIsTheRequestedRange` | crates/cachic/src/proxy/server.rs:531-562 | in whatever order slice tasks finish or fail, the body is a prefix of the requested bytes and is all of them when the stream ends without an error |
| `Pipeline.CompleteBodyHasDeclaredLength` | crates/cachic/src/orchestrator/mod.rs:824-833 | whatever the store returns, a body that ends without an error has the promised length: a short slice fails the response |
| `Pipeline.OpenPipeCanMove` | crates/cachic/src/proxy/server.rs:531-562 | an open stream can always move, or waits for its front task only |
| `Validators.MatchesIsPartialEquivalence` | crates/cachic/src/orchestrator/validators.rs:32-62 | matching is symmetric and transitive, and fails on itself exactly for a weak tag (section 8.8.3.2 of RFC 9110) |
| `Validators.IfRangeIsTheSliceCheck` | crates/cachic/src/orchestrator/validators.rs:68-85 | `If-Range` holds if and only if the slice check accepts the one validator the client names against the plan's of that kind; a weak tag never does (section 13.1.5 of RFC 9110) |
| `Orchestrator.Orchestrator.BumpGeneration` | crates/cachic/src/orchestrator/mod.rs:221-243 | a known entry becomes stale under its next generation, as the protocol's bump step does; if that cannot be recorded the entry stays and the answer is 1; the object's cell is forgotten either way |
| `Orchestrator.Orchestrator.CellFor` | crates/cachic/src/orchestrator/mod.rs:245-251 | one cell per object, made on first use |
| `Orchestrator.Orchestrator.Probe` | crates/cachic/src/orchestrator/mod.rs:284-356 | a probe fails if and only if the fetch does or no length is declared, and then changes nothing; a 206 stores its slice and a 200 none, under the generation read, zero if unknown or unreadable; a failed put loses only the entry |
| `Orchestrator.HonestProbeIsThePutStep` | crates/cachic/src/orchestrator/mod.rs:330-354 | against an honest origin a probe records what the protocol's put step records if and only if the generation could be read or is zero, and with a working put leaves the same index, store and cell |
| `Orchestrator.Orchestrator.Metadata` | crates/cachic/src/orchestrator/mod.rs:257-281 | without interference, a fresh entry is used and touched, a failed lookup counts as a miss, a filled cell is read, and otherwise one probe decides; a failed probe leaves the cell empty for the next caller |
| `ProtocolCells.ReachableStructure` | crates/cachic/src/orchestrator/mod.rs:245-281 | in every run whatever, each cell belongs to one object, every request's cell is of its own object, and at most one request probes per cell |
| `ProtocolCells.OthersAreUntouched` | crates/cachic/src/orchestrator/mod.rs:221-354 | a step changes entry, slices, cells, requests and fetches of one object only |
| `ProtocolSafety.StepKeepsInvariant` | crates/cachic/src/orchestrator/mod.rs:221-354 | every step of lookup, probe, slice fetch, bump, touch, eviction and origin change, at any time, keeps one owning version per generation of an object, provided a put over a fresh entry agrees with it |
| `ProtocolSafety.AgreeingPutsNeverMix` | crates/cachic/src/orchestrator/mod.rs:493-576 | however the origin moves: if all puts over fresh entries agree, each response has at each moment sent a prefix of the requested range of one version the origin served, and all of it once it ends without an error |
| `ProtocolSafety.PureIffPutsAgree` | crates/cachic/src/orchestrator/mod.rs:330-354 | however the origin moves: every slice, plan and fresh entry of an object is of its generation's version throughout a run if and only if all puts over fresh entries agree |
| `ProtocolSafety.GenerationNeverDecreases` | crates/cachic/src/store/index.rs:245-255 | along every run without a purge or a wrap the recorded generation of an object never decreases |
| `ProtocolOrigin.MovesInTimeMakePutsAgree` | crates/cachic/src/orchestrator/mod.rs:257-281 | if the origin moves an object only while no answer waits and, over a fresh entry, no request may still probe, then all puts agree |
| `ProtocolOrigin.NoResponseMixesVersions` | crates/cachic/src/orchestrator/mod.rs:493-576 | in every run that meets the hypotheses for the requested object, its response has at each moment sent a prefix of the requested range of one version the origin served, and all of it once it ends without an error |
| `ProtocolOrigin.OneVersionPerGeneration` | crates/cachic/src/orchestrator/mod.rs:330-354 | all slices stored under one object and generation, and all plans carrying it, are of one version |
| `ProtocolLimits.ChangeIsFoundAndServed` | crates/cachic/src/orchestrator/mod.rs:551-574 | all hypotheses together are met by a run in which a change is found, the generation bumped, and the next request served the new version whole |
| `ProtocolLimits.SilentOriginCanMix` | crates/cachic/src/orchestrator/validators.rs:40-44 | without validators the theorem fails: a concrete run completes a response of two versions |
| `ProtocolLimits.MovingOriginCanMix` | crates/cachic/src/orchestrator/mod.rs:330-354 | with strong tags everywhere, an origin that moves while the answer of a probe waits to be recorded can be mixed: a concrete run |
| `ProtocolLimits.WaitingLookupCanMix` | crates/cachic/src/orchestrator/mod.rs:257-281 | with strong tags, and with no probe outstanding whenever the origin moves, a request that has looked up and not probed yet can still mix: a concrete run |
| `ProtocolLimits.PurgeCanMix` | crates/cachic/src/admin/api.rs:303-310 | a purge forgets the generation and leaves slice fetches running: a concrete run stores an old slice under a new plan's generation and completes a mixed response |
| `ProtocolLimits.WrapCanMix` | crates/cachic/src/store/index.rs:250 | after 2^32 bumps a generation comes back with slices of its first version: a run of that length completes a mixed response |
| `IndexCodec.Encode` | crates/cachic/src/store/index.rs:71-84 | the buffer grown field by field is the entry format |
| `IndexCodec.Decode` | crates/cachic/src/store/index.rs:86-120 | the cursor-driven decoder computes the format's parser, error by error |
| `IndexCodec.RoundTripsIffAllFit` | crates/cachic/src/store/index.rs:70-169 | an entry reads back as itself if and only if every string is shorter than `u32::MAX` bytes |
| `IndexCodec.NoStrictPrefixDecodes` | crates/cachic/src/store/index.rs:86-120 | no strict prefix of an entry decodes |
| `IndexCodec.DecodedIsStorable` | crates/cachic/src/store/index.rs:161-168 | whatever decodes has strings that fit, so it can be written back |
| `Bytes.Cursor.TakeBytes` | crates/cachic/src/store/index.rs:143-148 | a read that fits returns the next bytes and advances past them; one that does not leaves the cursor where it was |
| `Bytes.Cursor.U8` | crates/cachic/src/store/index.rs:149-151 | one byte, or the cursor stays |
| `Bytes.Cursor.U32` | crates/cachic/src/store/index.rs:152-155 | four bytes as a little-endian number, or the cursor stays |
| `Bytes.Cursor.U64` | crates/cachic/src/store/index.rs:156-159 | eight bytes as a little-endian number, or the cursor stays |
| `Bytes.LeInvertsFromLe` | crates/cachic/src/store/index.rs:152-159 | reading a little-endian number and writing it again gives the same bytes |
| `IndexCodec.ReadString` | crates/cachic/src/store/index.rs:161-168 | a stored absent value, text, or absence for bytes that are not UTF-8; a truncated string is an error |
| `ObjectIndex.WriteThenRead` | crates/cachic/src/store/index.rs:195-212 | what is put is what is got, if and only if it fits, and no other object is affected |
| `ObjectIndex.Index.Put` | crates/cachic/src/store/index.rs:204-212 | the put entry is then found if and only if it fits; others are unchanged |
| `ObjectIndex.Index.Get` | crates/cachic/src/store/index.rs:195-202 | what the table says about an object, decoding errors included |
| `ObjectIndex.Index.Remove` | crates/cachic/src/store/index.rs:214-222 | the object becomes unknown; others are unchanged |
| `ObjectIndex.Index.Touch` | crates/cachic/src/store/index.rs:227-238 | a known entry is rewritten with the new time only if it is an hour old or more, and the result says whether it was |
| `ObjectIndex.Index.Invalidate` | crates/cachic/src/store/index.rs:245-255 | a known entry becomes stale under its next generation, which is returned; an unknown one stays unknown and 1 is returned |
| `SliceCodec.KeyRoundTrip` | crates/cachic/src/store/slice.rs:55-85 | a key is 24 bytes, and bytes read as a key if and only if they are its encoding |
| `SliceCodec.Encode` | crates/cachic/src/store/slice.rs:203-224 | encoding fails exactly when a string or the payload is longer than `u32::MAX`, and otherwise writes the format |
| `SliceCodec.Decode` | crates/cachic/src/store/slice.rs:226-263 | the decoder computes the format's parser, and the failure counter grows exactly on a checksum mismatch |
| `SliceCodec.EstimateIsExact` | crates/cachic/src/store/slice.rs:136-147 | `estimated_size` is the exact encoded length |
| `SliceCodec.EncodeHeader` | crates/cachic/src/store/slice.rs:100-115 | the header is written field by field, or refused for a string that is too long |
| `SliceCodec.WriteOptStr` | crates/cachic/src/store/slice.rs:149-168 | a string is written behind its length, or refused exactly when that does not fit in `u32` |
| `SliceCodec.ReadOptStr` | crates/cachic/src/store/slice.rs:170-182 | an absent value, text, or an error for bytes that are not UTF-8 |
| `SliceCodec.DecodeHeader` | crates/cachic/src/store/slice.rs:117-134 | the header parser, field by field |
| `SliceCodec.DecodePayload` | crates/cachic/src/store/slice.rs:238-258 | a payload is returned only if it hashes to the stored checksum; otherwise the failure is counted |
| `SliceCodec.DecodesIffEncoded` | crates/cachic/src/store/slice.rs:203-268 | the format is canonical: bytes decode to a slice if and only if they are its encoding and no string has the length that marks absence |
| `SliceCodec.DecodedPayloadMatchesChecksum` | crates/cachic/src/store/slice.rs:238-262 | any bytes that decode are the encoding of what they decode to, checksum included, for an arbitrary hash |
| `SliceCodec.TakeOptStrMisses` | crates/cachic/src/store/slice.rs:149-182 | a string of exactly `u32::MAX` bytes reads back as absent |
| `SliceCodec.NoStrictPrefixDecodes` | crates/cachic/src/store/slice.rs:226-263 | no strict prefix of an encoded slice decodes |
| `Filler.WaitFor` | crates/cachic/src/orchestrator/filler.rs:145-169 | the first value seen that covers the index, completes or fails decides; with none, the fill was abandoned |
| `Filler.Fill.Replace` | crates/cachic/src/orchestrator/filler.rs:70-82 | publishing always takes effect and is always visible as a new version |
| `Filler.FillRegistry.Claim` | crates/cachic/src/orchestrator/filler.rs:114-124 | the first claim of an object owns a fresh fill, later ones share it until release |
| `Filler.FillRegistry.Release` | crates/cachic/src/orchestrator/filler.rs:131-134 | release removes exactly the object's entry |
| `Filler.SingleFlight` | crates/cachic/src/orchestrator/filler.rs:114-134 | in every interleaving at most one task per object is between claiming and releasing |
| `FillRuns.EffectsAreTheScript` | crates/cachic/src/orchestrator/mod.rs:699-717 | in every interleaving what a fill has stored and published so far is store, publish, store, publish for its slices from 0 on, at most one publish behind |
| `FillRuns.AgreedSliceIsFound` | crates/cachic/src/orchestrator/mod.rs:699-717 | in every interleaving of any number of fills, over a store that loses keys at will, a slice that some fill put is found with the bytes its fills put, if they agree on them, unless the store lost it |
| `FillRuns.GoodMeansPayloadStored` | crates/cachic/src/orchestrator/mod.rs:629-720 | if all fills of an object's generation in a run do a part of what the cutting loop does on streams of the same bytes, whatever the chunks and wherever they break, then whoever one of them tells yes for a slice finds in the store, written by all fills of the run, exactly that slice's bytes, or nothing if the store lost it |
| `Filler.GoodOnlyAfterInsert` | crates/cachic/src/orchestrator/mod.rs:629-661 | a waiter or owner is told yes only after that fill has put the slice in the store, under the caller's own key if and only if the fill was started for the caller's generation |
| `Filler.BlockedForAReason` | crates/cachic/src/orchestrator/filler.rs:145-169 | a waiter that cannot wake has seen the current progress, it is neither final nor covering, and the owner has yet to speak its last word |
| `Filler.FinalWordReachesEveryone` | crates/cachic/src/orchestrator/mod.rs:639-657 | after completion or failure every subscriber, early or late, returns by its own steps with what the final value says |
| `Filler.NeverAbandoned` | crates/cachic/src/orchestrator/filler.rs:163-167 | the abandoned branch is never taken |
| `Filler.CoverageGrows` | crates/cachic/src/orchestrator/filler.rs:35-47 | what a fill covers only grows until it fails |
| `Filler.EveryoneElseCanMove` | crates/cachic/src/orchestrator/mod.rs:614-665 | an unfinished task can always take a step unless it waits with nothing new to see |
| `Filler.QuietRegistryIsEmpty` | crates/cachic/src/orchestrator/mod.rs:640-642 | when every task has returned the registry is empty, failures included |
| `Filler.GoodMayMeanAnotherGeneration` | crates/cachic/src/orchestrator/filler.rs:104-124 | the registry ignores generations: a concrete run tells a request yes for a slice stored under another generation |
| `RunFill.Run` | crates/cachic/src/orchestrator/mod.rs:686-720 | for every chunking, a stream that ends stores and publishes exactly the slices of what it delivered; one that breaks does so for the whole slices delivered until then |
| `RunFill.FillStoresTheObject` | crates/cachic/src/orchestrator/mod.rs:686-720 | below 2^32 slices, a fill leaves exactly the payloads the ranged path would have stored, and touches nothing else |
| `RunFill.BrokenFillStoresLeadingSlices` | crates/cachic/src/orchestrator/mod.rs:691-697 | a fill cut off by an error leaves only correct leading slices of the whole object |
| `RunFill.PublishedCountsRiseByOne` | crates/cachic/src/orchestrator/mod.rs:699-717 | the k-th publish says k + 1, right after slice k was stored |
| `RunFill.StoredBeforePublished` | crates/cachic/src/orchestrator/mod.rs:700-708 | when a count is published, every slice below it is already in the store |
| `Limits.ConnectionLimit.TryClaimPeer` | crates/cachic/src/proxy/limits.rs:95-105 | one lock section: claim a slot under the per-peer ceiling or count a rejection, leaving no zero entry |
| `Limits.ConnectionLimit.GiveBackPeer` | crates/cachic/src/proxy/limits.rs:115-121 | one lock section: the count goes down by one and a zero entry goes away |
| `Limits.ConnectionLimit.AcquireGlobal` | crates/cachic/src/proxy/limits.rs:143-167 | the exchange loop grants exactly when there is room, however often the weak exchange fails spuriously |
| `Limits.ConnectionLimit.TryAcquireFor` | crates/cachic/src/proxy/limits.rs:93-127 | granted exactly when both ceilings allow it; a refusal leaves both counts as they were |
| `Limits.ConnectionLimit.Release` | crates/cachic/src/proxy/limits.rs:50-63 | dropping a permit gives back exactly what it took |
| `LimitsRuns.ReachableInvariant` | crates/cachic/src/proxy/limits.rs:93-167 | every interleaving of atomic operations and lock sections keeps the counters exact |
| `LimitsRuns.CountersAreExact` | crates/cachic/src/proxy/limits.rs:50-167 | at every step `open` is the number of held slots and at most `max`, each peer entry is the number of its claims and at most `per_peer`, no zero entry survives, no subtraction underflows |
| `LimitsRuns.QuiescenceLeavesNothing` | crates/cachic/src/proxy/limits.rs:50-167 | at quiescence nothing is left over, and grants plus rejections are the attempts |
| `Drain.Gate.Enter` | crates/cachic/src/proxy/shutdown.rs:69-77 | work is admitted and counted exactly while draining is not set |
| `Drain.Gate.Leave` | crates/cachic/src/proxy/shutdown.rs:37-44 | the last guard out notifies |
| `Drain.NoLostWakeup` | crates/cachic/src/proxy/shutdown.rs:102-121 | in every interleaving the count is the number of live guards, and a sleeping drainer that was not notified is covered by work in flight or by a notify about to happen |
| `Drain.IdleDrainerFinishes` | crates/cachic/src/proxy/shutdown.rs:108-120 | once all work has left, a waiting drainer returns by its own steps |
| `Drain.CleanDrainSawIdle` | crates/cachic/src/proxy/shutdown.rs:102-121 | `drain` returns true only in a step that sees nothing in flight with draining set |
| `Drain.NoNewAdmissions` | crates/cachic/src/proxy/shutdown.rs:69-77 | once draining is set only threads already past the flag check can still hold admitted work |
| `Drain.LateEntrantIsPossible` | crates/cachic/src/proxy/shutdown.rs:70-73 | such a late entrant is real: a concrete run admits work after `drain` returned true |
| `CivilDate.CivilFromDaysIsRight` | crates/cachic/src/telemetry/logs.rs:56-65 | for every day number the computed date is a valid Gregorian date and has exactly that day number, counted year by year and month by month |
| `CivilDate.DatesKeepOrder` | crates/cachic/src/telemetry/logs.rs:56-65 | dates are in the order of their days, so no two days share one |
| `CivilDate.NextDayIsTomorrow` | crates/cachic/src/telemetry/logs.rs:56-65 | consecutive days are calendar successors across month ends, leap years and centuries |
| `CivilDate.StampIsRight` | crates/cachic/src/telemetry/logs.rs:42-76 | for every `u64` timestamp the stamp is a valid date and time of day that stands for that timestamp, and the month index is in bounds |
| `Matcher.SpellingsAgree` | crates/cachic/src/services/matcher.rs:57-72 | case, trailing dots and a port make no difference to a host name |
| `Matcher.BracketsAreStripped` | crates/cachic/src/services/matcher.rs:59-64 | a bracketed address is what the brackets hold, whatever follows; a missing bracket is made up for |
| `Matcher.OtherSuffixesAreKept` | crates/cachic/src/services/matcher.rs:65-70 | what follows the last colon is dropped only if it is all digits |
| `Matcher.Build` | crates/cachic/src/services/matcher.rs:27-51 | the nested loops fill the two maps with the last listing of every pattern |
| `Matcher.AddPatterns` | crates/cachic/src/services/matcher.rs:34-43 | the inner loop adds each pattern of a service to the map of its kind |
| `Matcher.WalkParents` | crates/cachic/src/services/matcher.rs:86-95 | the walk finds the longest wildcard parent the host lies under, or there is none |
| `Matcher.ServiceFor` | crates/cachic/src/services/matcher.rs:75-97 | the answer is that of a linear scan of the patterns: exact first, else the longest parent, the last listing winning |
| `Matcher.UnderMeans` | crates/cachic/src/services/matcher.rs:83-95 | a host lies under a parent exactly when it is something, a dot and the parent; never under itself |
| `Matcher.ScanFindsLongest` | crates/cachic/src/services/matcher.rs:34-43 | the linear scan picks the longest covering parent and its last listing |
| `ClientHello.Read` | crates/cachic/src/sni/clienthello.rs:83-138 | the reader with its two loops computes the grammar's answer on every byte string, within bounds |
| `ClientHello.ReadServerName` | crates/cachic/src/sni/clienthello.rs:114-119 | the loop over extensions finds the data of the first server_name extension |
| `ClientHello.ReadHost` | crates/cachic/src/sni/clienthello.rs:123-134 | the loop over names finds the first host name |
| `ClientHello.SkipPrelude` | crates/cachic/src/sni/clienthello.rs:95-108 | from the handshake type to the end of the compression methods |
| `ClientHello.ReadU16` | crates/cachic/src/sni/clienthello.rs:46-48 | two bytes as a big-endian number, or the reader stays |
| `ClientHello.HostIsRead` | crates/cachic/src/sni/clienthello.rs:83-138 | for any session id, ciphers, compression, other extensions and other names, the host is returned in lower case |
| `ClientHello.OnlyWrittenHostsAreRead` | crates/cachic/src/sni/clienthello.rs:83-138 | conversely, whatever is returned was written as a host in such a hello |
| `ClientHello.TrailingBytesDoNotMatter` | crates/cachic/src/sni/clienthello.rs:70-93 | once the buffer holds the whole record, further bytes change nothing |
| `Readahead.Policy.Observe` | crates/cachic/src/orchestrator/readahead.rs:80-138 | one call makes room, records the request and judges it |
| `Readahead.Policy.EvictOlderHalf` | crates/cachic/src/orchestrator/readahead.rs:91-97 | 512 entries go, none of them seen after one that stays |
| `Readahead.TableIsBounded` | crates/cachic/src/orchestrator/readahead.rs:84-98 | over every history the table never exceeds 1024 entries |
| `Readahead.DroppedAreOldest` | crates/cachic/src/orchestrator/readahead.rs:84-98 | no entry a call drops, by age or by eviction, was seen after one it keeps |
| `Readahead.SequentialMeansFourInOrder` | crates/cachic/src/orchestrator/readahead.rs:115-138 | a request is sequential only if it is the fourth of four of its object that chain in time |
| `Readahead.SequentialIffFourInOrder` | crates/cachic/src/orchestrator/readahead.rs:115-138 | over every history, as long as no request found the table full, a request is judged sequential if and only if it is the fourth of four of its object that chain in time |
| `Readahead.PrefetchIsExact` | crates/cachic/src/orchestrator/readahead.rs:143-155 | a slice is prefetched if and only if the access is sequential and it is one of the `window` slices that follow the request and inside the object |
| `Readahead.PrefetchedSlicesExist` | crates/cachic/src/orchestrator/mod.rs:740-746 | every slice up to the last one handed to `prefetch` starts inside the object |
| `PathKey.PercentDecode` | crates/cachic/src/services/key.rs:164-193 | the decoding loop undoes the escapes, or returns the input if the result is not UTF-8 |
| `PathKey.ResolveSegments` | crates/cachic/src/services/key.rs:136-147 | the loop over segments computes dot-segment removal |
| `PathKey.WriteSegments` | crates/cachic/src/services/key.rs:149-153 | the loop over the stack writes each segment behind a slash |
| `PathKey.NormalisePath` | crates/cachic/src/services/key.rs:132-161 | the two loops compute the normal form |
| `PathKey.EscapesAreRead` | crates/cachic/src/services/key.rs:172-185 | every byte, escaped with digits of either case, is read back |
| `PathKey.DotSegmentLaws` | crates/cachic/src/services/key.rs:137-147 | anywhere in a path empty and single-dot segments go, a double dot goes with the segment before it, and alone at the root |
| `PathKey.NormalFormsAreKept` | crates/cachic/src/services/key.rs:149-160 | everything already in normal form is kept, trailing slash included |
| `PathKey.NormalFormIsPlain` | crates/cachic/src/services/key.rs:137-160 | a normal form starts with a slash and has no empty, `.` or `..` segment but for a trailing slash |
| `PathKey.KeyIsFixedIffNothingDecodes` | crates/cachic/src/services/key.rs:132-193 | a key is its own key if and only if nothing in it is left to decode; without a percent sign nothing is |
| `PathKey.DoubleEscapesAreNotFixed` | crates/cachic/src/services/key.rs:164-193 | a doubly escaped path shows the other case |
| `PathKey.SpellingsShareAKey` | crates/cachic/src/services/key.rs:196-226 | any two escaped spellings of one UTF-8 path that escape every percent sign get the same key (section 2.1 of RFC 3986) |
| `Upstream.InflightIsBounded` | crates/cachic/src/upstream/client.rs:168-185 | in every interleaving requests in flight never exceed the global limit, nor max(limit, 1) of their service |
| `Upstream.SomeFetchCanMove` | crates/cachic/src/upstream/client.rs:230-235 | with at least one global permit some unfinished fetch can always move |
| `Upstream.NoPermitsNoProgress` | crates/cachic/src/upstream/client.rs:182 | with none, a single fetch waits for ever |
| `Upstream.ReadBody` | crates/cachic/src/upstream/client.rs:296-317 | a body within the limit is returned whole, anything else fails at the first chunk that breaks or does not fit, and the buffer never exceeds the limit |
| `Upstream.Settle` | crates/cachic/src/upstream/client.rs:248-323 | what one answer comes to: redirect, status, empty body for anything but a 206, or the bounded body |
| `Upstream.FetchRange` | crates/cachic/src/upstream/client.rs:237-340 | at most `retries + 1` requests go out, all but the last after a retryable transport failure, the last decides, and at most min(range length + 64 KiB, ceiling) bytes are buffered |
| `Units.SizesAreExact` | crates/cachic/src/config/units.rs:49-73 | a size is read if and only if it is digits and a known unit whose exact product fits in `u64` |
| `Units.DurationsAreExact` | crates/cachic/src/config/units.rs:76-95 | so is a duration |
| `Units.FormatRoundTrips` | crates/cachic/src/config/units.rs:98-111 | every size that is printed reads back as itself |

## Left out

- foyer, redb, hyper, reqwest and tokio: store and index are maps, a watch channel is a
  value with a version, `Notify` and `Semaphore` are their contracts, without fairness.
- Purges of the object itself: the protocol theorem excludes them, and `PurgeCanMix` shows why.
- A zero-length object is answered with an empty body; in the protocol machine such a
  request simply ends unserved.
- In the protocol machine every probe is answered by a 206 or fails, and index operations
  succeed and are not interleaved inside `touch`, `invalidate` or a put. `Orchestrator` covers
  200 answers and failing index operations one call at a time.
- Ranged and range-ignoring plans of one object in one machine: a fill and the ranged path
  are related only by storing the same payloads.
- Cancellation of a filling task and panics: a fill that starts runs until it returns.
- `drain`'s `inflight` as a wrapping `u64`: each guard holds a reference count that aborts
  the process first.
- Memory orderings: atomics are sequentially consistent.
- blake3 and xxh3: object ids are arbitrary, the checksum is an arbitrary function.
- Eviction policy, disk tiers, admin handlers, metrics, address guard, resolver, header
  rules, log escaping and configuration checks: outside these components or settled by
  reading one expression.
- `prune` of the index: it drops entries and keeps their slices, so it forgets generations as
  a purge does and is excluded for the same reason; only its own tests call it.
- `ids_with_prefix` and `total_bytes` of the index: plain scans of the table.
- The text of error messages and of the log line: only which error, and which date and time.
- The address guard and header forwarding around an upstream request.
