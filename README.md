# Iterative DNS resolver: a verified model

This project models the core of a small iterative DNS resolver service and of
the tool that reads its event log back:

- **Iterative resolution** (`d_resolver.py`, `perform_iterative_resolution`). The
  walk starts at the root server. Each pass of the main loop tries the current
  candidate servers in order and counts every server asked in a counter shared
  with nested calls. It then acts on the first response:
  - the first answer that is A or CNAME decides: an A ends the walk, a CNAME
    restarts the walk at the root for its target;
  - answers with neither make the loop ask again;
  - an NS referral moves to the glue addresses of the additional section
    (`get_additional_records`), or, without glue, to the addresses of the
    nameservers, each resolved by a nested call one level deeper that shares the
    counter and the trace.

  Every event is appended to the per-query trace (`log_event`).
- **The query handler** (`dispatch_query`): admission under the global query
  counter and the throttle flag raised every 75 queries, resolution in a fresh
  context, the reply (the request's id and question, one A answer with TTL 60),
  and the block written to the event log, ending with a `[FINAL_STATE: FAILED]`
  marker unless the last line mentions `RESOLUTION_COMPLETE`.
- **The log scanner** (`d_plot.py`, `process_resolver_logs`): a one-pass state
  machine over log lines. It emits one record per completion line of the
  currently queried domain, with the mean round-trip time of that query.

Layout:

| file | module | content |
|---|---|---|
| `dns.dfy` | `Dns` | decoded messages, records, the upstream network as an oracle |
| `event_log.dfy` | `EventLog` | trace lines, their text, stage labels, substring test |
| `resolution_spec.dfy` | `ResolutionSpec` | the resolver as a pure state-passing definition with fuel |
| `resolution.dfy` | `Resolution` | the resolver as imperative code: class `ResolutionContext` with the shared counter, trace and datagrams sent; each method proved equal to its definition |
| `resolution_facts.dfy` | `ResolutionFacts` | what each kind of response does, what a whole resolution logs and counts, fuel monotonicity |
| `dispatch.dfy` | `Dispatch` | admission and throttle, reply, log block; class `Service` |
| `resolver_logs.dfy` | `ResolverLogs` | the log scanner as a fold and as its loop |

How the model is built:

- **Network.** It is a function from (datagram number, server, name) to an
  optional decoded reply. The number counts the datagrams a query's context has
  sent, so within one query the same question may get different replies.
  `None` stands for a timeout or for a reply that could not be decoded. The
  function is fixed for the service, and every query's context starts again
  at datagram 0. So two queries that send the same datagrams in the same order
  get the same replies.
- **Fuel.** The resolver's loop has no bound: CNAME chains, re-asked answers and
  nested nameserver resolution can all go on indefinitely. So the definition
  carries fuel, one unit per pass of the main loop, and the nested resolutions
  of a pass get what is left. `OutOfFuel` is the only outcome the resolver
  itself does not have. `ResolveFuel` proves that every other outcome, and the
  trace and counter beside it, stays the same with more fuel.
- **Truth of an address.** Python's `if ip:` tests are modelled as "the address
  is not the empty string".

Behaviour of the code worth noting:

- A datagram that does not decode is not silently dropped. The handler has
  already counted it, and its exception path still writes a log block, which
  holds only the `[FINAL_STATE: FAILED]` marker (`Dispatch.Serve`, request
  `None`).
- When no candidate answers, the "Response: FAILED" line names the **first**
  candidate of the list, not the last one tried.
- A failed nested resolution logs `RESOLUTION_FAILED` under the top-level domain.
- A response with no answers, whose authority section is empty or does not
  start with NS, ends the resolution without any log line.
- Answers with neither A nor CNAME records do not move on to another server.
  The whole candidate list is asked again from its first server, and against a
  server that keeps replying that way the loop never ends
  (`ResolutionFacts.NeitherAnswerNeverEnds`).

## Model

| member | source | states |
|---|---|---|
| `EventLog.StageOf` | d_resolver.py:62 | the stage label is Root exactly at level 0, TLD exactly at level 1, Authoritative at every level from 2 up |
| `EventLog.CompletedMentionsToken` | d_resolver.py:86 | the RESOLUTION_COMPLETE line contains the token the handler looks for |
| `EventLog.Text` | d_resolver.py:56-124 | the text of each trace line, without the timestamp prefix and the timing figures (its properties are stated by `CompletedMentionsToken` and `MarkerLacksToken`) |
| `EventLog.MarkerLacksToken` | d_resolver.py:232-233 | the failure marker does not contain that token |
| `ResolutionSpec.FirstResponder` | d_resolver.py:66-71 | index of the first candidate that answers: all earlier candidates got no reply, and the one at the index did |
| `ResolutionSpec.TryServers` | d_resolver.py:64-71 | between 1 and all candidates are asked, in order; the response is the last asked server's; there is no response only when every candidate failed; the contacted server is the responder, or the first candidate when none answered |
| `ResolutionSpec.FirstDecisive` | d_resolver.py:80-97 | index of the first A or CNAME answer: none before it is either |
| `ResolutionSpec.Resolve` | d_resolver.py:46-131 | a resolution only appends to the trace and the datagrams sent, and the counter grows by exactly the datagrams sent; a RESOLUTION_COMPLETE line is appended only at depth 0 on success, as the last line, naming the queried domain, the address and the final counter |
| `ResolutionSpec.Loop` | d_resolver.py:61-131 | the same guarantees for the main loop from any (name, candidates, level) state |
| `ResolutionSpec.Step` | d_resolver.py:61-78 | one pass keeps the guarantees; a pass that continues has candidates and logs no completion |
| `ResolutionSpec.Respond` | d_resolver.py:80-131 | the same for acting on one response |
| `ResolutionSpec.NsFold` | d_resolver.py:110-120 | resolving the nameservers logs no completion; addresses are only appended, at most one per authority record, and none is empty |
| `ResolutionSpec.Glue` | d_resolver.py:38-44 | the values of the A records of the additional section, in order; never more addresses than records (its properties: `GlueAppend`, `GlueOfOne`, `GlueNonEmpty`, `GlueEmpty`) |
| `Resolution.GlueAddresses` | d_resolver.py:38-44 | returns the A records' values of the additional section in order (`Glue`), non-empty exactly when there is an A record |
| `Resolution.ResolutionContext.constructor` | d_resolver.py:172-173 | a fresh context: counter zero, empty trace, nothing sent |
| `Resolution.ResolutionContext.LogEvent` | d_resolver.py:24-28 | appends exactly one line to the trace |
| `Resolution.ResolutionContext.Contact` | d_resolver.py:64-71 | trying the candidates in place gives `TryServers`'s response and contacted server, adds the servers asked to the counter and one datagram per server asked |
| `Resolution.ResolutionContext.Resolve` | d_resolver.py:46-131 | the imperative resolution's outcome and final counter, trace and datagrams are those of `ResolutionSpec.Resolve` |
| `Resolution.ResolutionContext.Step` | d_resolver.py:61-78 | one pass in place equals `ResolutionSpec.Step` |
| `Resolution.ResolutionContext.Respond` | d_resolver.py:80-131 | acting on a response in place equals `ResolutionSpec.Respond` |
| `Resolution.ResolutionContext.FollowAnswers` | d_resolver.py:80-97 | acting on a response with answers in place equals `ResolutionSpec.Respond`, touching only the trace |
| `Resolution.ResolutionContext.FollowReferral` | d_resolver.py:99-131 | acting on a response without answers in place equals `ResolutionSpec.Respond` |
| `Resolution.ResolutionContext.ResolveNameservers` | d_resolver.py:110-120 | the nested resolutions in place equal `ResolutionSpec.NsFold` |
| `ResolutionFacts.StepCountsServersAsked` | d_resolver.py:66-68 | a pass sends one datagram to each server asked, in order, and counts each |
| `ResolutionFacts.NoResponseFails` | d_resolver.py:75-78 | with no reply from any candidate, every candidate is asked, and the pass ends with NotFound after exactly the FAILED line (first candidate, current stage) and the RESOLUTION_FAILED line |
| `ResolutionFacts.FirstAnswerDecides` | d_resolver.py:81-87 | the first decisive answer being A gives Found with its address, after the ANSWER line and, at depth 0, the completion line with the counter |
| `ResolutionFacts.CnameRestartsAtRoot` | d_resolver.py:89-95 | a deciding CNAME continues with its target, the root server, stage 0, after one CNAME line |
| `ResolutionFacts.NeitherAnswerRepeats` | d_resolver.py:96-97 | answers without A or CNAME leave name, candidates, level and trace unchanged |
| `ResolutionFacts.NeitherAnswerNeverEnds` | d_resolver.py:96-97 | against a server that always replies so, every fuel runs out, the trace is unchanged and the server is counted once per pass |
| `ResolutionFacts.GlueShortCircuits` | d_resolver.py:99-108 | a referral with glue logs one REFERRAL line and continues with the glue addresses one level up, with no nested resolution |
| `ResolutionFacts.GluelessReferralFails` | d_resolver.py:122-125 | when no nameserver resolves, the pass ends NotFound with "NS resolution failed" and RESOLUTION_FAILED as the last two lines |
| `ResolutionFacts.GluelessReferralContinues` | d_resolver.py:110-127 | otherwise it continues with the nameserver addresses, non-empty and at most one per authority record, one level up |
| `ResolutionFacts.UnusableResponseFails` | d_resolver.py:128-131 | no answers and no leading NS record end the pass with NotFound and no log line |
| `ResolutionFacts.NsFoldStep` | d_resolver.py:111-120 | one authority record: its "Resolving NS record" line is logged, its nameserver is resolved one level deeper in the shared context, and the fold goes on with the next record, that resolution's address appended when it is non-empty |
| `ResolutionFacts.NsFoldResolvesEvery` | d_resolver.py:110-120 | the fold does not stop at the first success: unless the fuel runs out, every authority record from the start index on has its "Resolving NS record" line in what the fold logs |
| `ResolutionFacts.FirstResolvedNameserverLeads` | d_resolver.py:110-127 | the candidates follow the authority records' order: when the first nameserver resolves to a non-empty address, that address is the first candidate |
| `ResolutionFacts.GlueAppend` | d_resolver.py:40-43 | the glue of two concatenated sections is the concatenation of their glue |
| `ResolutionFacts.GlueNonEmpty` | d_resolver.py:105-106 | an A record anywhere in the additional section makes the glue non-empty |
| `ResolutionFacts.GlueEmpty` | d_resolver.py:105-106 | without A records the glue is empty |
| `ResolutionFacts.CompletionCountsEveryServer` | d_resolver.py:84-86 | from a fresh context, a top-level success ends with RESOLUTION_COMPLETE naming the query, the address and SERVERS_VISITED equal to all datagrams sent, nested resolutions included |
| `ResolutionFacts.CompletionOnlyOnTopLevelSuccess` | d_resolver.py:84-86 | a nested resolution, or a top-level one without an address, appends no completion line |
| `ResolutionFacts.ResolveFuel` | d_resolver.py:46-131 | more fuel leaves every finished resolution (outcome, trace, counter, datagrams) unchanged |
| `ResolutionFacts.LoopFuel` | d_resolver.py:61-131 | the same for the main loop |
| `ResolutionFacts.StepFuel` | d_resolver.py:61-78 | the same for one pass |
| `ResolutionFacts.StepFuelAnswered` | d_resolver.py:64-80 | the same for a pass in which some candidate answered |
| `ResolutionFacts.RespondFuel` | d_resolver.py:80-131 | the same for acting on a response |
| `ResolutionFacts.NsFoldFuel` | d_resolver.py:110-120 | the same for resolving the nameservers |
| `Dispatch.Admit` | d_resolver.py:177-189 | an attempt is admitted exactly when the flag is clear; the counter grows by one per admission; afterwards the flag is raised exactly when it already was or the new count is a multiple of 75 |
| `Dispatch.ThrottledAdmitsNothing` | d_resolver.py:177-181 | while the flag is raised, no attempt is admitted and the counter does not move |
| `Dispatch.AdmissionsPerWindow` | d_resolver.py:183-189 | from a clear flag, n attempts admit min(n, 75 - count mod 75) queries, never more than 75, before the flag is raised |
| `Dispatch.Reply` | d_resolver.py:210-215 | the reply message: the request's id and question, qr=1 aa=0 ra=1 rcode=0, one A answer with TTL 60 for the question's name (its use is stated by `ReplyEchoesRequest`) |
| `Dispatch.Finalise` | d_resolver.py:232-233 | the lines written: the trace, plus the failure marker when it is empty or its last line does not mention RESOLUTION_COMPLETE (its properties are stated by `FinaliseEndsWithVerdict`) |
| `Dispatch.Block` | d_resolver.py:234 | the text appended to the log file for one query ends with an empty line, i.e. with two newlines |
| `Dispatch.Serve` | d_resolver.py:200-234 | a served query is never left waiting; it writes a non-empty block exactly when it is handled; an undecodable request writes the block of the failure marker alone and gets no reply |
| `Dispatch.BlockLayout` | d_resolver.py:234 | the written block is each line followed by a newline, then one empty line |
| `Dispatch.FinaliseEndsWithVerdict` | d_resolver.py:232-233 | the written lines keep the trace as a prefix and end with a line mentioning RESOLUTION_COMPLETE or with the marker, added once and exactly when it ends them; a trace whose last line mentions the token is written unchanged, and an empty trace or one whose last line lacks the token gets exactly the marker appended |
| `Dispatch.ReplyEchoesRequest` | d_resolver.py:210-215 | a reply is produced exactly for a found, non-empty address, and it carries the request's id and question, qr=1 aa=0 ra=1 rcode=0 and one A answer with TTL 60 for that address; a finished resolution without such an address is handled with no reply |
| `Dispatch.SuccessWrittenUnmarked` | d_resolver.py:230-234 | a successful query's block is its trace unchanged, ending with its completion line |
| `Dispatch.FailureEndsWithoutCompletion` | d_resolver.py:230-234 | a failed query's trace starts with the query line and has no completion line; its block carries the marker unless its last line's text contains the token |
| `Dispatch.Service.constructor` | d_resolver.py:14-21 | the counter is zero, the flag clear, the log file as found |
| `Dispatch.Service.TryAdmit` | d_resolver.py:177-196 | admits exactly when the flag is clear; an admission increments the counter and raises the flag exactly at multiples of 75; otherwise nothing changes |
| `Dispatch.Service.ClearThrottle` | d_resolver.py:190-194 | lowers the flag, leaving the counter |
| `Dispatch.Service.Dispatch` | d_resolver.py:170-234 | a throttled handler changes nothing; an admitted one updates the counter and flag as `Admit`, replies as `Serve` and appends its block to the log |
| `ResolverLogs.ProcessResolverLogs` | d_plot.py:12-52 | the loop's records are those of the fold `Records`; none for a missing file; at most one per query line |
| `ResolverLogs.ScanLine` | d_plot.py:19-43 | one line: the records so far are kept as a prefix and at most one is added, and adding one clears the domain and the collected times |
| `ResolverLogs.Records` | d_plot.py:12-52 | the records of a log file: none for a missing file or when a number does not parse, otherwise those of the scan from the empty state (bounded by `RecordsBounded`) |
| `ResolverLogs.Average` | d_plot.py:33 | the mean of the collected times, 0 when there are none (bounded by `AverageBetween`) |
| `ResolverLogs.QueryLineResets` | d_plot.py:20-24 | a query line sets the domain and clears the times, whatever else it contains |
| `ResolverLogs.RttLineAppends` | d_plot.py:26-29 | a round-trip line appends exactly its time and is not tested for completion |
| `ResolverLogs.CompletionEmits` | d_plot.py:31-43 | a completion for the current domain appends one record from the line's fields and the mean time, then clears the domain and the times |
| `ResolverLogs.OtherCompletionIgnored` | d_plot.py:31-32 | a completion for another domain, or after the domain was cleared, changes nothing |
| `ResolverLogs.RecordsAppendOnly` | d_plot.py:35-43 | records are only appended, so they come out in log order |
| `ResolverLogs.RecordsPerQueryLine` | d_plot.py:19-43 | records plus a pending domain never outnumber the query lines read |
| `ResolverLogs.RecordsBounded` | d_plot.py:12-52 | no records for a missing file; otherwise at most one record per query line |
| `ResolverLogs.AverageBetween` | d_plot.py:33 | the mean round-trip time lies between the smallest and the largest collected |

## Left out

- Sockets, the 5-second timeout and the wire codec: the network is an oracle
  returning decoded messages, or none for a timeout or an undecodable reply.
- Clocks: timestamps, round-trip times, elapsed times and the `ACTIVE_TIME`
  accumulator are not modelled. The text of a trace line (`EventLog.Text`)
  therefore leaves out the timestamp prefix and the timing figures.
- Threads, locks, the 0.1-second wait and the 60-second sleep. Each admission
  is one atomic step, and the delayed clearing of the flag is
  `Dispatch.Service.ClearThrottle`. The source tests the flag and increments the
  counter under two separate acquisitions of the lock, so concurrent handlers
  can pass the test together. That race, and the bound it breaks, are outside
  a sequential model.
- The listener loop, `print` output and the console reports of failures.
- The commented-out earlier version of `dispatch_query`, which has no throttle.
- `Resolution.ResolutionContext.Resolve` and the other resolver members carry
  fuel. A resolution that needs more passes than the fuel gives ends
  `OutOfFuel`, and the query handler then writes nothing (`Unfinished`).
  The source has no such outcome: it would keep running.
- Exceptions raised inside a resolution, for example by `.decode()` on record
  data that is not bytes, are not modelled. Record data is already text.
- The replies to the client are returned as values, not sent.
- Upstream servers whose replies change between queries are not modelled.
  Every query's datagram numbering starts at 0 against the same network
  function, so only changes within one query are visible.
- `Dispatch.Serve` treats an undecodable request as one value, `None`. Which
  decoding step failed is not modelled.
- `ResolverLogs`: the three regular expressions are not modelled. Each line is
  given as what each pattern finds in it, so the order in which the scanner
  tries the patterns is modelled.
  - Other errors than a `float()` failure on a captured number are not
    modelled, such as a file that is not valid UTF-8. Like that failure, they
    would give an empty result.
  - Numbers are exact reals, not binary floating point.
  - The link from the resolver's own line texts to what the patterns find in
    them is not modelled.
- The rest of the repository is not part of this model: the plotting of
  `d_plot.py`, `d_runner.py`, `b.py`, `c.py` and `extract_pcap.py`.
