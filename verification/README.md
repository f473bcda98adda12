# SentinelBrief in Dafny

SentinelBrief ships honeypot sessions to an API, has language models triage them, and shows the
verdicts on a dashboard. This project models the parts where something can go wrong quietly, and
proves what they promise for every input, every run and every interleaving.

`dafny verify dfyconfig.toml` checks everything.

## The shipper

`Lines`, `TailState` and `Tail` model the log tailer: a class over an append-only file that grows
while it is read, in chunks, with a carry-over buffer, a batch cap and over-long lines that are
dropped. The specification is the split of the file into lines. `TailState` holds the invariant as
lemmas over byte sequences; `Tail` holds the methods.

`Sessions`, `Assembling`, `AssemblyTheorems` and `Assembler` model the session assembler. Its
reference is one session on its own, with its whole history and no cap until the end; every
interleaving refines it. `Redelivery` says what makes shipping a session twice harmless.

`Spooling` models the spool, the drain and the back-off. `ShipperSystem` is a step system over the
log, the committed offset, the spool and a process that may crash between any two steps, the two disk
effects of a put included; `RunOnce` shows that an iteration over the real objects is a run of it, and
a restart over what a crash left a boot of it. `Reemission` proves that a session read again after a
crash is spooled byte for byte the same.

## The triage engine

`Conversation` and `Triage` model one triage run: the bounded tool loop, the forced final call, one
retry a tier, and escalation over the shared conversation. The model's reply to each call, the tools'
results and the counter's readings are arbitrary functions of the call number; a pure specification
says which call comes next, and the methods are proved to play it.

`Budget` is a step system of workers that share the daily counter. A check and a record each make
their day's key before they use it, so midnight can fall in between. `Lifecycle` models the alert
table's operations; `LifecycleSystem` interleaves ingest, locked attempts, terminal failed writes and
retriages at the points where one transaction can see another; `LifecycleTheorems` says what holds
over every run.

## The smaller cores

`Alerts` joins the two halves: the stable sort, the connect-first check and the fingerprint, up to
"however often a session is shipped, it is one row with one id". `Cache` proves the bounded cache
against an unbounded ideal map. `Sampler`, `RoundRobin` and `Sampling` model the stratified sample;
`Shares` says what each group gives to the fill, and `SampleSize` when repeated rows can cost a case.
`Relational`, `ReadSide` and `Stats` model the dashboard's queries through the query operators they
are written in. `Scoring` and `Metrics` model the evaluation metrics.

## Where the code does less than its documentation says

- The saved tail offset is exact if and only if no over-long line is being dropped
  (`TailState.RestartIsExactUnlessDropping`). A drop that ended before a line held back does no harm.
- PRD.md:189 says the daily token budget counts every call of a poison alert. A reply that fails
  validation is billed and never recorded, so the counters are the bill if and only if no such reply
  cost anything (`Budget.CountersAreTheBill`, `Budget.InvalidRepliesAreUncounted`). A call cut
  short before its record is not counted either (`Budget.AbortedCallsAreUncounted`).
- The overshoot bound holds of every day's counter, and with the calls in flight of today's only;
  `Budget.PastDaysDoNotCountCallsInFlight` shows why a past day cannot count them.
- `failed` does not mean "no verdict since the last retriage": the terminal write does not look at the
  status again. A run keeps that meaning throughout if and only if no terminal write commits over a
  triaged row (`LifecycleTheorems.FailedMeansNoVerdictUnless`, `LifecycleTheorems.RecheckedRunsKeepIt`,
  `LifecycleTheorems.FailedCanHideAVerdict`).
- For a session logged out of time order, truncation can decide whether the API accepts it
  (`Alerts.TruncationCanHideAnEarlyEvent`); a cap hides the fault if and only if every event stamped
  before the connect was cut out (`Alerts.CapHidesFaultIff`). Its fingerprint is its connect event's if
  and only if no event kept is earlier (`Alerts.ConnectTimeIff`).
- evals/sample.py:131 says injection candidates are capped at a quarter of the target. The cap is on
  the stratum's draw; the remainder may add more (`Sampling.InjectionCapIsExceeded`). The cap holds when
  at most that many are eligible or the floors alone come to the target, and where everything eligible
  fits it holds if and only if at most that many are eligible (`Sampling.Sample`).
- evals/sample.py:77-110 joins on the newest time, so two verdicts of one instant repeat a row, and the
  sample can then hold fewer cases than it has places and cases for (`Sampling.RepeatedRowsFallShort`).
  It cannot when no row repeats a case or the target holds every row, and it is never short by more than
  the repeats (`SampleSize.SizeIsExact`). In between it depends on the groups: the fill is full for every
  shuffle if and only if no group comes to take a second row of a case that another could have had
  (`SampleSize.FillIsFullIff`, `SampleSize.FullSizeIff`), which the rows and the target decide when no
  draw has a choice (`SampleSize.ForcedFullSizeIff`).
- Nothing in the schema makes a call's number unique within its verdict (core/models/tool_calls.py:19 is
  a plain index). The traces are numbered 0, 1, 2 and so on by the pipeline (worker/triage.py:431-448),
  and the read side is proved for tables numbered so (`ReadSide.TraceIsInOrder`).
- evals/scoring.py:268 allows p = 0 for a percentile. The rank index is then -1, which takes the
  maximum (`Metrics.Percentile`).

## Model

| member | source | states |
|---|---|---|
| Lines.JoinSplit | honeypot/shipper/sentinelbrief_shipper/tail.py:214-225 | Splitting a file into its complete lines and its unterminated tail, and joining them again, gives the file back. |
| Lines.SplitJoin | honeypot/shipper/sentinelbrief_shipper/tail.py:214-225 | The other round trip: newline-free lines joined with newlines, then split, are the same lines and tail. |
| Lines.SplitAppend | honeypot/shipper/sentinelbrief_shipper/tail.py:204-214 | How the lines of a file grown by an append follow from the lines before, the tail and the appended bytes. |
| TailState.ChunkRead | honeypot/shipper/sentinelbrief_shipper/tail.py:204-212 | One chunk, through the drop in progress, the buffer and the over-long cut, keeps the tailer's reading invariant for any bytes and any chunk boundary. |
| TailState.Settle | honeypot/shipper/sentinelbrief_shipper/tail.py:214-231 | Splitting off a batch from a full buffer or at end of file settles the call: lines returned, lines held and the saved offset fit the bytes read. |
| TailState.SettledRefines | honeypot/shipper/sentinelbrief_shipper/tail.py:187-232 | After any history of calls, the lines returned followed by the lines held are exactly the complete lines of the bytes read that are within the bound, in order. |
| TailState.SettledFacts | honeypot/shipper/sentinelbrief_shipper/tail.py:203-225 | The buffer never exceeds 5 * batch * chunk bytes, whatever the file and the calls. |
| TailState.RestartIsExactUnlessDropping | honeypot/shipper/sentinelbrief_shipper/tail.py:227-231 | Restarting at the saved offset returns exactly the lines a continued process would, for every future of the file, if and only if no over-long line is being dropped. |
| Tail.LogFile.Read | honeypot/shipper/sentinelbrief_shipper/tail.py:205 | A bounded read of a file that may grow at every read: it returns the next bytes, at most the chunk size, and nothing only at the end. |
| Tail.LogTailer.constructor | honeypot/shipper/sentinelbrief_shipper/tail.py:51-82 | A fresh tailer has read nothing, holds nothing and has nothing to commit. |
| Tail.LogTailer.ReadNewLines | honeypot/shipper/sentinelbrief_shipper/tail.py:84-152 | A call returns at most one batch, follows the open file or opens the path at the saved offset if that still applies and at 0 if not, drains a rotated file before closing it, keeps every line returned over the tailer's life in order, and returns none only at the end of the file or having dropped over-long lines. |
| Tail.LogTailer.DrainRotated | honeypot/shipper/sentinelbrief_shipper/tail.py:123-137 | A rotated file stays open while it holds lines; when it is closed, everything within the bound it held has been returned. |
| Tail.LogTailer.FollowRotation | honeypot/shipper/sentinelbrief_shipper/tail.py:117-151 | Rotation loses no complete line: successive calls return all remaining lines of the old file, in batches within the cap, and then open the new file at byte 0. |
| Tail.LogTailer.CommitOffset | honeypot/shipper/sentinelbrief_shipper/tail.py:154-166 | The state file takes the pending position, or is left alone when there is none. |
| Tail.LogTailer.OpenAtSavedOffset | honeypot/shipper/sentinelbrief_shipper/tail.py:176-185 | The file is opened at the saved offset when that is of this very inode and within the file, and at its first byte otherwise: never seen, replaced, or truncated below the offset. |
| Tail.LogTailer.DrainOpenFile | honeypot/shipper/sentinelbrief_shipper/tail.py:187-232 | One drain returns the next lines within the batch cap and leaves the tailer settled, or at the end of the file with nothing held back. |
| Tail.LogTailer.FillBuffer | honeypot/shipper/sentinelbrief_shipper/tail.py:201-212 | Reading stops at end of file or with a full batch buffered, and keeps the reading invariant. |
| Tail.LogTailer.SkipDroppedLine | honeypot/shipper/sentinelbrief_shipper/tail.py:234-251 | The rest of an over-long line is discarded up to and including its newline, and no further. |
| Tail.LogTailer.DropOversizePartial | honeypot/shipper/sentinelbrief_shipper/tail.py:253-266 | Only an unterminated tail beyond the bound is cut, and every complete line in the buffer stays. |
| Tail.LogTailer.TakeBatch | honeypot/shipper/sentinelbrief_shipper/tail.py:214-232 | The oldest lines within the bound are returned up to the cap, the others stay buffered with the tail, and the offset is where the returned lines end. |
| Tail.LogTailer.KeepWithinBound | honeypot/shipper/sentinelbrief_shipper/tail.py:216-222 | Exactly the lines within the bound are kept, in order, and the dropped bytes are counted. |
| Sessions.KeepGrow | honeypot/shipper/sentinelbrief_shipper/assemble.py:114-122 | Deleting the second-newest event on arrival keeps exactly what truncating the longer list would. |
| Sessions.FitIsWidestThatFits | honeypot/shipper/sentinelbrief_shipper/assemble.py:215-219 | The byte cap settles on the widest width of the halving chain whose envelope fits, or on the last; every wider one is too big. |
| Sessions.HalvedIsHalf | honeypot/shipper/sentinelbrief_shipper/assemble.py:216-216 | A narrowing halves the events kept, and never goes below two. |
| Sessions.FindPut | honeypot/shipper/sentinelbrief_shipper/assemble.py:102-113 | Storing a session under its id changes that key and no other. |
| Sessions.FindRemove | honeypot/shipper/sentinelbrief_shipper/assemble.py:127-127 | Taking a session out forgets that key and no other. |
| Assembling.ExtendSummarizes | honeypot/shipper/sentinelbrief_shipper/assemble.py:102-122 | An open session always equals the summary of its whole uncapped history. |
| Assembling.FlushOne | honeypot/shipper/sentinelbrief_shipper/assemble.py:164-176 | A flush of several sessions does to each named session what flushing it alone would, and nothing to the others. |
| Assembling.StepRefines | honeypot/shipper/sentinelbrief_shipper/assemble.py:81-176 | Each step of the interleaved assembler is, seen from one session, a step of that session's own uncapped reference. |
| Assembling.RunRefines | honeypot/shipper/sentinelbrief_shipper/assemble.py:81-176 | Over any interleaved log and any flushes, the payloads of a session are those of its reference, which keeps the whole history and truncates once. |
| AssemblyTheorems.OwnAreItsLines | honeypot/shipper/sentinelbrief_shipper/assemble.py:92-114 | Of the lines of a log, a session's own are exactly those that parse to its id, each as often as it occurs. |
| AssemblyTheorems.NonInterference | honeypot/shipper/sentinelbrief_shipper/assemble.py:81-176 | The payloads of a session from any interleaved log equal those from its own lines alone, at the same clock readings. |
| AssemblyTheorems.MalformedOnlyCount | honeypot/shipper/sentinelbrief_shipper/assemble.py:93-100 | Leaving out every malformed line changes the parse-error counter by their number and nothing else. |
| AssemblyTheorems.CapOnArrivalIsCapAtEnd | honeypot/shipper/sentinelbrief_shipper/assemble.py:114-122 | The payload of a session capped while open is the payload of the whole list capped at the end. |
| AssemblyTheorems.FitOfCapped | honeypot/shipper/sentinelbrief_shipper/assemble.py:200-219 | Both caps together leave a prefix plus the last event, the first event included, within both caps or down to two events. |
| AssemblyTheorems.ReportsAreShaped | honeypot/shipper/sentinelbrief_shipper/assemble.py:200-227 | Every payload carries the address and sensor of the session's first event, starts with the connect event, ends with the last, counts exactly what it leaves out, and fits or is down to two events. |
| Assembler.SessionAssembler.FeedLine | honeypot/shipper/sentinelbrief_shipper/assemble.py:81-132 | Feeding a line moves the object exactly as the specified step does, with the same payload. |
| Assembler.SessionAssembler.FlushIdle | honeypot/shipper/sentinelbrief_shipper/assemble.py:134-152 | Exactly the sessions idle for at least the timeout are flushed, and none such stays open. |
| Assembler.SessionAssembler.FlushAll | honeypot/shipper/sentinelbrief_shipper/assemble.py:150-162 | The shutdown flush is the specified one, over every open session. |
| Assembler.SessionAssembler.FlushSessions | honeypot/shipper/sentinelbrief_shipper/assemble.py:164-176 | The pop loop ships or drops each named session once, in order. |
| Assembler.SessionAssembler.BuildPayload | honeypot/shipper/sentinelbrief_shipper/assemble.py:178-227 | The halving loop ends and builds the specified payload; the truncation counter rises exactly when events were left out. |
| Redelivery.QuietRunsAreClockFree | honeypot/shipper/sentinelbrief_shipper/assemble.py:81-132 | Without a flush, what is shipped for a session depends on its lines only, never on the clock. |
| Redelivery.ReshipsAreIdentical | honeypot/shipper/sentinelbrief_shipper/main.py:161-164 | Two runs of the assembler over the same lines of a session, at any times and among any others but with no flush touching it, ship identical payloads for it. |
| Redelivery.ConnectIsTracked | honeypot/shipper/sentinelbrief_shipper/assemble.py:105-132 | From its connect on, a session is open from that event or has been reported from it. |
| Redelivery.ClosedIsReported | honeypot/shipper/sentinelbrief_shipper/assemble.py:124-132 | Once its closed line is fed, a session whose first line is its connect has been reported from that event, whatever flushes came before. |
| Spooling.Post | honeypot/shipper/sentinelbrief_shipper/post.py:67-77 | Exactly no answer, the overload statuses and the server faults are retried; an acceptance never is, and the status comes through. |
| Spooling.DrainPartitions | honeypot/shipper/sentinelbrief_shipper/main.py:96-117 | The files a drain dealt with are exactly the accepted and the dead-lettered ones. |
| Spooling.AcceptedAre | honeypot/shipper/sentinelbrief_shipper/main.py:96-117 | A file goes to the accepted ones if and only if a 2xx status answered it, and to the dead letters otherwise. |
| Spooling.DelaysGrowToTheCap | honeypot/shipper/sentinelbrief_shipper/main.py:66-80 | Consecutive back-off delays start at the base, double until they meet the cap, and never shrink or pass it. |
| Spooling.Backoff.Wait | honeypot/shipper/sentinelbrief_shipper/main.py:66-76 | A wait takes the delay of its place in the sequence and moves on to the next. |
| Spooling.Spool.Put | honeypot/shipper/sentinelbrief_shipper/spool.py:34-65 | A put appends the newest file and evicts the oldest one exactly when the spool is full. |
| Spooling.Drain | honeypot/shipper/sentinelbrief_shipper/main.py:83-117 | What is left is a suffix, from the first retryable result on; the rest is accepted or dead-lettered in order, the count is the accepted ones, and the back-off resets on a delivery. |
| ShipperSystem.StepKeepsInv | honeypot/shipper/sentinelbrief_shipper/main.py:149-188 | Every append, boot, crash, read, feed, flush, eviction, spool write, commit and delivery keeps the shipper's invariant. |
| ShipperSystem.CommitKeepsInv | honeypot/shipper/sentinelbrief_shipper/main.py:169-171 | Committing the offset after the spool writes is safe: every session closed before it has been spooled. |
| ShipperSystem.FreshSessionSpooled | honeypot/shipper/sentinelbrief_shipper/main.py:169-182 | A session that closed in what the live process has read, and that it saw from its connect on, is in the spool before the commit. |
| ShipperSystem.RunsKeepInv | honeypot/shipper/sentinelbrief_shipper/main.py:149-188 | The invariant holds over every run. |
| ShipperSystem.AtLeastOnce | honeypot/shipper/sentinelbrief_shipper/main.py:161-164 | Over every run with crashes and restarts anywhere, each session closed before the committed offset, and not cut by a restart, is pending, accepted, dead-lettered or evicted, in a payload that opens with its connect. |
| ShipperSystem.RestartRereadsFromCommitted | honeypot/shipper/sentinelbrief_shipper/tail.py:176-185 | What a restarted process has read and has yet to read are exactly the lines from the committed offset on. |
| ShipperSystem.AnswersSettle | honeypot/shipper/sentinelbrief_shipper/main.py:97-117 | Over every run and through every crash, as many files are accepted as there were success answers, as many dead-lettered as there were refusals, and none is taken back; no other answer settles one. |
| ShipperSystem.SpoolStaysBounded | honeypot/shipper/sentinelbrief_shipper/spool.py:48-65 | Over every run, with a crash between the two disk effects of a put included, the spool never holds more files than its cap. |
| Reemission.FirstReport | honeypot/shipper/sentinelbrief_shipper/assemble.py:124-132 | The first payload for a session whose lines run from its connect to its first close is the report of all its events between. |
| Reemission.PutIsTextRun | honeypot/shipper/sentinelbrief_shipper/main.py:149-182 | With no flush of the session, what a process has spooled for it is a function of the log between its start and its offset. |
| Reemission.ReadWholeIsReported | honeypot/shipper/sentinelbrief_shipper/main.py:169-182 | A process that has read a session from connect to close has spooled the report of the whole session, first of all it spooled for it. |
| Reemission.ReemittedIdentically | honeypot/shipper/sentinelbrief_shipper/main.py:161-164 | In every run, two processes that each read a session whole, before and after any crashes and restarts, spool byte for byte the same payload for it: the report of the whole session. |
| RunOnce.ReadIsStep | honeypot/shipper/sentinelbrief_shipper/tail.py:187-232 | Between two settled states of one open file, the lines returned are the next lines from the old offset, and the new offset is where they end. |
| RunOnce.DrainRuns | honeypot/shipper/sentinelbrief_shipper/main.py:97-117 | A drain is a run of delivery steps. |
| RunOnce.SpoolNewPayloads | honeypot/shipper/sentinelbrief_shipper/main.py:176-182 | Feeding the lines and flushing, with each payload spooled as it appears, is a run of feed, flush, eviction and write steps, after which no session idle at the flush stays open. |
| RunOnce.RunOnce | honeypot/shipper/sentinelbrief_shipper/main.py:149-173 | An iteration over the real tailer, assembler and spool is a run of the crash-prone system that ends with everything read fed, spooled and committed. It makes progress: an empty read has reached the end of the log or dropped over-long lines, no idle session stays open, and the spool is empty or its head met a reply worth another try; the count returned is what was accepted. |
| RunOnce.DeliverPending | honeypot/shipper/sentinelbrief_shipper/main.py:97-117 | A drain is a run of delivery steps that stops at an empty spool or at the first reply worth another try, and counts what was accepted. |
| RunOnce.Restart | honeypot/shipper/sentinelbrief_shipper/main.py:253-266 | Whatever a crash left on the disk, a new tailer and assembler over it stand where a boot of the system puts them, at the committed offset. |
| Conversation.PairedAppend | worker/triage.py:433-448 | Conversations in which every assistant tool turn is answered by its own results, in order, compose. |
| Conversation.PairedTurn | worker/triage.py:433-448 | A turn of k calls followed by the k results with the same ids in order is such a conversation. |
| Conversation.TracedTurn | worker/triage.py:436-448 | One more turn of executed calls keeps the trace numbered from 0 without gaps and matching the results in the conversation. |
| Conversation.EvidenceIsSound | worker/triage.py:431-448 | For every script of replies, the tool turns and results of a run are paired in order, match the trace call by call, and hold no failed reply and no retry request. |
| Conversation.BillIsTheSum | worker/triage.py:96-133 | In input tokens, output tokens, cost and latency alike, what a log is billed is the sum over all its replies that came back, valid or not. |
| Triage.TriageRun.CheckBudget | worker/triage.py:320-334 | A call is blocked exactly when the counter is wired, the budget is not 0, and today's count has reached it. |
| Triage.TriageRun.RecordUsage | worker/triage.py:336-343 | The counter rises by the input and output tokens, or not at all when it is unwired. |
| Triage.TriageRun.Call | worker/triage.py:364-376 | Each call makes the exchange that is due and takes the world's reply to that call number, which no earlier call has had. |
| Triage.TriageRun.RetryOnce | worker/triage.py:364-391 | At most one more call, tool-less, over the failed call's messages with its reply and error; the failed reply stays billed, and conversation and trace are untouched. |
| Triage.TriageRun.Final | worker/triage.py:393-406 | At most two tool-less calls of one model, the first over the messages given, the second only after a failed reply. |
| Triage.TriageRun.RunTools | worker/triage.py:433-448 | A turn appends its calls and then exactly their results in order to the conversation, and one record for each to the trace, whatever the tools answer. |
| Triage.TriageRun.CheapPass | worker/triage.py:408-455 | The cheap pass plays the script: it ends where no cheap call is due or the breaker blocks, with the conversation equal to the prompts, the tool evidence and the closing request where tools ran out. |
| Triage.TriageRun.TakeTurn | worker/triage.py:417-448 | One turn ends the pass, with one retry at most, or leaves one more tool turn and its results. |
| Triage.TriageRun.Run | worker/triage.py:457-497 | For every reply to every call: the log of calls is the one the settings and the replies determine, at most the tool turns plus four; it ends in an answer after which no call is due, or in the failure reported; the counter rises by exactly the input and output tokens of the valid replies; the outcome's tokens, cost and latency are the sums over every reply of both tiers, and conversation and trace are functions of the log. |
| Triage.CallsAreBounded | core/config.py:52-56 | No run makes more than the tool turns plus four calls. |
| Triage.EveryCallWasDue | worker/triage.py:408-455 | Every exchange of a run was the next one due: not blocked by the breaker, and with the model, the tools and the messages of its place. |
| Triage.SharedIsSound | worker/triage.py:433-448 | The shared conversation answers every tool call in order, matches the trace, and holds no failed reply and no retry request. |
| Triage.SharedHoldsNoVerdict | worker/triage.py:482-488 | Past the prompts the shared conversation holds only tool calls, their results and at most one closing request, which is last: no verdict is ever in it. |
| Triage.EverySentListIsPaired | worker/triage.py:364-376 | Every message list sent to either model, retries included, answers each tool turn with exactly its results. |
| Triage.EverySentListHasThePrompts | worker/triage.py:281-318 | Every message list sent to either model begins with the prompts, in order. |
| Triage.StrongFollowsAnswer | worker/triage.py:457-482 | The first strong call comes right after a cheap answer that the routing escalates, without tools and over the shared conversation. |
| Triage.StrongTierIsNotAnchored | worker/triage.py:482-488 | The strong model is first sent the prompts, the tool evidence and at most the closing request: neither the cheap verdict nor a failed reply. |
| Triage.RoutingIsMonotone | worker/routing.py:31-57 | Escalation fires at the severity threshold or strictly below the confidence one, severity names the reason first, and a severer or less certain verdict never escalates less. |
| Budget.UntilNextDay | worker/jobs.py:63-79 | A deferred job wakes exactly at the next midnight, after more than nothing and at most a day. |
| Budget.BudgetCounter.CheckAndWouldExceed | worker/budget.py:20-39 | Blocked exactly when the budget is not 0 and today's count plus the estimate reaches it. |
| Budget.BudgetCounter.RecordTokens | worker/budget.py:42-58 | Today's counter rises by the tokens, every other day's stays, and the new total is returned. |
| Budget.StepKeepsInv | worker/triage.py:320-343 | Every interleaved step of checking, calling, recording, aborting, midnight and key expiry keeps each day's counter plus what calls may still add to it within the overshoot. |
| Budget.RunsKeepInv | worker/budget.py:20-58 | The bound holds over every run. |
| Budget.CountersLast | core/budget.py:18-21 | Whatever the workers do, a counter never falls while its day is one of the last two, so none is lost to expiry on a day that still reads it; expired, it reads zero and the others are as they were. |
| Budget.OvershootIsBounded | worker/budget.py:20-58 | Every day's counter, and today's with a full call for each one in flight, stays at or below budget - 1 + workers * tokens per call. |
| Budget.OvershootIsReached | worker/budget.py:20-58 | For every budget, worker count and call size some run reaches that bound. |
| Budget.PastDaysDoNotCountCallsInFlight | core/budget.py:24-27 | A run in which a past day's counter plus today's calls in flight exceeds the bound: the in-flight form holds of today only. |
| Budget.CountersAreTheBill | worker/triage.py:364-391 | The counters never exceed what was spent, and over uninterrupted runs equal it if and only if no reply that failed validation cost anything. |
| Budget.AbortedCallsAreUncounted | worker/triage.py:399-406 | Some run of any worker cuts a valid call short before its record: what it used is spent, no counter moves, and the worker is free again. |
| Budget.InvalidRepliesAreUncounted | worker/triage.py:399-404 | Some run spends any amount while every counter stays where it was: replies that fail validation are not recorded. |
| Lifecycle.AlertStore.InsertAlert | core/services/alerts.py:30-72 | The first insert of a fingerprint makes one pending row; a later one reports that row's id and current status and changes nothing. |
| Lifecycle.AlertStore.SetAlertStatus | core/services/alerts.py:184-197 | Exactly the named row's status changes, or nothing when there is no such row. |
| Lifecycle.AlertStore.PersistVerdict | worker/store.py:54-88 | The verdict, its bill, both models, its whole trace in order and the triaged status land together, on that row only. |
| Lifecycle.DecideRetry | worker/retry.py:52-79 | Gives up exactly on the last allowed try or past it, comes back after that try's back-off before it, and refuses try numbers below one. |
| Lifecycle.BackoffGrowsToTheCap | worker/retry.py:21-37 | The first retry delay is the base, or the cap if that is less; delays never shrink, double until they meet the cap and stay there. |
| LifecycleSystem.StepKeepsInv | worker/triage.py:541-562 | Every interleaved step of ingest, locked attempts, terminal writes, retriages and aborts keeps the lifecycle invariant. |
| LifecycleSystem.StepKeepsLocks | core/services/alerts.py:94-124 | The lock table and the processes agree after every step: a row is held by one process at most. |
| LifecycleSystem.HolderChanges | core/services/alerts.py:94-100 | A row changed under its lock leaves every other process's assumptions standing. |
| LifecycleSystem.StepKeepsCap | api/routes/admin.py:35-63 | Flips committed and pledged never exceed the retriages let through, which never exceed the cap a day. |
| LifecycleSystem.RunsKeepInv | worker/jobs.py:96-167 | The lifecycle invariant holds over every run. |
| LifecycleTheorems.LifecycleIsSafe | worker/triage.py:517-554 | Over every run: verdicts of an alert are at most its flips plus one when it is not pending, and at most one plus the cap times the days; triaged means a verdict; every queued id is committed; one row per fingerprint; one model run per alert at a time, only while it is pending. |
| LifecycleTheorems.RowsArePermanent | core/services/alerts.py:45-72 | No run removes a row, changes its fingerprint or drops a verdict, and an alert that is no longer pending gains none until a retriage flips it. |
| LifecycleTheorems.ReshippingQueuesThePending | api/routes/alerts.py:127-134 | A session shipped again while its alert is pending gets the job queued and changes nothing else; shipped again later, it changes nothing at all. |
| LifecycleTheorems.MidnightRenewsTheCap | api/routes/admin.py:52-63 | The cap is exact: after any midnight one process can bring as many retriages past it as the cap allows, whatever the day before let through. |
| LifecycleTheorems.RetriageFlips | api/routes/admin.py:115-129 | From every state, a retriage of an unlocked alert turns it pending, with its verdicts kept and the job to be queued next, if the cap allows one more and it is not pending already; otherwise no alert changes. |
| LifecycleTheorems.OnlyARequestRetriages | api/routes/admin.py:115-129 | Over every run in which nobody asks to triage an alert again, it is never flipped, and once it is no longer pending its verdicts stay as they are, whatever other alerts go through. |
| LifecycleTheorems.ReshippingFindsTheSameRow | core/services/alerts.py:45-72 | Whatever happens in between, a known fingerprint names the same row and id. |
| LifecycleTheorems.DeferralsNeverFail | worker/jobs.py:132-144 | With no attempt out of tries for a reason other than the budget, no alert is ever failed, at any try count. |
| LifecycleTheorems.FailedMeansNoVerdictUnless | worker/jobs.py:231-245 | A step keeps "a failed alert has no verdict since it was last retriaged or ingested" if and only if it does not commit failed over a triaged row. |
| LifecycleTheorems.RecheckedRunsKeepIt | worker/jobs.py:231-245 | That property holds throughout a run if and only if no terminal write of the run commits failed over a triaged row, which a second look at the status would prevent. |
| LifecycleTheorems.FailedCanHideAVerdict | worker/jobs.py:231-245 | A run that ends with a failed alert holding a verdict: the terminal write does not look at the status again. |
| Alerts.SortIsStable | core/schemas/alert.py:59-59 | The sort is in timestamp order and keeps the events of each instant as they came. |
| Alerts.StableSortIsUnique | core/schemas/alert.py:59-59 | There is only one such list, so the sort is what any stable sort gives. |
| Alerts.SortOfOrdered | core/schemas/alert.py:59-59 | Events already in order are left as they are. |
| Alerts.AcceptedIff | core/schemas/alert.py:50-62 | A payload is accepted if and only if its earliest event, the first of them on a tie, is a connect. |
| Alerts.FingerprintIsIdentity | core/schemas/alert.py:93-97 | Two alerts share a fingerprint if and only if they share the session id and the connect time, whatever the id contains. |
| Alerts.ReportsAreAccepted | core/schemas/alert.py:50-62 | Whatever the caps cut out, a payload of a session logged in time order is accepted as it stands, under the address and sensor of its connect event, and fingerprinted by its id and connect event. |
| Alerts.ConnectTimeIff | core/schemas/alert.py:64-67 | Out of time order, an accepted payload keeps the connect event's time if and only if no event it kept is earlier. |
| Alerts.CapHidesFaultIff | core/schemas/alert.py:50-62 | A session that connects once, first, is refused whole if and only if some event is stamped before its connect, and its payload is accepted if and only if all such events lie in the part cut out. |
| Alerts.TruncationCanHideAnEarlyEvent | honeypot/shipper/sentinelbrief_shipper/assemble.py:200-203 | A session the API refuses whole and accepts once the event cap has dropped its early event. |
| Alerts.ReshipsShareOneRow | core/schemas/alert.py:93-97 | However often a session is shipped, truncated or not, and whatever the workers do in between, every copy finds the first one's row under the same id. |
| Cache.InMemoryTtlCache.Get | core/cache.py:72-84 | A hit is the value of the latest set for the key and unexpired; an unexpired entry is missed only if it was evicted at capacity. |
| Cache.InMemoryTtlCache.Set | core/cache.py:86-111 | A set lands or is refused for its lifetime; the size never passes the cap, overwriting evicts nothing, and anything still live that goes was rightly evicted. |
| Cache.InMemoryTtlCache.EvictSoonest | core/cache.py:108-110 | An eviction happens only in a full store with nothing expired, and takes an entry of least expiry. |
| Cache.InMemoryTtlCache.Purge | core/cache.py:104-107 | The purge drops every expired entry and no other. |
| Sampler.Draw | evals/sample.py:113-117 | All the members, or that many of them, whichever the generator picks. |
| Sampler.Quota | evals/sample.py:171-183 | A category's floor is the greater of five and an eighth of the target, the injection cap a quarter of it, rounded down. |
| Sampler.DrawnMore | evals/sample.py:171-183 | Drawing one more stratum gives it its quota of what is there and leaves the others' counts alone. |
| Sampler.DrawStrata | evals/sample.py:171-183 | Each category ends with the smaller of its floor and its size, injection with the smaller of its cap and its size, and the total is their sum. |
| Sampling.Clamp | evals/sample.py:185-190 | A selection over the target is cut to exactly the target; any other is left alone. |
| RoundRobin.GroupBy | evals/sample.py:195-199 | The groups are in key order, hold only their own key, and hold every leftover candidate. |
| RoundRobin.TurnFacts | evals/sample.py:204-210 | The running index modulo the groups is the position in the current round. |
| RoundRobin.VisitIsFair | evals/sample.py:203-210 | A visit keeps every group's share at the smaller of its visits and its size. |
| RoundRobin.Fill | evals/sample.py:202-210 | The fill ends with the smaller of the budget and what is left, each group has given the smaller of its visits and its size, for every budget and so at every point, and what is taken is a function of the shuffled groups. |
| Shares.FilledIsFair | evals/sample.py:199-210 | Whatever the shuffle, only a group with nothing left falls two behind another, or one behind a later one. |
| Shares.GivenIff | evals/sample.py:203-210 | A group gives its next candidate if and only if it has one and those ahead of it, counted from the sizes of the groups alone, leave a place. |
| Sampling.Sample | evals/sample.py:120-211 | For rows that may repeat cases: distinct eligible cases, never more than the target or than there are cases, and short of the smaller of the target and the rows by no more than the rows repeat; the fill is a fair part of what the draws left. With distinct case ids exactly the smaller of the target and the eligible, the floors met whenever they fit, no group behind another while it has candidates left, and the injection cap kept when few enough are eligible or the floors alone come to the target; where everything fits, only then. |
| Sampling.InjectionCapIsExceeded | evals/sample.py:180-183 | Three injection candidates and a target of eight: the sample holds all three, over the cap of two. |
| Sampling.RepeatedRowsFallShort | evals/sample.py:77-110 | Two verdicts of one instant repeat an injection candidate: three places, three cases, nothing drawn, and never more than two of the cases in the sample. |
| SampleSize.SizeIsExact | evals/sample.py:202-210 | No sample is short of the smaller of the target and the cases when no row repeats a case or the target holds every row; any other is short by no more than the rows repeat. |
| SampleSize.FillIsFullIff | evals/sample.py:202-210 | For every shuffle the fill has its full size if and only if, with as many cases as places, no group of a repeated case comes to its second turn, and with fewer, every case has a group that gives more than it holds of others. |
| SampleSize.FullSizeIff | evals/sample.py:171-211 | Every sample has its full size if and only if whatever the draws can leave is safe, in that sense, for the places they leave. |
| SampleSize.ForcedFullSizeIff | evals/sample.py:171-211 | Where each stratum is drawn whole or not at all, so that no draw has a choice, that is decided by the rows and the target alone. |
| SampleSize.FloorsInCases | evals/sample.py:171-183 | Where the floors fit, a category falls short of its floor, and the injection draw of its cap, by no more cases than its rows repeat. |
| Relational.DistinctOnFacts | core/services/alerts_read.py:50-55 | On sorted, clustered rows the operator keeps exactly one row per key, and it is the key's least. |
| Relational.JoinConserves | core/services/alerts_read.py:99-114 | A left join on a key unique on the right neither drops nor multiplies a row. |
| Relational.GroupsAddUp | core/services/alerts_read.py:317-328 | The groups of any grouping add up to the whole. |
| ReadSide.LatestIsNewest | core/services/alerts_read.py:186-192 | An alert's latest verdict is its newest, the greater id on a tie, and there is none only when it has none. |
| ReadSide.TraceIsInOrder | core/services/alerts_read.py:199-204 | A verdict's trace is all of its calls in seq order, none twice. |
| ReadSide.LatestVerdictsAgree | core/services/alerts_read.py:43-55 | The list's distinct-on and the detail's order-and-limit pick the same verdict for every alert. |
| ReadSide.CountriesAgree | core/services/alerts_read.py:58-71 | The list's first geo call per verdict is the first geo call of the detail's trace. |
| ReadSide.EachAlertOnce | core/services/alerts_read.py:99-138 | The ordered list holds one row for every alert that passes the filters, and nothing else; an alert without a verdict passes only where no filter asks for one. |
| ReadSide.ListIsRanked | core/services/alerts_read.py:124-132 | Rows with a verdict come first, the severest first, then the newest arrival, then the greater id. |
| ReadSide.PagesPartitionTheList | core/services/alerts_read.py:124-134 | Enough pages, one after the other, are the whole ordered list, whose length every page reports as the total. |
| ReadSide.ListAndDetailAgree | core/services/alerts_read.py:184-222 | For every row of every page the detail is found, with the same alert, verdict and country. |
| ReadSide.DetailIsTheAlert | core/services/alerts_read.py:168-222 | A detail is found if and only if there is such an alert; it holds the alert's newest verdict, all of that verdict's calls in seq order, each as often as stored, none without a verdict, and the country of the first geo call if it is two capitals. |
| Stats.FillCounts | core/services/alerts_read.py:269-278 | Zero-filling and then overwriting from the groups leaves every group's count and a zero for every other label. |
| Stats.GetStats | core/services/alerts_read.py:254-341 | Counts by status, severity, category and day are those of the alerts and of the latest verdicts, every label present; they sum to the alerts and to the alerts with a verdict; a day's cost is that of all verdicts of the alerts that arrived on it, the days add up to the total, and distinct alerts by day are the daily volume, however many verdicts an alert has. |
| Stats.LatestIsTheVerdicted | core/services/alerts_read.py:263-278 | There is one latest verdict for every alert that has any. |
| Stats.SpendIsTheBill | core/services/alerts_read.py:317-328 | Joining every alert with all its verdicts spends every verdict once. |
| Stats.DailyAlertsAreTheVolume | core/services/alerts_read.py:315-322 | Counting distinct alerts over the multiplied rows gives each day its alerts. |
| Scoring.Confusion | evals/scoring.py:145-152 | Each cell counts the cases labelled with its row and predicted with its column, the sixth column being failures. |
| Scoring.PerSeverity | evals/scoring.py:113-129 | Each band's support, precision and recall are those of its labelled, predicted and hit cases, with 0 for an empty denominator. |
| Scoring.BandsAreSums | evals/scoring.py:132-152 | A band's support is its row sum, its predictions the column sum, its hits the diagonal cell. |
| Scoring.RatesAreDiagonals | evals/scoring.py:311-318 | Exact matches are the trace, matches within one the tri-diagonal sum. |
| Scoring.CellsAreTheCases | evals/scoring.py:139-141 | The rows add up to the cases: every case falls into one cell. |
| Scoring.CategoryConfusion | evals/scoring.py:155-178 | Every cell is present, zero or not, and counts its cases. |
| Scoring.CategoryDiagonal | evals/scoring.py:319-320 | Category matches are the diagonal of the category matrix. |
| Metrics.Score | evals/scoring.py:279-340 | One pass gives every tally; the severity rates are the trace and the tri-diagonal of the confusion matrix over the cases. |
| Metrics.HarmonicIsDice | evals/scoring.py:198-199 | The harmonic mean of precision and recall is twice the hits over predictions plus support. |
| Metrics.SevMacroF1 | evals/scoring.py:181-200 | The mean over supported bands lies in [0, 1], and for a non-empty run is 1 if and only if every case is exact. |
| Metrics.Percentile | evals/scoring.py:254-276 | For 0 < p <= 100 the result is a value of the list with 100 * #{v < r} < p * n <= 100 * #{v <= r}; at p = 0 it is the maximum. |
| Metrics.NearestRankIsUnique | evals/scoring.py:254-260 | Those two bounds pin the value down. |

## Left out

- HTTP, Redis, PostgreSQL, the job queue, the file system and the model provider are state with atomic
  steps and arbitrary answers. A Redis failure, which lets calls through, is not a step of the budget
  system: the bound holds while Redis answers.
- Whether every pending alert is eventually triaged: it depends on what the job queue keeps of a
  finished job, which is not part of this model. Jobs may run any number of times here.
- Truncation of the log while it is open, inode reuse, several rotations between two calls, UTF-8
  decoding and log files that cannot be opened for reasons other than being absent: lines are byte
  sequences and a new file has a new inode.
- A crash after a rotation, which loses what was undrained in the old file: the crash-prone system
  follows one log that is never rotated. Sessions open in memory when a process dies are read again
  only from the committed offset on, so one that began before it is not reported from its connect.
- ShipperSystem.AtLeastOnce: speaks of logs whose lines fit the bound only through `RunOnce`, which ties
  the tailer to the system for such logs; the system itself reads every line.
- Redelivery.ReshipsAreIdentical: is about two runs of the assembler given equal lines; that two
  processes of one run read equal lines is `Reemission.ReemittedIdentically`.
- JSON, SHA-256 and HMAC: the parser and the serialized size are arbitrary functions, the hash is any
  injective one, and spool files are named by strictly increasing stamps.
- Floating point: rates, delays and confidences are exact reals, costs are whole millionths of a dollar.
- Randomness in the sampler: every draw is an arbitrary choice of that many members and every shuffle an
  arbitrary permutation, so determinism under a seed is not stated. Sensors are numbered in name order.
  A candidate comes with its stratum; the choice of it (evals/sample.py:67-74) is not modelled.
- Sampling.Sample: states floors and the injection cap for distinct case ids only, floors for repeated ones
  being in `SampleSize.FloorsInCases`; determinism under a seed is not stated.
- SampleSize.FullSizeIff: its condition ranges over what the draws can leave, and takes rows of one case to
  share sensor and day, as rows of one alert do.
- Assembler.SessionAssembler.FeedLine: models an open session as a value stored back in the
  insertion-ordered table, so aliasing between the table and the session object is not captured.
- Tail.LogTailer.ReadNewLines: leaves out the rate-limited warnings, and models a file that vanished
  while open as one whose path names no file.
- Lifecycle.AlertStore.InsertAlert: models the table as one session sees it; the wait of a concurrent
  insert of the same fingerprint is in `LifecycleSystem`.
- Lifecycle.DecideRetry: leaves out the reason string of the decision.
- Budget.BudgetCounter.CheckAndWouldExceed: leaves out the answer when Redis fails, which lets the call
  through.
- Budget.BudgetCounter.RecordTokens: leaves the refreshed expiry to the step system, which has the days.
- LifecycleSystem.StepKeepsCap: takes the day's key and the increment of the retriage counter as one
  step.
- Stats.GetStats: leaves out the mean costs, the latency percentiles, the last alert time and the
  budget flags, which are one expression each.
- Metrics.Score: leaves out the cost, latency, judge and injection aggregates, which are sums and calls
  of the percentile.
- The close time and duration of an alert, the web front end, the command lines, the prompts, logging,
  settings, migrations, the label tools and the event stream.
