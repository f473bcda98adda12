/** One triage run: a bounded tool loop with a forced final call, one retry per tier, and two-tier
    escalation over a shared conversation and running totals. The model, the tools and the budget
    counter are arbitrary: they answer whatever they like. */
module Triage {
  import opened Conversation
  import opened Seqs
  import opened Wrappers

  datatype Reason = BySeverity | ByConfidence | NoReason

  datatype RoutingDecision = RoutingDecision(escalate: bool, reason: Reason)

  function ShouldEscalate(v: Verdict, severityGte: int, confidenceLt: real): RoutingDecision {
    if v.severity >= severityGte then RoutingDecision(true, BySeverity)
    else if v.confidence < confidenceLt then RoutingDecision(true, ByConfidence)
    else RoutingDecision(false, NoReason)
  }

  /** Severity decides the reason even where confidence would too, a confidence at its threshold never
      escalates, and a severer or less certain verdict never escalates less. */
  lemma RoutingIsMonotone(v: Verdict, w: Verdict, severityGte: int, confidenceLt: real)
    ensures var d := ShouldEscalate(v, severityGte, confidenceLt);
      && (d.escalate <==> severityGte <= v.severity || v.confidence < confidenceLt)
      && (d.reason == BySeverity <==> severityGte <= v.severity) && (d.reason == NoReason <==> !d.escalate)
    ensures w.severity >= v.severity && w.confidence <= v.confidence
            && ShouldEscalate(v, severityGte, confidenceLt).escalate ==>
              ShouldEscalate(w, severityGte, confidenceLt).escalate
  {}

  datatype Error = BudgetExceeded | VerdictInvalid | LlmFailed

  datatype Outcome = Outcome(
    verdict: Verdict, model: string, totals: Usage, retried: bool, trace: seq<ToolRecord>,
    modelPrimary: Option<string>, escalated: bool)

  datatype Settings = Settings(
    model: string, strongModel: Option<string>, hasTools: bool, toolLoopMaxIter: nat,
    severityGte: int, confidenceLt: real, redisWired: bool, dailyTokenBudget: nat)
  {
    /** What construction demands. */
    predicate Valid() {
      && (hasTools ==> toolLoopMaxIter >= 1)
      && (strongModel.Some? ==> strongModel.value != model)
    }

    /** The tool turns a run can take. */
    function Turns(): nat { if hasTools then toolLoopMaxIter else 0 }
  }

  /** The world a run meets: what the model replies to each call, were tools offered or not; the day's
      counter as it stands before each call; and the tools' results. All of it is arbitrary. */
  datatype World = World(withTools: nat -> Reply, plain: nat -> PlainReply, tokensToday: nat -> nat, execute: Tools)

  /** Whether the breaker stops the call of this number; unwired or unlimited never blocks. */
  predicate Blocks(s: Settings, w: World, call: nat) {
    s.redisWired && s.dailyTokenBudget != 0 && w.tokensToday(call) >= s.dailyTokenBudget
  }

  // ---- What a run is, as a function of its log. ----

  function Prompts(prompts: seq<string>): seq<Message> {
    seq(|prompts|, i requires 0 <= i < |prompts| => Prompt(prompts[i]))
  }

  /** The shared conversation: the prompts, the tool turns with their results and, once the turns are
      used up, the request for the verdict. */
  function Shared(s: Settings, w: World, prompts: seq<string>, log: seq<Exchange>): seq<Message> {
    Prompts(prompts) + Evidence(log, w.execute) + if Forced(s, log) then [FinalRequest] else []
  }

  predicate Forced(s: Settings, log: seq<Exchange>) {
    s.hasTools && Turns(log) == s.toolLoopMaxIter
  }

  /** What the next call sends: after a failed validation the same messages again with the reply and
      its error, the shared conversation otherwise. */
  function Sends(s: Settings, w: World, prompts: seq<string>, log: seq<Exchange>): seq<Message> {
    if log != [] && log[|log| - 1].reply.Invalid? then
      var last := log[|log| - 1];
      last.sent + [FailedReply(last.reply.raw), RetryRequest(last.reply.error)]
    else Shared(s, w, prompts, log)
  }

  /** Tools are offered only while every reply so far was a tool turn, and turns are left. */
  predicate Offers(s: Settings, log: seq<Exchange>) {
    s.hasTools && |log| < s.toolLoopMaxIter && Turns(log) == |log|
  }

  /** The cheap model until it has answered, the strong one after. */
  predicate Asks(s: Settings, log: seq<Exchange>, model: string) {
    if Answers(log) == 0 then model == s.model else s.strongModel == Some(model)
  }

  /** Whether another call is due: after a tool turn, after one failed validation, and after the cheap
      answer when it escalates. */
  predicate Continues(s: Settings, log: seq<Exchange>) {
    log == [] ||
    match log[|log| - 1].reply
    case ToolTurn(_, _) => true
    case Invalid(_, _, _) => |log| == 1 || !log[|log| - 2].reply.Invalid?
    case Answer(v, _) =>
      Answers(log) == 1 && s.strongModel.Some? && ShouldEscalate(v, s.severityGte, s.confidenceLt).escalate
    case CallFailed => false
  }

  /** `x` is the exchange that comes next: a call that is due and not blocked, with the model, the tools
      and the messages it takes, and the world's reply. */
  ghost predicate Next(s: Settings, w: World, prompts: seq<string>, log: seq<Exchange>, x: Exchange) {
    && Continues(s, log) && !Blocks(s, w, |log|)
    && x.sent == Sends(s, w, prompts, log) && Asks(s, log, x.model) && x.tools == Offers(s, log)
    && x.reply == if x.tools then w.withTools(|log|) else w.plain(|log|)
  }

  /** The log of a run so far. */
  ghost predicate Played(s: Settings, w: World, prompts: seq<string>, log: seq<Exchange>) {
    log == []
    || (Played(s, w, prompts, log[..|log| - 1]) && Next(s, w, prompts, log[..|log| - 1], log[|log| - 1]))
  }

  lemma PlayedPush(s: Settings, w: World, prompts: seq<string>, log: seq<Exchange>, x: Exchange)
    ensures Played(s, w, prompts, log + [x]) <==> Played(s, w, prompts, log) && Next(s, w, prompts, log, x)
  {
    Halves(log, [x]);
  }

  // ---- What every run keeps. ----

  /** Where a run stands: tool turns first, then at most two calls of the cheap model, then at most two
      of the strong one. */
  ghost predicate Stage(s: Settings, log: seq<Exchange>) {
    var rest := |log| - Turns(log);
    && rest >= 0 && Turns(log) <= s.Turns()
    && (rest == 0 ==> Answers(log) == 0)
    && (log == [] || log[|log| - 1].reply.ToolTurn? ==> rest == 0)
    && (Continues(s, log) ==> rest <= 3 && (Answers(log) == 0 ==> rest <= 1))
    && (log != [] && log[|log| - 1].reply.Invalid? && Continues(s, log) && Answers(log) == 0 ==> rest == 1)
    && (log != [] && log[|log| - 1].reply.Answer? && Continues(s, log) ==> rest <= 2)
    && rest <= 4
  }

  lemma StageStep(s: Settings, log: seq<Exchange>, x: Exchange)
    requires s.Valid() && Stage(s, log) && Continues(s, log) && Turns(log) <= |log|
    requires x.reply.ToolTurn? ==> Offers(s, log)
    ensures Stage(s, log + [x])
  {
    CountsPush(log, x);
    hide Turns, Answers, ShouldEscalate;
  }

  lemma {:induction false} RunsAreStaged(s: Settings, w: World, prompts: seq<string>, log: seq<Exchange>)
    requires s.Valid() && Played(s, w, prompts, log)
    ensures Stage(s, log)
    decreases |log|
  {
    if log == [] {
      StageStarts(s);
    } else {
      hide *;
      var front, last := log[..|log| - 1], log[|log| - 1];
      LastWasDue(s, w, prompts, log);
      RunsAreStaged(s, w, prompts, front);
      StagedTurns(s, front);
      StageStep(s, front, last);
      Rejoin(log);
    }
  }

  lemma StageStarts(s: Settings)
    ensures Stage(s, [])
  {}

  lemma LastWasDue(s: Settings, w: World, prompts: seq<string>, log: seq<Exchange>)
    requires Played(s, w, prompts, log) && log != []
    ensures var (front, last) := (log[..|log| - 1], log[|log| - 1]);
      Played(s, w, prompts, front) && Continues(s, front) && (last.reply.ToolTurn? ==> Offers(s, front))
  {
    hide Turns, Answers, Sends, ShouldEscalate, Shared, Continues, Offers;
  }

  lemma StagedTurns(s: Settings, log: seq<Exchange>)
    requires Stage(s, log)
    ensures Turns(log) <= |log|
  {}

  /** At most four calls more than the tool turns, for every reply script. */
  lemma CallsAreBounded(s: Settings, w: World, prompts: seq<string>, log: seq<Exchange>)
    requires s.Valid() && Played(s, w, prompts, log)
    ensures |log| <= s.Turns() + 4
  {
    RunsAreStaged(s, w, prompts, log);
  }

  /** Every exchange of a run was the next one when it was made: the budget was checked, and the model,
      the tools, the messages and the reply were those due. */
  lemma {:induction false} EveryCallWasDue(s: Settings, w: World, prompts: seq<string>, log: seq<Exchange>, k: nat)
    requires Played(s, w, prompts, log) && k < |log|
    ensures Played(s, w, prompts, log[..k]) && Next(s, w, prompts, log[..k], log[k])
    decreases |log|
  {
    hide Next;
    var n := |log| - 1;
    if k < n {
      EveryCallWasDue(s, w, prompts, log[..n], k);
      assert log[..n][..k] == log[..k];
    }
  }

  lemma {:induction false} PromptsArePaired(prompts: seq<string>)
    ensures Paired(Prompts(prompts)) && Clean(Prompts(prompts)) && ResultsIn(Prompts(prompts)) == []
  {
    if prompts != [] {
      var n := |prompts| - 1;
      PromptsArePaired(prompts[..n]);
      var last := Prompt(prompts[n]);
      assert Prompts(prompts) == Prompts(prompts[..n]) + [last];
      PairedOne(last);
      PairedAppend(Prompts(prompts[..n]), [last]);
      ResultsInPush(Prompts(prompts[..n]), last);
    }
  }

  /** The shared conversation answers every tool call with its own result, in order, holds no failed
      reply and no retry request, and its results are those of the trace. */
  lemma SharedIsSound(s: Settings, w: World, prompts: seq<string>, log: seq<Exchange>)
    ensures var messages := Shared(s, w, prompts, log);
      && Paired(messages) && Clean(messages)
      && Traced(Records(Asked(log), w.execute), Asked(log), ResultsIn(messages), w.execute)
  {
    hide Paired, ResultsIn, Evidence, Traced, Prompts, Records, Asked, Turns;
    var start, evidence := Prompts(prompts), Evidence(log, w.execute);
    PromptsArePaired(prompts);
    EvidenceIsSound(log, w.execute);
    PairedAppend(start, evidence);
    ResultsInAppend(start, evidence);
    Empty(ResultsIn(evidence));
    if Forced(s, log) {
      PairedOne(FinalRequest);
      PairedAppend(start + evidence, [FinalRequest]);
      ResultsInPush(start + evidence, FinalRequest);
    } else {
      Empty(start + evidence);
    }
  }

  lemma {:induction false} EvidenceIsToolsOnly(log: seq<Exchange>, execute: Tools)
    ensures forall i :: 0 <= i < |Evidence(log, execute)| ==>
              Evidence(log, execute)[i].ToolCalls? || Evidence(log, execute)[i].ToolResult?
  {
    if log != [] {
      EvidenceIsToolsOnly(log[..|log| - 1], execute);
    }
  }

  /** Nothing the model concluded is in the shared conversation: past the prompts there are only tool
      calls, their results and at most one request for the verdict, which is last. */
  lemma SharedHoldsNoVerdict(s: Settings, w: World, prompts: seq<string>, log: seq<Exchange>, i: nat)
    requires |prompts| <= i < |Shared(s, w, prompts, log)|
    ensures var m := Shared(s, w, prompts, log)[i];
      m.ToolCalls? || m.ToolResult? || (m == FinalRequest && i == |Shared(s, w, prompts, log)| - 1)
  {
    EvidenceIsToolsOnly(log, w.execute);
  }

  /** What each call was sent: after a failed reply, that call's messages, the reply and its error. */
  lemma SentIsDue(s: Settings, w: World, prompts: seq<string>, log: seq<Exchange>, k: nat)
    requires Played(s, w, prompts, log) && k < |log|
    ensures log[k].sent
         == if k > 0 && log[k - 1].reply.Invalid?
            then log[k - 1].sent + [FailedReply(log[k - 1].reply.raw), RetryRequest(log[k - 1].reply.error)]
            else Shared(s, w, prompts, log[..k])
  {
    hide Played, Shared, Continues, Blocks, Asks, Offers;
    EveryCallWasDue(s, w, prompts, log, k);
    assert k > 0 ==> log[..k][k - 1] == log[k - 1];
  }

  lemma RetryIsPaired(raw: string, error: string)
    ensures Paired([FailedReply(raw), RetryRequest(error)])
  {
    PairedOne(FailedReply(raw));
    PairedOne(RetryRequest(error));
    PairedAppend([FailedReply(raw)], [RetryRequest(error)]);
    assert [FailedReply(raw)] + [RetryRequest(error)] == [FailedReply(raw), RetryRequest(error)];
  }

  /** In every message list sent to the model, of either tier and retries included, each tool turn is
      followed by exactly its results. */
  lemma {:induction false} EverySentListIsPaired(s: Settings, w: World, prompts: seq<string>, log: seq<Exchange>,
                                                 k: nat)
    requires Played(s, w, prompts, log) && k < |log|
    ensures Paired(log[k].sent)
    decreases k
  {
    hide *;
    SentIsDue(s, w, prompts, log, k);
    if k > 0 && log[k - 1].reply.Invalid? {
      EverySentListIsPaired(s, w, prompts, log, k - 1);
      RetryIsPaired(log[k - 1].reply.raw, log[k - 1].reply.error);
      PairedAppend(log[k - 1].sent, [FailedReply(log[k - 1].reply.raw), RetryRequest(log[k - 1].reply.error)]);
    } else {
      SharedIsSound(s, w, prompts, log[..k]);
    }
  }

  /** Every list sent to either model begins with the prompts, in order. */
  lemma {:induction false} EverySentListHasThePrompts(s: Settings, w: World, prompts: seq<string>, log: seq<Exchange>,
                                                      k: nat, i: nat)
    requires Played(s, w, prompts, log) && k < |log| && i < |prompts|
    ensures i < |log[k].sent| && log[k].sent[i] == Message.Prompt(prompts[i])
    decreases k
  {
    hide *;
    SentIsDue(s, w, prompts, log, k);
    if k > 0 && log[k - 1].reply.Invalid? {
      EverySentListHasThePrompts(s, w, prompts, log, k - 1, i);
    } else {
      SharedHasThePrompts(s, w, prompts, log[..k], i);
    }
  }

  lemma SharedHasThePrompts(s: Settings, w: World, prompts: seq<string>, log: seq<Exchange>, i: nat)
    requires i < |prompts|
    ensures i < |Shared(s, w, prompts, log)| && Shared(s, w, prompts, log)[i] == Message.Prompt(prompts[i])
  {}

  /** The first call of the strong model comes right after a cheap answer the routing escalates. */
  lemma StrongFollowsAnswer(s: Settings, w: World, prompts: seq<string>, log: seq<Exchange>, k: nat)
    requires s.Valid() && Played(s, w, prompts, log) && k < |log| && log[k].model != s.model
    requires k == 0 || log[k - 1].model == s.model
    ensures k > 0 && log[k - 1].reply.Answer?
    ensures ShouldEscalate(log[k - 1].reply.verdict, s.severityGte, s.confidenceLt).escalate
    ensures s.strongModel == Some(log[k].model) && !log[k].tools && log[k].sent == Shared(s, w, prompts, log[..k])
  {
    hide Shared, ShouldEscalate, Turns, Answers, Played;
    EveryCallWasDue(s, w, prompts, log, k);
    var front := log[..k];
    NoAnswersYet();
    if k > 0 {
      EveryCallWasDue(s, w, prompts, log, k - 1);
      assert front[..k - 1] == log[..k - 1] && front[k - 1] == log[k - 1];
      assert log[..k - 1] + [log[k - 1]] == front;
      CountsPush(log[..k - 1], log[k - 1]);
      RunsAreStaged(s, w, prompts, front);
    }
  }

  lemma NoAnswersYet()
    ensures Answers([]) == 0
  {}

  /** The strong model first sees the cheap conversation as it stands, with neither the cheap verdict nor
      a failed reply in it: past the prompts only tool calls, their results and the closing request. */
  lemma StrongTierIsNotAnchored(s: Settings, w: World, prompts: seq<string>, log: seq<Exchange>, k: nat)
    requires s.Valid() && Played(s, w, prompts, log) && k < |log| && log[k].model != s.model
    requires k == 0 || log[k - 1].model == s.model
    ensures Clean(log[k].sent) && |prompts| <= |log[k].sent| && log[k].sent[..|prompts|] == Prompts(prompts)
    ensures forall i :: |prompts| <= i < |log[k].sent| ==>
              log[k].sent[i].ToolCalls? || log[k].sent[i].ToolResult?
                || (log[k].sent[i].FinalRequest? && i == |log[k].sent| - 1)
  {
    StrongFollowsAnswer(s, w, prompts, log, k);
    SharedIsSound(s, w, prompts, log[..k]);
    SharedStartsWithPrompts(s, w, prompts, log[..k]);
    hide *;
    forall i | |prompts| <= i < |log[k].sent|
      ensures log[k].sent[i].ToolCalls? || log[k].sent[i].ToolResult?
              || (log[k].sent[i].FinalRequest? && i == |log[k].sent| - 1)
    {
      SharedHoldsNoVerdict(s, w, prompts, log[..k], i);
    }
  }

  lemma SharedStartsWithPrompts(s: Settings, w: World, prompts: seq<string>, log: seq<Exchange>)
    ensures |prompts| <= |Shared(s, w, prompts, log)| && Shared(s, w, prompts, log)[..|prompts|] == Prompts(prompts)
  {}

  lemma {:induction false} TurnsAreCalls(log: seq<Exchange>)
    ensures Turns(log) <= |log|
  {
    if log != [] {
      TurnsAreCalls(log[..|log| - 1]);
    }
  }

  lemma OnlyTurns(log: seq<Exchange>)
    requires Turns(log) == |log|
    ensures log != [] ==> log[|log| - 1].reply.ToolTurn?
  {
    if log != [] {
      TurnsAreCalls(log[..|log| - 1]);
    }
  }

  lemma UnforcedShared(s: Settings, w: World, prompts: seq<string>, log: seq<Exchange>)
    ensures Shared(s, w, prompts, log)
         == if Forced(s, log) then (Prompts(prompts) + Evidence(log, w.execute)) + [FinalRequest]
            else Prompts(prompts) + Evidence(log, w.execute)
  {
    Empty(Prompts(prompts) + Evidence(log, w.execute));
  }

  /** While tools are on offer, a call over the conversation as it stands is due. */
  lemma ToolCallIsDue(s: Settings, w: World, prompts: seq<string>, log: seq<Exchange>)
    requires Offers(s, log)
    ensures Continues(s, log) && Sends(s, w, prompts, log) == Prompts(prompts) + Evidence(log, w.execute)
    ensures !Forced(s, log)
  {
    OnlyTurns(log);
    UnforcedShared(s, w, prompts, log);
  }

  lemma AfterToolCall(s: Settings, log: seq<Exchange>, x: Exchange)
    requires Offers(s, log)
    ensures x.reply.Invalid? ==> Continues(s, log + [x]) && !Offers(s, log + [x])
    ensures x.reply.ToolTurn? ==> Continues(s, log + [x]) && Turns(log + [x]) == |log| + 1
  {
    OnlyTurns(log);
    CountsPush(log, x);
    hide Turns;
  }

  lemma SharedDependsOnTools(s: Settings, w: World, prompts: seq<string>, a: seq<Exchange>, b: seq<Exchange>)
    requires Evidence(a, w.execute) == Evidence(b, w.execute) && Turns(a) == Turns(b)
    ensures Shared(s, w, prompts, a) == Shared(s, w, prompts, b)
  {}

  // ---- The pipeline. ----

  /** How a tier may end: with its last reply's verdict and the whole bill, or with the error that its
      last reply, or the breaker, calls for. */
  ghost predicate Ends(s: Settings, w: World, log: seq<Exchange>, records: seq<ToolRecord>, r: Result<Outcome, Error>) {
    match r
    case Success(o) =>
      && log != [] && log[|log| - 1].reply.Answer?
      && o.verdict == log[|log| - 1].reply.verdict && o.model == log[|log| - 1].model
      && o.totals == Billed(log) && o.trace == records
    case Failure(BudgetExceeded) => Continues(s, log) && Blocks(s, w, |log|)
    case Failure(LlmFailed) => log != [] && log[|log| - 1].reply.CallFailed?
    case Failure(VerdictInvalid) => |log| >= 2 && log[|log| - 1].reply.Invalid? && log[|log| - 2].reply.Invalid?
  }

  /** The books after every exchange, whatever its outcome: the call count, what went to the day's
      counter, and the log itself. */
  ghost predicate Audited(s: Settings, w: World, prompts: seq<string>, log: seq<Exchange>, calls: nat, recorded: nat) {
    && s.Valid() && calls == |log| && Played(s, w, prompts, log)
    && recorded == if s.redisWired then Counted(log) else 0
  }

  /** The trace, and the conversation up to the request for the verdict, are those of the log. */
  ghost predicate InStep(w: World, prompts: seq<string>, log: seq<Exchange>, records: seq<ToolRecord>,
                         messages: seq<Message>) {
    records == Records(Asked(log), w.execute) && messages == Prompts(prompts) + Evidence(log, w.execute)
  }

  /** From one log to the next without a tool turn in between. */
  ghost predicate SameEvidence(w: World, before: seq<Exchange>, log: seq<Exchange>) {
    && before <= log && Asked(log) == Asked(before) && Evidence(log, w.execute) == Evidence(before, w.execute)
    && Turns(log) == Turns(before)
  }

  function ToCounter(s: Settings, reply: Reply): nat {
    if s.redisWired && (reply.ToolTurn? || reply.Answer?) then reply.usage.input + reply.usage.output else 0
  }

  lemma AuditPush(s: Settings, w: World, prompts: seq<string>, log: seq<Exchange>, calls: nat, recorded: nat,
                  x: Exchange)
    requires Audited(s, w, prompts, log, calls, recorded) && Next(s, w, prompts, log, x)
    ensures Audited(s, w, prompts, log + [x], calls + 1, recorded + ToCounter(s, x.reply))
    ensures Billed(log + [x]) == Billed(log).Plus(Cost(x.reply))
    ensures Answers(log + [x]) == Answers(log) + if x.reply.Answer? then 1 else 0
    ensures Invalids(log + [x]) == Invalids(log) + if x.reply.Invalid? then 1 else 0
  {
    PlayedPush(s, w, prompts, log, x);
    LogPush(log, x);
    CountsPush(log, x);
    hide Played, Next, Billed, Counted, Answers, Invalids, Turns, Asked;
  }

  lemma SamePush(w: World, before: seq<Exchange>, log: seq<Exchange>, x: Exchange)
    requires SameEvidence(w, before, log) && !x.reply.ToolTurn?
    ensures SameEvidence(w, before, log + [x])
  {
    LogPush(log, x);
    CountsPush(log, x);
    EvidencePush(log, x, w.execute);
    hide Billed, Counted, Answers, Invalids, Turns, Asked, Evidence;
    Empty(Asked(log));
    Empty(Evidence(log, w.execute));
  }

  lemma SameInStep(w: World, prompts: seq<string>, before: seq<Exchange>, log: seq<Exchange>,
                   records: seq<ToolRecord>, messages: seq<Message>)
    requires SameEvidence(w, before, log) && InStep(w, prompts, before, records, messages)
    ensures InStep(w, prompts, log, records, messages)
  {}

  lemma TurnInStep(w: World, prompts: seq<string>, log: seq<Exchange>, records: seq<ToolRecord>,
                   messages: seq<Message>, x: Exchange)
    requires InStep(w, prompts, log, records, messages) && x.reply.ToolTurn?
    ensures InStep(w, prompts, log + [x], Records(Asked(log) + x.reply.calls, w.execute),
                   messages + ([ToolCalls(x.reply.calls)] + Results(x.reply.calls, |Asked(log)|, w.execute)))
  {
    LogPush(log, x);
    EvidencePush(log, x, w.execute);
    hide Billed, Counted, Asked, Evidence, Records, Results, Prompts;
    Assoc(Prompts(prompts), Evidence(log, w.execute),
          [ToolCalls(x.reply.calls)] + Results(x.reply.calls, |Asked(log)|, w.execute));
  }

  /** A log of tool turns and nothing else. */
  ghost predicate OnlyToolTurns(log: seq<Exchange>) {
    && Turns(log) == |log| && Answers(log) == 0 && Invalids(log) == 0
    && (log != [] ==> log[|log| - 1].reply.ToolTurn?)
  }

  lemma OnlyToolTurnsPush(log: seq<Exchange>, x: Exchange)
    requires OnlyToolTurns(log) && x.reply.ToolTurn?
    ensures OnlyToolTurns(log + [x])
  {
    CountsPush(log, x);
    hide Turns, Answers, Invalids;
  }

  /** Right after a tool-offering call: the log has the exchange, the books do not yet. */
  ghost predicate Unbooked(s: Settings, w: World, prompts: seq<string>, before: seq<Exchange>, log: seq<Exchange>,
                           calls: nat, recorded: nat, messages: seq<Message>, reply: Reply) {
    var x := Exchange(messages, s.model, true, reply);
    && log == before + [x] && calls == |before| + 1 && OnlyToolTurns(before) && Offers(s, before)
    && Audited(s, w, prompts, before, |before|, recorded) && Next(s, w, prompts, before, x)
  }

  /** How the cheap tier ends from a log of tool turns. */
  ghost predicate CheapEnd(s: Settings, w: World, before: seq<Exchange>, log: seq<Exchange>, records: seq<ToolRecord>,
                           r: Result<Outcome, Error>) {
    && Ends(s, w, log, records, r) && SameEvidence(w, before, log)
    && Answers(log) == (if r.Success? then 1 else 0)
    && (r.Success? ==>
          && r.value == Outcome(r.value.verdict, s.model, r.value.totals, r.value.retried, records, None, false)
          && |log| > |before| && Invalids(log) == if r.value.retried then 1 else 0)
  }

  /** The books once a reply that is no tool turn has been counted. */
  lemma LastTurn(s: Settings, w: World, prompts: seq<string>, before: seq<Exchange>, log: seq<Exchange>, calls: nat,
                 recorded: nat, messages: seq<Message>, reply: Reply, records: seq<ToolRecord>)
    requires Unbooked(s, w, prompts, before, log, calls, recorded, messages, reply) && !reply.ToolTurn?
    requires InStep(w, prompts, before, records, messages)
    ensures log == before + [Exchange(messages, s.model, true, reply)] && calls == |log|
    ensures Audited(s, w, prompts, log, calls, recorded + ToCounter(s, reply))
    ensures SameEvidence(w, before, log) && InStep(w, prompts, log, records, messages)
    ensures Billed(log) == Billed(before).Plus(Cost(reply))
    ensures Answers(log) == (if reply.Answer? then 1 else 0) && Invalids(log) == if reply.Invalid? then 1 else 0
    ensures reply.Invalid? ==> Continues(s, log) && !Offers(s, log) && Asks(s, log, s.model)
  {
    hide Audited, InStep, SameEvidence, Billed, Turns, Answers, Invalids, Next, Offers, Continues, Sends, Played;
    var x := Exchange(messages, s.model, true, reply);
    NoAnswersIn(before);
    AuditPush(s, w, prompts, before, |before|, recorded, x);
    SameStart(w, before);
    SamePush(w, before, before, x);
    SameInStep(w, prompts, before, log, records, messages);
    AfterToolCall(s, before, x);
  }

  lemma NoAnswersIn(log: seq<Exchange>)
    requires OnlyToolTurns(log)
    ensures Answers(log) == 0 && Invalids(log) == 0
  {}

  lemma BlockedEnd(s: Settings, w: World, log: seq<Exchange>, records: seq<ToolRecord>)
    requires OnlyToolTurns(log) && Continues(s, log) && Blocks(s, w, |log|)
    ensures CheapEnd(s, w, log, log, records, Failure(BudgetExceeded))
  {}

  lemma SameStart(w: World, log: seq<Exchange>)
    ensures SameEvidence(w, log, log)
  {}

  lemma NoToolsYet(before: seq<Call>, calls: seq<Call>, execute: Tools)
    ensures before + calls[..0] == before && Results(calls[..0], |before|, execute) == []
    ensures [ToolCalls(calls)] + Results(calls[..0], |before|, execute) == [ToolCalls(calls)]
  {}

  lemma OneMoreTool(before: seq<Call>, calls: seq<Call>, i: nat, execute: Tools)
    requires i < |calls|
    ensures var n := |Records(before + calls[..i], execute)|;
      && n == |before| + i
      && Results(calls[..i + 1], |before|, execute)
         == Results(calls[..i], |before|, execute) + [ToolResult(calls[i].id, execute(n, calls[i]))]
      && Records(before + calls[..i + 1], execute)
         == Records(before + calls[..i], execute)
           + [ToolRecord(n, calls[i].name, calls[i].arguments, execute(n, calls[i]))]
  {}

  lemma SameTwice(w: World, a: seq<Exchange>, b: seq<Exchange>, c: seq<Exchange>)
    requires SameEvidence(w, a, b) && SameEvidence(w, b, c)
    ensures SameEvidence(w, a, c)
  {}

  /** Once a reply was no tool turn, tools are off the table. */
  lemma NoMoreTools(s: Settings, log: seq<Exchange>, x: Exchange)
    requires !x.reply.ToolTurn?
    ensures !Offers(s, log + [x])
  {
    CountsPush(log, x);
    TurnsAreCalls(log);
  }

  /** After one failed reply the same tier is asked once more. */
  lemma RetryIsDue(s: Settings, log: seq<Exchange>, x: Exchange, model: string)
    requires x.reply.Invalid? && Asks(s, log, model) && (log == [] || !log[|log| - 1].reply.Invalid?)
    ensures Continues(s, log + [x]) && Asks(s, log + [x], model)
  {
    CountsPush(log, x);
    hide Answers, Invalids, Turns;
  }

  /** How the cheap tier ends, and the conversation it leaves. */
  ghost predicate CheapResult(s: Settings, w: World, prompts: seq<string>, log: seq<Exchange>, records: seq<ToolRecord>,
                              messages: seq<Message>, r: Result<Outcome, Error>) {
    && Ends(s, w, log, records, r) && Answers(log) == (if r.Success? then 1 else 0)
    && records == Records(Asked(log), w.execute) && messages == Shared(s, w, prompts, log)
    && (r.Success? ==>
          && r.value == Outcome(r.value.verdict, s.model, r.value.totals, r.value.retried, records, None, false)
          && !Offers(s, log) && Invalids(log) == if r.value.retried then 1 else 0)
  }

  lemma EndsEarly(s: Settings, w: World, prompts: seq<string>, before: seq<Exchange>, log: seq<Exchange>,
                  records: seq<ToolRecord>, messages: seq<Message>, r: Result<Outcome, Error>)
    requires CheapEnd(s, w, before, log, records, r) && InStep(w, prompts, log, records, messages)
    requires OnlyToolTurns(before) && Offers(s, before)
    ensures CheapResult(s, w, prompts, log, records, messages, r)
  {
    UnforcedShared(s, w, prompts, log);
    hide Turns, Answers, Invalids, Evidence, Asked, Records, Shared, Ends, Prompts;
  }

  lemma EndsLate(s: Settings, w: World, prompts: seq<string>, before: seq<Exchange>, log: seq<Exchange>,
                 records: seq<ToolRecord>, messages: seq<Message>, r: Result<Outcome, Error>)
    requires CheapEnd(s, w, before, log, records, r) && OnlyToolTurns(before)
    requires records == Records(Asked(before), w.execute) && messages == Shared(s, w, prompts, before)
    ensures CheapResult(s, w, prompts, log, records, messages, r)
  {
    SharedDependsOnTools(s, w, prompts, before, log);
    hide Turns, Answers, Invalids, Evidence, Asked, Records, Shared, Ends, Prompts;
  }

  lemma FinalIsDue(s: Settings, w: World, prompts: seq<string>, log: seq<Exchange>, messages: seq<Message>)
    requires OnlyToolTurns(log) && |log| == s.Turns() && messages == Prompts(prompts) + Evidence(log, w.execute)
    ensures Continues(s, log) && !Offers(s, log) && Asks(s, log, s.model)
    ensures Sends(s, w, prompts, log) == Shared(s, w, prompts, log)
    ensures Shared(s, w, prompts, log) == if s.hasTools then messages + [FinalRequest] else messages
  {
    UnforcedShared(s, w, prompts, log);
    hide Turns, Evidence, Shared, Prompts;
  }

  /** What a whole run leaves behind. */
  ghost predicate Finished(s: Settings, w: World, prompts: seq<string>, log: seq<Exchange>, records: seq<ToolRecord>,
                           messages: seq<Message>, r: Result<Outcome, Error>) {
    && Ends(s, w, log, records, r) && (r.Success? ==> !Continues(s, log))
    && records == Records(Asked(log), w.execute) && messages == Shared(s, w, prompts, log)
    && (r.Success? ==>
          && (r.value.escalated <==> Answers(log) == 2) && (r.value.retried <==> Invalids(log) > 0)
          && r.value.modelPrimary == if r.value.escalated then Some(s.model) else None)
  }

  /** The outcome bills every reply of both tiers, and no other. */
  lemma OutcomeBillsAll(s: Settings, w: World, prompts: seq<string>, log: seq<Exchange>, records: seq<ToolRecord>,
                        messages: seq<Message>, r: Result<Outcome, Error>)
    requires Finished(s, w, prompts, log, records, messages, r)
    ensures r.Success? ==> BilledInFull(log, r.value.totals)
  {
    BillIsTheSum(log);
    hide Billed, SumOver;
  }

  lemma CheapIsFinal(s: Settings, w: World, prompts: seq<string>, log: seq<Exchange>, records: seq<ToolRecord>,
                     messages: seq<Message>, r: Result<Outcome, Error>)
    requires CheapResult(s, w, prompts, log, records, messages, r)
    requires r.Success? && s.strongModel.Some?
            ==> !ShouldEscalate(r.value.verdict, s.severityGte, s.confidenceLt).escalate
    ensures Finished(s, w, prompts, log, records, messages, r)
  {
    hide Answers, Invalids, Asked, Records, Shared, Turns, ShouldEscalate, Billed;
  }

  lemma StrongIsDue(s: Settings, w: World, prompts: seq<string>, log: seq<Exchange>, records: seq<ToolRecord>,
                    messages: seq<Message>, r: Result<Outcome, Error>)
    requires CheapResult(s, w, prompts, log, records, messages, r) && r.Success? && s.strongModel.Some?
    requires ShouldEscalate(r.value.verdict, s.severityGte, s.confidenceLt).escalate
    ensures Continues(s, log) && !Offers(s, log) && Asks(s, log, s.strongModel.value)
    ensures messages == Sends(s, w, prompts, log) && r.value.totals == Billed(log) && !log[|log| - 1].reply.Invalid?
  {
    hide Answers, Invalids, Asked, Records, Shared, Turns, ShouldEscalate, Billed;
  }

  lemma StrongIsFinal(s: Settings, w: World, prompts: seq<string>, before: seq<Exchange>, cheap: Outcome,
                      log: seq<Exchange>, records: seq<ToolRecord>, messages: seq<Message>, r: Result<Outcome, Error>)
    requires CheapResult(s, w, prompts, before, records, messages, Success(cheap)) && s.strongModel.Some?
    requires SameEvidence(w, before, log) && Ends(s, w, log, records, r)
    requires Answers(log) == Answers(before) + if r.Success? then 1 else 0
    requires r.Success? ==>
               r.value.trace == records && Invalids(log) == Invalids(before) + if r.value.retried then 1 else 0
    ensures Finished(s, w, prompts, log, records, messages,
                     if r.Failure? then r
                     else Success(r.value.(modelPrimary := Some(s.model), escalated := true,
                                           retried := cheap.retried || r.value.retried, trace := cheap.trace)))
  {
    SharedDependsOnTools(s, w, prompts, before, log);
    hide Answers, Invalids, Asked, Records, Shared, Turns, ShouldEscalate, Billed, Evidence;
  }

  lemma OffersWhile(s: Settings, log: seq<Exchange>)
    requires OnlyToolTurns(log) && s.hasTools && |log| < s.toolLoopMaxIter
    ensures Offers(s, log)
  {}

  lemma NothingFailed(log: seq<Exchange>)
    requires OnlyToolTurns(log)
    ensures log == [] || !log[|log| - 1].reply.Invalid?
    ensures Answers(log) == 0 && Invalids(log) == 0
  {}

  lemma LateEnd(s: Settings, w: World, before: seq<Exchange>, log: seq<Exchange>, records: seq<ToolRecord>,
                r: Result<Outcome, Error>)
    requires OnlyToolTurns(before) && Ends(s, w, log, records, r) && SameEvidence(w, before, log)
    requires Answers(log) == Answers(before) + if r.Success? then 1 else 0
    requires r.Success? ==>
               && r.value == Outcome(r.value.verdict, s.model, r.value.totals, r.value.retried, records, None, false)
               && |log| > |before| && Invalids(log) == Invalids(before) + if r.value.retried then 1 else 0
    ensures CheapEnd(s, w, before, log, records, r)
  {}

  class TriageRun {
    const settings: Settings
    const world: World
    const prompts: seq<string>
    var messages: seq<Message>
    var records: seq<ToolRecord>
    var totals: Usage
    var recorded: nat          // what this run added to the day's counter
    var calls: nat
    ghost var log: seq<Exchange>

    constructor (settings: Settings, world: World, prompts: seq<string>)
      requires settings.Valid()
      ensures Audited(settings, world, prompts, log, calls, recorded) && InStep(world, prompts, log, records, messages)
      ensures totals == NOTHING && log == []
      ensures this.settings == settings && this.world == world && this.prompts == prompts
    {
      this.settings, this.world, this.prompts := settings, world, prompts;
      messages := Prompts(prompts);
      records, totals, recorded, calls, log := [], NOTHING, 0, 0, [];
      new;
      Empty(Prompts(prompts));
    }

    /** Whether the day's counter already meets the budget, before the call that comes next. */
    method CheckBudget() returns (blocked: bool)
      ensures blocked <==> settings.redisWired && settings.dailyTokenBudget != 0
                           && world.tokensToday(calls) >= settings.dailyTokenBudget
      ensures blocked <==> Blocks(settings, world, calls)
    {
      if !settings.redisWired || settings.dailyTokenBudget == 0 {
        return false;
      }
      blocked := world.tokensToday(calls) >= settings.dailyTokenBudget;
    }

    method RecordUsage(u: Usage)
      modifies this`recorded
      ensures recorded == old(recorded) + if settings.redisWired then u.input + u.output else 0
    {
      if settings.redisWired {
        recorded := recorded + u.Tokens();
      }
    }

    /** One call to the model: its reply is the world's to this call number. */
    method Call(msgs: seq<Message>, model: string, tools: bool) returns (reply: Reply)
      requires calls == |log| && Continues(settings, log) && !Blocks(settings, world, calls)
      requires msgs == Sends(settings, world, prompts, log)
      requires Asks(settings, log, model) && tools == Offers(settings, log)
      modifies this`log, this`calls
      ensures calls == old(calls) + 1 && log == old(log) + [Exchange(msgs, model, tools, reply)]
      ensures reply == if tools then world.withTools(old(calls)) else world.plain(old(calls))
      ensures Next(settings, world, prompts, old(log), Exchange(msgs, model, tools, reply))
              && (reply.ToolTurn? ==> tools)
    {
      if tools {
        reply := world.withTools(calls);
      } else {
        reply := world.plain(calls);
      }
      log := log + [Exchange(msgs, model, tools, reply)];
      calls := calls + 1;
    }

    /** The outcome of a validated reply: its own usage on top of the running totals. */
    function MakeOutcome(result: Reply, model: string, retried: bool): Outcome
      requires result.Answer?
      reads this
    {
      Outcome(result.verdict, model, totals.Plus(result.usage), retried, records, None, false)
    }

    /** The one retry: tool-less, over the same messages with the failed reply and its error. */
    method RetryOnce(msgs: seq<Message>, first: Reply, model: string, ghost tools: bool)
      returns (r: Result<Outcome, Error>)
      requires Audited(settings, world, prompts, log, calls, recorded)
      requires log != [] && log[|log| - 1] == Exchange(msgs, model, tools, first) && first.Invalid?
      requires Continues(settings, log) && !Offers(settings, log) && Asks(settings, log, model)
      requires totals.Plus(first.usage) == Billed(log)
      modifies this
      ensures Audited(settings, world, prompts, log, calls, recorded) && SameEvidence(world, old(log), log)
      ensures messages == old(messages) && records == old(records) && |log| <= old(|log|) + 1
      ensures Ends(settings, world, log, records, r) && Answers(log) == old(Answers(log)) + if r.Success? then 1 else 0
      ensures r.Success? ==>
                && r.value == Outcome(r.value.verdict, model, r.value.totals, true, records, None, false)
                && |log| > old(|log|) && Invalids(log) == old(Invalids(log))
    {
      assert SameEvidence(world, log, log) && calls == |log|;
      var retryMessages := msgs + [FailedReply(first.raw), RetryRequest(first.error)];
      assert retryMessages == Sends(settings, world, prompts, log);
      hide Audited, SameEvidence, Billed, Turns, Answers, Invalids, Next, Shared, Continues, Offers, Blocks, Sends,
        Asks;
      totals := totals.Plus(first.usage);
      var blocked := CheckBudget();
      if blocked {
        return Failure(BudgetExceeded);
      }
      ghost var before := log;
      var result := Call(retryMessages, model, false);
      AuditPush(settings, world, prompts, before, |before|, recorded, Exchange(retryMessages, model, false, result));
      SamePush(world, before, before, Exchange(retryMessages, model, false, result));
      if result.CallFailed? {
        return Failure(LlmFailed);
      }
      if result.Invalid? {
        return Failure(VerdictInvalid);
      }
      RecordUsage(result.usage);
      r := Success(MakeOutcome(result, model, true));
    }

    /** The tool-less tail: one call, retried once on an invalid reply. */
    method Final(msgs: seq<Message>, model: string) returns (r: Result<Outcome, Error>)
      requires Audited(settings, world, prompts, log, calls, recorded)
      requires Continues(settings, log) && !Offers(settings, log) && Asks(settings, log, model)
      requires msgs == Sends(settings, world, prompts, log) && totals == Billed(log)
      requires log == [] || !log[|log| - 1].reply.Invalid?
      modifies this
      ensures Audited(settings, world, prompts, log, calls, recorded) && SameEvidence(world, old(log), log)
      ensures messages == old(messages) && records == old(records) && |log| <= old(|log|) + 2
      ensures Ends(settings, world, log, records, r) && Answers(log) == old(Answers(log)) + if r.Success? then 1 else 0
      ensures r.Success? ==>
                && r.value == Outcome(r.value.verdict, model, r.value.totals, r.value.retried, records, None, false)
                && |log| > old(|log|) && Invalids(log) == old(Invalids(log)) + if r.value.retried then 1 else 0
    {
      assert SameEvidence(world, log, log) && calls == |log|;
      hide Audited, SameEvidence, Billed, Turns, Answers, Invalids, Next, Shared, Offers, Blocks, Sends, Asks,
        Continues;
      var blocked := CheckBudget();
      if blocked {
        return Failure(BudgetExceeded);
      }
      ghost var before := log;
      var result := Call(msgs, model, false);
      ghost var x := Exchange(msgs, model, false, result);
      AuditPush(settings, world, prompts, before, |before|, recorded, x);
      SamePush(world, before, before, x);
      if result.CallFailed? {
        return Failure(LlmFailed);
      }
      if result.Invalid? {
        NoMoreTools(settings, before, x);
        RetryIsDue(settings, before, x, model);
        r := RetryOnce(msgs, result, model, false);
        SameTwice(world, before, before + [x], log);
        return;
      }
      RecordUsage(result.usage);
      r := Success(MakeOutcome(result, model, false));
    }

    /** Run one turn's tool calls, in order, appending a record and a result message for each. */
    method RunTools(toolCalls: seq<Call>, ghost before: seq<Call>)
      requires records == Records(before, world.execute)
      modifies this`messages, this`records
      ensures records == Records(before + toolCalls, world.execute)
      ensures messages == old(messages) + ([ToolCalls(toolCalls)] + Results(toolCalls, |before|, world.execute))
    {
      ghost var start := messages;
      messages := messages + [ToolCalls(toolCalls)];
      NoToolsYet(before, toolCalls, world.execute);
      hide Records, Results;
      var i := 0;
      while i < |toolCalls|
        invariant 0 <= i <= |toolCalls|
        invariant messages == start + ([ToolCalls(toolCalls)] + Results(toolCalls[..i], |before|, world.execute))
        invariant records == Records(before + toolCalls[..i], world.execute)
      {
        var call := toolCalls[i];
        var content := world.execute(|records|, call);
        OneMoreTool(before, toolCalls, i, world.execute);
        records := records + [ToolRecord(|records|, call.name, call.arguments, content)];
        ghost var results := Results(toolCalls[..i], |before|, world.execute);
        Assoc(start, [ToolCalls(toolCalls)] + results, [ToolResult(call.id, content)]);
        Assoc([ToolCalls(toolCalls)], results, [ToolResult(call.id, content)]);
        messages := messages + [ToolResult(call.id, content)];
        i := i + 1;
      }
      assert toolCalls[..i] == toolCalls;
    }

    /** A reply that is not a tool turn ends the pass, at once or after the one retry. */
    method Conclude(reply: Reply, ghost before: seq<Exchange>) returns (r: Result<Outcome, Error>)
      requires Unbooked(settings, world, prompts, before, log, calls, recorded, messages, reply) && !reply.ToolTurn?
      requires InStep(world, prompts, before, records, messages) && totals == Billed(before)
      modifies this
      ensures Audited(settings, world, prompts, log, calls, recorded)
      ensures InStep(world, prompts, log, records, messages) && CheapEnd(settings, world, before, log, records, r)
    {
      LastTurn(settings, world, prompts, before, log, calls, recorded, messages, reply, records);
      ghost var booked := log;
      hide Audited, InStep, SameEvidence, Billed, Answers, Invalids, Offers, Continues, Asks, Unbooked;
      if reply.CallFailed? {
        r := Failure(LlmFailed);
        return;
      }
      if reply.Invalid? {
        r := RetryOnce(messages, reply, settings.model, true);
        SameTwice(world, before, booked, log);
        SameInStep(world, prompts, before, log, records, messages);
        return;
      }
      RecordUsage(reply.usage);
      r := Success(MakeOutcome(reply, settings.model, false));
    }

    /** A tool turn is recorded and billed, and its calls are run. */
    method UseTurn(reply: Reply, ghost before: seq<Exchange>)
      requires Unbooked(settings, world, prompts, before, log, calls, recorded, messages, reply) && reply.ToolTurn?
      requires InStep(world, prompts, before, records, messages) && totals == Billed(before)
      modifies this
      ensures log == old(log) && calls == old(calls) && totals == Billed(log) && OnlyToolTurns(log)
      ensures Audited(settings, world, prompts, log, calls, recorded) && InStep(world, prompts, log, records, messages)
    {
      ghost var x := Exchange(messages, settings.model, true, reply);
      AuditPush(settings, world, prompts, before, |before|, recorded, x);
      TurnInStep(world, prompts, before, records, messages, x);
      OnlyToolTurnsPush(before, x);
      ghost var asked := Asked(before);
      assert records == Records(asked, world.execute);
      hide *;
      RecordUsage(reply.usage);
      totals := totals.Plus(reply.usage);
      RunTools(reply.calls, asked);
    }

    /** One turn of the loop: it ends the pass, or leaves the tools' results in the conversation. */
    method TakeTurn() returns (done: bool, r: Result<Outcome, Error>)
      requires Audited(settings, world, prompts, log, calls, recorded) && InStep(world, prompts, log, records, messages)
      requires totals == Billed(log) && OnlyToolTurns(log) && Offers(settings, log)
      modifies this
      ensures Audited(settings, world, prompts, log, calls, recorded) && InStep(world, prompts, log, records, messages)
      ensures !done ==> |log| == old(|log|) + 1 && totals == Billed(log) && OnlyToolTurns(log)
      ensures done ==> CheapEnd(settings, world, old(log), log, records, r)
    {
      ToolCallIsDue(settings, world, prompts, log);
      assert Asks(settings, log, settings.model) && calls == |log|;
      assert messages == Prompts(prompts) + Evidence(log, world.execute);
      hide Audited, InStep, Billed, Offers, Continues, Sends, Asks, Evidence, Prompts, Turns, Answers, Invalids,
        OnlyToolTurns;
      done, r := true, Failure(BudgetExceeded);
      var blocked := CheckBudget();
      if blocked {
        BlockedEnd(settings, world, log, records);
        return;
      }
      ghost var before := log;
      var reply := Call(messages, settings.model, true);
      if reply.ToolTurn? {
        UseTurn(reply, before);
        done := false;
      } else {
        r := Conclude(reply, before);
      }
    }

    /** The cheap tier: tool turns up to the cap, then a forced tool-less call. */
    method CheapPass() returns (r: Result<Outcome, Error>)
      requires Audited(settings, world, prompts, log, calls, recorded) && InStep(world, prompts, log, records, messages)
      requires totals == NOTHING && log == []
      modifies this
      ensures Audited(settings, world, prompts, log, calls, recorded)
      ensures CheapResult(settings, world, prompts, log, records, messages, r)
    {
      assert Billed([]) == NOTHING && OnlyToolTurns([]);
      hide Billed, Audited, InStep, OnlyToolTurns, CheapEnd, CheapResult;
      if settings.hasTools {
        var turn := 0;
        while turn < settings.toolLoopMaxIter
          invariant 0 <= turn <= settings.toolLoopMaxIter && |log| == turn && OnlyToolTurns(log)
                  && totals == Billed(log)
          invariant Audited(settings, world, prompts, log, calls, recorded)
          invariant InStep(world, prompts, log, records, messages)
        {
          OffersWhile(settings, log);
          ghost var before := log;
          var done;
          done, r := TakeTurn();
          if done {
            EndsEarly(settings, world, prompts, before, log, records, messages, r);
            return;
          }
          turn := turn + 1;
        }
      }
      r := LastCall();
    }

    /** The tool-less call that ends the cheap pass, over the request for the verdict where tools ran out. */
    method LastCall() returns (r: Result<Outcome, Error>)
      requires Audited(settings, world, prompts, log, calls, recorded) && InStep(world, prompts, log, records, messages)
      requires totals == Billed(log) && OnlyToolTurns(log) && |log| == settings.Turns()
      modifies this
      ensures Audited(settings, world, prompts, log, calls, recorded)
      ensures CheapResult(settings, world, prompts, log, records, messages, r)
    {
      FinalIsDue(settings, world, prompts, log, messages);
      NothingFailed(log);
      assert records == Records(Asked(log), world.execute);
      hide Audited, InStep, Billed, Offers, Continues, Sends, Asks, Shared, Evidence, Records, Asked, Prompts, Ends,
        SameEvidence;
      if settings.hasTools {
        messages := messages + [FinalRequest];
      }
      ghost var before := log;
      r := Final(messages, settings.model);
      LateEnd(settings, world, before, log, records, r);
      EndsLate(settings, world, prompts, before, log, records, messages, r);
    }

    /** The whole run plays the script to its end: the log is the one the settings and the world
        determine, it stops where no call is due or the breaker blocks, the counter has risen by exactly
        the tokens of the valid replies, and a success bills every reply of both tiers. */
    method Run() returns (r: Result<Outcome, Error>)
      requires Audited(settings, world, prompts, log, calls, recorded) && InStep(world, prompts, log, records, messages)
      requires totals == NOTHING && log == []
      modifies this
      ensures Played(settings, world, prompts, log) && |log| <= settings.Turns() + 4
      ensures recorded == if settings.redisWired then Counted(log) else 0
      ensures Finished(settings, world, prompts, log, records, messages, r)
      ensures r.Success? ==> BilledInFull(log, r.value.totals)
    {
      hide InStep, CheapResult, Finished, Billed, BilledInFull, Counted, ShouldEscalate, Continues, Offers, Asks,
        Sends, Ends, Played;
      r := CheapPass();
      CallsAreBounded(settings, world, prompts, log);
      if r.Failure? || settings.strongModel.None? {
        CheapIsFinal(settings, world, prompts, log, records, messages, r);
        OutcomeBillsAll(settings, world, prompts, log, records, messages, r);
        return;
      }
      var cheap := r.value;
      var decision := ShouldEscalate(cheap.verdict, settings.severityGte, settings.confidenceLt);
      if !decision.escalate {
        CheapIsFinal(settings, world, prompts, log, records, messages, r);
        OutcomeBillsAll(settings, world, prompts, log, records, messages, r);
        return;
      }
      StrongIsDue(settings, world, prompts, log, records, messages, r);
      totals := cheap.totals;
      ghost var before := log;
      r := Final(messages, settings.strongModel.value);
      CallsAreBounded(settings, world, prompts, log);
      StrongIsFinal(settings, world, prompts, before, cheap, log, records, messages, r);
      if r.Success? {
        var strong := r.value;
        r := Success(strong.(modelPrimary := Some(settings.model), escalated := true,
                             retried := cheap.retried || strong.retried, trace := cheap.trace));
      }
      OutcomeBillsAll(settings, world, prompts, log, records, messages, r);
    }
  }
}
