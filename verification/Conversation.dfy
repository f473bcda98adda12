/** The triage conversation, the exchanges with the model, and what they cost. */
module Conversation {
  import opened Seqs
  import opened Wrappers

  datatype Usage = Usage(input: nat, output: nat, cost: real, latency: nat) {
    function Plus(u: Usage): Usage { Usage(input + u.input, output + u.output, cost + u.cost, latency + u.latency) }
    function Tokens(): nat { input + output }
  }

  const NOTHING := Usage(0, 0, 0.0, 0)

  datatype Call = Call(id: string, name: string, arguments: string)

  datatype Verdict = Verdict(severity: int, confidence: real, text: string)

  /** What one call to the model comes back with. An invalid reply has been billed all the same. */
  datatype Reply =
    | ToolTurn(calls: seq<Call>, usage: Usage)
    | Answer(verdict: Verdict, usage: Usage)
    | Invalid(raw: string, error: string, usage: Usage)
    | CallFailed

  /** A call that offers no tools never gets a tool turn back. */
  type PlainReply = r: Reply | !r.ToolTurn? witness CallFailed

  datatype Message =
    | Prompt(text: string)
    | ToolCalls(calls: seq<Call>)
    | ToolResult(id: string, content: string)
    | FinalRequest
    | FailedReply(raw: string)
    | RetryRequest(error: string)

  /** One call: the messages sent, the model asked, whether tools were offered, and the reply. */
  datatype Exchange = Exchange(sent: seq<Message>, model: string, tools: bool, reply: Reply)

  datatype ToolRecord = ToolRecord(seqNo: nat, name: string, arguments: string, result: string)

  function Cost(r: Reply): Usage { if r.CallFailed? then NOTHING else r.usage }

  /** Everything the provider billed. */
  function Billed(log: seq<Exchange>): Usage {
    if log == [] then NOTHING else Billed(log[..|log| - 1]).Plus(Cost(log[|log| - 1].reply))
  }

  /** The tokens of the replies that did not fail validation. */
  function Counted(log: seq<Exchange>): nat {
    if log == [] then 0
    else
      var last := log[|log| - 1].reply;
      Counted(log[..|log| - 1]) + if last.ToolTurn? || last.Answer? then last.usage.input + last.usage.output else 0
  }

  /** Every tool call the model asked for, in order. */
  function Asked(log: seq<Exchange>): seq<Call> {
    if log == [] then []
    else
      var last := log[|log| - 1].reply;
      Asked(log[..|log| - 1]) + if last.ToolTurn? then last.calls else []
  }

  lemma LogPush(log: seq<Exchange>, x: Exchange)
    ensures Billed(log + [x]) == Billed(log).Plus(Cost(x.reply))
    ensures Counted(log + [x])
            == Counted(log)
               + if x.reply.ToolTurn? || x.reply.Answer? then x.reply.usage.input + x.reply.usage.output else 0
    ensures Asked(log + [x]) == Asked(log) + if x.reply.ToolTurn? then x.reply.calls else []
  {
    Halves(log, [x]);
  }

  function InputOf(u: Usage): real { u.input as real }
  function OutputOf(u: Usage): real { u.output as real }
  function CostOf(u: Usage): real { u.cost }
  function LatencyOf(u: Usage): real { u.latency as real }

  /** One part of the usage, summed over every reply that came back, valid or not. */
  function SumOver(log: seq<Exchange>, part: Usage -> real): real {
    if log == [] then 0.0
    else
      SumOver(log[..|log| - 1], part)
      + match log[|log| - 1].reply
        case ToolTurn(_, u) => part(u)
        case Answer(_, u) => part(u)
        case Invalid(_, _, u) => part(u)
        case CallFailed => 0.0
  }

  /** The bill is the sum of the replies' in every part: nothing is dropped, and nothing billed twice. */
  ghost predicate BilledInFull(log: seq<Exchange>, bill: Usage) {
    && bill.input as real == SumOver(log, InputOf) && bill.output as real == SumOver(log, OutputOf)
    && bill.cost == SumOver(log, CostOf) && bill.latency as real == SumOver(log, LatencyOf)
  }

  lemma {:induction false} BillIsTheSum(log: seq<Exchange>)
    ensures BilledInFull(log, Billed(log))
  {
    if log != [] {
      BillIsTheSum(log[..|log| - 1]);
    }
  }

  /** How often the model asked for tools, answered with a verdict, and failed validation. */
  function Turns(log: seq<Exchange>): nat {
    if log == [] then 0 else Turns(log[..|log| - 1]) + if log[|log| - 1].reply.ToolTurn? then 1 else 0
  }

  function Answers(log: seq<Exchange>): nat {
    if log == [] then 0 else Answers(log[..|log| - 1]) + if log[|log| - 1].reply.Answer? then 1 else 0
  }

  function Invalids(log: seq<Exchange>): nat {
    if log == [] then 0 else Invalids(log[..|log| - 1]) + if log[|log| - 1].reply.Invalid? then 1 else 0
  }

  lemma CountsPush(log: seq<Exchange>, x: Exchange)
    ensures Turns(log + [x]) == Turns(log) + if x.reply.ToolTurn? then 1 else 0
    ensures Answers(log + [x]) == Answers(log) + if x.reply.Answer? then 1 else 0
    ensures Invalids(log + [x]) == Invalids(log) + if x.reply.Invalid? then 1 else 0
  {
    Halves(log, [x]);
  }

  // ---- What the tools contributed, as a function of the log. ----

  type Tools = (nat, Call) -> string

  /** The results of one turn's calls, the first of them the `from`-th call of the run. */
  function Results(calls: seq<Call>, from: nat, execute: Tools): seq<Message> {
    seq(|calls|, i requires 0 <= i < |calls| => ToolResult(calls[i].id, execute(from + i, calls[i])))
  }

  /** Every tool turn and its results, and nothing else of what the model said. */
  function Evidence(log: seq<Exchange>, execute: Tools): seq<Message> {
    if log == [] then []
    else
      var front, last := log[..|log| - 1], log[|log| - 1].reply;
      Evidence(front, execute)
      + if last.ToolTurn? then [ToolCalls(last.calls)] + Results(last.calls, |Asked(front)|, execute) else []
  }

  /** The trace of the calls asked for. */
  function Records(asked: seq<Call>, execute: Tools): seq<ToolRecord> {
    seq(|asked|, k requires 0 <= k < |asked| => ToolRecord(k, asked[k].name, asked[k].arguments, execute(k, asked[k])))
  }

  lemma EvidencePush(log: seq<Exchange>, x: Exchange, execute: Tools)
    ensures Evidence(log + [x], execute)
         == Evidence(log, execute)
            + if x.reply.ToolTurn? then [ToolCalls(x.reply.calls)] + Results(x.reply.calls, |Asked(log)|, execute)
              else []
  {
    Halves(log, [x]);
  }

  // ---- Well-formed conversations. ----

  /** `msgs` starts with the results of `calls`, same ids, same order. */
  ghost predicate Answered(calls: seq<Call>, msgs: seq<Message>) {
    |calls| <= |msgs| && forall i :: 0 <= i < |calls| ==> msgs[i].ToolResult? && msgs[i].id == calls[i].id
  }

  /** Every tool turn is followed by exactly its results, same ids, same order, and no result stands
      anywhere else. */
  ghost predicate Paired(msgs: seq<Message>)
    decreases |msgs|
  {
    if msgs == [] then true
    else
      match msgs[0]
      case ToolCalls(calls) =>
        && Answered(calls, msgs[1..])
        && Paired(msgs[1..][|calls|..])
      case ToolResult(_, _) => false
      case _ => Paired(msgs[1..])
  }

  /** The tool results in a conversation, in order. */
  function ResultsIn(msgs: seq<Message>): seq<Message> {
    if msgs == [] then []
    else ResultsIn(msgs[..|msgs| - 1]) + if msgs[|msgs| - 1].ToolResult? then [msgs[|msgs| - 1]] else []
  }

  lemma ResultsInPush(msgs: seq<Message>, m: Message)
    ensures ResultsIn(msgs + [m]) == ResultsIn(msgs) + if m.ToolResult? then [m] else []
  {
    Halves(msgs, [m]);
  }

  lemma {:induction false} PairedAppend(a: seq<Message>, b: seq<Message>)
    requires Paired(a) && Paired(b)
    ensures Paired(a + b)
    decreases |a|
  {
    if a == [] {
      Empty(b);
    } else {
      DropFront(a, b, 1);
      if a[0].ToolCalls? {
        DropFront(a[1..], b, |a[0].calls|);
        PairedAppend(a[1..][|a[0].calls|..], b);
      } else {
        PairedAppend(a[1..], b);
      }
    }
  }

  lemma DropFront<T>(a: seq<T>, b: seq<T>, n: nat)
    requires n <= |a|
    ensures (a + b)[n..] == a[n..] + b
  {}

  /** One complete tool turn. */
  lemma PairedTurn(calls: seq<Call>, results: seq<Message>)
    requires |results| == |calls| && Answered(calls, results)
    ensures Paired([ToolCalls(calls)] + results)
  {
    Halves([ToolCalls(calls)], results);
    assert results[|calls|..] == [];
  }

  lemma PairedOne(m: Message)
    requires !m.ToolCalls? && !m.ToolResult?
    ensures Paired([m])
  {
    assert [m][1..] == [];
  }

  /** The trace records exactly the calls asked for, numbered from zero, and the conversation holds
      exactly their results. */
  ghost predicate Traced(records: seq<ToolRecord>, asked: seq<Call>, results: seq<Message>, execute: Tools) {
    && |records| == |asked| == |results|
    && forall k :: 0 <= k < |records| ==>
         && records[k] == ToolRecord(k, asked[k].name, asked[k].arguments, execute(k, asked[k]))
         && results[k] == ToolResult(asked[k].id, records[k].result)
  }

  /** Neither a failed reply nor a retry request. */
  ghost predicate Clean(msgs: seq<Message>) {
    forall i :: 0 <= i < |msgs| ==> !msgs[i].FailedReply? && !msgs[i].RetryRequest?
  }

  lemma {:induction false} ResultsInAppend(a: seq<Message>, b: seq<Message>)
    ensures ResultsIn(a + b) == ResultsIn(a) + ResultsIn(b)
  {
    if b == [] {
      Empty(a);
      Empty(ResultsIn(a));
    } else {
      var front, last := b[..|b| - 1], b[|b| - 1];
      ResultsInAppend(a, front);
      ResultsInPush(a + front, last);
      ResultsInPush(front, last);
      hide ResultsIn;
      assert b == front + [last];
      Assoc(a, front, [last]);
      Empty(ResultsIn(front));
      Empty(ResultsIn(a) + ResultsIn(front));
      Assoc(ResultsIn(a), ResultsIn(front), [last]);
    }
  }

  lemma {:induction false} AllResults(msgs: seq<Message>)
    requires forall i :: 0 <= i < |msgs| ==> msgs[i].ToolResult?
    ensures ResultsIn(msgs) == msgs
  {
    if msgs != [] {
      AllResults(msgs[..|msgs| - 1]);
      assert msgs == msgs[..|msgs| - 1] + [msgs[|msgs| - 1]];
    }
  }

  lemma NoResultsIn(m: Message)
    requires !m.ToolResult?
    ensures ResultsIn([m]) == []
  {
    assert [m][..0] == [];
  }

  /** What a turn adds: its calls, then their results with the same ids, in order. */
  lemma TurnFacts(calls: seq<Call>, from: nat, execute: Tools)
    ensures var turn := [ToolCalls(calls)] + Results(calls, from, execute);
      Paired(turn) && Clean(turn) && ResultsIn(turn) == Results(calls, from, execute)
  {
    hide Paired, ResultsIn;
    var results := Results(calls, from, execute);
    PairedTurn(calls, results);
    AllResults(results);
    ResultsInAppend([ToolCalls(calls)], results);
    NoResultsIn(ToolCalls(calls));
    Empty(results);
  }

  lemma TracedTurn(asked: seq<Call>, results: seq<Message>, calls: seq<Call>, execute: Tools)
    requires Traced(Records(asked, execute), asked, results, execute)
    ensures Traced(Records(asked + calls, execute), asked + calls, results + Results(calls, |asked|, execute), execute)
  {}

  /** In the evidence every call is answered by its own result, in order; the trace numbers the calls
      from zero without gaps and holds those results; and no failed reply or retry request appears. */
  lemma {:induction false} EvidenceIsSound(log: seq<Exchange>, execute: Tools)
    ensures Paired(Evidence(log, execute)) && Clean(Evidence(log, execute))
    ensures Traced(Records(Asked(log), execute), Asked(log), ResultsIn(Evidence(log, execute)), execute)
  {
    if log != [] {
      hide *;
      var front, last := log[..|log| - 1], log[|log| - 1];
      EvidenceIsSound(front, execute);
      assert log == front + [last];
      SoundPush(front, last, execute);
    }
  }

  lemma SoundPush(log: seq<Exchange>, x: Exchange, execute: Tools)
    requires Paired(Evidence(log, execute)) && Clean(Evidence(log, execute))
    requires Traced(Records(Asked(log), execute), Asked(log), ResultsIn(Evidence(log, execute)), execute)
    ensures Paired(Evidence(log + [x], execute)) && Clean(Evidence(log + [x], execute))
    ensures Traced(Records(Asked(log + [x]), execute), Asked(log + [x]), ResultsIn(Evidence(log + [x], execute)),
                   execute)
  {
    EvidencePush(log, x, execute);
    LogPush(log, x);
    hide Paired, ResultsIn, Evidence, Asked, Traced, Billed, Counted, Records, Results;
    var evidence := Evidence(log, execute);
    if x.reply.ToolTurn? {
      var turn := [ToolCalls(x.reply.calls)] + Results(x.reply.calls, |Asked(log)|, execute);
      TurnFacts(x.reply.calls, |Asked(log)|, execute);
      PairedAppend(evidence, turn);
      ResultsInAppend(evidence, turn);
      TracedTurn(Asked(log), ResultsIn(evidence), x.reply.calls, execute);
    } else {
      Empty(evidence);
      Empty(Asked(log));
    }
  }
}
