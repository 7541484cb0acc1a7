/**
  One question to the assistant (api/ai/strategist.py): the conversation loop
  and its three budgets, against a model and tools that may answer anything.
*/
module Strategist {
  import opened Ascii
  import opened Prelude

  const MAX_TOOL_CALLS := 10
  const MAX_ROUNDS := 5
  const MAX_QUESTION_CHARS := 2000
  const MAX_TOOL_RESULT_CHARS := 20_000
  const TRUNCATED := "\U{2026} (truncated)\""

  datatype ToolCall = ToolCall(id: string, name: string, input: string)

  /** What a tool gave back; a failure is a result, not an exception. */
  datatype ToolRun = ToolRun(error: string, result: string)

  datatype ToolResult = ToolResult(id: string, content: string, isError: bool)

  datatype Turn = Turn(toolCalls: seq<ToolCall>, content: string, model: string, stopReason: string)

  /** One provider call: the text it streamed, and how the stream ended. */
  datatype Stream =
    | Refused(text: string)
    | Failed(text: string)
    | Silent(text: string)
    | Finished(text: string, turn: Turn)

  datatype Message = Said(role: string, text: string) | Asked(content: string) | Results(results: seq<ToolResult>)

  /** The provider and the tools; both may answer differently each time, so they also see how often they were called. */
  datatype World = World(stream: (seq<Message>, bool, nat) -> Stream, tool: (ToolCall, nat) -> ToolRun)

  /** A provider call as it was made, and what came of the tools it asked for. */
  datatype Round = Round(sent: seq<Message>, offered: bool, stream: Stream, ran: nat, results: seq<ToolResult>)

  datatype Status = Paid | Declined | Errored

  datatype Charge = Charge(status: Status, tools: seq<string>)

  datatype End = Going | Answered | Stopped(code: string)

  datatype Chat = Chat(
    messages: seq<Message>, callsLeft: int, text: string, steps: seq<string>,
    rounds: seq<Round>, charges: seq<Charge>, end: End)

  // ---- the tools of one round ---------------------------------------------

  function Truncate(text: string): string {
    if |text| <= MAX_TOOL_RESULT_CHARS then text else text[..MAX_TOOL_RESULT_CHARS] + TRUNCATED
  }

  function ResultOf(call: ToolCall, run: ToolRun): ToolResult {
    if run.error != "" then ToolResult(call.id, run.error, true) else ToolResult(call.id, Truncate(run.result), false)
  }

  const SPENT := "Tool budget for this question is spent."

  /** The result of a call the budget no longer covers; its text goes on to ask for an answer. */
  function BudgetSpent(call: ToolCall): ToolResult {
    ToolResult(call.id, SPENT, true)
  }

  function Min(a: int, b: int): int {
    if a < b then a else b
  }

  /** How many of `n` calls are run with `left` in the budget. */
  function Runs(n: nat, left: int): (r: nat)
    ensures r <= n && (r < n ==> r >= left) && (left >= 0 ==> r <= left)
  {
    if left <= 0 then 0 else Min(n, left)
  }

  function ResultsOf(world: World, calls: seq<ToolCall>, left: int, before: nat): seq<ToolResult> {
    seq(|calls|, i requires 0 <= i < |calls| =>
      if i < left then ResultOf(calls[i], world.tool(calls[i], before + i)) else BudgetSpent(calls[i]))
  }

  function Names(calls: seq<ToolCall>): seq<string> {
    seq(|calls|, i requires 0 <= i < |calls| => calls[i].name)
  }

  // ---- one round ----------------------------------------------------------

  function LastRound(chat: Chat): bool {
    |chat.rounds| + 1 == MAX_ROUNDS || chat.callsLeft <= 0
  }

  function Separated(text: string): string {
    if text != "" && !(|text| >= 2 && text[|text| - 2..] == "\n\n") then text + "\n\n" else text
  }

  predicate Continues(stream: Stream) {
    stream.Finished? && stream.turn.toolCalls != []
  }

  function EndOf(stream: Stream): End {
    match stream
    case Refused(_) => Stopped("assistant_declined")
    case Failed(_) => Stopped("assistant_unavailable")
    case Silent(_) => Stopped("assistant_unavailable")
    case Finished(_, turn) => if turn.toolCalls == [] then Answered else Going
  }

  /** The charge of one provider call: a stream that just stops is not metered. */
  function ChargeFor(stream: Stream): seq<Charge> {
    match stream
    case Refused(_) => [Charge(Declined, [])]
    case Failed(_) => [Charge(Errored, [])]
    case Silent(_) => []
    case Finished(_, turn) => [Charge(Paid, Names(turn.toolCalls))]
  }

  /** The provider call a conversation makes next, and the tools it leads to. */
  function Made(world: World, chat: Chat): Round {
    var offered := !LastRound(chat);
    var stream := world.stream(chat.messages, offered, |chat.rounds|);
    match stream
    case Finished(_, turn) =>
      Round(chat.messages, offered, stream, Runs(|turn.toolCalls|, chat.callsLeft),
        ResultsOf(world, turn.toolCalls, chat.callsLeft, |chat.steps|))
    case _ => Round(chat.messages, offered, stream, 0, [])
  }

  function NamesRun(round: Round): seq<string> {
    if round.stream.Finished? && round.ran <= |round.stream.turn.toolCalls|
    then Names(round.stream.turn.toolCalls[..round.ran])
    else []
  }

  /** What the call after this one is sent. */
  function Continued(round: Round): seq<Message> {
    if Continues(round.stream) then round.sent + [Asked(round.stream.turn.content), Results(round.results)] else round.sent
  }

  /** The body of the round loop. */
  function Next(world: World, chat: Chat): Chat {
    var round := Made(world, chat);
    var text := chat.text + round.stream.text;
    Chat(
      Continued(round),
      chat.callsLeft - round.ran,
      if Continues(round.stream) then Separated(text) else text,
      chat.steps + NamesRun(round),
      chat.rounds + [round],
      chat.charges + ChargeFor(round.stream),
      EndOf(round.stream))
  }

  /** The conversation after at most `n` rounds. */
  function Play(world: World, messages: seq<Message>, n: nat): Chat {
    if n == 0 then Chat(messages, MAX_TOOL_CALLS, "", [], [], [], Going) else
      var before := Play(world, messages, n - 1);
      if before.end == Going then Next(world, before) else before
  }

  lemma PlayStarts(world: World, messages: seq<Message>)
    ensures Play(world, messages, 0) == Chat(messages, MAX_TOOL_CALLS, "", [], [], [], Going)
  {
  }

  lemma PlayStep(world: World, messages: seq<Message>, n: nat)
    ensures Play(world, messages, n).end == Going ==> Play(world, messages, n + 1) == Next(world, Play(world, messages, n))
  {
  }

  lemma NextSpelledOut(world: World, chat: Chat, stream: Stream)
    requires stream == world.stream(chat.messages, !(|chat.rounds| + 1 == MAX_ROUNDS || chat.callsLeft <= 0), |chat.rounds|)
    ensures var chat' := Next(world, chat);
      && |chat'.rounds| == |chat.rounds| + 1 && chat'.end == EndOf(stream) && chat'.charges == chat.charges + ChargeFor(stream)
      && (!Continues(stream) ==> chat'.text == chat.text + stream.text)
      && (!Continues(stream) ==> chat'.steps == chat.steps)
      && (Continues(stream) ==>
            var calls := stream.turn.toolCalls;
            var ran := Runs(|calls|, chat.callsLeft);
            && chat'.text == Separated(chat.text + stream.text) && chat'.callsLeft == chat.callsLeft - ran
            && chat'.steps == chat.steps + Names(calls[..ran])
            && chat'.messages == chat.messages +
                 [Asked(stream.turn.content), Results(ResultsOf(world, calls, chat.callsLeft, |chat.steps|))])
  {
    hide ResultsOf, Separated;
  }

  // ---- the object ---------------------------------------------------------

  datatype Event =
    | Opened
    | Delta(text: string)
    | Step(tool: string)
    | Error(code: string)
    | Done(text: string, steps: seq<string>)

  function Trim(s: string): string {
    TrimEnd(TrimStart(s))
  }

  function TrimStart(s: string): string {
    if s != "" && IsSpace(s[0]) then TrimStart(s[1..]) else s
  }

  function Question(raw: string): string {
    var trimmed := Trim(raw);
    if |trimmed| <= MAX_QUESTION_CHARS then trimmed else trimmed[..MAX_QUESTION_CHARS]
  }

  ghost predicate Blank(s: string) {
    forall i :: 0 <= i < |s| ==> IsSpace(s[i])
  }

  /** Nothing but white space is taken off, at both ends, and all of it. */
  lemma {:induction false} TrimMeans(s: string)
    ensures exists a, b :: s == a + Trim(s) + b && Blank(a) && Blank(b)
    ensures Trim(s) != "" ==> !IsSpace(Trim(s)[0]) && !IsSpace(Trim(s)[|Trim(s)| - 1])
  {
    var mid := TrimStart(s);
    var a := TrimStartMeans(s);
    var b := TrimEndMeans(mid);
    assert s == a + Trim(s) + b by {
      ConcatAssociates(a, Trim(s), b);
    }
    hide TrimStart, TrimEnd;
    assert Trim(s) != "" ==> Trim(s)[0] == mid[0];
  }

  /** A question is what was typed without the white space around it, as far as 2000 characters go. */
  lemma QuestionMeans(raw: string)
    ensures Question(raw) <= Trim(raw) && |Question(raw)| == if |Trim(raw)| < 2000 then |Trim(raw)| else 2000
  {
    hide Trim;
  }

  lemma {:induction false} TrimStartMeans(s: string) returns (a: string)
    ensures s == a + TrimStart(s) && Blank(a) && (TrimStart(s) != "" ==> !IsSpace(TrimStart(s)[0]))
  {
    a := "";
    if s != "" && IsSpace(s[0]) {
      a := TrimStartMeans(s[1..]);
      assert s == [s[0]] + s[1..];
      a := [s[0]] + a;
    }
  }

  lemma {:induction false} TrimEndMeans(s: string) returns (b: string)
    ensures s == TrimEnd(s) + b && Blank(b) && (TrimEnd(s) != "" ==> !IsSpace(TrimEnd(s)[|TrimEnd(s)| - 1]))
  {
    b := "";
    if s != "" && IsSpace(s[|s| - 1]) {
      b := TrimEndMeans(s[..|s| - 1]);
      assert s == s[..|s| - 1] + [s[|s| - 1]];
      b := b + [s[|s| - 1]];
    }
  }

  class Strategist {
    const world: World
    /** `llm_calls` and `conversation_messages`. */
    var charges: seq<Charge>
    var transcript: seq<Message>

    constructor (world: World, transcript: seq<Message>)
      ensures this.world == world && this.transcript == transcript && charges == []
    {
      this.world, this.transcript, charges := world, transcript, [];
    }

    /** `history` is what the earlier turns said, as far as it is replayed. */
    method Ask(raw: string, available: bool, inBudget: bool, history: seq<Message>) returns (last: Event, ghost chat: Chat)
      modifies this
      ensures Question(raw) == "" ==> last == Error("empty_question") && Untouched(charges, transcript, old(charges), old(transcript))
      ensures Question(raw) != "" && !available ==>
        last == Error("unavailable") && Untouched(charges, transcript, old(charges), old(transcript))
      ensures Question(raw) != "" && available && !inBudget ==>
        last == Error("ai_budget_exhausted") && Untouched(charges, transcript, old(charges), old(transcript))
      ensures Question(raw) != "" && available && inBudget ==>
        && chat == Play(world, history + [Said("user", Question(raw))], MAX_ROUNDS)
        && charges == old(charges) + chat.charges
        && (chat.end.Stopped? ==>
              last == Error(chat.end.code) && transcript == old(transcript) + [Said("user", Question(raw))])
        && (!chat.end.Stopped? ==>
              && last == Done(Trim(chat.text), chat.steps)
              && transcript == old(transcript) + [Said("user", Question(raw)), Said("assistant", Trim(chat.text))])
    {
      var question := Question(raw);
      chat := Play(world, [], 0);
      if question == "" {
        return Error("empty_question"), chat;
      }
      if !available {
        return Error("unavailable"), chat;
      }
      if !inBudget {
        return Error("ai_budget_exhausted"), chat;
      }
      var messages := history + [Said("user", question)];
      transcript := transcript + [Said("user", question)];
      var code;
      last, code, chat := Converse(messages);
    }

    ghost predicate Untouched(a: seq<Charge>, b: seq<Message>, a': seq<Charge>, b': seq<Message>) {
      a == a' && b == b'
    }

    /** The round loop, and what is stored after it. */
    method Converse(history: seq<Message>) returns (last: Event, answered: bool, ghost chat: Chat)
      modifies this
      ensures chat == Play(world, history, MAX_ROUNDS) && charges == old(charges) + chat.charges
      ensures answered <==> !chat.end.Stopped?
      ensures chat.end.Stopped? ==> last == Error(chat.end.code) && transcript == old(transcript)
      ensures !chat.end.Stopped? ==>
        last == Done(Trim(chat.text), chat.steps) && transcript == old(transcript) + [Said("assistant", Trim(chat.text))]
    {
      hide ResultsOf, Names, Separated, Trim, Next, Play, LastRound;
      var messages, callsLeft := history, MAX_TOOL_CALLS;
      var text, steps := "", [];
      var rounds := 0;
      chat := Play(world, history, 0);
      PlayStarts(world, history);
      while rounds < MAX_ROUNDS
        invariant rounds <= MAX_ROUNDS && chat == Play(world, history, rounds)
        invariant chat.end == Going && |chat.rounds| == rounds
        invariant messages == chat.messages && callsLeft == chat.callsLeft && text == chat.text && steps == chat.steps
        invariant charges == old(charges) + chat.charges && transcript == old(transcript)
      {
        var lastRound := rounds + 1 == MAX_ROUNDS || callsLeft <= 0;
        var stream := world.stream(messages, !lastRound, rounds);
        NextSpelledOut(world, chat, stream);
        PlayStep(world, history, rounds);
        ConcatAssociates(old(charges), chat.charges, ChargeFor(stream));
        chat := Next(world, chat);
        rounds := rounds + 1;
        text := text + stream.text;
        match stream {
          case Refused(_) =>
            Settled(world, history, rounds);
            charges := charges + [Charge(Declined, [])];
            return Error("assistant_declined"), false, chat;
          case Failed(_) =>
            Settled(world, history, rounds);
            charges := charges + [Charge(Errored, [])];
            return Error("assistant_unavailable"), false, chat;
          case Silent(_) =>
            Settled(world, history, rounds);
            return Error("assistant_unavailable"), false, chat;
          case Finished(_, turn) =>
            charges := charges + [Charge(Paid, Names(turn.toolCalls))];
            if turn.toolCalls == [] {
              Settled(world, history, rounds);
              break;
            }
            var results, ran := RunTools(turn.toolCalls, callsLeft, |steps|);
            callsLeft := callsLeft - ran;
            steps := steps + Names(turn.toolCalls[..ran]);
            messages := messages + [Asked(turn.content), Results(results)];
            text := Separated(text);
        }
      }
      text := Trim(text);
      transcript := transcript + [Said("assistant", text)];
      last, answered := Done(text, steps), true;
    }

    method RunTools(calls: seq<ToolCall>, left: int, before: nat) returns (results: seq<ToolResult>, ran: nat)
      ensures results == ResultsOf(world, calls, left, before) && ran == Runs(|calls|, left)
    {
      hide BudgetSpent, ResultOf;
      results, ran := [], 0;
      var callsLeft := left;
      for i := 0 to |calls|
        invariant ran == Runs(i, left) && callsLeft == left - ran
        invariant results == ResultsOf(world, calls, left, before)[..i]
      {
        if callsLeft <= 0 {
          results := results + [BudgetSpent(calls[i])];
          continue;
        }
        callsLeft := callsLeft - 1;
        results := results + [ResultOf(calls[i], world.tool(calls[i], before + ran))];
        ran := ran + 1;
      }
    }
  }

  /** Once a conversation has ended more rounds change nothing. */
  lemma {:induction false} Settled(world: World, messages: seq<Message>, n: nat)
    requires Play(world, messages, n).end != Going && n <= MAX_ROUNDS
    ensures Play(world, messages, MAX_ROUNDS) == Play(world, messages, n)
    decreases MAX_ROUNDS - n
  {
    if n < MAX_ROUNDS {
      Settled(world, messages, n + 1);
    }
  }

  // ---- what every conversation keeps --------------------------------------

  ghost function Ran(rounds: seq<Round>): nat {
    if rounds == [] then 0 else Ran(rounds[..|rounds| - 1]) + rounds[|rounds| - 1].ran
  }

  ghost predicate BudgetKept(rounds: seq<Round>, callsLeft: int, steps: seq<string>) {
    callsLeft >= 0 && Ran(rounds) + callsLeft == MAX_TOOL_CALLS && |steps| == Ran(rounds)
  }

  ghost predicate OfferedOnlyInBudget(rounds: seq<Round>) {
    forall k :: 0 <= k < |rounds| ==>
      (rounds[k].offered <==> k + 1 != MAX_ROUNDS && Ran(rounds[..k]) < MAX_TOOL_CALLS)
  }

  /** Each tool call of a turn has one result, with its id and in its place; those past the budget say so. */
  ghost predicate EveryCallAnswered(round: Round) {
    match round.stream
    case Finished(_, turn) =>
      && round.ran <= |round.results| == |turn.toolCalls|
      && (forall i :: 0 <= i < |turn.toolCalls| ==> round.results[i].id == turn.toolCalls[i].id)
      && (forall i :: round.ran <= i < |turn.toolCalls| ==> round.results[i] == BudgetSpent(turn.toolCalls[i]))
    case _ => round.ran == 0 && round.results == []
  }

  ghost predicate AllAnswered(rounds: seq<Round>) {
    forall k :: 0 <= k < |rounds| ==> EveryCallAnswered(rounds[k])
  }

  ghost function ChargesFor(rounds: seq<Round>): seq<Charge> {
    if rounds == [] then [] else
      ChargesFor(rounds[..|rounds| - 1]) + ChargeFor(rounds[|rounds| - 1].stream)
  }

  /** Each call is sent everything said before it, and then the results of the tools it asked for. */
  ghost predicate Replayed(history: seq<Message>, rounds: seq<Round>, messages: seq<Message>) {
    && (forall k :: 0 <= k < |rounds| ==> rounds[k].sent == SentAt(history, rounds, k))
    && messages == SentAt(history, rounds, |rounds|)
  }

  ghost function SentAt(history: seq<Message>, rounds: seq<Round>, k: nat): seq<Message>
    requires k <= |rounds|
  {
    if k == 0 then history else Continued(rounds[k - 1])
  }

  /** Every round but the last asked for tools, and how the last ended decides how the conversation does. */
  ghost predicate EndsRight(rounds: seq<Round>, end: End) {
    && (forall k :: 0 <= k < |rounds| - 1 ==> Continues(rounds[k].stream))
    && end == if rounds == [] then Going else EndOf(rounds[|rounds| - 1].stream)
  }

  ghost predicate Inv(history: seq<Message>, chat: Chat) {
    && BudgetKept(chat.rounds, chat.callsLeft, chat.steps) && OfferedOnlyInBudget(chat.rounds) && AllAnswered(chat.rounds)
    && chat.charges == ChargesFor(chat.rounds) && Replayed(history, chat.rounds, chat.messages)
    && EndsRight(chat.rounds, chat.end)
  }

  lemma MadeIsAnswered(world: World, chat: Chat)
    requires chat.callsLeft >= 0
    ensures EveryCallAnswered(Made(world, chat))
    ensures Made(world, chat).ran <= chat.callsLeft && |NamesRun(Made(world, chat))| == Made(world, chat).ran
  {
    hide Runs, Truncate;
  }

  lemma RanOneMore(rounds: seq<Round>, round: Round)
    ensures Ran(rounds + [round]) == Ran(rounds) + round.ran
  {
    assert (rounds + [round])[..|rounds|] == rounds;
  }

  lemma ChargedOneMore(rounds: seq<Round>, round: Round)
    ensures ChargesFor(rounds + [round]) == ChargesFor(rounds) + ChargeFor(round.stream)
  {
    assert (rounds + [round])[..|rounds|] == rounds;
  }

  lemma OfferedOneMore(rounds: seq<Round>, round: Round)
    requires OfferedOnlyInBudget(rounds)
    requires round.offered <==> |rounds| + 1 != MAX_ROUNDS && Ran(rounds) < MAX_TOOL_CALLS
    ensures OfferedOnlyInBudget(rounds + [round])
  {
    var more := rounds + [round];
    assert forall k :: 0 <= k <= |rounds| ==> more[..k] == rounds[..k];
    assert rounds[..|rounds|] == rounds;
    assert forall k :: 0 <= k < |rounds| ==> more[k] == rounds[k];
    hide Ran;
  }

  lemma ReplayedOneMore(history: seq<Message>, rounds: seq<Round>, round: Round)
    requires Replayed(history, rounds, round.sent)
    ensures Replayed(history, rounds + [round], Continued(round))
  {
    hide Continued;
    var more := rounds + [round];
    assert forall k :: 0 <= k <= |rounds| ==> SentAt(history, more, k) == SentAt(history, rounds, k);
  }

  lemma NextParts(world: World, chat: Chat)
    ensures var c := Next(world, chat);
      var round := Made(world, chat);
      && c.rounds == chat.rounds + [round] && c.messages == Continued(round) && c.callsLeft == chat.callsLeft - round.ran
      && c.steps == chat.steps + NamesRun(round) && c.charges == chat.charges + ChargeFor(round.stream)
      && c.end == EndOf(round.stream) && round.sent == chat.messages && round.offered == !LastRound(chat)
  {
  }

  lemma EndsOneMore(rounds: seq<Round>, round: Round)
    requires EndsRight(rounds, Going)
    ensures EndsRight(rounds + [round], EndOf(round.stream))
  {
  }

  lemma NextKeeps(world: World, history: seq<Message>, chat: Chat)
    requires Inv(history, chat) && chat.end == Going
    ensures Inv(history, Next(world, chat)) && |Next(world, chat).rounds| == |chat.rounds| + 1
  {
    hide Made, Next, Continued, ChargeFor, EveryCallAnswered, NamesRun, Separated, Runs, Ran, ChargesFor, Replayed,
      EndsRight, OfferedOnlyInBudget;
    var round := Made(world, chat);
    NextParts(world, chat);
    MadeIsAnswered(world, chat);
    RanOneMore(chat.rounds, round);
    ChargedOneMore(chat.rounds, round);
    OfferedOneMore(chat.rounds, round);
    ReplayedOneMore(history, chat.rounds, round);
    EndsOneMore(chat.rounds, round);
  }

  lemma StartsRight(world: World, history: seq<Message>)
    ensures Inv(history, Play(world, history, 0))
  {
    PlayStarts(world, history);
  }

  lemma {:induction false} PlayKeeps(world: World, history: seq<Message>, n: nat)
    ensures Inv(history, Play(world, history, n)) && |Play(world, history, n).rounds| <= n
    ensures Play(world, history, n).end == Going ==> |Play(world, history, n).rounds| == n
  {
    hide Inv, Next;
    if n == 0 {
      StartsRight(world, history);
    } else {
      PlayKeeps(world, history, n - 1);
      if Play(world, history, n - 1).end == Going {
        NextKeeps(world, history, Play(world, history, n - 1));
      }
    }
  }

  // ---- the main results ---------------------------------------------------

  /**
    Whatever the model does: at most MAX_ROUNDS provider calls, at most
    MAX_TOOL_CALLS tools run, tools run and calls left always make up the whole
    budget, and tools are offered exactly while both budgets last.
  */
  lemma {:induction false} BudgetsHold(world: World, history: seq<Message>, n: nat)
    requires n <= MAX_ROUNDS
    ensures var chat := Play(world, history, n);
      && |chat.rounds| <= MAX_ROUNDS
      && Ran(chat.rounds) + chat.callsLeft == MAX_TOOL_CALLS && Ran(chat.rounds) <= MAX_TOOL_CALLS
      && |chat.steps| == Ran(chat.rounds)
      && (|chat.rounds| == MAX_ROUNDS ==> !chat.rounds[MAX_ROUNDS - 1].offered)
      && (forall k :: 0 <= k < |chat.rounds| - 1 ==>
            (chat.rounds[k].offered <==> Ran(chat.rounds[..k]) < MAX_TOOL_CALLS))
  {
    PlayKeeps(world, history, n);
  }

  /** Every tool call of every turn gets exactly one result, with its id and in order, and the next call is sent it. */
  lemma {:induction false} ResultsMatchCalls(world: World, history: seq<Message>, n: nat, k: nat)
    requires k < |Play(world, history, n).rounds|
    ensures var rounds := Play(world, history, n).rounds;
      && EveryCallAnswered(rounds[k])
      && (k > 0 ==>
            && rounds[k - 1].stream.Finished?
            && rounds[k].sent == rounds[k - 1].sent + [Asked(rounds[k - 1].stream.turn.content), Results(rounds[k - 1].results)])
  {
    PlayKeeps(world, history, n);
  }

  /** Each provider call that completed, was refused or failed is metered once, in order, and nothing else is. */
  lemma {:induction false} MeteredOnce(world: World, history: seq<Message>, n: nat)
    ensures var chat := Play(world, history, n);
      && chat.charges == ChargesFor(chat.rounds)
      && |chat.charges| == |chat.rounds| - (if SilentLast(chat.rounds) then 1 else 0)
      && forall k :: 0 <= k < |chat.charges| ==> MeteredAs(chat.rounds[k].stream, chat.charges[k])
  {
    PlayKeeps(world, history, n);
    ChargeCount(Play(world, history, n).rounds);
  }

  /** A completed call is paid for and names the tools it asked for; a refusal and an error are metered as such. */
  ghost predicate MeteredAs(stream: Stream, charge: Charge) {
    match stream
    case Finished(_, turn) =>
      charge.status == Paid && |charge.tools| == |turn.toolCalls| &&
      forall i :: 0 <= i < |turn.toolCalls| ==> charge.tools[i] == turn.toolCalls[i].name
    case Refused(_) => charge == Charge(Declined, [])
    case Failed(_) => charge == Charge(Errored, [])
    case Silent(_) => false
  }

  ghost predicate SilentLast(rounds: seq<Round>) {
    |rounds| > 0 && rounds[|rounds| - 1].stream.Silent?
  }

  lemma {:induction false} ChargeCount(rounds: seq<Round>)
    requires forall k :: 0 <= k < |rounds| - 1 ==> Continues(rounds[k].stream)
    ensures |ChargesFor(rounds)| == |rounds| - (if SilentLast(rounds) then 1 else 0)
    ensures forall k :: 0 <= k < |ChargesFor(rounds)| ==> MeteredAs(rounds[k].stream, ChargesFor(rounds)[k])
  {
    if rounds != [] {
      var init := rounds[..|rounds| - 1];
      ChargeCount(init);
      assert forall k :: 0 <= k < |init| ==> init[k] == rounds[k];
    }
  }

  // ---- what a conversation is made of -------------------------------------

  /** What came of a tool: its error, or its result, cut after twenty thousand characters. */
  ghost predicate ToolAnswered(world: World, call: ToolCall, n: nat, result: ToolResult) {
    var run := world.tool(call, n);
    && result.id == call.id && (result.isError <==> run.error != "")
    && result.content ==
         if run.error != "" then run.error
         else if |run.result| <= 20_000 then run.result
         else run.result[..20_000] + "\U{2026} (truncated)\""
  }

  /**
    One provider call, when `before` tools have run: tools are offered while the
    budget of ten lasts and it is not the fifth call; what came back is what the
    provider answered; its tools run in order until the budget is spent, and the
    others are told so.
  */
  ghost predicate RealRound(world: World, round: Round, k: nat, before: nat) {
    && before <= 10 && (round.offered <==> k + 1 != 5 && before < 10)
    && round.stream == world.stream(round.sent, round.offered, k)
    && match round.stream
       case Finished(_, turn) =>
         && round.ran == (if |turn.toolCalls| < 10 - before then |turn.toolCalls| else 10 - before)
         && |round.results| == |turn.toolCalls|
         && forall i :: 0 <= i < |turn.toolCalls| ==>
              if i < round.ran then ToolAnswered(world, turn.toolCalls[i], before + i, round.results[i])
              else round.results[i] == ToolResult(turn.toolCalls[i].id, SPENT, true)
       case _ => round.ran == 0 && round.results == []
  }

  lemma MadeIsReal(world: World, chat: Chat)
    requires 0 <= chat.callsLeft && |chat.steps| + chat.callsLeft == 10
    ensures RealRound(world, Made(world, chat), |chat.rounds|, |chat.steps|)
  {
  }

  /** Every provider call of a conversation is real, and the first is sent the history. */
  lemma {:induction false} RoundsAreReal(world: World, history: seq<Message>, n: nat, k: nat)
    requires k < |Play(world, history, n).rounds|
    ensures var rounds := Play(world, history, n).rounds;
      RealRound(world, rounds[k], k, Ran(rounds[..k])) && rounds[0].sent == history
  {
    hide Next, RealRound, Ran, Inv;
    if n > 0 {
      var before := Play(world, history, n - 1);
      PlayKeeps(world, history, n - 1);
      PlayKeeps(world, history, n);
      if before.end == Going {
        NextParts(world, before);
        var rounds := Play(world, history, n).rounds;
        if k < |before.rounds| {
          RoundsAreReal(world, history, n - 1, k);
          assert rounds[..k] == before.rounds[..k];
        } else {
          BudgetOf(history, before);
          MadeIsReal(world, before);
          assert rounds[..k] == before.rounds;
        }
        FirstIsSent(history, Play(world, history, n));
      } else {
        RoundsAreReal(world, history, n - 1, k);
      }
    }
  }

  lemma BudgetOf(history: seq<Message>, chat: Chat)
    requires Inv(history, chat)
    ensures chat.callsLeft >= 0 && |chat.steps| + chat.callsLeft == 10 && |chat.steps| == Ran(chat.rounds)
  {
    hide Ran, ChargesFor;
  }

  lemma FirstIsSent(history: seq<Message>, chat: Chat)
    requires Inv(history, chat) && chat.rounds != []
    ensures chat.rounds[0].sent == history
  {
    hide Ran, ChargesFor;
    assert chat.rounds[0].sent == SentAt(history, chat.rounds, 0);
  }

  /** The names of the tools that ran, in order. */
  ghost function ToolsRun(rounds: seq<Round>): seq<string> {
    if rounds == [] then [] else
      var last := rounds[|rounds| - 1];
      ToolsRun(rounds[..|rounds| - 1]) +
      if last.stream.Finished? && last.ran <= |last.stream.turn.toolCalls|
      then seq(last.ran, i requires 0 <= i < last.ran => last.stream.turn.toolCalls[i].name)
      else []
  }

  /** The steps an answer lists are the tools that ran. */
  lemma {:induction false} StepsAreTools(world: World, history: seq<Message>, n: nat)
    ensures var chat := Play(world, history, n); chat.steps == ToolsRun(chat.rounds)
  {
    hide Next;
    if n > 0 {
      StepsAreTools(world, history, n - 1);
      var before := Play(world, history, n - 1);
      if before.end == Going {
        hide Made, NamesRun, ToolsRun;
        NextParts(world, before);
        ToolsOneMore(before.rounds, Made(world, before));
      }
    }
  }

  lemma ToolsOneMore(rounds: seq<Round>, round: Round)
    ensures ToolsRun(rounds + [round]) == ToolsRun(rounds) + NamesRun(round)
  {
    assert (rounds + [round])[..|rounds|] == rounds;
    if round.stream.Finished? && round.ran <= |round.stream.turn.toolCalls| {
      var calls := round.stream.turn.toolCalls;
      assert Names(calls[..round.ran]) == seq(round.ran, i requires 0 <= i < round.ran => calls[i].name);
    }
  }

  /**
    The text of an answer: each call adds what it streamed, and after a call that
    asked for tools there is a blank line, unless nothing was said or one is there.
  */
  lemma {:induction false} TextMoves(world: World, history: seq<Message>, n: nat)
    requires Play(world, history, n).end == Going
    ensures var before, after := Play(world, history, n), Play(world, history, n + 1);
      && before.rounds < after.rounds && |after.rounds| == |before.rounds| + 1
      && var stream := after.rounds[|before.rounds|].stream;
         var said := before.text + stream.text;
         if stream.Finished? && stream.turn.toolCalls != [] && said != "" && !(exists rest: string :: said == rest + "\n\n") then
           after.text == said + "\n\n"
         else after.text == said
  {
    PlayStep(world, history, n);
    var chat := Play(world, history, n);
    NextParts(world, chat);
    var stream := Made(world, chat).stream;
    EndsInBlank(chat.text + stream.text);
    hide Made;
  }

  lemma EndsInBlank(text: string)
    ensures (exists rest: string :: text == rest + "\n\n") <==> |text| >= 2 && text[|text| - 2..] == "\n\n"
  {
    if |text| >= 2 && text[|text| - 2..] == "\n\n" {
      assert text == text[..|text| - 2] + "\n\n";
    }
  }

  /** How a conversation ends: with an answer, or with the code of what went wrong. */
  lemma {:induction false} EndMeans(world: World, history: seq<Message>)
    ensures var chat := Play(world, history, MAX_ROUNDS);
      && chat.rounds != [] && |chat.rounds| <= 5
      && var stream := chat.rounds[|chat.rounds| - 1].stream;
         && (chat.end == Answered <==> stream.Finished? && stream.turn.toolCalls == [])
         && (chat.end == Stopped("assistant_declined") <==> stream.Refused?)
         && (chat.end == Stopped("assistant_unavailable") <==> stream.Failed? || stream.Silent?)
         && (chat.end == Going <==> stream.Finished? && stream.turn.toolCalls != [])
         && (chat.end == Going ==> |chat.rounds| == 5)
  {
    hide Play, Inv, EndOf;
    PlayKeeps(world, history, MAX_ROUNDS);
    var chat := Play(world, history, MAX_ROUNDS);
    EndsOf(history, chat);
    if chat.rounds != [] {
      EndOfMeans(chat.rounds[|chat.rounds| - 1].stream);
    }
  }

  lemma EndOfMeans(stream: Stream)
    ensures EndOf(stream) == Answered <==> stream.Finished? && stream.turn.toolCalls == []
    ensures EndOf(stream) == Stopped("assistant_declined") <==> stream.Refused?
    ensures EndOf(stream) == Stopped("assistant_unavailable") <==> stream.Failed? || stream.Silent?
    ensures EndOf(stream) == Going <==> stream.Finished? && stream.turn.toolCalls != []
  {
    assert "assistant_declined"[10] != "assistant_unavailable"[10];
  }

  lemma EndsOf(history: seq<Message>, chat: Chat)
    requires Inv(history, chat)
    ensures chat.end == if chat.rounds == [] then Going else EndOf(chat.rounds[|chat.rounds| - 1].stream)
  {
    hide Ran, ChargesFor;
  }
}
