/** The turn loop of the LLM client (src/intelligence/llm.py): retried posts, tool calls, truncation refunds, the
    fallback to a forced tool call, structured retries, and one cost record per conversation.

    What the provider answers is an arbitrary function of the number of the HTTP post. */
module LlmClient {
  import opened Common
  import opened LlmBudget

  // ---------------------------------------------------------------- one post with its retries

  /** `interrupted`: the surrounding timeout cancels the conversation while the tool runs. */
  datatype ToolCall = ToolCall(name: Option<string>, args: string, interrupted: bool)

  datatype Reply = Reply(
    promptTokens: nat, completionTokens: nat, cost: Option<real>,
    finishedByLength: bool, toolCalls: seq<ToolCall>, content: Option<string>)

  /** One HTTP post. `schemaText` says whether the error text contains "Invalid schema". */
  datatype Wire =
    | Unreachable(schemaText: bool)                       // timeout or transport error
    | Busy(schemaText: bool)                              // 429, 500, 502, 503, 504, 524
    | Refused(schemaText: bool)                           // any other status >= 400
    | ErrorBody(passing: bool, schemaText: bool)          // 200 with an error; passing: rate, overloaded, timeout
    | Answer(reply: Reply)
    | Garbled                                             // 200 whose body does not decode (ValueError)
    | Cancel                                              // the surrounding timeout cancels the call

  datatype PostResult = Data(reply: Reply) | LlmError(schemaText: bool) | Raised | Cancelled

  const POST_ATTEMPTS := 4

  function ErrorText(w: Wire): bool {
    match w
    case Unreachable(text) => text
    case Busy(text) => text
    case Refused(text) => text
    case ErrorBody(_, text) => text
    case _ => false
  }

  /** Failures that are worth another attempt; an error body only while attempts are left. */
  predicate Retried(w: Wire, attempt: nat) {
    w.Unreachable? || w.Busy? || (w.ErrorBody? && w.passing && attempt < POST_ATTEMPTS - 1)
  }

  function Final(w: Wire): PostResult {
    match w
    case Answer(reply) => Data(reply)
    case Garbled => Raised
    case Cancel => Cancelled
    case _ => LlmError(ErrorText(w))
  }

  /** The first answer that is not retried, among at most four; after four failures, the text of the last. Without
      an API key there is an error before anything is sent. */
  ghost predicate Posted(wire: nat -> Wire, from: nat, apiKey: bool, r: PostResult, used: nat) {
    && used <= POST_ATTEMPTS && (used == 0 <==> !apiKey)
    && (!apiKey ==> r == LlmError(false))
    && (forall j: nat :: from <= j < from + used - 1 ==> Retried(wire(j), j - from))
    && (apiKey ==>
          if Retried(wire(from + used - 1), used - 1)
          then used == POST_ATTEMPTS && r == LlmError(ErrorText(wire(from + used - 1)))
          else r == Final(wire(from + used - 1)))
  }

  /** What a post with an API key comes to, read off the provider's last answer. */
  lemma PostedMeans(wire: nat -> Wire, from: nat, r: PostResult, used: nat)
    requires Posted(wire, from, true, r, used)
    ensures 1 <= used <= 4
    ensures match wire(from + used - 1)
            case Answer(reply) => r == Data(reply)
            case Unreachable(text) => used == 4 && r == LlmError(text)
            case Busy(text) => used == 4 && r == LlmError(text)
            case Refused(text) => r == LlmError(text)
            case ErrorBody(passing, text) => (passing ==> used == 4) && r == LlmError(text)
            case Garbled => r == Raised
            case Cancel => r == Cancelled
    ensures forall j: nat :: from <= j < from + used - 1 ==>
              wire(j).Unreachable? || wire(j).Busy? || (wire(j).ErrorBody? && wire(j).passing)
  {
  }

  /** `_post`. */
  method Post(wire: nat -> Wire, from: nat, apiKey: bool) returns (r: PostResult, used: nat)
    ensures Posted(wire, from, apiKey, r, used)
  {
    used := 0;
    var last := false;
    if !apiKey {
      return LlmError(false), 0;
    }
    for attempt := 0 to POST_ATTEMPTS
      invariant used == attempt
      invariant forall j: nat :: from <= j < from + used ==> Retried(wire(j), j - from)
      invariant used > 0 ==> last == ErrorText(wire(from + used - 1))
    {
      var answer := wire(from + used);
      used := used + 1;
      if answer.Unreachable? || answer.Busy? {
        last := ErrorText(answer);
        continue;
      }
      if answer.ErrorBody? && attempt < 3 && answer.passing {
        last := ErrorText(answer);
        continue;
      }
      return Final(answer), used;
    }
    r := LlmError(last);
  }

  // ---------------------------------------------------------------- tools

  datatype Tool = Tool(name: string, allowedRoles: seq<string>)

  /** The names a role may call. */
  function AllowedNames(tools: seq<Tool>, role: string): set<string> {
    set t | t in tools && (t.allowedRoles == [] || role in t.allowedRoles) :: t.name
  }

  /** A call of the tool that carries the final answer. */
  predicate IsFinal(call: ToolCall, schemaTool: Option<string>) {
    call.name.Some? && call.name == schemaTool
  }

  predicate MayRun(call: ToolCall, allowed: set<string>) {
    call.name.Some? && call.name.value != "" && call.name.value in allowed
  }

  /** What stops the calls of a message, if anything: the first that is not permitted or is interrupted. */
  datatype Stop = Through | Forbidden | Interrupted

  function StopOf(calls: seq<ToolCall>, allowed: set<string>, schemaTool: Option<string>): Stop {
    if calls == [] then Through
    else if IsFinal(calls[0], schemaTool) then StopOf(calls[1..], allowed, schemaTool)
    else if !MayRun(calls[0], allowed) then Forbidden
    else if calls[0].interrupted then Interrupted
    else StopOf(calls[1..], allowed, schemaTool)
  }

  /** A message gets through exactly when each call is of the schema tool, or of an allowed tool that finishes. */
  lemma {:induction false} ThroughIff(calls: seq<ToolCall>, allowed: set<string>, schemaTool: Option<string>)
    ensures StopOf(calls, allowed, schemaTool).Through? <==>
            forall i :: 0 <= i < |calls| ==>
              IsFinal(calls[i], schemaTool) || (MayRun(calls[i], allowed) && !calls[i].interrupted)
  {
    hide IsFinal, MayRun;
    if calls != [] {
      var rest := calls[1..];
      ThroughIff(rest, allowed, schemaTool);
      assert calls == [calls[0]] + rest;
    }
  }

  /** The tools run for a message: its calls in order, without those of the schema tool, up to the one that
      stops them. */
  function Executed(calls: seq<ToolCall>, allowed: set<string>, schemaTool: Option<string>): (r: seq<string>)
    ensures forall name :: name in r ==> name in allowed && Some(name) != schemaTool
  {
    if calls == [] then []
    else if IsFinal(calls[0], schemaTool) then Executed(calls[1..], allowed, schemaTool)
    else if MayRun(calls[0], allowed) && !calls[0].interrupted
    then [calls[0].name.value] + Executed(calls[1..], allowed, schemaTool)
    else []
  }

  /** The arguments of the last call of the schema tool. */
  function FinalArgs(calls: seq<ToolCall>, schemaTool: Option<string>): (r: Option<string>)
    ensures r.Some? ==> schemaTool.Some?
  {
    if calls == [] then None
    else if IsFinal(calls[|calls| - 1], schemaTool) then Some(calls[|calls| - 1].args)
    else FinalArgs(calls[..|calls| - 1], schemaTool)
  }

  lemma FinalArgsSnoc(calls: seq<ToolCall>, i: nat, schemaTool: Option<string>)
    requires i < |calls|
    ensures FinalArgs(calls[..i + 1], schemaTool)
            == if IsFinal(calls[i], schemaTool) then Some(calls[i].args) else FinalArgs(calls[..i], schemaTool)
  {
    assert calls[..i + 1][..i] == calls[..i];
  }

  lemma CallStep(calls: seq<ToolCall>, i: nat, allowed: set<string>, schemaTool: Option<string>)
    requires i < |calls|
    ensures var rest := calls[i + 1..];
            if IsFinal(calls[i], schemaTool) then
              && Executed(calls[i..], allowed, schemaTool) == Executed(rest, allowed, schemaTool)
              && StopOf(calls[i..], allowed, schemaTool) == StopOf(rest, allowed, schemaTool)
            else if MayRun(calls[i], allowed) && !calls[i].interrupted then
              && Executed(calls[i..], allowed, schemaTool)
                 == [calls[i].name.value] + Executed(rest, allowed, schemaTool)
              && StopOf(calls[i..], allowed, schemaTool) == StopOf(rest, allowed, schemaTool)
            else
              && Executed(calls[i..], allowed, schemaTool) == []
              && StopOf(calls[i..], allowed, schemaTool)
                 == if MayRun(calls[i], allowed) then Interrupted else Forbidden
  {
    assert calls[i..][1..] == calls[i + 1..];
  }

  /** The final answer is what the last call of the schema tool says. */
  lemma {:induction false} FinalArgsOfLast(calls: seq<ToolCall>, schemaTool: string, args: string)
    ensures FinalArgs(calls, Some(schemaTool)) == Some(args) <==>
            exists k :: && 0 <= k < |calls| && calls[k].name == Some(schemaTool) && calls[k].args == args
                        && forall i :: k < i < |calls| ==> calls[i].name != Some(schemaTool)
  {
    if calls != [] {
      var n := |calls| - 1;
      var front := calls[..n];
      FinalArgsOfLast(front, schemaTool, args);
      assert forall i :: 0 <= i < n ==> front[i] == calls[i];
    }
  }

  /** Allowed tools that finish all run, in order, when the message does not call the schema tool. */
  lemma {:induction false} AllowedToolsRun(
    calls: seq<ToolCall>, allowed: set<string>, schemaTool: Option<string>, i: nat)
    requires forall k :: 0 <= k < |calls| ==>
               && calls[k].name.Some? && calls[k].name.value != "" && calls[k].name.value in allowed
               && calls[k].name != schemaTool && !calls[k].interrupted
    requires i < |calls|
    ensures |Executed(calls, allowed, schemaTool)| == |calls|
    ensures Some(Executed(calls, allowed, schemaTool)[i]) == calls[i].name
  {
    var rest := calls[1..];
    assert forall k :: 0 <= k < |rest| ==> rest[k] == calls[k + 1];
    if rest == [] {
      assert Executed(rest, allowed, schemaTool) == [];
    } else {
      AllowedToolsRun(rest, allowed, schemaTool, if i > 0 then i - 1 else 0);
    }
  }

  lemma NothingCalled(calls: seq<ToolCall>, allowed: set<string>, schemaTool: Option<string>)
    ensures StopOf([], allowed, schemaTool) == Through && FinalArgs([], schemaTool) == None
    ensures Executed([], allowed, schemaTool) == []
  {
  }

  /** The calls of one message. Anything that is neither the schema tool nor allowed stops it (ToolPermissionError), and
      so does a cancellation while a tool runs. */
  method RunToolCalls(calls: seq<ToolCall>, allowed: set<string>, schemaTool: Option<string>)
    returns (executed: seq<string>, finalCall: Option<string>, stop: Stop)
    ensures executed == Executed(calls, allowed, schemaTool)
    ensures stop == StopOf(calls, allowed, schemaTool)
    ensures stop.Through? ==> finalCall == FinalArgs(calls, schemaTool)
  {
    hide Executed, StopOf, FinalArgs, IsFinal;
    executed, finalCall := [], None;
    NothingCalled(calls, allowed, schemaTool);
    assert calls[..0] == [] && calls[0..] == calls;
    for i := 0 to |calls|
      invariant Executed(calls, allowed, schemaTool) == executed + Executed(calls[i..], allowed, schemaTool)
      invariant StopOf(calls, allowed, schemaTool) == StopOf(calls[i..], allowed, schemaTool)
      invariant finalCall == FinalArgs(calls[..i], schemaTool)
    {
      var call := calls[i];
      CallStep(calls, i, allowed, schemaTool);
      FinalArgsSnoc(calls, i, schemaTool);
      if IsFinal(call, schemaTool) {
        finalCall := Some(call.args);
      } else if !MayRun(call, allowed) {
        return executed, finalCall, Forbidden;
      } else if call.interrupted {
        return executed, finalCall, Interrupted;
      } else {
        executed := executed + [call.name.value];
      }
    }
    assert calls[..|calls|] == calls && calls[|calls|..] == [];
    stop := Through;
  }

  // ---------------------------------------------------------------- cost

  datatype Price = Price(perMillionIn: real, perMillionOut: real)

  function CostFor(price: Price, tokensIn: nat, tokensOut: nat): real {
    tokensIn as real / 1000000.0 * price.perMillionIn + tokensOut as real / 1000000.0 * price.perMillionOut
  }

  function TokensIn(replies: seq<Reply>): nat {
    if replies == [] then 0 else TokensIn(replies[..|replies| - 1]) + replies[|replies| - 1].promptTokens
  }

  function TokensOut(replies: seq<Reply>): nat {
    if replies == [] then 0 else TokensOut(replies[..|replies| - 1]) + replies[|replies| - 1].completionTokens
  }

  function Reported(replies: seq<Reply>): real {
    if replies == [] then 0.0
    else Reported(replies[..|replies| - 1]) + replies[|replies| - 1].cost.GetOr(0.0)
  }

  /** The running total: a reported cost is added, a missing one resets the total to the price of all tokens. */
  function CostOf(price: Price, replies: seq<Reply>): real {
    if replies == [] then 0.0
    else
      var last := replies[|replies| - 1];
      if last.cost.Some? then last.cost.value + CostOf(price, replies[..|replies| - 1])
      else CostFor(price, TokensIn(replies), TokensOut(replies))
  }

  lemma AnotherReply(price: Price, replies: seq<Reply>, reply: Reply)
    ensures TokensIn(replies + [reply]) == TokensIn(replies) + reply.promptTokens
    ensures TokensOut(replies + [reply]) == TokensOut(replies) + reply.completionTokens
    ensures CostOf(price, replies + [reply]) ==
            if reply.cost.Some? then reply.cost.value + CostOf(price, replies)
            else CostFor(price, TokensIn(replies) + reply.promptTokens, TokensOut(replies) + reply.completionTokens)
  {
    assert (replies + [reply])[..|replies|] == replies;
  }

  lemma ReportedSnoc(replies: seq<Reply>, reply: Reply)
    ensures Reported(replies + [reply]) == Reported(replies) + reply.cost.GetOr(0.0)
  {
    assert (replies + [reply])[..|replies|] == replies;
  }

  lemma {:induction false} CostWhenAllReported(price: Price, replies: seq<Reply>)
    requires forall r :: r in replies ==> r.cost.Some?
    ensures CostOf(price, replies) == Reported(replies)
  {
    if replies != [] {
      assert replies[|replies| - 1] in replies;
      CostWhenAllReported(price, replies[..|replies| - 1]);
    }
  }

  /** A million tokens cost the price per million: prompts the one for input, completions the one for output. */
  lemma TokensPriced(price: Price, tokensIn: nat, tokensOut: nat)
    ensures 1000000.0 * CostFor(price, tokensIn, tokensOut)
            == tokensIn as real * price.perMillionIn + tokensOut as real * price.perMillionOut
  {
    MillionOf(tokensIn as real, price.perMillionIn);
    MillionOf(tokensOut as real, price.perMillionOut);
  }

  lemma MillionOf(tokens: real, price: real)
    ensures 1000000.0 * (tokens / 1000000.0 * price) == tokens * price
  {
    assert 1000000.0 * (tokens / 1000000.0) == tokens;
  }

  /** A million times the amount is what the prompt and the completion tokens come to at their prices per million. */
  predicate PricedByTokens(amount: real, price: Price, replies: seq<Reply>) {
    1000000.0 * amount
    == TokensIn(replies) as real * price.perMillionIn + TokensOut(replies) as real * price.perMillionOut
  }

  lemma CostWhenNoneReported(price: Price, replies: seq<Reply>)
    requires forall r :: r in replies ==> r.cost.None?
    ensures PricedByTokens(CostOf(price, replies), price, replies)
  {
    hide CostFor;
    if replies != [] {
      assert replies[|replies| - 1] in replies;
      TokensPriced(price, TokensIn(replies), TokensOut(replies));
    }
  }

  /** In general: the price of the tokens up to the last unreported round, plus what was reported after it. */
  lemma CostAfterLastUnreported(price: Price, upTo: seq<Reply>, later: seq<Reply>)
    requires upTo != [] && upTo[|upTo| - 1].cost.None?
    requires forall i :: 0 <= i < |later| ==> later[i].cost.Some?
    ensures PricedByTokens(CostOf(price, upTo + later) - Reported(later), price, upTo)
  {
    hide CostFor, CostOf, TokensIn, TokensOut, Reported;
    CostFromLastUnreported(price, upTo, later);
    TokensPriced(price, TokensIn(upTo), TokensOut(upTo));
  }

  lemma {:induction false} CostFromLastUnreported(price: Price, upTo: seq<Reply>, later: seq<Reply>)
    requires upTo != [] && upTo[|upTo| - 1].cost.None?
    requires forall i :: 0 <= i < |later| ==> later[i].cost.Some?
    ensures CostOf(price, upTo + later) == CostFor(price, TokensIn(upTo), TokensOut(upTo)) + Reported(later)
  {
    if later == [] {
      assert upTo + later == upTo;
    } else {
      hide CostFor, CostOf, TokensIn, TokensOut, Reported;
      var front, last := later[..|later| - 1], later[|later| - 1];
      CostFromLastUnreported(price, upTo, front);
      AnotherReply(price, upTo + front, last);
      ReportedSnoc(front, last);
      assert front + [last] == later && (upTo + front) + [last] == upTo + later;
    }
  }

  // ---------------------------------------------------------------- the conversation

  datatype Role = Role(name: string, maxOutputTokens: nat, supportsJsonSchema: bool, maxToolTurns: int)

  /** Validation of the final answer, from the arguments of a tool call or from the text (None when it fails). */
  datatype Schema = Schema(
    name: string, fromArgs: string -> Option<string>, fromText: Option<string> -> Option<string>)

  /** What each request asks for. */
  datatype Payload = Payload(maxTokens: nat, schemaTool: bool, forced: bool, responseFormat: bool)

  datatype Result =
    | Returned(content: Option<string>, parsed: Option<string>)
    | BudgetExceeded
    | Failed          // LLMError from the provider
    | InvalidOutput   // LLMOutputError
    | NotPermitted    // ToolPermissionError
    | Crashed         // any other exception of a post
    | WasCancelled

  /** What the loop keeps count of. */
  datatype State = State(turns: int, useSchemaTool: bool, retriesLeft: int, lengthRetries: nat, maxTokens: nat)

  datatype Next = Again(s: State) | Done(r: Result)

  /** What a conversation is about, and how each answer moves it on. */
  datatype Setup = Setup(role: Role, schema: Option<Schema>, allowed: set<string>, maxRetries: int) {
    function MaxTurns(): int {
      if allowed != {} then MaxInt(1, role.maxToolTurns + 1) else 1
    }

    function Start(): State {
      State(0, schema.Some? && !role.supportsJsonSchema, maxRetries, 0, role.maxOutputTokens)
    }

    /** The loop condition. */
    predicate Open(s: State) {
      s.turns < MaxTurns() + s.retriesLeft + 1
    }

    function PayloadIn(s: State): Payload {
      Payload(
        s.maxTokens, s.useSchemaTool, s.useSchemaTool && s.turns + 1 >= MaxTurns(), schema.Some? && !s.useSchemaTool)
    }

    function SchemaTool(s: State): Option<string> {
      if s.useSchemaTool && schema.Some? then Some(schema.value.name) else None
    }

    /** A final answer that does not validate uses up a structured retry. */
    function Judged(s: State, content: Option<string>, parsed: Option<string>): Next {
      if parsed.Some? then Done(Returned(content, parsed))
      else if s.retriesLeft < 1 then Done(InvalidOutput)
      else Again(s.(retriesLeft := s.retriesLeft - 1))
    }

    function Step(s: State, data: PostResult): Next {
      match data
      case Cancelled => Done(WasCancelled)
      case Raised => Done(Crashed)
      case LlmError(schemaText) =>
        if schemaText && schema.Some? && !s.useSchemaTool then Again(s.(useSchemaTool := true)) else Done(Failed)
      case Data(reply) =>
        var taken := s.(turns := s.turns + 1);
        if reply.finishedByLength && reply.toolCalls == [] && s.lengthRetries < 2 then
          Again(s.(lengthRetries := s.lengthRetries + 1, maxTokens := s.maxTokens * 2))
        else if reply.toolCalls == [] && schema.None? then Done(Returned(reply.content, None))
        else if reply.toolCalls == [] then Judged(taken, reply.content, schema.value.fromText(reply.content))
        else
          match StopOf(reply.toolCalls, allowed, SchemaTool(s))
          case Forbidden => Done(NotPermitted)
          case Interrupted => Done(WasCancelled)
          case Through =>
            match FinalArgs(reply.toolCalls, SchemaTool(s))
            case None => Again(taken)
            case Some(args) => Judged(taken, Some(args), schema.value.fromArgs(args))
    }

    /** The state after those answers, if the conversation is still going on. */
    function After(outcomes: seq<PostResult>): Option<State> {
      if outcomes == [] then Some(Start())
      else
        var n := |outcomes| - 1;
        match After(outcomes[..n])
        case None => None
        case Some(s) => if Open(s) && Step(s, outcomes[n]).Again? then Some(Step(s, outcomes[n]).s) else None
    }

    /** The conversation ends with its last answer, or runs out of turns. */
    ghost predicate Ends(outcomes: seq<PostResult>, r: Result) {
      var before := After(outcomes[..MaxInt(0, |outcomes| - 1)]);
      || (&& outcomes != []
          && before.Some? && Open(before.value)
          && Step(before.value, outcomes[|outcomes| - 1]) == Done(r))
      || (&& After(outcomes).Some?
          && !Open(After(outcomes).value)
          && r == if schema.Some? then InvalidOutput else Returned(None, None))
    }

    /** The tools run for one answer. */
    function Ran(s: State, data: PostResult): seq<string> {
      if data.Data? then Executed(data.reply.toolCalls, allowed, SchemaTool(s)) else []
    }

    function AllRan(outcomes: seq<PostResult>): seq<string> {
      if outcomes == [] then []
      else
        var n := |outcomes| - 1;
        AllRan(outcomes[..n]) + match After(outcomes[..n]) case None => [] case Some(s) => Ran(s, outcomes[n])
    }

    lemma AfterSnoc(outcomes: seq<PostResult>, data: PostResult)
      requires After(outcomes).Some? && Open(After(outcomes).value)
      ensures var s := After(outcomes).value;
              && After(outcomes + [data]) == (if Step(s, data).Again? then Some(Step(s, data).s) else None)
              && AllRan(outcomes + [data]) == AllRan(outcomes) + Ran(s, data)
              && (Step(s, data).Done? ==> Ends(outcomes + [data], Step(s, data).r))
    {
      assert (outcomes + [data])[..|outcomes|] == outcomes;
    }

    /** In every reachable state: each round is a counted turn, the one fallback or one of the two refunds; the
        tokens have doubled once per refund; a structured retry is never given back. */
    lemma {:induction false} Reachable(outcomes: seq<PostResult>)
      requires After(outcomes).Some?
      ensures var s := After(outcomes).value;
              && 0 <= s.turns <= MaxInt(0, MaxTurns() + maxRetries + 1)
              && s.retriesLeft <= maxRetries && s.lengthRetries <= 2
              && |outcomes| <= s.turns + s.lengthRetries + (if s.useSchemaTool then 1 else 0)
              && s.maxTokens == Doubled(role.maxOutputTokens, s.lengthRetries)
              && (s.useSchemaTool ==> schema.Some?)
    {
      if outcomes != [] {
        Reachable(outcomes[..|outcomes| - 1]);
      }
    }

    /** A conversation that ends under a schema with a normal return carries a validated answer, and takes at most
        three rounds more than the turns. */
    lemma EndsSoundly(outcomes: seq<PostResult>, r: Result)
      requires Ends(outcomes, r)
      ensures r.Returned? && schema.Some? ==>
                && r.parsed.Some?
                && ((exists args :: schema.value.fromArgs(args) == r.parsed)
                    || (exists text :: schema.value.fromText(text) == r.parsed))
      ensures r.Returned? && schema.None? ==> r.parsed.None?
      ensures |outcomes| <= MaxInt(0, MaxTurns() + maxRetries + 1) + 3
      ensures r != BudgetExceeded
    {
      hide Doubled;
      var front := outcomes[..MaxInt(0, |outcomes| - 1)];
      if After(outcomes).Some? {
        Reachable(outcomes);
      } else {
        Reachable(front);
      }
    }

    /** Within four times the role's tokens, and asking for the schema in exactly one way. */
    predicate PayloadOk(p: Payload) {
      && p.maxTokens <= 4 * role.maxOutputTokens
      && (p.forced ==> p.schemaTool)
      && (if schema.Some? then p.schemaTool != p.responseFormat else !p.schemaTool && !p.responseFormat)
    }

    lemma PayloadsOk(sent: seq<Payload>, outcomes: seq<PostResult>)
      requires InForm(sent, outcomes, this)
      ensures forall k :: 0 <= k < |sent| ==> PayloadOk(sent[k])
    {
      forall k | 0 <= k < |sent|
        ensures PayloadOk(sent[k])
      {
        Reachable(outcomes[..k]);
      }
    }

    lemma {:induction false} OnlyAllowedRan(outcomes: seq<PostResult>)
      ensures forall name :: name in AllRan(outcomes) ==> name in allowed
    {
      if outcomes != [] {
        OnlyAllowedRan(outcomes[..|outcomes| - 1]);
      }
    }
  }

  /** An answer that is not accepted: a text that is not cut short, or a call of the schema tool, that does not
      validate. */
  predicate Rejected(c: Setup, s: State, data: PostResult)
    requires c.schema.Some?
  {
    && data.Data?
    && var reply := data.reply;
    if reply.toolCalls == [] then
      !(reply.finishedByLength && s.lengthRetries < 2) && c.schema.value.fromText(reply.content).None?
    else
      && StopOf(reply.toolCalls, c.allowed, c.SchemaTool(s)).Through?
      && var args := FinalArgs(reply.toolCalls, c.SchemaTool(s));
      args.Some? && c.schema.value.fromArgs(args.value).None?
  }

  /** A round of tools without a final answer. */
  predicate OnlyTools(c: Setup, s: State, data: PostResult) {
    && data.Data? && data.reply.toolCalls != []
    && StopOf(data.reply.toolCalls, c.allowed, c.SchemaTool(s)).Through?
    && FinalArgs(data.reply.toolCalls, c.SchemaTool(s)).None?
  }

  /** A round that costs no turn: an answer cut short, or the fallback to the schema tool. */
  predicate Refund(c: Setup, s: State, data: PostResult) {
    match data
    case LlmError(schemaText) => schemaText && c.schema.Some? && !s.useSchemaTool
    case Data(reply) => reply.finishedByLength && reply.toolCalls == [] && s.lengthRetries < 2
    case _ => false
  }

  /** The rounds of a conversation that got no valid answer: how many were rejected, how many ran only tools. */
  datatype Rounds = Rounds(rejected: nat, tools: nat)

  /** None when a round was of another kind, or came after the end. */
  ghost function RoundsOf(c: Setup, outcomes: seq<PostResult>): Option<Rounds>
    requires c.schema.Some?
  {
    if outcomes == [] then Some(Rounds(0, 0))
    else
      var n := |outcomes| - 1;
      var data, before, s := outcomes[n], RoundsOf(c, outcomes[..n]), c.After(outcomes[..n]);
      if before.None? || s.None? || !c.Open(s.value) then None
      else if Rejected(c, s.value, data) then Some(before.value.(rejected := before.value.rejected + 1))
      else if OnlyTools(c, s.value, data) then Some(before.value.(tools := before.value.tools + 1))
      else if Refund(c, s.value, data) then before
      else None
  }

  /** Each rejected answer uses a turn and takes one retry off the bound of the turns; tools use a turn. */
  lemma {:induction false} AfterRejections(c: Setup, outcomes: seq<PostResult>)
    requires c.schema.Some? && c.maxRetries >= 0 && RoundsOf(c, outcomes).Some?
    ensures var rounds := RoundsOf(c, outcomes).value;
            && rounds.rejected <= c.maxRetries + 1
            && (rounds.rejected == c.maxRetries + 1 ==>
                  c.After(outcomes).None? && c.maxRetries + rounds.tools <= c.MaxTurns())
            && 2 * rounds.rejected + rounds.tools <= c.MaxTurns() + c.maxRetries + 2
            && (c.After(outcomes).None? ==> rounds.rejected == c.maxRetries + 1)
            && (c.After(outcomes).Some? ==>
                  && c.After(outcomes).value.turns == rounds.rejected + rounds.tools
                  && c.After(outcomes).value.retriesLeft == c.maxRetries - rounds.rejected)
  {
    if outcomes != [] {
      hide StopOf, FinalArgs, Setup.SchemaTool, Setup.MaxTurns;
      AfterRejections(c, outcomes[..|outcomes| - 1]);
    }
  }

  /** A model that never gives a valid answer, in text or through the schema tool, with any tools and refunds in
      between. It is asked again for each of the R structured retries exactly when R plus the rounds of tools are at
      most the M turns; otherwise half of M + R less the rounds of tools times, rounded down. */
  lemma ReasksMade(c: Setup, outcomes: seq<PostResult>, r: Result)
    requires c.schema.Some? && c.maxRetries >= 0 && RoundsOf(c, outcomes).Some?
    requires c.Ends(outcomes, r)
    ensures r == InvalidOutput
    ensures var rounds := RoundsOf(c, outcomes).value;
            && rounds.rejected - 1
               == (if c.maxRetries + rounds.tools <= c.MaxTurns() then c.maxRetries
                   else (c.MaxTurns() + c.maxRetries - rounds.tools) / 2)
            && (rounds.rejected - 1 == c.maxRetries <==> c.maxRetries + rounds.tools <= c.MaxTurns())
  {
    hide StopOf, FinalArgs, Setup.SchemaTool, Setup.MaxTurns;
    AfterRejections(c, outcomes);
    if outcomes != [] {
      AfterRejections(c, outcomes[..|outcomes| - 1]);
    }
  }

  /** A schema that accepts nothing, no tools, and the default of two retries. */
  const STRICT := Schema("answer", (args: string) => None, (text: Option<string>) => None)
  const PLAIN := Role("role", 100, true, 0)
  const FORCED := Role("role", 100, false, 0)
  const TEXT := Data(Reply(1, 1, None, false, [], Some("no")))
  const CALL := Data(Reply(1, 1, None, false, [ToolCall(Some("answer"), "no", false)], None))

  /** The input: one turn and two retries make one re-ask, by text as well as through the schema tool. */
  lemma TwoRetriesOneReask()
    ensures var c := Setup(PLAIN, Some(STRICT), {}, 2);
            && c.MaxTurns() == 1 && c.Ends([TEXT, TEXT], InvalidOutput)
            && RoundsOf(c, [TEXT, TEXT]) == Some(Rounds(2, 0))
    ensures var c := Setup(FORCED, Some(STRICT), {}, 2);
            && c.MaxTurns() == 1 && c.Ends([CALL, CALL], InvalidOutput)
            && RoundsOf(c, [CALL, CALL]) == Some(Rounds(2, 0))
  {
    TwoRounds(Setup(PLAIN, Some(STRICT), {}, 2), TEXT);
    var c := Setup(FORCED, Some(STRICT), {}, 2);
    assert FinalArgs(CALL.reply.toolCalls, Some("answer")) == Some("no");
    TwoRounds(c, CALL);
  }

  lemma TwoRounds(c: Setup, data: PostResult)
    requires c.schema.Some? && c.maxRetries == 2 && c.MaxTurns() == 1
    requires forall s: State :: s.useSchemaTool == c.Start().useSchemaTool ==> Rejected(c, s, data)
    ensures c.Ends([data, data], InvalidOutput) && RoundsOf(c, [data, data]) == Some(Rounds(2, 0))
  {
    var outcomes := [data, data];
    assert outcomes[..1] == [data] && outcomes[..1][..0] == [];
    assert c.After(outcomes[..1]).Some? && RoundsOf(c, outcomes[..1]) == Some(Rounds(1, 0));
  }

  function Doubled(tokens: nat, times: nat): (r: nat)
    ensures times <= 2 ==> r <= 4 * tokens
  {
    if times == 0 then tokens else if times == 1 then tokens * 2 else tokens * 4
  }

  /** Everything the loop leaves behind: the payloads, how many posts had gone out before each, the outcomes of the
      requests, and the tools that ran. */
  datatype Trace = Trace(
    sent: seq<Payload>, starts: seq<nat>, posts: nat, outcomes: seq<PostResult>, toolsUsed: seq<string>)
  {
    function Replies(): seq<Reply> {
      RepliesOf(outcomes)
    }

  }

  function RepliesOf(outcomes: seq<PostResult>): seq<Reply> {
    if outcomes == [] then []
    else
      var last := outcomes[|outcomes| - 1];
      RepliesOf(outcomes[..|outcomes| - 1]) + if last.Data? then [last.reply] else []
  }

  lemma RepliesSnoc(outcomes: seq<PostResult>, data: PostResult)
    ensures RepliesOf(outcomes + [data])
            == if data.Data? then RepliesOf(outcomes) + [data.reply] else RepliesOf(outcomes)
  {
    assert (outcomes + [data])[..|outcomes|] == outcomes;
  }

  const NO_TRACE := Trace([], [], 0, [], [])

  /** Each request, in turn, got what the provider answered to its posts. */
  ghost predicate Answered(starts: seq<nat>, posts: nat, outcomes: seq<PostResult>, wire: nat -> Wire, apiKey: bool)
    decreases |starts|
  {
    if starts == [] || outcomes == [] then starts == [] && outcomes == [] && posts == 0
    else
      var n := |starts| - 1;
      && |outcomes| == n + 1 && starts[n] <= posts
      && Answered(starts[..n], starts[n], outcomes[..n], wire, apiKey)
      && Posted(wire, starts[n], apiKey, outcomes[n], posts - starts[n])
  }

  /** Each request carried the payload of the state it was made in. */
  ghost predicate InForm(sent: seq<Payload>, outcomes: seq<PostResult>, c: Setup)
  {
    && |sent| == |outcomes|
    && forall k :: 0 <= k < |sent| ==>
         c.After(outcomes[..k]).Some? && sent[k] == c.PayloadIn(c.After(outcomes[..k]).value)
  }

  ghost predicate Exchanged(t: Trace, c: Setup, wire: nat -> Wire, apiKey: bool) {
    Answered(t.starts, t.posts, t.outcomes, wire, apiKey) && InForm(t.sent, t.outcomes, c)
  }

  lemma {:induction false} FourPostsEach(
    starts: seq<nat>, posts: nat, outcomes: seq<PostResult>, wire: nat -> Wire, apiKey: bool)
    requires Answered(starts, posts, outcomes, wire, apiKey)
    ensures |starts| == |outcomes| && posts <= 4 * |outcomes|
    decreases |starts|
  {
    if starts != [] && outcomes != [] {
      var n := |starts| - 1;
      FourPostsEach(starts[..n], starts[n], outcomes[..n], wire, apiKey);
    }
  }

  function Sent(t: Trace, payload: Payload, data: PostResult, used: nat): Trace {
    t.(sent := t.sent + [payload], starts := t.starts + [t.posts], posts := t.posts + used,
       outcomes := t.outcomes + [data])
  }

  lemma InFormSnoc(sent: seq<Payload>, outcomes: seq<PostResult>, c: Setup, payload: Payload, data: PostResult)
    requires InForm(sent, outcomes, c)
    requires c.After(outcomes).Some? && payload == c.PayloadIn(c.After(outcomes).value)
    ensures InForm(sent + [payload], outcomes + [data], c)
  {
    hide Setup.After, Setup.PayloadIn;
    var n := |outcomes|;
    var later := outcomes + [data];
    assert later[..n] == outcomes;
    forall k | 0 <= k < n + 1
      ensures c.After(later[..k]).Some? && (sent + [payload])[k] == c.PayloadIn(c.After(later[..k]).value)
    {
      assert k < n ==> later[..k] == outcomes[..k];
    }
  }

  lemma ExchangedSnoc(
    t: Trace, c: Setup, wire: nat -> Wire, apiKey: bool, payload: Payload, data: PostResult, used: nat)
    requires Exchanged(t, c, wire, apiKey) && Posted(wire, t.posts, apiKey, data, used)
    requires c.After(t.outcomes).Some? && payload == c.PayloadIn(c.After(t.outcomes).value)
    ensures Exchanged(Sent(t, payload, data, used), c, wire, apiKey)
  {
    hide Posted, Setup.After, Setup.PayloadIn, InForm;
    InFormSnoc(t.sent, t.outcomes, c, payload, data);
    FourPostsEach(t.starts, t.posts, t.outcomes, wire, apiKey);
    assert (t.starts + [t.posts])[..|t.starts|] == t.starts;
    assert (t.outcomes + [data])[..|t.outcomes|] == t.outcomes;
  }

  /** The running totals of `_complete`. */
  datatype Meter = Meter(tokensIn: nat, tokensOut: nat, cost: real)

  ghost predicate Metered(m: Meter, price: Price, replies: seq<Reply>) {
    m == Meter(TokensIn(replies), TokensOut(replies), CostOf(price, replies))
  }

  /** One request of the loop: the payload goes out, and an answer is added to the totals. */
  method Ask(wire: nat -> Wire, apiKey: bool, payload: Payload, t: Trace, m: Meter, price: Price, ghost c: Setup)
    returns (data: PostResult, t': Trace, m': Meter)
    requires Exchanged(t, c, wire, apiKey) && Metered(m, price, t.Replies())
    requires c.After(t.outcomes).Some? && payload == c.PayloadIn(c.After(t.outcomes).value)
    ensures Exchanged(t', c, wire, apiKey) && Metered(m', price, t'.Replies())
    ensures t'.outcomes == t.outcomes + [data] && t'.toolsUsed == t.toolsUsed
  {
    hide CostFor, CostOf, TokensIn, TokensOut, RepliesOf, Exchanged, Setup.After, Setup.PayloadIn, Posted;
    var used;
    data, used := Post(wire, t.posts, apiKey);
    ExchangedSnoc(t, c, wire, apiKey, payload, data, used);
    t', m' := Sent(t, payload, data, used), m;
    RepliesSnoc(t.outcomes, data);
    if data.Data? {
      var reply := data.reply;
      AnotherReply(price, t.Replies(), reply);
      var totalIn, totalOut := m.tokensIn + reply.promptTokens, m.tokensOut + reply.completionTokens;
      m' := Meter(totalIn, totalOut,
                  if reply.cost.Some? then reply.cost.value + m.cost else CostFor(price, totalIn, totalOut));
    }
  }

  lemma ToolsKeepExchanged(t: Trace, c: Setup, wire: nat -> Wire, apiKey: bool, toolsUsed: seq<string>)
    requires Exchanged(t, c, wire, apiKey)
    ensures Exchanged(t.(toolsUsed := toolsUsed), c, wire, apiKey)
  {
    hide Answered, InForm;
  }

  /** What holds before each round of the loop. */
  ghost predicate Going(t: Trace, c: Setup, s: State) {
    c.After(t.outcomes) == Some(s) && t.toolsUsed == c.AllRan(t.outcomes)
  }

  lemma NothingYet(c: Setup, wire: nat -> Wire, apiKey: bool, price: Price)
    ensures Exchanged(NO_TRACE, c, wire, apiKey) && Going(NO_TRACE, c, c.Start())
    ensures Metered(Meter(0, 0, 0.0), price, NO_TRACE.Replies())
  {
  }

  function Refunded(lengthRetries: nat): nat {
    if lengthRetries < 2 then lengthRetries else 2
  }

  method RunLoop(c: Setup, apiKey: bool, price: Price, wire: nat -> Wire) returns (r: Result, t: Trace, cost: real)
    ensures Exchanged(t, c, wire, apiKey) && c.Ends(t.outcomes, r)
    ensures t.toolsUsed == c.AllRan(t.outcomes)
    ensures cost == CostOf(price, t.Replies())
  {
    hide Exchanged, Posted, Setup.After, Setup.AllRan, Setup.Ends, CostOf, RepliesOf, TokensIn, TokensOut, Executed,
         StopOf, FinalArgs;
    t, cost := NO_TRACE, 0.0;
    NothingYet(c, wire, apiKey, price);
    var m := Meter(0, 0, 0.0);
    var turns := 0;
    var maxTurns := c.MaxTurns();
    var useSchemaTool := c.schema.Some? && !c.role.supportsJsonSchema;
    var retriesLeft := c.maxRetries;
    var lengthRetries := 0;
    var maxTokens := c.role.maxOutputTokens;
    var content: Option<string> := None;
    while turns < maxTurns + retriesLeft + 1
      invariant Exchanged(t, c, wire, apiKey) && Metered(m, price, t.Replies()) && cost == m.cost
      invariant Going(t, c, State(turns, useSchemaTool, retriesLeft, Refunded(lengthRetries), maxTokens))
      invariant useSchemaTool ==> c.schema.Some?
      invariant c.schema.None? ==> content.None?
      decreases (if useSchemaTool then 0 else 1) + (2 - Refunded(lengthRetries)), maxTurns + retriesLeft + 1 - turns
    {
      ghost var before := t.outcomes;
      ghost var s := State(turns, useSchemaTool, retriesLeft, Refunded(lengthRetries), maxTokens);
      turns := turns + 1;
      var payload :=
        Payload(maxTokens, useSchemaTool, useSchemaTool && turns >= maxTurns, c.schema.Some? && !useSchemaTool);
      var data;
      data, t, m := Ask(wire, apiKey, payload, t, m, price, c);
      cost := m.cost;
      c.AfterSnoc(before, data);
      if data.Cancelled? {
        return WasCancelled, t, cost;
      }
      if data.Raised? {
        return Crashed, t, cost;
      }
      if data.LlmError? {
        if data.schemaText && c.schema.Some? && !useSchemaTool {
          useSchemaTool := true;
          turns := turns - 1;
          continue;
        }
        return Failed, t, cost;
      }
      var reply := data.reply;
      if reply.finishedByLength && reply.toolCalls == [] {
        lengthRetries := lengthRetries + 1;
        if lengthRetries <= 2 {
          maxTokens := maxTokens * 2;
          turns := turns - 1;
          NothingRuns(c, s);
          continue;
        }
      }
      var parsed: Option<string> := None;
      if reply.toolCalls != [] {
        var executed, finalCall, stop :=
          RunToolCalls(reply.toolCalls, c.allowed, if useSchemaTool then Some(c.schema.value.name) else None);
        ToolsKeepExchanged(t, c, wire, apiKey, t.toolsUsed + executed);
        t := t.(toolsUsed := t.toolsUsed + executed);
        if stop.Forbidden? {
          return NotPermitted, t, cost;
        }
        if stop.Interrupted? {
          return WasCancelled, t, cost;
        }
        if finalCall.None? {
          continue;
        }
        parsed := c.schema.value.fromArgs(finalCall.value);
        if parsed.Some? {
          return Returned(finalCall, parsed), t, cost;
        }
      } else {
        NothingRuns(c, s);
        content := reply.content;
        if c.schema.None? {
          return Returned(content, None), t, cost;
        }
        parsed := c.schema.value.fromText(content);
        if parsed.Some? {
          return Returned(content, parsed), t, cost;
        }
      }
      retriesLeft := retriesLeft - 1;
      if retriesLeft < 0 {
        return InvalidOutput, t, cost;
      }
    }
    OutOfTurns(c, t.outcomes);
    if c.schema.Some? {
      return InvalidOutput, t, cost;
    }
    r := Returned(content, None);
  }

  lemma NothingRuns(c: Setup, s: State)
    ensures Executed([], c.allowed, c.SchemaTool(s)) == []
  {
  }

  lemma OutOfTurns(c: Setup, outcomes: seq<PostResult>)
    requires c.After(outcomes).Some? && !c.Open(c.After(outcomes).value)
    ensures c.Ends(outcomes, if c.schema.Some? then InvalidOutput else Returned(None, None))
  {
  }

  lemma NothingCosts(price: Price)
    ensures CostOf(price, NO_TRACE.Replies()) == 0.0
  {
  }

  lemma RecordedCost(price: Price, replies: seq<Reply>)
    ensures (forall reply :: reply in replies ==> reply.cost.None?) ==>
              PricedByTokens(CostOf(price, replies), price, replies)
    ensures (forall reply :: reply in replies ==> reply.cost.Some?) ==> CostOf(price, replies) == Reported(replies)
  {
    if forall reply :: reply in replies ==> reply.cost.None? {
      CostWhenNoneReported(price, replies);
    }
    if forall reply :: reply in replies ==> reply.cost.Some? {
      CostWhenAllReported(price, replies);
    }
  }

  class Client {
    const budget: Budget
    const maxStructuredRetries: int
    const apiKey: bool

    constructor (budget: Budget, maxStructuredRetries: int, apiKey: bool)
      ensures this.budget == budget && this.maxStructuredRetries == maxStructuredRetries && this.apiKey == apiKey
    {
      this.budget := budget;
      this.maxStructuredRetries := maxStructuredRetries;
      this.apiKey := apiKey;
    }

    /** A conversation: refused by the budget before it begins, or played to its end by the turn rules on what the
        provider answers. It takes at most max turns + structured retries + 4 requests of at most four posts each;
        only allowed tools run; a normal return under a schema is validated; and however it ends, its cost is
        recorded once. */
    method Complete(
      role: Role, schema: Option<Schema>, tools: seq<Tool>, price: Price, wire: nat -> Wire, today: int, now: real)
      returns (r: Result, t: Trace)
      requires budget.Valid() && budget.lastLook <= now
      modifies budget
      ensures budget.Valid() && budget.lastLook <= now
      ensures r == BudgetExceeded <==>
              !(&& old(budget.SpentOn(today)) <= budget.dailyBudget
                && |Recent(old(budget.calls), now)| < budget.maxCallsPerHour)
      ensures budget.admitted == if r == BudgetExceeded then old(budget.admitted) else old(budget.admitted) + [now]
      ensures budget.spentToday == old(budget.SpentOn(today)) + CostOf(price, t.Replies())
      ensures (forall reply :: reply in t.Replies() ==> reply.cost.None?) ==>
                PricedByTokens(budget.spentToday - old(budget.SpentOn(today)), price, t.Replies())
      ensures (forall reply :: reply in t.Replies() ==> reply.cost.Some?) ==>
                budget.spentToday == old(budget.SpentOn(today)) + Reported(t.Replies())
      ensures r == BudgetExceeded ==> t == NO_TRACE
      ensures var c := Setup(role, schema, AllowedNames(tools, role.name), maxStructuredRetries);
              r != BudgetExceeded ==>
              && Exchanged(t, c, wire, apiKey) && c.Ends(t.outcomes, r)
              && t.toolsUsed == c.AllRan(t.outcomes)
              && (var turns := if c.allowed == {} then 1 else MaxInt(1, role.maxToolTurns + 1);
                  |t.sent| <= MaxInt(0, turns + maxStructuredRetries + 1) + 3)
              && t.posts <= 4 * |t.sent|
              && (forall k :: 0 <= k < |t.sent| ==> c.PayloadOk(t.sent[k]))
              && (forall name :: name in t.toolsUsed ==>
                    exists tool :: tool in tools && tool.name == name
                                   && (tool.allowedRoles == [] || role.name in tool.allowedRoles))
              && (r.Returned? && schema.Some? ==>
                    && r.parsed.Some?
                    && ((exists args :: schema.value.fromArgs(args) == r.parsed)
                        || (exists text :: schema.value.fromText(text) == r.parsed)))
    {
      hide Setup.Ends, Setup.After, Setup.AllRan, Recent, Answered, Posted, CostOf, Reported, RepliesOf,
           PricedByTokens;
      var admitted := budget.Check(today, now, 0.0);
      if !admitted {
        RecordedCost(price, NO_TRACE.Replies());
        NothingCosts(price);
        return BudgetExceeded, NO_TRACE;
      }
      var c := Setup(role, schema, AllowedNames(tools, role.name), maxStructuredRetries);
      var cost;
      r, t, cost := RunLoop(c, apiKey, price, wire);
      c.EndsSoundly(t.outcomes, r);
      c.OnlyAllowedRan(t.outcomes);
      c.PayloadsOk(t.sent, t.outcomes);
      FourPostsEach(t.starts, t.posts, t.outcomes, wire, apiKey);
      RecordedCost(price, t.Replies());
      budget.RecordCost(cost);
    }
  }
}
