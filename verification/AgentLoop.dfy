/** The agent's turn loop in verbose mode (managed-ga/code/agent_loop.py), with the tool
    dispatch of Yole's handler reduced to what it yields and announces. */
module AgentLoop {
  import opened Text
  import opened FenceFilter
  import opened StreamPump

  /** What a tool's outcome asks of the loop: leave, finish (no next prompt), or go on. */
  datatype Outcome = Exit | Finish | GoOn

  /** One dispatch: the marker text in front of it (empty for `no_tool`), whether the handler
      announces the turn, what the generator yields, whether it enters plan mode, how many
      done-hooks it appends. Both last happen in code that a tool runs inside the agent. */
  datatype Call = Call(banner: string, announces: bool, output: seq<string>, planMode: bool, hooks: nat,
                       outcome: Outcome)

  /** The model's reply, piece by piece, and the calls the loop makes for it. */
  datatype Turn = Turn(reply: seq<string>, calls: seq<Call>)

  /** What the loop does, in order: yield a chunk, announce a turn, call the turn-end hook. */
  datatype Effect =
    | Yield(chunk: Chunk)
    | Announce(turn: nat)
    | TurnEnd(turn: nat, exiting: bool)

  const PLAN_MODE_TURNS := 100

  function TurnBanner(turn: nat): string {
    "\n\n**LLM Running (Turn " + Digits(turn) + ") ...**\n\n"
  }

  // ---------- what a run of the loop does ----------

  function Pieces(texts: seq<string>): (es: seq<Effect>)
    ensures |es| == |texts| && forall i | 0 <= i < |texts| :: es[i] == Yield(Piece(texts[i]))
  {
    seq(|texts|, i requires 0 <= i < |texts| => Yield(Piece(texts[i])))
  }

  /** One dispatch: no fence unless the tool yields something, then one on either side. */
  function CallEffects(call: Call, turn: nat): seq<Effect> {
    (if call.banner == "" then [] else [Yield(Piece(call.banner))])
    + (if call.announces then [Announce(turn)] else [])
    + (if call.output == [] then []
       else [Yield(Piece(FENCE))] + Pieces(call.output) + [Yield(Piece(FENCE))])
  }

  /** The calls of a turn up to the first that does not go on. */
  function CallsEffects(calls: seq<Call>, turn: nat): seq<Effect> {
    if calls == [] then []
    else CallEffects(calls[0], turn) + (if calls[0].outcome == GoOn then CallsEffects(calls[1..], turn) else [])
  }

  function CallsOutcome(calls: seq<Call>): Outcome {
    if calls == [] then GoOn
    else if calls[0].outcome == GoOn then CallsOutcome(calls[1..])
    else calls[0].outcome
  }

  function CallsLimit(calls: seq<Call>, limit: nat): (after: nat)
    ensures after == limit || after == PLAN_MODE_TURNS
  {
    if calls == [] then limit
    else
      var after := if calls[0].planMode then PLAN_MODE_TURNS else limit;
      if calls[0].outcome == GoOn then CallsLimit(calls[1..], after) else after
  }

  /** The done-hooks in the list after a turn's calls. */
  function CallsHooks(calls: seq<Call>, hooks: nat): (after: nat)
    ensures after >= hooks
  {
    if calls == [] then hooks
    else
      var after := hooks + calls[0].hooks;
      if calls[0].outcome == GoOn then CallsHooks(calls[1..], after) else after
  }

  function ReplyEffects(reply: seq<string>, turn: nat): seq<Effect> {
    [Yield(TurnMark(turn)), Yield(Piece(TurnBanner(turn)))] + Pieces(reply) + [Yield(Piece("\n\n"))]
  }

  function TurnEffects(t: Turn, turn: nat): seq<Effect> {
    ReplyEffects(t.reply, turn) + CallsEffects(t.calls, turn)
  }

  /** The responses the model would give are enough for every limit the loop can have. */
  ghost predicate Enough(script: seq<Turn>, limit: nat) {
    limit <= |script| && PLAN_MODE_TURNS <= |script|
  }

  /** The loop from `turn` completed turns on. `exiting` says whether the last turn set an
      exit reason, `hooks` how many done-hooks are in the list: none when a task starts. */
  function LoopEffects(script: seq<Turn>, turn: nat, limit: nat, hooks: nat, exiting: bool): seq<Effect>
    requires Enough(script, limit)
    decreases |script| - turn
  {
    if turn >= limit then
      if exiting then [TurnEnd(turn, true)] else []
    else
      var t := script[turn];
      var body := TurnEffects(t, turn + 1);
      var limit', hooks' := CallsLimit(t.calls, limit), CallsHooks(t.calls, hooks);
      match CallsOutcome(t.calls)
      case GoOn => body + [TurnEnd(turn + 1, false)] + LoopEffects(script, turn + 1, limit', hooks', false)
      case Exit => body + [TurnEnd(turn + 1, true)]
      case Finish =>
        if hooks' == 0 then body + [TurnEnd(turn + 1, true)]
        else body + [TurnEnd(turn + 1, true)] + LoopEffects(script, turn + 1, limit', hooks' - 1, true)
  }

  // ---------- the loop ----------

  method DispatchCall(call: Call, turn: nat) returns (es: seq<Effect>)
    ensures es == CallEffects(call, turn)
  {
    es := [];
    if call.banner != "" {
      es := es + [Yield(Piece(call.banner))];
    }
    if call.announces {
      es := es + [Announce(turn)];
    }
    if call.output != [] {
      es := es + [Yield(Piece(FENCE))];
      ghost var before := es;
      for i := 0 to |call.output|
        invariant es == before + Pieces(call.output[..i])
      {
        assert Pieces(call.output[..i + 1]) == Pieces(call.output[..i]) + [Yield(Piece(call.output[i]))];
        es := es + [Yield(Piece(call.output[i]))];
      }
      assert call.output[..|call.output|] == call.output;
      es := es + [Yield(Piece(FENCE))];
    }
  }

  /** A turn's calls, until one does not go on. */
  method DispatchCalls(calls: seq<Call>, turn: nat, maxTurns: nat, doneHooks: nat)
    returns (es: seq<Effect>, exitReason: Outcome, limit: nat, hooks: nat)
    ensures es == CallsEffects(calls, turn)
    ensures exitReason == CallsOutcome(calls) && limit == CallsLimit(calls, maxTurns)
    ensures hooks == CallsHooks(calls, doneHooks)
  {
    hide CallEffects;
    es, exitReason, limit, hooks := [], GoOn, maxTurns, doneHooks;
    var i := 0;
    assert calls[0..] == calls;
    while i < |calls| && exitReason == GoOn
      invariant 0 <= i <= |calls|
      invariant CallsEffects(calls, turn) == es + if exitReason == GoOn then CallsEffects(calls[i..], turn) else []
      invariant CallsOutcome(calls) == if exitReason == GoOn then CallsOutcome(calls[i..]) else exitReason
      invariant CallsLimit(calls, maxTurns) == if exitReason == GoOn then CallsLimit(calls[i..], limit) else limit
      invariant CallsHooks(calls, doneHooks) == if exitReason == GoOn then CallsHooks(calls[i..], hooks) else hooks
    {
      var call := calls[i];
      assert calls[i..][1..] == calls[i + 1..];
      var more := DispatchCall(call, turn);
      es := es + more;
      if call.planMode {
        limit := PLAN_MODE_TURNS;
      }
      hooks := hooks + call.hooks;
      exitReason := call.outcome;
      i := i + 1;
    }
    if exitReason == GoOn {
      assert calls[i..] == [] && es + [] == es;
    }
  }

  /** The loop, verbose and with turn markers, on a handler built for the task. */
  method RunLoop(script: seq<Turn>, maxTurns: nat) returns (es: seq<Effect>)
    requires Enough(script, maxTurns) && forall t | t in script :: t.calls != []
    ensures es == LoopEffects(script, 0, maxTurns, 0, false)
  {
    hide CallsEffects, ReplyEffects, CallsOutcome, CallsLimit, CallsHooks, LoopEffects;
    var turn: nat, limit: nat, hooks: nat, exitReason := 0, maxTurns, 0, GoOn;
    es := [];
    ghost var all := LoopEffects(script, 0, maxTurns, 0, false);
    assert es + all == all;
    while turn < limit
      invariant Enough(script, limit)
      invariant es + LoopEffects(script, turn, limit, hooks, exitReason != GoOn) == all
      decreases |script| - turn
    {
      var t := script[turn];
      ghost var start := es;
      LoopStep(script, turn, limit, hooks, exitReason != GoOn);
      turn := turn + 1;
      es := es + ReplyEffects(t.reply, turn);
      var body;
      body, exitReason, limit, hooks := DispatchCalls(t.calls, turn, limit, hooks);
      es := es + body;
      assert es == start + TurnEffects(t, turn);
      if exitReason != GoOn {
        if hooks == 0 || exitReason == Exit {
          break;
        }
        hooks := hooks - 1;
      }
      ghost var rest := LoopEffects(script, turn, limit, hooks, exitReason != GoOn);
      assert start + (TurnEffects(t, turn) + [TurnEnd(turn, exitReason != GoOn)] + rest)
          == es + [TurnEnd(turn, exitReason != GoOn)] + rest;
      es := es + [TurnEnd(turn, exitReason != GoOn)];
    }
    if turn >= limit { LoopOver(script, turn, limit, hooks, exitReason != GoOn); }
    if exitReason != GoOn {
      es := es + [TurnEnd(turn, true)];
    }
  }

  /** The loop's effects by one turn. */
  lemma LoopStep(script: seq<Turn>, turn: nat, limit: nat, hooks: nat, exiting: bool)
    requires Enough(script, limit) && turn < limit
    ensures var t := script[turn];
            var outcome, body := CallsOutcome(t.calls), TurnEffects(t, turn + 1);
            var hooks' := CallsHooks(t.calls, hooks);
            LoopEffects(script, turn, limit, hooks, exiting) ==
            if outcome == Exit || (outcome == Finish && hooks' == 0) then body + [TurnEnd(turn + 1, true)]
            else body + [TurnEnd(turn + 1, outcome != GoOn)]
                 + LoopEffects(script, turn + 1, CallsLimit(t.calls, limit),
                               if outcome == GoOn then hooks' else hooks' - 1, outcome != GoOn)
  {}

  lemma LoopOver(script: seq<Turn>, turn: nat, limit: nat, hooks: nat, exiting: bool)
    requires Enough(script, limit) && turn >= limit
    ensures LoopEffects(script, turn, limit, hooks, exiting) == if exiting then [TurnEnd(turn, true)] else []
  {}
}
