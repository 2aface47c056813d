/** The bridge's turn events (runner/yole_bridge.py): two emitters of turn starts, the
    turn-end hook, and the order their events reach the desktop in. */
module TurnEvents {
  import opened AgentLoop

  datatype Event = TurnStarted(turn: nat) | TurnEnded(turn: nat) | RunComplete(turn: nat)

  class Bridge {
    var lastEmittedTurn: nat
    var runInProgress: bool
    var currentTurn: nat
    var events: seq<Event>

    constructor ()
      ensures lastEmittedTurn == 0 && !runInProgress && currentTurn == 0 && events == []
    {
      lastEmittedTurn, runInProgress, currentTurn, events := 0, false, 0, [];
    }

    method EmitTurnStart(turn: nat)
      modifies `lastEmittedTurn, `events
      ensures lastEmittedTurn == turn
      ensures events == old(events) + Started(turn, old(lastEmittedTurn))
    {
      if turn != lastEmittedTurn {
        lastEmittedTurn := turn;
        events := events + [TurnStarted(turn)];
      }
    }

    method OnTurnEnd(turn: nat, exiting: bool)
      modifies this
      ensures currentTurn == turn
      ensures lastEmittedTurn == LastOne(TurnEnd(turn, exiting), old(lastEmittedTurn))
      ensures events == old(events) + EmitOne(TurnEnd(turn, exiting), old(lastEmittedTurn))
      ensures runInProgress == (old(runInProgress) && !exiting)
    {
      currentTurn := turn;
      events := events + [TurnEnded(turn)];
      if exiting {
        events := events + [RunComplete(turn)];
        runInProgress := false;
      } else {
        EmitTurnStart(turn + 1);
      }
    }

    /** The callback an effect makes, if any. */
    method Callback(e: Effect)
      modifies this
      ensures lastEmittedTurn == LastOne(e, old(lastEmittedTurn))
      ensures events == old(events) + EmitOne(e, old(lastEmittedTurn))
      ensures runInProgress == (old(runInProgress) && !Completes(EmitOne(e, old(lastEmittedTurn))))
    {
      match e
      case Yield(_) =>
      case Announce(turn) => EmitTurnStart(turn);
      case TurnEnd(turn, exiting) =>
        OnTurnEnd(turn, exiting);
        assert exiting ==> RunComplete(turn) in EmitOne(e, old(lastEmittedTurn));
    }

    /** A user message: the dedupe state restarts with the turn counter, then the worker runs
        the loop and its callbacks reach the bridge in order. The run counts as in progress
        until its completion is emitted. */
    method RunTask(script: seq<Turn>, maxTurns: nat)
      requires Enough(script, maxTurns) && forall t | t in script :: t.calls != []
      modifies this
      ensures events == old(events) + Emitted(LoopEffects(script, 0, maxTurns, 0, false), 0)
      ensures runInProgress <==> !Completes(events[|old(events)|..])
    {
      lastEmittedTurn := 0;
      runInProgress := true;
      hide LoopEffects, EmitOne, LastOne, Emitted, Completes;
      var es := RunLoop(script, maxTurns);
      var i := 0;
      assert es[0..] == es;
      while i < |es|
        invariant 0 <= i <= |es|
        invariant events + Emitted(es[i..], lastEmittedTurn) == old(events) + Emitted(es, 0)
        invariant |old(events)| <= |events| && (runInProgress <==> !Completes(events[|old(events)|..]))
      {
        ghost var one, rest := EmitOne(es[i], lastEmittedTurn), Emitted(es[i + 1..], LastOne(es[i], lastEmittedTurn));
        EmittedFrom(es, i, lastEmittedTurn);
        assert events + (one + rest) == events + one + rest;
        ghost var before := events;
        Callback(es[i]);
        CompletesSnoc(before, |old(events)|, one);
        i := i + 1;
      }
      assert es[i..] == [];
      NothingEmits(lastEmittedTurn);
    }
  }

  // ---------- the events of a list of effects ----------

  predicate Completes(events: seq<Event>) {
    exists e :: e in events && e.RunComplete?
  }

  lemma CompletesSnoc(events: seq<Event>, from: nat, more: seq<Event>)
    requires from <= |events|
    ensures Completes((events + more)[from..]) <==> Completes(events[from..]) || Completes(more)
  {
    assert (events + more)[from..] == events[from..] + more;
  }

  function Started(turn: nat, last: nat): seq<Event> {
    if turn == last then [] else [TurnStarted(turn)]
  }

  /** The last emitted turn after one effect, and what the effect emits. */
  function LastOne(e: Effect, last: nat): nat {
    match e
    case Yield(_) => last
    case Announce(turn) => turn
    case TurnEnd(turn, exiting) => if exiting then last else turn + 1
  }

  function EmitOne(e: Effect, last: nat): seq<Event> {
    match e
    case Yield(_) => []
    case Announce(turn) => Started(turn, last)
    case TurnEnd(turn, exiting) => [TurnEnded(turn)] + if exiting then [RunComplete(turn)] else Started(turn + 1, last)
  }

  function LastAfter(es: seq<Effect>, last: nat): nat {
    if es == [] then last else LastAfter(es[1..], LastOne(es[0], last))
  }

  function Emitted(es: seq<Effect>, last: nat): seq<Event> {
    if es == [] then [] else EmitOne(es[0], last) + Emitted(es[1..], LastOne(es[0], last))
  }

  lemma EmittedFrom(es: seq<Effect>, i: nat, last: nat)
    requires i < |es|
    ensures Emitted(es[i..], last) == EmitOne(es[i], last) + Emitted(es[i + 1..], LastOne(es[i], last))
  {
    assert es[i..][1..] == es[i + 1..];
  }

  lemma {:induction false} EmittedAppend(a: seq<Effect>, b: seq<Effect>, last: nat)
    ensures Emitted(a + b, last) == Emitted(a, last) + Emitted(b, LastAfter(a, last))
    ensures LastAfter(a + b, last) == LastAfter(b, LastAfter(a, last))
  {
    if a == [] {
      assert a + b == b;
    } else {
      assert (a + b)[1..] == a[1..] + b;
      EmittedAppend(a[1..], b, LastOne(a[0], last));
    }
  }

  // ---------- one turn ----------

  /** Some call of the turn, up to the one that ends it, announces the turn. */
  predicate Announces(calls: seq<Call>) {
    calls != [] && (calls[0].announces || (calls[0].outcome == GoOn && Announces(calls[1..])))
  }

  ghost predicate Silent(es: seq<Effect>) {
    forall e | e in es :: e.Yield?
  }

  lemma {:induction false} SilentEmitsNothing(es: seq<Effect>, last: nat)
    requires Silent(es)
    ensures Emitted(es, last) == [] && LastAfter(es, last) == last
  {
    if es != [] {
      SilentEmitsNothing(es[1..], last);
    }
  }

  lemma CallEmits(call: Call, turn: nat, last: nat)
    ensures Emitted(CallEffects(call, turn), last) == if call.announces then Started(turn, last) else []
    ensures LastAfter(CallEffects(call, turn), last) == if call.announces then turn else last
  {
    var banner, announce := if call.banner == "" then [] else [Yield(StreamPump.Piece(call.banner))],
                            if call.announces then [Announce(turn)] else [];
    var out := if call.output == [] then []
               else [Yield(StreamPump.Piece(FenceFilter.FENCE))] + Pieces(call.output)
                    + [Yield(StreamPump.Piece(FenceFilter.FENCE))];
    assert CallEffects(call, turn) == banner + announce + out;
    SilentEmitsNothing(banner, last);
    SilentEmitsNothing(out, if call.announces then turn else last);
    assert announce != [] ==> announce[1..] == [];
    EmittedAppend(banner, announce, last);
    EmittedAppend(banner + announce, out, last);
  }

  /** However many calls a turn makes, it starts at most once. */
  lemma {:induction false} CallsEmit(calls: seq<Call>, turn: nat, last: nat)
    ensures Emitted(CallsEffects(calls, turn), last) == if Announces(calls) then Started(turn, last) else []
    ensures LastAfter(CallsEffects(calls, turn), last) == if Announces(calls) then turn else last
  {
    hide CallEffects;
    if calls != [] {
      CallEmits(calls[0], turn, last);
      var last' := if calls[0].announces then turn else last;
      var more := if calls[0].outcome == GoOn then CallsEffects(calls[1..], turn) else [];
      CallsEmit(calls[1..], turn, last');
      EmittedAppend(CallEffects(calls[0], turn), more, last);
    }
  }

  lemma TurnEmits(t: Turn, turn: nat, last: nat)
    ensures Emitted(TurnEffects(t, turn), last) == if Announces(t.calls) then Started(turn, last) else []
    ensures LastAfter(TurnEffects(t, turn), last) == if Announces(t.calls) then turn else last
  {
    hide CallsEffects;
    SilentEmitsNothing(ReplyEffects(t.reply, turn), last);
    CallsEmit(t.calls, turn, last);
    EmittedAppend(ReplyEffects(t.reply, turn), CallsEffects(t.calls, turn), last);
  }

  lemma EndEmits(turn: nat, exiting: bool, last: nat)
    ensures Emitted([TurnEnd(turn, exiting)], last) == EmitOne(TurnEnd(turn, exiting), last)
    ensures LastAfter([TurnEnd(turn, exiting)], last) == if exiting then last else turn + 1
  {
    assert [TurnEnd(turn, exiting)][1..] == [];
  }

  // ---------- whole runs ----------

  /** The first outcome that does not go on, within the loop's limit. */
  function FirstEnd(script: seq<Turn>, turn: nat, limit: nat): Outcome
    requires Enough(script, limit)
    decreases |script| - turn
  {
    if turn >= limit then GoOn
    else if CallsOutcome(script[turn].calls) != GoOn then CallsOutcome(script[turn].calls)
    else FirstEnd(script, turn + 1, CallsLimit(script[turn].calls, limit))
  }

  /** The done-hooks in the list at that end, or when the limit stops the loop. */
  function HooksAtEnd(script: seq<Turn>, turn: nat, limit: nat, hooks: nat): nat
    requires Enough(script, limit)
    decreases |script| - turn
  {
    if turn >= limit then hooks
    else
      var t := script[turn];
      var after := CallsHooks(t.calls, hooks);
      if CallsOutcome(t.calls) != GoOn then after
      else HooksAtEnd(script, turn + 1, CallsLimit(t.calls, limit), after)
  }

  /** How many turns the loop runs when the first end stops it. */
  function TurnsRun(script: seq<Turn>, turn: nat, limit: nat): (k: nat)
    requires Enough(script, limit)
    ensures turn <= k
    decreases |script| - turn
  {
    if turn >= limit then turn
    else if CallsOutcome(script[turn].calls) != GoOn then turn + 1
    else TurnsRun(script, turn + 1, CallsLimit(script[turn].calls, limit))
  }

  /** The limit in force when the last of those turns begins. */
  function LimitAtEnd(script: seq<Turn>, turn: nat, limit: nat): nat
    requires Enough(script, limit)
    decreases |script| - turn
  {
    if turn >= limit || CallsOutcome(script[turn].calls) != GoOn then limit
    else
      var limit' := CallsLimit(script[turn].calls, limit);
      if turn + 1 >= limit' then limit else LimitAtEnd(script, turn + 1, limit')
  }

  lemma {:induction false} TurnsWithinLimit(script: seq<Turn>, turn: nat, limit: nat)
    requires Enough(script, limit) && turn <= limit
    ensures TurnsRun(script, turn, limit) <= LimitAtEnd(script, turn, limit)
    decreases |script| - turn
  {
    hide CallsOutcome, CallsLimit;
    if turn < limit && CallsOutcome(script[turn].calls) == GoOn {
      var limit' := CallsLimit(script[turn].calls, limit);
      if turn + 1 < limit' { TurnsWithinLimit(script, turn + 1, limit'); }
    }
  }

  /** Only plan mode changes the limit, to its own. */
  lemma {:induction false} LimitKept(script: seq<Turn>, turn: nat, limit: nat)
    requires Enough(script, limit)
    ensures LimitAtEnd(script, turn, limit) in {limit, PLAN_MODE_TURNS}
    ensures (forall t | t in script :: forall c | c in t.calls :: !c.planMode) ==>
              LimitAtEnd(script, turn, limit) == limit
    decreases |script| - turn
  {
    hide CallsOutcome, CallsLimit;
    if turn < limit && CallsOutcome(script[turn].calls) == GoOn {
      var limit' := CallsLimit(script[turn].calls, limit);
      assert script[turn] in script;
      if forall t | t in script :: forall c | c in t.calls :: !c.planMode { NoPlanCalls(script[turn].calls, limit); }
      LimitKept(script, turn + 1, limit');
    }
  }

  lemma {:induction false} NoPlanCalls(calls: seq<Call>, limit: nat)
    requires forall c | c in calls :: !c.planMode
    ensures CallsLimit(calls, limit) == limit
  {
    if calls != [] { NoPlanCalls(calls[1..], limit); }
  }

  /** The first end does not hand over to a done-hook: it leaves for good, or none is in the list then. */
  predicate NoHookAfterEnd(script: seq<Turn>, turn: nat, limit: nat, hooks: nat)
    requires Enough(script, limit)
  {
    FirstEnd(script, turn, limit) != Finish || HooksAtEnd(script, turn, limit, hooks) == 0
  }

  /** The events from the end of turn `t` on, when the run has `k` turns. */
  function Tail(t: nat, k: nat, exits: bool): seq<Event>
    decreases k - t
  {
    if t > k then []
    else [TurnEnded(t)] + [if t == k && exits then RunComplete(t) else TurnStarted(t + 1)] + Tail(t + 1, k, exits)
  }

  lemma {:induction false} LoopEmits(script: seq<Turn>, turn: nat, limit: nat, hooks: nat, last: nat)
    requires Enough(script, limit) && NoHookAfterEnd(script, turn, limit, hooks)
    requires turn > 0 ==> last == turn + 1
    requires turn == 0 ==> last == 0
    ensures var started := if turn == 0 && limit > 0 && Announces(script[0].calls) then [TurnStarted(1)] else [];
            Emitted(LoopEffects(script, turn, limit, hooks, false), last)
            == started + Tail(turn + 1, TurnsRun(script, turn, limit), FirstEnd(script, turn, limit) != GoOn)
    decreases |script| - turn
  {
    hide TurnEffects, Announces, Emitted, LastAfter, CallsOutcome, CallsLimit, CallsHooks;
    if turn < limit {
      var t := script[turn];
      var exiting := CallsOutcome(t.calls) != GoOn;
      var body := TurnEffects(t, turn + 1) + [TurnEnd(turn + 1, exiting)];
      TurnAndEndEmit(t, turn + 1, exiting, last);
      if exiting {
        assert LoopEffects(script, turn, limit, hooks, false) == body;
        assert Tail(turn + 2, turn + 1, true) == [];
      } else {
        var limit', hooks' := CallsLimit(t.calls, limit), CallsHooks(t.calls, hooks);
        var rest := LoopEffects(script, turn + 1, limit', hooks', false);
        assert LoopEffects(script, turn, limit, hooks, false) == body + rest;
        EmittedAppend(body, rest, last);
        LoopEmits(script, turn + 1, limit', hooks', turn + 2);
      }
    } else {
      NothingEmits(last);
    }
  }

  lemma NothingEmits(last: nat)
    ensures Emitted([], last) == []
  {}

  /** One turn's events: its start unless it is known, its end, and the completion or the next start. */
  lemma TurnAndEndEmit(t: Turn, turn: nat, exiting: bool, last: nat)
    requires last <= turn
    ensures Emitted(TurnEffects(t, turn) + [TurnEnd(turn, exiting)], last) ==
            (if Announces(t.calls) then Started(turn, last) else [])
            + ([TurnEnded(turn)] + [if exiting then RunComplete(turn) else TurnStarted(turn + 1)])
    ensures !exiting ==> LastAfter(TurnEffects(t, turn) + [TurnEnd(turn, exiting)], last) == turn + 1
  {
    TurnEmits(t, turn, last);
    EmittedAppend(TurnEffects(t, turn), [TurnEnd(turn, exiting)], last);
    EndEmits(turn, exiting, LastAfter(TurnEffects(t, turn), last));
  }

  function TurnEndsOf(events: seq<Event>): seq<nat> {
    if events == [] then []
    else (if events[0].TurnEnded? then [events[0].turn] else []) + TurnEndsOf(events[1..])
  }

  /** What the desktop relies on within one run. */
  ghost predicate Orderly(events: seq<Event>, k: nat) {
    && TurnEndsOf(events) == seq(k, i => i + 1)
    && (forall p, q | 0 <= p < q < |events| && events[p].TurnStarted? && events[q].TurnStarted? ::
          events[p].turn < events[q].turn)
    && (forall p | 0 <= p < |events| && events[p].TurnStarted? :: FollowsItsEnd(events, p))
    && CompleteIsLast(events)
  }

  /** Turn 1 starts first of all, turn n + 1 right after the end of turn n. */
  ghost predicate FollowsItsEnd(events: seq<Event>, p: nat)
    requires p < |events| && events[p].TurnStarted?
  {
    if p == 0 then events[p].turn == 1
    else events[p - 1].TurnEnded? && events[p].turn == events[p - 1].turn + 1
  }

  ghost predicate CompleteIsLast(events: seq<Event>) {
    forall p | 0 <= p < |events| && events[p].RunComplete? :: p == |events| - 1
  }

  function TailAt(t: nat, k: nat, exits: bool, p: nat): Event {
    var n := t + p / 2;
    if p % 2 == 0 then TurnEnded(n) else if n == k && exits then RunComplete(n) else TurnStarted(n + 1)
  }

  lemma {:induction false} TailShape(t: nat, k: nat, exits: bool)
    requires t <= k + 1
    ensures |Tail(t, k, exits)| == 2 * (k + 1 - t)
    ensures forall p | 0 <= p < |Tail(t, k, exits)| :: Tail(t, k, exits)[p] == TailAt(t, k, exits, p)
    ensures TurnEndsOf(Tail(t, k, exits)) == seq(k + 1 - t, i => t + i)
    decreases k + 1 - t
  {
    if t <= k {
      TailShape(t + 1, k, exits);
      var all, rest := Tail(t, k, exits), Tail(t + 1, k, exits);
      assert all[2..] == rest;
      forall p | 0 <= p < |all|
        ensures all[p] == TailAt(t, k, exits, p)
      {
        if p >= 2 { assert all[p] == rest[p - 2]; }
      }
      assert all[1..][1..] == rest;
      assert TurnEndsOf(all[1..]) == [] + TurnEndsOf(rest);
      assert seq(k + 1 - t, i => t + i) == [t] + seq(k - t, i => t + 1 + i);
    }
  }

  function RunEvents(started: bool, k: nat, exits: bool): seq<Event> {
    (if started then [TurnStarted(1)] else []) + Tail(1, k, exits)
  }

  /** The event at any place of a run, counting a missing first start. */
  lemma RunEventAt(started: bool, k: nat, exits: bool, p: nat)
    requires p < |RunEvents(started, k, exits)|
    ensures var d := if started then 1 else 0;
            RunEvents(started, k, exits)[p] == if p < d then TurnStarted(1) else TailAt(1, k, exits, p - d)
    ensures |RunEvents(started, k, exits)| == (if started then 1 else 0) + 2 * k
  {
    hide TailAt;
    TailShape(1, k, exits);
  }

  lemma StartsIncrease(started: bool, k: nat, exits: bool, p: nat, q: nat)
    requires p < q < |RunEvents(started, k, exits)|
    requires RunEvents(started, k, exits)[p].TurnStarted? && RunEvents(started, k, exits)[q].TurnStarted?
    ensures RunEvents(started, k, exits)[p].turn < RunEvents(started, k, exits)[q].turn
  {
    hide RunEvents;
    RunEventAt(started, k, exits, p);
    RunEventAt(started, k, exits, q);
  }

  lemma StartsFollowEnds(started: bool, k: nat, exits: bool, p: nat)
    requires p < |RunEvents(started, k, exits)| && RunEvents(started, k, exits)[p].TurnStarted?
    ensures FollowsItsEnd(RunEvents(started, k, exits), p)
  {
    hide RunEvents;
    RunEventAt(started, k, exits, p);
    if p > 0 { RunEventAt(started, k, exits, p - 1); }
  }

  lemma CompletionsAreLast(started: bool, k: nat, exits: bool, p: nat)
    requires p < |RunEvents(started, k, exits)| && RunEvents(started, k, exits)[p].RunComplete?
    ensures p == |RunEvents(started, k, exits)| - 1
  {
    hide RunEvents;
    RunEventAt(started, k, exits, p);
  }

  lemma RunEnds(started: bool, k: nat, exits: bool)
    ensures TurnEndsOf(RunEvents(started, k, exits)) == seq(k, i => i + 1)
  {
    hide Tail, TailAt;
    TailShape(1, k, exits);
    var events := RunEvents(started, k, exits);
    if started {
      assert events[1..] == Tail(1, k, exits);
    } else {
      assert events == Tail(1, k, exits);
    }
    assert seq(k, i => 1 + i) == seq(k, (i: int) => i + 1);
  }

  lemma RunShapeOrderly(started: bool, k: nat, exits: bool)
    ensures Orderly(RunEvents(started, k, exits), k)
  {
    hide RunEvents, TurnEndsOf, FollowsItsEnd;
    RunEnds(started, k, exits);
    var events := RunEvents(started, k, exits);
    forall p, q | 0 <= p < q < |events| && events[p].TurnStarted? && events[q].TurnStarted?
      ensures events[p].turn < events[q].turn
    {
      StartsIncrease(started, k, exits, p, q);
    }
    forall p | 0 <= p < |events| && events[p].TurnStarted? ensures FollowsItsEnd(events, p) {
      StartsFollowEnds(started, k, exits, p);
    }
    forall p | 0 <= p < |events| && events[p].RunComplete? ensures p == |events| - 1 {
      CompletionsAreLast(started, k, exits, p);
    }
  }

  /** A run's turn events: ends 1..k in order and once each, strictly increasing starts each
      right after the previous turn's end, one completion at most and nothing after it. The
      number of turns is within the limit in force, the one given unless a call enters plan mode. */
  lemma RunIsOrderly(script: seq<Turn>, limit: nat)
    requires Enough(script, limit) && NoHookAfterEnd(script, 0, limit, 0)
    ensures Orderly(Emitted(LoopEffects(script, 0, limit, 0, false), 0), TurnsRun(script, 0, limit))
    ensures TurnsRun(script, 0, limit) <= LimitAtEnd(script, 0, limit)
    ensures (forall t | t in script :: forall c | c in t.calls :: !c.planMode) ==> TurnsRun(script, 0, limit) <= limit
  {
    hide Orderly, LoopEffects, LimitAtEnd;
    TurnsWithinLimit(script, 0, limit);
    LimitKept(script, 0, limit);
    LoopEmits(script, 0, limit, 0, 0);
    RunShapeOrderly(limit > 0 && Announces(script[0].calls), TurnsRun(script, 0, limit),
                    FirstEnd(script, 0, limit) != GoOn);
  }

  /** After an exiting turn that hands over to a done-hook the loop always emits more. */
  lemma HookEmitsMore(script: seq<Turn>, turn: nat, limit: nat, hooks: nat, last: nat)
    requires Enough(script, limit)
    ensures Emitted(LoopEffects(script, turn, limit, hooks, true), last) != []
  {
    hide TurnEffects;
    if turn < limit {
      var t := script[turn];
      var body, end := TurnEffects(t, turn + 1), TurnEnd(turn + 1, CallsOutcome(t.calls) != GoOn);
      var es := LoopEffects(script, turn, limit, hooks, true);
      var rest := es[|body + [end]|..];
      assert es == body + [end] + rest;
      EmittedAppend(body, [end], last);
      EmittedAppend(body + [end], rest, last);
    }
  }

  lemma {:induction false} HookAfterEndCompletesEarly(script: seq<Turn>, turn: nat, limit: nat, hooks: nat, last: nat)
    requires Enough(script, limit) && !NoHookAfterEnd(script, turn, limit, hooks)
    ensures !CompleteIsLast(Emitted(LoopEffects(script, turn, limit, hooks, false), last))
    decreases |script| - turn
  {
    hide TurnEffects, Announces, Emitted, LastAfter, CallsLimit, CallsOutcome, CallsHooks, CompleteIsLast;
    var t := script[turn];
    var outcome := CallsOutcome(t.calls);
    var body, end := TurnEffects(t, turn + 1), TurnEnd(turn + 1, outcome != GoOn);
    var limit', after := CallsLimit(t.calls, limit), CallsHooks(t.calls, hooks);
    var hooks' := if outcome == GoOn then after else after - 1;
    var rest := LoopEffects(script, turn + 1, limit', hooks', outcome != GoOn);
    LoopStep(script, turn, limit, hooks, false);
    assert LoopEffects(script, turn, limit, hooks, false) == (body + [end]) + rest;
    hide LoopEffects;
    var last' := LastAfter(body + [end], last);
    EmittedAppend(body, [end], last);
    EmittedAppend(body + [end], rest, last);
    if outcome == GoOn {
      HookAfterEndCompletesEarly(script, turn + 1, limit', hooks', last');
      EarlyStaysEarly(Emitted(body + [end], last), Emitted(rest, last'));
    } else {
      EndEmits(turn + 1, true, LastAfter(body, last));
      HookEmitsMore(script, turn + 1, limit', hooks', last');
      EarlyIfMore(Emitted(body, last), turn + 1, Emitted(rest, last'));
    }
  }

  lemma EarlyStaysEarly(a: seq<Event>, b: seq<Event>)
    requires !CompleteIsLast(b)
    ensures !CompleteIsLast(a + b)
  {
    var p :| 0 <= p < |b| && b[p].RunComplete? && p != |b| - 1;
    assert (a + b)[|a| + p] == b[p];
  }

  lemma EarlyIfMore(a: seq<Event>, turn: nat, b: seq<Event>)
    requires b != []
    ensures !CompleteIsLast((a + ([TurnEnded(turn)] + [RunComplete(turn)])) + b)
  {
    assert ((a + ([TurnEnded(turn)] + [RunComplete(turn)])) + b)[|a| + 1] == RunComplete(turn);
  }

  /** Exactly when a run's events are orderly: the first turn to end the run leaves it for good, or
      finds no done-hook in the list. */
  lemma OrderlyExactly(script: seq<Turn>, limit: nat)
    requires Enough(script, limit)
    ensures Orderly(Emitted(LoopEffects(script, 0, limit, 0, false), 0), TurnsRun(script, 0, limit))
       <==> FirstEnd(script, 0, limit) != Finish || HooksAtEnd(script, 0, limit, 0) == 0
  {
    hide LoopEffects, Emitted, TurnsRun;
    if NoHookAfterEnd(script, 0, limit, 0) {
      RunIsOrderly(script, limit);
    } else {
      HookAfterEndCompletesEarly(script, 0, limit, 0, 0);
    }
  }

  /** A run that appends no hook has none at its end. */
  lemma {:induction false} NoHooksAppended(script: seq<Turn>, turn: nat, limit: nat)
    requires Enough(script, limit) && forall t | t in script :: forall c | c in t.calls :: c.hooks == 0
    ensures HooksAtEnd(script, turn, limit, 0) == 0
    decreases |script| - turn
  {
    hide CallsOutcome, CallsLimit;
    if turn < limit {
      assert script[turn] in script;
      NoHookCalls(script[turn].calls, 0);
      if CallsOutcome(script[turn].calls) == GoOn {
        NoHooksAppended(script, turn + 1, CallsLimit(script[turn].calls, limit));
      }
    }
  }

  lemma {:induction false} NoHookCalls(calls: seq<Call>, hooks: nat)
    requires forall c | c in calls :: c.hooks == 0
    ensures CallsHooks(calls, hooks) == hooks
  {
    if calls != [] { NoHookCalls(calls[1..], hooks); }
  }

  /** A task whose first turn appends a done-hook and whose second finishes. */
  function HookScript(): seq<Turn> {
    var append := Call("", true, [], false, 1, GoOn);
    var finish := Call("", true, [], false, 0, Finish);
    [Turn([], [append])] + seq(PLAN_MODE_TURNS - 1, i requires 0 <= i < PLAN_MODE_TURNS - 1 => Turn([], [finish]))
  }

  lemma AppendedHookCompletesEarly()
    ensures Enough(HookScript(), 80)
    ensures !CompleteIsLast(Emitted(LoopEffects(HookScript(), 0, 80, 0, false), 0))
  {
    var script := HookScript();
    var first, second := script[0].calls, script[1].calls;
    assert first[1..] == [] && second[1..] == [];
    assert CallsOutcome(first) == GoOn && CallsHooks(first, 0) == 1 && CallsLimit(first, 80) == 80;
    assert CallsOutcome(second) == Finish && CallsHooks(second, 1) == 1;
    hide HookScript, CallsOutcome, CallsHooks, CallsLimit, LoopEffects, Emitted;
    assert FirstEnd(script, 0, 80) == FirstEnd(script, 1, 80) == Finish;
    assert HooksAtEnd(script, 0, 80, 0) == HooksAtEnd(script, 1, 80, 1) == 1;
    HookAfterEndCompletesEarly(script, 0, 80, 0, 0);
  }
}
