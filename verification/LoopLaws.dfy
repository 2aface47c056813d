/** What a run of the agent loop keeps, read off its calls and effects by place: which calls are made,
    what they leave, how turns are numbered and how often the loop can be sent on. */
module LoopLaws {
  import opened Text
  import opened StreamPump
  import opened AgentLoop
  import opened VerboseStream

  // ---------- the calls of a turn ----------

  /** The calls made are the first `n`: all but the last go on, and one that does not ends them. */
  predicate Made(calls: seq<Call>, n: nat) {
    && n <= |calls| && (forall j | 0 <= j < n - 1 :: calls[j].outcome == GoOn)
    && (n == |calls| || (n > 0 && calls[n - 1].outcome != GoOn))
  }

  lemma {:induction false} SomeMade(calls: seq<Call>) returns (n: nat)
    ensures Made(calls, n)
  {
    if calls == [] {
      n := 0;
    } else if calls[0].outcome != GoOn {
      n := 1;
    } else {
      n := SomeMade(calls[1..]);
      n := n + 1;
      assert forall j | 0 < j < |calls| :: calls[j] == calls[1..][j - 1];
    }
  }

  function HooksOf(calls: seq<Call>): nat {
    if calls == [] then 0 else calls[0].hooks + HooksOf(calls[1..])
  }

  function EffectsOf(calls: seq<Call>, turn: nat): seq<Effect> {
    if calls == [] then [] else CallEffects(calls[0], turn) + EffectsOf(calls[1..], turn)
  }

  /** A turn does what the calls made do, in order: it ends as the last of them does, allows plan mode's
      turns if one of them enters plan mode, and gains the hooks they append. */
  lemma {:induction false} TurnIsCallsMade(calls: seq<Call>, n: nat, turn: nat, limit: nat, hooks: nat)
    requires Made(calls, n)
    ensures CallsEffects(calls, turn) == EffectsOf(calls[..n], turn)
    ensures CallsOutcome(calls) == if n == 0 then GoOn else calls[n - 1].outcome
    ensures CallsLimit(calls, limit) ==
            if exists j | 0 <= j < n :: calls[j].planMode then PLAN_MODE_TURNS else limit
    ensures CallsHooks(calls, hooks) == hooks + HooksOf(calls[..n])
    decreases |calls|
  {
    hide CallEffects;
    if n > 0 {
      var call, rest := calls[0], calls[1..];
      assert calls[..n][1..] == rest[..n - 1] && calls[..n][0] == call;
      assert forall j | 0 < j < |calls| :: calls[j] == rest[j - 1];
      if call.outcome == GoOn {
        TurnIsCallsMade(rest, n - 1, turn, if call.planMode then PLAN_MODE_TURNS else limit, hooks + call.hooks);
        PlanModeFrom(calls, n);
      } else {
        assert n == 1 && EffectsOf(calls[..1], turn) == CallEffects(call, turn) + EffectsOf([], turn);
      }
    } else {
      assert calls == [] && calls[..n] == [];
    }
  }

  lemma PlanModeFrom(calls: seq<Call>, n: nat)
    requires 0 < n <= |calls|
    ensures (exists j | 0 <= j < n :: calls[j].planMode) <==>
            calls[0].planMode || exists j | 0 <= j < n - 1 :: calls[1..][j].planMode
  {
    if j :| 0 < j < n && calls[j].planMode { assert calls[1..][j - 1].planMode; }
  }

  /** A call announces its turn once or not at all, after its own text and before the tool's. */
  lemma AnnouncedBeforeOutput(call: Call, turn: nat, i: nat)
    requires i < |CallEffects(call, turn)|
    ensures var es := CallEffects(call, turn);
            && (es[i].Announce? ==> call.announces && es[i].turn == turn && Spoken(es[..i]) == call.banner)
            && (call.announces ==> exists j | 0 <= j < |es| :: es[j].Announce?)
            && !es[i].TurnEnd? && es[i] != Yield(TurnMark(turn))
  {
    var es := CallEffects(call, turn);
    var banner := if call.banner == "" then [] else [Yield(Piece(call.banner))];
    assert call.announces ==> es[|banner|].Announce?;
    if es[i].Announce? {
      assert es[..i] == banner;
      SpokenOne(call.banner, turn);
    }
  }

  // ---------- turn numbers ----------

  /** The turns marked among the effects. */
  function Marks(es: seq<Effect>): nat {
    if es == [] then 0 else (if es[0].Yield? && es[0].chunk.TurnMark? then 1 else 0) + Marks(es[1..])
  }

  lemma {:induction false} MarksAppend(a: seq<Effect>, b: seq<Effect>)
    ensures Marks(a + b) == Marks(a) + Marks(b)
  {
    if a == [] {
      assert a + b == b;
    } else {
      assert (a + b)[1..] == a[1..] + b;
      MarksAppend(a[1..], b);
    }
  }

  predicate Numbered(e: Effect, turn: nat) {
    match e
    case Yield(TurnMark(t)) => t == turn
    case Yield(Piece(_)) => true
    case Announce(t) => t == turn
    case TurnEnd(t, _) => t == turn
  }

  /** Every turn's marker, announcement and end carry its number, counted from `turn`. */
  ghost predicate CountsTurns(es: seq<Effect>, turn: nat) {
    forall i | 0 <= i < |es| :: Numbered(es[i], turn + Marks(es[..i + 1]))
  }

  lemma CountsAppend(a: seq<Effect>, b: seq<Effect>, turn: nat)
    requires CountsTurns(a, turn) && CountsTurns(b, turn + Marks(a))
    ensures CountsTurns(a + b, turn)
  {
    var es := a + b;
    forall i | 0 <= i < |es| ensures Numbered(es[i], turn + Marks(es[..i + 1])) {
      if i < |a| {
        assert es[..i + 1] == a[..i + 1];
      } else {
        var k := i - |a|;
        assert es[..i + 1] == a + b[..k + 1];
        MarksAppend(a, b[..k + 1]);
        assert Numbered(b[k], turn + Marks(a) + Marks(b[..k + 1]));
      }
    }
  }

  /** Effects of one turn that mark none. */
  ghost predicate Within(es: seq<Effect>, turn: nat) {
    forall e | e in es :: Numbered(e, turn) && !(e.Yield? && e.chunk.TurnMark?)
  }

  lemma {:induction false} WithinMarksNone(es: seq<Effect>, turn: nat)
    requires Within(es, turn)
    ensures Marks(es) == 0
  {
    if es != [] { WithinMarksNone(es[1..], turn); }
  }

  lemma WithinCounts(es: seq<Effect>, turn: nat)
    requires Within(es, turn)
    ensures CountsTurns(es, turn) && Marks(es) == 0
  {
    WithinMarksNone(es, turn);
    forall i | 0 <= i < |es| ensures Numbered(es[i], turn + Marks(es[..i + 1])) {
      assert Within(es[..i + 1], turn);
      WithinMarksNone(es[..i + 1], turn);
    }
  }

  lemma {:induction false} CallsWithin(calls: seq<Call>, turn: nat)
    ensures Within(CallsEffects(calls, turn), turn)
  {
    if calls != [] {
      assert Within(CallEffects(calls[0], turn), turn);
      CallsWithin(calls[1..], turn);
    }
  }

  lemma TurnCounts(t: Turn, turn: nat, exiting: bool)
    requires turn > 0
    ensures var body := TurnEffects(t, turn) + [TurnEnd(turn, exiting)];
            CountsTurns(body, turn - 1) && Marks(body) == 1
  {
    hide CallsEffects;
    var body := TurnEffects(t, turn) + [TurnEnd(turn, exiting)];
    var mark, rest := [Yield(TurnMark(turn))], body[1..];
    CallsWithin(t.calls, turn);
    assert rest == [Yield(Piece(TurnBanner(turn)))] + Pieces(t.reply) + [Yield(Piece("\n\n"))]
                   + CallsEffects(t.calls, turn) + [TurnEnd(turn, exiting)];
    assert Within(rest, turn);
    WithinCounts(rest, turn);
    assert mark[1..] == [] && mark[..1] == mark && body == mark + rest;
    MarksAppend(mark, rest);
    CountsAppend(mark, rest, turn - 1);
  }

  /** Turns are marked 1, 2, 3, ..., and whatever is announced or ended is the turn last marked. */
  lemma {:induction false} LoopCountsTurns(script: seq<Turn>, turn: nat, limit: nat, hooks: nat, exiting: bool)
    requires Enough(script, limit)
    ensures CountsTurns(LoopEffects(script, turn, limit, hooks, exiting), turn)
    decreases |script| - turn
  {
    hide TurnEffects, CountsTurns, CallsOutcome, CallsLimit, CallsHooks;
    if turn < limit {
      var t := script[turn];
      LoopStep(script, turn, limit, hooks, exiting);
      var outcome, hooks' := CallsOutcome(t.calls), CallsHooks(t.calls, hooks);
      var body := TurnEffects(t, turn + 1) + [TurnEnd(turn + 1, outcome != GoOn)];
      TurnCounts(t, turn + 1, outcome != GoOn);
      hide LoopEffects;
      if outcome == GoOn || (outcome == Finish && hooks' > 0) {
        var left := if outcome == GoOn then hooks' else hooks' - 1;
        LoopCountsTurns(script, turn + 1, CallsLimit(t.calls, limit), left, outcome != GoOn);
        CountsAppend(body, LoopEffects(script, turn + 1, CallsLimit(t.calls, limit), left, outcome != GoOn), turn);
      }
    } else {
      LastEndCounts(turn, exiting);
    }
  }

  lemma LastEndCounts(turn: nat, exiting: bool)
    ensures CountsTurns([], turn) && CountsTurns([TurnEnd(turn, exiting)], turn)
  {
    assert Within([TurnEnd(turn, exiting)], turn);
    WithinCounts([TurnEnd(turn, exiting)], turn);
  }

  /** A turn's banner is sent on at once. */
  lemma BannerIsDue(chunks: seq<Chunk>, before: nat, i: nat, turn: nat)
    requires before <= i < |chunks| && chunks[i] == Piece(TurnBanner(turn))
    ensures Due(chunks, before, i)
  {
    assert OccursAt(TurnBanner(turn), BANNER, 4);
  }

  // ---------- done-hooks ----------

  /** The ends that report an exit. */
  function Exits(es: seq<Effect>): nat {
    if es == [] then 0 else (if es[0].TurnEnd? && es[0].exiting then 1 else 0) + Exits(es[1..])
  }

  lemma {:induction false} ExitsAppend(a: seq<Effect>, b: seq<Effect>)
    ensures Exits(a + b) == Exits(a) + Exits(b)
  {
    if a == [] {
      assert a + b == b;
    } else {
      assert (a + b)[1..] == a[1..] + b;
      ExitsAppend(a[1..], b);
    }
  }

  lemma {:induction false} WithinExitsNone(es: seq<Effect>)
    requires forall e | e in es :: !e.TurnEnd?
    ensures Exits(es) == 0
  {
    if es != [] { WithinExitsNone(es[1..]); }
  }

  lemma {:induction false} CallsEndNothing(calls: seq<Call>, turn: nat)
    ensures forall e | e in CallsEffects(calls, turn) :: !e.TurnEnd?
  {
    if calls != [] { CallsEndNothing(calls[1..], turn); }
  }

  lemma TurnExits(t: Turn, turn: nat, exiting: bool)
    ensures Exits(TurnEffects(t, turn) + [TurnEnd(turn, exiting)]) == if exiting then 1 else 0
  {
    hide CallsEffects;
    CallsEndNothing(t.calls, turn);
    WithinExitsNone(TurnEffects(t, turn));
    ExitsAppend(TurnEffects(t, turn), [TurnEnd(turn, exiting)]);
    assert [TurnEnd(turn, exiting)][1..] == [];
  }

  /** The hooks all turns from one on can append. */
  function HooksFrom(script: seq<Turn>, turn: nat): nat
    decreases |script| - turn
  {
    if turn >= |script| then 0 else HooksOf(script[turn].calls) + HooksFrom(script, turn + 1)
  }

  lemma {:induction false} HooksWithin(calls: seq<Call>, hooks: nat)
    ensures CallsHooks(calls, hooks) <= hooks + HooksOf(calls)
  {
    if calls != [] { HooksWithin(calls[1..], hooks + calls[0].hooks); }
  }

  /** Each hook sends the loop on once: the ends that report an exit are at most one more than the hooks
      there are and the hooks appended. */
  lemma {:induction false} EachHookOnce(script: seq<Turn>, turn: nat, limit: nat, hooks: nat, exiting: bool)
    requires Enough(script, limit)
    ensures Exits(LoopEffects(script, turn, limit, hooks, exiting)) <= 1 + hooks + HooksFrom(script, turn)
    decreases |script| - turn
  {
    hide TurnEffects, CallsOutcome, CallsLimit, CallsHooks, HooksOf;
    if turn < limit {
      var t := script[turn];
      LoopStep(script, turn, limit, hooks, exiting);
      var outcome, hooks' := CallsOutcome(t.calls), CallsHooks(t.calls, hooks);
      var body := TurnEffects(t, turn + 1) + [TurnEnd(turn + 1, outcome != GoOn)];
      TurnExits(t, turn + 1, outcome != GoOn);
      HooksWithin(t.calls, hooks);
      hide LoopEffects;
      if outcome == GoOn || (outcome == Finish && hooks' > 0) {
        var left := if outcome == GoOn then hooks' else hooks' - 1;
        EachHookOnce(script, turn + 1, CallsLimit(t.calls, limit), left, outcome != GoOn);
        ExitsAppend(body, LoopEffects(script, turn + 1, CallsLimit(t.calls, limit), left, outcome != GoOn));
      }
    } else {
      assert [TurnEnd(turn, true)][1..] == [];
    }
  }
}
