/** What every interleaving of the approval protocol keeps. */
module ApprovalSafety {
  import opened Text
  import opened ApprovalProtocol

  // ---------- the state ----------

  /** Handlers come and go, but all hold the session's own rule sets. */
  ghost predicate SharedRules(s: State) {
    && GLOBAL_RULES in s.rules && PROJECT_RULES in s.rules
    && (forall h | h in s.handlers :: s.handlers[h] == Handler(GLOBAL_RULES, PROJECT_RULES))
    && (forall c | c in s.calls :: s.calls[c].handler in s.handlers)
  }

  /** A slot in the dict is undecided; one taken out is decided and signalled in that order. */
  ghost predicate SoundSlots(s: State) {
    && (forall id | id in s.pending :: id in s.slots && s.slots[id].decision.None?)
    && (forall id | id in s.slots && s.slots[id].signalled :: s.slots[id].decision.Some?)
    && (s.command.Popped? ==>
          s.command.id in s.slots && s.command.id !in s.pending && s.slots[s.command.id].decision.None?)
    && (s.command.Written? ==> s.command.id in s.slots && s.slots[s.command.id].decision.Some?)
  }

  ghost predicate OwnedWaits(s: State) {
    forall c | c in s.calls && s.calls[c].phase.Waiting? ::
      s.calls[c].phase.id in s.slots && s.slots[s.calls[c].phase.id].owner == c
  }

  lemma StepKeepsShared(s: State, a: Action)
    requires Enabled(s, a) && SharedRules(s)
    ensures SharedRules(Apply(s, a))
  {}

  lemma StepKeepsSlots(s: State, a: Action)
    requires Enabled(s, a) && SoundSlots(s)
    ensures SoundSlots(Apply(s, a))
  {
    if !TouchesSlots(a) {
      SlotsUntouched(s, a);
      hide Apply, Enabled;
    }
  }

  lemma StepKeepsWaits(s: State, a: Action)
    requires Enabled(s, a) && OwnedWaits(s)
    ensures OwnedWaits(Apply(s, a))
  {
    hide RulesSeenBy, Rules;
  }

  lemma {:induction false} StateInvariant(run: seq<Action>)
    requires Possible(run)
    ensures SharedRules(After(run)) && SoundSlots(After(run)) && OwnedWaits(After(run))
    decreases |run|
  {
    if run != [] {
      hide SharedRules, SoundSlots, OwnedWaits, Enabled, Apply;
      var before := run[..|run| - 1];
      StateInvariant(before);
      StepKeepsShared(After(before), run[|run| - 1]);
      StepKeepsSlots(After(before), run[|run| - 1]);
      StepKeepsWaits(After(before), run[|run| - 1]);
    }
  }

  // ---------- the history behind a state ----------

  /** Every decision comes from one response, taken while the slot was registered. */
  ghost predicate SlotHistory(run: seq<Action>, s: State) {
    && (forall id | id in s.slots :: Register(s.slots[id].owner, id) in run)
    && (forall id | id in s.slots && s.slots[id].decision.Some? ::
          InOrder(run, Register(s.slots[id].owner, id), PopPending(id, s.slots[id].decision.value)))
    && (s.command.Popped? && s.command.id in s.slots ==>
          InOrder(run, Register(s.slots[s.command.id].owner, s.command.id),
                  PopPending(s.command.id, s.command.decision)))
    && (forall id, d | PopPending(id, d) in run :: id in s.slots && id !in s.pending)
  }

  /** An allow response for the call's own approval id, consumed before its timeout. */
  ghost predicate AllowedInTime(run: seq<Action>, c: CallId) {
    TimeOut(c) !in run &&
    exists id, d :: Allows(d) && InOrder3(run, Register(c, id), PopPending(id, d), Wake(c, id, d))
  }

  ghost predicate Permitted(run: seq<Action>, c: CallId) {
    LookYolo(c, true) in run || LookGlobal(c, true) in run || LookProject(c, true) in run || AllowedInTime(run, c)
  }

  ghost predicate AllowWoken(run: seq<Action>, c: CallId, d: string) {
    exists id :: InOrder3(run, Register(c, id), PopPending(id, d), Wake(c, id, d))
  }

  /** What must have happened for a call to be where it is. */
  ghost predicate CallHistory(run: seq<Action>, c: CallId, call: Call) {
    match call.phase
    case Entered => TimeOut(c) !in run && SuperDispatch(c) !in run
    case Decided(d) =>
      !call.disaster && SuperDispatch(c) !in run && (d == "deny" || (TimeOut(c) !in run && AllowWoken(run, c, d)))
    case Cleared =>
      !call.disaster && TimeOut(c) !in run && SuperDispatch(c) !in run
      && (call.tool in APPROVAL_TOOLS ==> Permitted(run, c))
    case Running => !call.disaster && TimeOut(c) !in run && (call.tool in APPROVAL_TOOLS ==> Permitted(run, c))
    case Refused => SuperDispatch(c) !in run
    case _ => !call.disaster && TimeOut(c) !in run && SuperDispatch(c) !in run
  }

  ghost predicate CallsHistory(run: seq<Action>, s: State) {
    && (forall c | c in s.calls :: CallHistory(run, c, s.calls[c]))
    && (forall c | c !in s.calls :: TimeOut(c) !in run && SuperDispatch(c) !in run)
  }

  lemma StepKeepsSlotHistory(run: seq<Action>, s: State, a: Action)
    requires Enabled(s, a) && SoundSlots(s) && SlotHistory(run, s)
    ensures SlotHistory(run + [a], Apply(s, a))
  {
    hide InOrder, InOrder3, SharedRules;
    if TouchesSlots(a) {
      OrderGrows(run, a);
      assert a in run + [a];
    } else {
      SlotsUntouched(s, a);
      OrderGrows(run, a);
      hide Apply, Enabled, SoundSlots;
    }
  }

  predicate TouchesSlots(a: Action) {
    a.PopPending? || a.WriteDecision? || a.Signal? || a.Register?
  }

  lemma SlotsUntouched(s: State, a: Action)
    requires Enabled(s, a) && !TouchesSlots(a)
    ensures Apply(s, a).slots == s.slots && Apply(s, a).pending == s.pending
    ensures Apply(s, a).command.Popped? || Apply(s, a).command.Written? ==> Apply(s, a).command == s.command
  {
    hide RulesSeenBy, Rules;
  }

  /** The call an action moves, if any. */
  function Mover(a: Action): Option<CallId> {
    match a
    case Enter(c, _, _, _) => Some(c)
    case PassDisasterCheck(c, _) => Some(c)
    case LookYolo(c, _) => Some(c)
    case LookGlobal(c, _) => Some(c)
    case LookProject(c, _) => Some(c)
    case Register(c, _) => Some(c)
    case Wake(c, _, _) => Some(c)
    case TimeOut(c) => Some(c)
    case Act(c, _, _) => Some(c)
    case SuperDispatch(c) => Some(c)
    case _ => None
  }

  lemma OthersStay(s: State, a: Action, c: CallId)
    requires Enabled(s, a) && Mover(a) != Some(c)
    ensures c in Apply(s, a).calls <==> c in s.calls
    ensures c in s.calls ==> Apply(s, a).calls[c] == s.calls[c]
  {}

  lemma PermittedGrows(run: seq<Action>, a: Action, c: CallId)
    requires a != TimeOut(c)
    ensures Permitted(run, c) ==> Permitted(run + [a], c)
    ensures forall d | AllowWoken(run, c, d) :: AllowWoken(run + [a], c, d)
  {
    hide InOrder, InOrder3;
    OrderGrows(run, a);
  }

  lemma HistoryGrows(run: seq<Action>, a: Action, c: CallId, call: Call)
    requires CallHistory(run, c, call) && a != TimeOut(c) && a != SuperDispatch(c)
    ensures CallHistory(run + [a], c, call)
  {
    hide Permitted, AllowWoken;
    PermittedGrows(run, a, c);
  }

  lemma WakeHistory(run: seq<Action>, s: State, c: CallId, id: ApprovalId, d: string)
    requires Enabled(s, Wake(c, id, d)) && SoundSlots(s) && OwnedWaits(s) && SlotHistory(run, s)
    ensures d != "deny" ==> AllowWoken(run + [Wake(c, id, d)], c, d)
  {
    hide InOrder, InOrder3;
    OrderGrows(run, Wake(c, id, d));
    if d != "deny" {
      assert s.slots[id].decision == Some(d) && s.slots[id].owner == c;
      assert InOrder(run, Register(c, id), PopPending(id, d));
    }
  }

  lemma ActHistory(run: seq<Action>, c: CallId, tool: string, d: string)
    requires d != "deny" && TimeOut(c) !in run && AllowWoken(run, c, d) && Allows(d)
    ensures Permitted(run + [Act(c, tool, d)], c)
  {
    hide InOrder, InOrder3;
    var more := run + [Act(c, tool, d)];
    PermittedGrows(run, Act(c, tool, d), c);
    var id :| InOrder3(more, Register(c, id), PopPending(id, d), Wake(c, id, d));
    assert AllowedInTime(more, c);
  }

  /** The mover's own history after its step. */
  lemma MoverHistory(run: seq<Action>, s: State, a: Action, c: CallId)
    requires Enabled(s, a) && SoundSlots(s) && OwnedWaits(s) && SlotHistory(run, s) && CallsHistory(run, s)
    requires Mover(a) == Some(c)
    ensures c in Apply(s, a).calls && CallHistory(run + [a], c, Apply(s, a).calls[c])
  {
    hide AllowedInTime, AllowWoken, OwnedWaits, SoundSlots, SlotHistory, RulesSeenBy, AddRule, Rules;
    assert a in run + [a];
    if a != TimeOut(c) { PermittedGrows(run, a, c); }
    match a {
    case Wake(_, id, d) => WakeHistory(run, s, c, id, d);
    case Act(_, tool, d) => ActMoves(run, s, c, tool, d);
    case _ =>
    }
  }

  lemma ActMoves(run: seq<Action>, s: State, c: CallId, tool: string, d: string)
    requires Enabled(s, Act(c, tool, d)) && CallsHistory(run, s)
    ensures CallHistory(run + [Act(c, tool, d)], c, Apply(s, Act(c, tool, d)).calls[c])
  {
    hide AllowedInTime, AllowWoken, RulesSeenBy, AddRule;
    PermittedGrows(run, Act(c, tool, d), c);
    AddRuleKeepsRest(s, c);
    if Allows(d) { ActHistory(run, c, tool, d); }
  }

  lemma AddRuleKeepsRest(s: State, c: CallId)
    requires c in s.calls
    ensures forall project :: AddRule(s, c, project) == s.(rules := AddRule(s, c, project).rules)
  {}

  lemma {:induction false} HistoryInvariant(run: seq<Action>)
    requires Possible(run)
    ensures SlotHistory(run, After(run)) && CallsHistory(run, After(run))
    decreases |run|
  {
    if run != [] {
      var before, a := run[..|run| - 1], run[|run| - 1];
      assert run == before + [a];
      var s := After(before);
      StateInvariant(before);
      HistoryInvariant(before);
      hide SoundSlots, SlotHistory, CallHistory, Apply, Enabled, SharedRules, OwnedWaits;
      StepKeepsSlotHistory(before, s, a);
      forall c | c in Apply(s, a).calls ensures CallHistory(run, c, Apply(s, a).calls[c]) {
        if Mover(a) == Some(c) {
          MoverHistory(before, s, a, c);
        } else {
          OthersStay(s, a, c);
          HistoryGrows(before, a, c, s.calls[c]);
        }
      }
      forall c | c !in Apply(s, a).calls ensures TimeOut(c) !in run && SuperDispatch(c) !in run {
        if Mover(a) == Some(c) {
          MoverHistory(before, s, a, c);
        } else {
          OthersStay(s, a, c);
        }
      }
    }
  }

  // ---------- safety over every run ----------

  /** A call stays the call that entered. */
  lemma {:induction false} EntryKept(run: seq<Action>, c: CallId, h: HandlerId, tool: string, disaster: bool)
    requires Possible(run) && Enter(c, h, tool, disaster) in run
    ensures c in After(run).calls && After(run).calls[c].tool == tool && After(run).calls[c].disaster == disaster
    decreases |run|
  {
    var before, a := run[..|run| - 1], run[|run| - 1];
    assert run == before + [a];
    if a != Enter(c, h, tool, disaster) {
      EntryKept(before, c, h, tool, disaster);
      CallKeepsTool(After(before), a, c);
    }
  }

  lemma CallKeepsTool(s: State, a: Action, c: CallId)
    requires Enabled(s, a) && c in s.calls
    ensures c in Apply(s, a).calls
    ensures Apply(s, a).calls[c].tool == s.calls[c].tool && Apply(s, a).calls[c].disaster == s.calls[c].disaster
  {
    hide RulesSeenBy, Rules;
    if Mover(a) != Some(c) {
      OthersStay(s, a, c);
      hide Apply, Enabled;
    }
  }

  /** A call that reaches the base dispatch was no disaster, had not timed out, and if its tool
      is in the approval set it was permitted: by YOLO mode or an always-allow rule seen at
      the gate, or by an allow response to its own approval id that it woke up to. */
  lemma OnlyPermittedDispatch(run: seq<Action>, i: nat, c: CallId, h: HandlerId, tool: string, disaster: bool)
    requires Possible(run) && i < |run| && run[i] == SuperDispatch(c) && Enter(c, h, tool, disaster) in run[..i]
    ensures !disaster && TimeOut(c) !in run[..i]
    ensures tool in APPROVAL_TOOLS ==> Permitted(run[..i], c)
  {
    hide Permitted, SlotHistory;
    StepOfRun(run, i);
    HistoryInvariant(run[..i]);
    EntryKept(run[..i], c, h, tool, disaster);
    assert Enabled(After(run[..i]), SuperDispatch(c));
    assert CallHistory(run[..i], c, After(run[..i]).calls[c]);
  }

  /** Nothing reaches the base dispatch without entering first. */
  lemma DispatchEntered(run: seq<Action>, c: CallId)
    requires Possible(run)
    ensures c in After(run).calls ==> exists h, tool, disaster :: Enter(c, h, tool, disaster) in run
    decreases |run|
  {
    if run != [] {
      var before, a := run[..|run| - 1], run[|run| - 1];
      assert run == before + [a];
      DispatchEntered(before, c);
      if c in After(run).calls && c !in After(before).calls {
        OnlyEnterAdds(After(before), a, c);
        assert a in run;
      }
    }
  }

  lemma OnlyEnterAdds(s: State, a: Action, c: CallId)
    requires Enabled(s, a) && c !in s.calls && c in Apply(s, a).calls
    ensures a.Enter? && a.call == c
  {
    hide RulesSeenBy, Rules;
  }

  /** A call whose wait timed out never reaches the base dispatch, whatever responses come. */
  lemma TimedOutNeverDispatches(run: seq<Action>, c: CallId)
    requires Possible(run) && TimeOut(c) in run
    ensures SuperDispatch(c) !in run
  {
    HistoryInvariant(run);
    assert c in After(run).calls ==> CallHistory(run, c, After(run).calls[c]);
  }

  /** A call flagged as a disaster never reaches the base dispatch. */
  lemma DisasterNeverDispatches(run: seq<Action>, c: CallId, h: HandlerId, tool: string)
    requires Possible(run) && Enter(c, h, tool, true) in run
    ensures SuperDispatch(c) !in run
  {
    HistoryInvariant(run);
    EntryKept(run, c, h, tool, true);
    assert CallHistory(run, c, After(run).calls[c]);
  }

  /** Each pending slot is taken out, and so decided, at most once. */
  lemma DecidedOnce(run: seq<Action>, i: nat, j: nat, id: ApprovalId, d: string, e: string)
    requires Possible(run) && i < j < |run| && run[i] == PopPending(id, d)
    ensures run[j] != PopPending(id, e)
  {
    StepOfRun(run, j);
    HistoryInvariant(run[..j]);
    assert run[..j][i] == PopPending(id, d);
    assert id !in After(run[..j]).pending;
  }

  // ---------- refusals ----------

  ghost predicate Declined(run: seq<Action>, c: CallId) {
    TimeOut(c) in run || exists id, d :: Wake(c, id, d) in run && !Allows(d)
  }

  ghost predicate RefusalHistory(run: seq<Action>, c: CallId, call: Call) {
    match call.phase
    case Decided(d) => TimeOut(c) in run || exists id :: Wake(c, id, d) in run
    case Refused => call.disaster || Declined(run, c)
    case _ => true
  }

  lemma RefusalGrows(run: seq<Action>, a: Action, c: CallId, call: Call)
    requires RefusalHistory(run, c, call)
    ensures RefusalHistory(run + [a], c, call)
  {
    assert forall x | x in run :: x in run + [a];
  }

  lemma MoverRefusal(run: seq<Action>, s: State, a: Action, c: CallId)
    requires Enabled(s, a) && Mover(a) == Some(c)
    requires CallHistory(run, c, if c in s.calls then s.calls[c] else Call(0, "", false, Entered))
    requires c in s.calls ==> RefusalHistory(run, c, s.calls[c])
    ensures c in Apply(s, a).calls && RefusalHistory(run + [a], c, Apply(s, a).calls[c])
  {
    hide RulesSeenBy, Rules, AllowWoken, Permitted;
    assert a in run + [a];
    if c in s.calls { RefusalGrows(run, a, c, s.calls[c]); }
  }

  /** A call is refused only for a disaster, a timeout, or a response that does not allow it. */
  lemma {:induction false} RefusedOnlyFor(run: seq<Action>, c: CallId)
    requires Possible(run) && c in After(run).calls
    ensures RefusalHistory(run, c, After(run).calls[c])
    decreases |run|
  {
    var before, a := run[..|run| - 1], run[|run| - 1];
    assert run == before + [a];
    var s := After(before);
    HistoryInvariant(before);
    hide RefusalHistory, Enabled, Apply, CallHistory;
    if c in s.calls { RefusedOnlyFor(before, c); }
    if Mover(a) == Some(c) {
      if c !in s.calls { assert CallHistory(before, c, Call(0, "", false, Entered)) by { NotYet(before, s, c); } }
      MoverRefusal(before, s, a, c);
    } else {
      OthersStay(s, a, c);
      RefusalGrows(before, a, c, s.calls[c]);
    }
  }

  lemma NotYet(run: seq<Action>, s: State, c: CallId)
    requires CallsHistory(run, s) && c !in s.calls
    ensures CallHistory(run, c, Call(0, "", false, Entered))
  {}

  // ---------- the rule sets ----------

  /** The rules the commands and decisions so far describe, in the order they took hold. */
  function FoldGlobal(run: seq<Action>): set<string> {
    if run == [] then {}
    else
      var so_far := FoldGlobal(run[..|run| - 1]);
      match run[|run| - 1]
      case ClearGlobal(g, _) => g
      case Act(_, tool, d) => if d == "always_allow_global" then so_far + {tool} else so_far
      case _ => so_far
  }

  function FoldProject(run: seq<Action>): set<string> {
    if run == [] then {}
    else
      var so_far := FoldProject(run[..|run| - 1]);
      match run[|run| - 1]
      case ClearProject(p) => p
      case Act(_, tool, d) => if d == "always_allow_project" then so_far + {tool} else so_far
      case _ => so_far
  }

  function FoldYolo(run: seq<Action>): bool {
    run != [] && match run[|run| - 1]
                 case SetYolo(enabled) => enabled
                 case _ => FoldYolo(run[..|run| - 1])
  }

  /** Rules a command has cleared away and not yet put back. */
  function OwedGlobal(s: State): set<string> {
    if s.command.FillGlobal? then s.command.global else {}
  }

  function OwedProject(s: State): set<string> {
    if s.command.FillProject? then s.command.project else {}
  }

  lemma StepFolds(run: seq<Action>, a: Action, s: State)
    requires Enabled(s, a) && SharedRules(s)
    requires s.rules[GLOBAL_RULES] + OwedGlobal(s) == FoldGlobal(run)
    requires s.rules[PROJECT_RULES] + OwedProject(s) == FoldProject(run) && s.yolo == FoldYolo(run)
    ensures SharedRules(Apply(s, a))
    ensures Apply(s, a).rules[GLOBAL_RULES] + OwedGlobal(Apply(s, a)) == FoldGlobal(run + [a])
    ensures Apply(s, a).rules[PROJECT_RULES] + OwedProject(Apply(s, a)) == FoldProject(run + [a])
    ensures Apply(s, a).yolo == FoldYolo(run + [a])
  {
    assert (run + [a])[..|run|] == run;
    StepKeepsShared(s, a);
  }

  /** The session's sets, and so every handler's, hold the fold of the past commands and
      always-allow decisions, except for what a command in progress still owes. */
  lemma {:induction false} RulesAreTheFold(run: seq<Action>)
    requires Possible(run)
    ensures SharedRules(After(run))
    ensures After(run).rules[GLOBAL_RULES] + OwedGlobal(After(run)) == FoldGlobal(run)
    ensures After(run).rules[PROJECT_RULES] + OwedProject(After(run)) == FoldProject(run)
    ensures After(run).yolo == FoldYolo(run)
    decreases |run|
  {
    if run != [] {
      var before, a := run[..|run| - 1], run[|run| - 1];
      assert run == before + [a];
      RulesAreTheFold(before);
      hide Enabled, Apply, FoldGlobal, FoldProject, FoldYolo, SharedRules;
      StepFolds(before, a, After(before));
    }
  }

  /** What a call sees at the gate held: a rule the fold contains, or YOLO mode as last set. */
  lemma SeenHeld(run: seq<Action>, i: nat, c: CallId)
    requires Possible(run) && i < |run|
    ensures Possible(run[..i]) && (run[i] == LookYolo(c, true) ==> FoldYolo(run[..i]))
    ensures run[i] == LookGlobal(c, true) ==>
              c in After(run[..i]).calls && After(run[..i]).calls[c].tool in FoldGlobal(run[..i])
    ensures run[i] == LookProject(c, true) ==>
              c in After(run[..i]).calls && After(run[..i]).calls[c].tool in FoldProject(run[..i])
  {
    StepOfRun(run, i);
    RulesAreTheFold(run[..i]);
    var s := After(run[..i]);
    hide FoldGlobal, FoldProject, FoldYolo, Apply, Possible, After, Enabled, SharedRules, RulesSeenBy;
    if run[i] == LookYolo(c, true) { YoloSeen(s, c); }
    if run[i] == LookGlobal(c, true) { RuleSeen(s, c, false); }
    if run[i] == LookProject(c, true) { RuleSeen(s, c, true); }
  }

  lemma YoloSeen(s: State, c: CallId)
    requires Enabled(s, LookYolo(c, true))
    ensures s.yolo
  {}

  /** A call sees the session's own sets. */
  lemma RuleSeen(s: State, c: CallId, project: bool)
    requires SharedRules(s) && Enabled(s, if project then LookProject(c, true) else LookGlobal(c, true))
    ensures c in s.calls && (if project then PROJECT_RULES else GLOBAL_RULES) in s.rules
    ensures s.calls[c].tool in s.rules[if project then PROJECT_RULES else GLOBAL_RULES]
  {}
}
