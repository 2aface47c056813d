/** When the approval gate asks (runner/handlers.py), and what an undisturbed call, answer or command
    comes to (runner/yole_bridge.py). */
module ApprovalGate {
  import opened Text
  import opened ApprovalProtocol
  import opened ApprovalSafety

  // ---------- only a call that needs approval asks ----------

  /** What a call past a check of the gate has seen. */
  ghost predicate GateHistory(run: seq<Action>, c: CallId, call: Call) {
    match call.phase
    case CheckGlobal => call.tool in APPROVAL_TOOLS && LookYolo(c, false) in run
    case CheckProject => call.tool in APPROVAL_TOOLS && InOrder(run, LookYolo(c, false), LookGlobal(c, false))
    case MustAsk => call.tool in APPROVAL_TOOLS && AllRefused(run, c)
    case _ => true
  }

  ghost predicate AllRefused(run: seq<Action>, c: CallId) {
    InOrder3(run, LookYolo(c, false), LookGlobal(c, false), LookProject(c, false))
  }

  lemma GateHistoryGrows(run: seq<Action>, a: Action, c: CallId, call: Call)
    requires GateHistory(run, c, call)
    ensures GateHistory(run + [a], c, call)
  {
    hide InOrder, InOrder3;
    OrderGrows(run, a);
  }

  lemma GateMoves(run: seq<Action>, s: State, a: Action, c: CallId)
    requires Enabled(s, a) && Mover(a) == Some(c) && (c in s.calls ==> GateHistory(run, c, s.calls[c]))
    ensures c in Apply(s, a).calls && GateHistory(run + [a], c, Apply(s, a).calls[c])
  {
    hide InOrder, InOrder3, RulesSeenBy, Rules, AddRule;
    OrderGrows(run, a);
    assert a in run + [a];
    if a.Act? { AddRuleKeepsRest(s, c); }
  }

  lemma {:induction false} GateHistoryHolds(run: seq<Action>, c: CallId)
    requires Possible(run) && c in After(run).calls
    ensures GateHistory(run, c, After(run).calls[c])
    decreases |run|
  {
    var before, a := run[..|run| - 1], run[|run| - 1];
    assert run == before + [a];
    var s := After(before);
    hide GateHistory, Enabled, Apply;
    if c in s.calls { GateHistoryHolds(before, c); }
    if Mover(a) == Some(c) {
      GateMoves(before, s, a, c);
    } else {
      OthersStay(s, a, c);
      GateHistoryGrows(before, a, c, s.calls[c]);
    }
  }

  lemma {:induction false} ToolStays(run: seq<Action>, i: nat, c: CallId)
    requires Possible(run) && i <= |run| && Possible(run[..i]) && c in After(run[..i]).calls
    ensures c in After(run).calls && After(run).calls[c].tool == After(run[..i]).calls[c].tool
    decreases |run|
  {
    if i < |run| {
      var before, a := run[..|run| - 1], run[|run| - 1];
      assert before[..i] == run[..i];
      hide Enabled, Apply;
      ToolStays(before, i, c);
      CallKeepsTool(After(before), a, c);
    } else {
      assert run[..i] == run;
    }
  }

  /** The user is asked only about a tool in the approval set, and only after YOLO mode, the global rules
      and the project rules have each been looked at, in that order, and did not let it pass. */
  lemma AsksOnlyIfNeeded(run: seq<Action>, i: nat, c: CallId, id: ApprovalId, h: HandlerId, tool: string,
                         disaster: bool)
    requires Possible(run) && i < |run| && run[i] == Register(c, id) && Enter(c, h, tool, disaster) in run
    ensures tool in APPROVAL_TOOLS
    ensures InOrder3(run[..i], LookYolo(c, false), LookGlobal(c, false), LookProject(c, false))
  {
    StepOfRun(run, i);
    var s := After(run[..i]);
    assert InPhase(s, c, MustAsk);
    hide Enabled, Apply, Possible, After, InOrder3;
    GateHistoryHolds(run[..i], c);
    ToolStays(run, i, c);
    EntryKept(run, c, h, tool, disaster);
  }

  // ---------- a call alone at the gate ----------

  predicate AtGate(p: Phase) {
    p.Entered? || p.CheckYolo? || p.CheckGlobal? || p.CheckProject?
  }

  function ChecksLeft(p: Phase): nat {
    if p.Entered? then 4 else if p.CheckYolo? then 3 else if p.CheckGlobal? then 2 else if p.CheckProject? then 1 else 0
  }

  /** The check a call at the gate makes next, with what it sees. */
  function GateAction(s: State, c: CallId): (a: Action)
    requires c in s.calls && AtGate(s.calls[c].phase)
    ensures Enabled(s, a)
  {
    var call := s.calls[c];
    match call.phase
    case Entered => PassDisasterCheck(c, call.disaster)
    case CheckYolo => LookYolo(c, s.yolo)
    case CheckGlobal => LookGlobal(c, call.tool in RulesSeenBy(s, c, false))
    case CheckProject => LookProject(c, call.tool in RulesSeenBy(s, c, true))
  }

  /** The call's checks, one after another, with nothing in between. */
  function Gate(s: State, c: CallId): State
    requires c in s.calls
    decreases ChecksLeft(s.calls[c].phase)
  {
    if AtGate(s.calls[c].phase) then Gate(Apply(s, GateAction(s, c)), c) else s
  }

  lemma GateStep(s: State, c: CallId)
    requires c in s.calls && AtGate(s.calls[c].phase)
    ensures var after := Apply(s, GateAction(s, c));
            c in after.calls && after == s.(calls := s.calls[c := s.calls[c].(phase := after.calls[c].phase)])
  {}

  /** Nothing but where the call is changes. */
  lemma {:induction false} GateMovesOnly(s: State, c: CallId)
    requires c in s.calls
    ensures var after := Gate(s, c);
            c in after.calls && after == s.(calls := s.calls[c := s.calls[c].(phase := after.calls[c].phase)])
    decreases ChecksLeft(s.calls[c].phase)
  {
    if AtGate(s.calls[c].phase) {
      var next := Apply(s, GateAction(s, c));
      GateStep(s, c);
      GateMovesOnly(next, c);
      hide Apply, GateAction;
      var after := Gate(next, c);
      assert next.calls[c := next.calls[c].(phase := after.calls[c].phase)]
          == s.calls[c := s.calls[c].(phase := after.calls[c].phase)];
    } else {
      assert s.calls[c := s.calls[c]] == s.calls;
    }
  }

  /** A call has to ask exactly when YOLO mode is off, its tool is in the approval set and neither rule set
      has it; a disaster is refused, and every other call is let through without asking. */
  lemma GateAsksExactly(s: State, c: CallId)
    requires SharedRules(s) && InPhase(s, c, Entered)
    ensures c in Gate(s, c).calls
    ensures var call, phase := s.calls[c], Gate(s, c).calls[c].phase;
            && (phase == Refused <==> call.disaster)
            && (phase == MustAsk <==>
                  !call.disaster && !s.yolo && call.tool in APPROVAL_TOOLS
                  && call.tool !in s.rules[GLOBAL_RULES] && call.tool !in s.rules[PROJECT_RULES])
            && phase in {Refused, MustAsk, Cleared}
  {
    GateMovesOnly(s, c);
    var s1 := Apply(s, GateAction(s, c));
    GateStep(s, c);
    SeesShared(s, c);
    if !s.calls[c].disaster {
      assert s1.calls[c].phase == CheckYolo;
      YoloCheck(s1, c);
    }
  }

  lemma SeesShared(s: State, c: CallId)
    requires SharedRules(s) && c in s.calls
    ensures RulesSeenBy(s, c, false) == s.rules[GLOBAL_RULES] && RulesSeenBy(s, c, true) == s.rules[PROJECT_RULES]
  {}

  lemma YoloCheck(s: State, c: CallId)
    requires SharedRules(s) && InPhase(s, c, CheckYolo)
    ensures c in Gate(s, c).calls
    ensures var tool, phase := s.calls[c].tool, Gate(s, c).calls[c].phase;
            phase == if !s.yolo && tool in APPROVAL_TOOLS
                        && tool !in s.rules[GLOBAL_RULES] && tool !in s.rules[PROJECT_RULES] then MustAsk else Cleared
  {
    var next := Apply(s, GateAction(s, c));
    GateStep(s, c);
    if next.calls[c].phase == CheckGlobal { GlobalCheck(next, c); }
  }

  lemma GlobalCheck(s: State, c: CallId)
    requires SharedRules(s) && InPhase(s, c, CheckGlobal)
    ensures c in Gate(s, c).calls
    ensures var tool, phase := s.calls[c].tool, Gate(s, c).calls[c].phase;
            phase == if tool !in s.rules[GLOBAL_RULES] && tool !in s.rules[PROJECT_RULES] then MustAsk else Cleared
  {
    var next := Apply(s, GateAction(s, c));
    GateStep(s, c);
    if next.calls[c].phase == CheckProject { ProjectCheck(next, c); }
  }

  lemma ProjectCheck(s: State, c: CallId)
    requires SharedRules(s) && InPhase(s, c, CheckProject)
    ensures c in Gate(s, c).calls
    ensures Gate(s, c).calls[c].phase == if s.calls[c].tool !in s.rules[PROJECT_RULES] then MustAsk else Cleared
  {
    var next := Apply(s, GateAction(s, c));
    assert Gate(next, c) == next;
  }

  // ---------- an answer, a timeout, a command ----------

  /** The state after steps taken from `s`, if they can be. */
  function AfterFrom(s: State, steps: seq<Action>): Option<State>
    decreases |steps|
  {
    if steps == [] then Some(s)
    else if !Enabled(s, steps[0]) then None
    else AfterFrom(Apply(s, steps[0]), steps[1..])
  }

  lemma AfterFromStep(s: State, a: Action, rest: seq<Action>)
    requires Enabled(s, a)
    ensures AfterFrom(s, [a] + rest) == AfterFrom(Apply(s, a), rest)
  {
    assert ([a] + rest)[1..] == rest;
  }

  lemma {:induction false} AfterFromConcat(s: State, a: seq<Action>, b: seq<Action>)
    requires AfterFrom(s, a).Some?
    ensures AfterFrom(s, a + b) == AfterFrom(AfterFrom(s, a).value, b)
    decreases |a|
  {
    hide Enabled, Apply;
    if a == [] {
      assert a + b == b;
    } else {
      assert (a + b)[1..] == a[1..] + b;
      AfterFromConcat(Apply(s, a[0]), a[1..], b);
    }
  }

  /** The command thread's part of an answer. */
  function Deliver(id: ApprovalId, answer: string): seq<Action> {
    [PopPending(id, answer)] + ([WriteDecision] + ([Signal] + []))
  }

  lemma Delivered(s: State, id: ApprovalId, answer: string)
    requires id in s.slots && id in s.pending && s.command == Idle
    ensures AfterFrom(s, Deliver(id, answer)) ==
            Some(s.(slots := s.slots[id := s.slots[id].(decision := Some(answer), signalled := true)],
                    pending := s.pending - {id}))
  {
    var s1 := Apply(s, PopPending(id, answer));
    AfterFromStep(s, PopPending(id, answer), [WriteDecision] + ([Signal] + []));
    var s2 := Apply(s1, WriteDecision);
    AfterFromStep(s1, WriteDecision, [Signal] + []);
    AfterFromStep(s2, Signal, []);
    assert Apply(s2, Signal).slots == s.slots[id := s.slots[id].(decision := Some(answer), signalled := true)];
  }

  /** Asking, an answer that reaches the slot, and waking to it. */
  function Answering(c: CallId, id: ApprovalId, answer: string): seq<Action> {
    ([Register(c, id)] + []) + Deliver(id, answer) + ([Wake(c, id, if answer == "" then "deny" else answer)] + [])
  }

  /** A call that asks can always be answered; it then has the answer, an empty one standing for a denial,
      its slot is no longer pending, and the command thread is free again. */
  lemma AnswerArrives(s: State, c: CallId, id: ApprovalId, answer: string)
    requires InPhase(s, c, MustAsk) && id !in s.slots && id !in s.pending && s.command == Idle
    ensures var after := AfterFrom(s, Answering(c, id, answer));
            && after.Some? && after.value.command == Idle && after.value.pending == s.pending
            && after.value.rules == s.rules && after.value.handlers == s.handlers && after.value.yolo == s.yolo
            && after.value.calls ==
               s.calls[c := s.calls[c].(phase := Decided(if answer == "" then "deny" else answer))]
  {
    var ask, wake := Register(c, id), Wake(c, id, if answer == "" then "deny" else answer);
    var s1 := Apply(s, ask);
    AfterFromStep(s, ask, []);
    Delivered(s1, id, answer);
    var s2 := AfterFrom(s1, Deliver(id, answer)).value;
    AfterFromStep(s2, wake, []);
    assert s1.pending - {id} == s.pending;
    assert Apply(s2, wake).calls == s.calls[c := s.calls[c].(phase := Decided(wake.decision))];
    hide Enabled, Apply, Deliver, AfterFrom;
    AfterFromConcat(s, [ask] + [], Deliver(id, answer));
    AfterFromConcat(s, ([ask] + []) + Deliver(id, answer), [wake] + []);
  }

  /** Acting on a decision: exactly the allow answers go on to the base dispatch, and exactly the two
      always-allow answers add the tool to their rule set. */
  lemma ActsExactly(s: State, c: CallId, answer: string)
    requires SharedRules(s) && InPhase(s, c, Decided(answer))
    ensures var tool := s.calls[c].tool;
            var act := Act(c, tool, answer);
            && Enabled(s, act) && SharedRules(Apply(s, act))
            && Apply(s, act).calls ==
               s.calls[c := s.calls[c].(phase :=
                 if answer == "allow_once" || answer == "always_allow_global" || answer == "always_allow_project"
                 then Cleared else Refused)]
            && Apply(s, act).rules[GLOBAL_RULES] ==
               s.rules[GLOBAL_RULES] + (if answer == "always_allow_global" then {tool} else {})
            && Apply(s, act).rules[PROJECT_RULES] ==
               s.rules[PROJECT_RULES] + (if answer == "always_allow_project" then {tool} else {})
  {
    SeesShared(s, c);
    StepKeepsShared(s, Act(c, s.calls[c].tool, answer));
  }

  /** A cleared call can always be handed to the base dispatch. */
  lemma ClearedDispatches(s: State, c: CallId)
    requires InPhase(s, c, Cleared)
    ensures Enabled(s, SuperDispatch(c)) && InPhase(Apply(s, SuperDispatch(c)), c, Running)
  {}

  /** A waiting call can time out at any moment, and then has been denied. */
  lemma TimeOutDenies(s: State, c: CallId)
    requires c in s.calls && s.calls[c].phase.Waiting?
    ensures Enabled(s, TimeOut(c)) && InPhase(Apply(s, TimeOut(c)), c, Decided("deny"))
  {}

  /** A command to set the rules, undisturbed, leaves exactly the rules it gives. */
  lemma RulesAreSet(s: State, global: set<string>, project: set<string>)
    requires SharedRules(s) && s.command == Idle
    ensures var after := AfterFrom(s, [ClearGlobal(global, project)] +
                                      ([UpdateGlobal] + ([ClearProject(project)] + ([UpdateProject] + []))));
            && after.Some?
            && after.value == s.(rules := s.rules[GLOBAL_RULES := global][PROJECT_RULES := project])
  {
    var s1 := Apply(s, ClearGlobal(global, project));
    AfterFromStep(s, ClearGlobal(global, project), [UpdateGlobal] + ([ClearProject(project)] + ([UpdateProject] + [])));
    var s2 := Apply(s1, UpdateGlobal);
    AfterFromStep(s1, UpdateGlobal, [ClearProject(project)] + ([UpdateProject] + []));
    var s3 := Apply(s2, ClearProject(project));
    AfterFromStep(s2, ClearProject(project), [UpdateProject] + []);
    var s4 := Apply(s3, UpdateProject);
    AfterFromStep(s3, UpdateProject, []);
    assert {} + global == global && {} + project == project;
    assert s4.rules == s.rules[GLOBAL_RULES := global][PROJECT_RULES := project];
  }
}
