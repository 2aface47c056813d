/** The approval protocol between the worker threads and the command thread
    (runner/yole_bridge.py, runner/handlers.py) as a step relation. Every read and write of
    shared state is a step of its own, so a run is any interleaving of them. */
module ApprovalProtocol {
  import opened Text

  type CallId = nat
  type ApprovalId = nat
  type HandlerId = nat
  type Ref = nat

  const GLOBAL_RULES: Ref := 0
  const PROJECT_RULES: Ref := 1

  const APPROVAL_TOOLS: set<string> :=
    {"code_run", "file_write", "file_patch", "yole_image_generate", "start_long_term_update"}

  /** A pending slot and the call that registered it. */
  datatype Slot = Slot(owner: CallId, decision: Option<string>, signalled: bool)

  /** A handler holds references to the session's rule sets. */
  datatype Handler = Handler(global: Ref, project: Ref)

  /** Where a dispatch is: the next check, waiting on a slot, decided, past the gate, handed
      to the base dispatch, or refused. */
  datatype Phase =
    | Entered | CheckYolo | CheckGlobal | CheckProject | MustAsk
    | Waiting(id: ApprovalId) | Decided(decision: string)
    | Cleared | Running | Refused

  datatype Call = Call(handler: HandlerId, tool: string, disaster: bool, phase: Phase)

  /** What the command thread is in the middle of. */
  datatype Command =
    | Idle
    | FillGlobal(global: set<string>, project: set<string>)
    | NextProject(project: set<string>)
    | FillProject(project: set<string>)
    | Popped(id: ApprovalId, decision: string)
    | Written(id: ApprovalId)

  datatype State = State(
    rules: map<Ref, set<string>>,
    handlers: map<HandlerId, Handler>,
    yolo: bool,
    slots: map<ApprovalId, Slot>,
    pending: set<ApprovalId>,
    calls: map<CallId, Call>,
    command: Command)

  const INITIAL := State(map[GLOBAL_RULES := {}, PROJECT_RULES := {}], map[], false, map[], {}, map[], Idle)

  /** One atomic step; reads carry the value they saw. */
  datatype Action =
    | ClearGlobal(global: set<string>, project: set<string>) | UpdateGlobal
    | ClearProject(project: set<string>) | UpdateProject
    | SetYolo(enabled: bool)
    | PopPending(id: ApprovalId, decision: string) | PopUnknown(id: ApprovalId)
    | WriteDecision | Signal
    | NewHandler(handler: HandlerId)
    | Enter(call: CallId, handler: HandlerId, tool: string, disaster: bool)
    | PassDisasterCheck(call: CallId, disaster: bool)
    | LookYolo(call: CallId, seen: bool)
    | LookGlobal(call: CallId, seen: bool)
    | LookProject(call: CallId, seen: bool)
    | Register(call: CallId, id: ApprovalId)
    | Wake(call: CallId, id: ApprovalId, decision: string)
    | TimeOut(call: CallId)
    | Act(call: CallId, tool: string, decision: string)
    | SuperDispatch(call: CallId)

  function OrDeny(decision: Option<string>): string {
    if decision.None? || decision.value == "" then "deny" else decision.value
  }

  predicate Allows(decision: string) {
    decision == "allow_once" || decision == "always_allow_global" || decision == "always_allow_project"
  }

  predicate InPhase(s: State, c: CallId, p: Phase) {
    c in s.calls && s.calls[c].phase == p
  }

  function RulesSeenBy(s: State, c: CallId, project: bool): set<string> {
    if c in s.calls && s.calls[c].handler in s.handlers then
      var h := s.handlers[s.calls[c].handler];
      var ref := if project then h.project else h.global;
      if ref in s.rules then s.rules[ref] else {}
    else {}
  }

  /** When a step can happen. A slot's event can time out whether or not it is being set. */
  predicate Enabled(s: State, a: Action) {
    match a
    case ClearGlobal(_, _) => s.command == Idle
    case UpdateGlobal => s.command.FillGlobal?
    case ClearProject(p) => s.command == NextProject(p)
    case UpdateProject => s.command.FillProject?
    case SetYolo(_) => s.command == Idle
    case PopPending(id, _) => s.command == Idle && id in s.pending
    case PopUnknown(id) => s.command == Idle && id !in s.pending
    case WriteDecision => s.command.Popped? && s.command.id in s.slots
    case Signal => s.command.Written? && s.command.id in s.slots
    case NewHandler(h) => h !in s.handlers
    case Enter(c, h, _, _) => c !in s.calls && h in s.handlers
    case PassDisasterCheck(c, disaster) => InPhase(s, c, Entered) && s.calls[c].disaster == disaster
    case LookYolo(c, seen) => InPhase(s, c, CheckYolo) && seen == s.yolo
    case LookGlobal(c, seen) => InPhase(s, c, CheckGlobal) && seen == (s.calls[c].tool in RulesSeenBy(s, c, false))
    case LookProject(c, seen) => InPhase(s, c, CheckProject) && seen == (s.calls[c].tool in RulesSeenBy(s, c, true))
    case Register(c, id) => InPhase(s, c, MustAsk) && id !in s.slots
    case Wake(c, id, d) =>
      InPhase(s, c, Waiting(id)) && id in s.slots && s.slots[id].signalled && d == OrDeny(s.slots[id].decision)
    case TimeOut(c) => c in s.calls && s.calls[c].phase.Waiting?
    case Act(c, tool, d) => InPhase(s, c, Decided(d)) && tool == s.calls[c].tool
    case SuperDispatch(c) => InPhase(s, c, Cleared)
  }

  function Goto(s: State, c: CallId, p: Phase): State
    requires c in s.calls
  {
    s.(calls := s.calls[c := s.calls[c].(phase := p)])
  }

  function AddRule(s: State, c: CallId, project: bool): State
    requires c in s.calls
  {
    if s.calls[c].handler in s.handlers then
      var h := s.handlers[s.calls[c].handler];
      var ref := if project then h.project else h.global;
      s.(rules := s.rules[ref := RulesSeenBy(s, c, project) + {s.calls[c].tool}])
    else s
  }

  function Rules(s: State, ref: Ref): set<string> {
    if ref in s.rules then s.rules[ref] else {}
  }

  function Apply(s: State, a: Action): State
    requires Enabled(s, a)
  {
    match a
    case ClearGlobal(g, p) => s.(rules := s.rules[GLOBAL_RULES := {}], command := FillGlobal(g, p))
    case UpdateGlobal =>
      s.(rules := s.rules[GLOBAL_RULES := Rules(s, GLOBAL_RULES) + s.command.global],
         command := NextProject(s.command.project))
    case ClearProject(p) => s.(rules := s.rules[PROJECT_RULES := {}], command := FillProject(p))
    case UpdateProject =>
      s.(rules := s.rules[PROJECT_RULES := Rules(s, PROJECT_RULES) + s.command.project], command := Idle)
    case SetYolo(enabled) => s.(yolo := enabled)
    case PopPending(id, d) => s.(pending := s.pending - {id}, command := Popped(id, d))
    case PopUnknown(_) => s
    case WriteDecision =>
      var id := s.command.id;
      s.(slots := s.slots[id := s.slots[id].(decision := Some(s.command.decision))], command := Written(id))
    case Signal =>
      var id := s.command.id;
      s.(slots := s.slots[id := s.slots[id].(signalled := true)], command := Idle)
    case NewHandler(h) => s.(handlers := s.handlers[h := Handler(GLOBAL_RULES, PROJECT_RULES)])
    case Enter(c, h, tool, disaster) => s.(calls := s.calls[c := Call(h, tool, disaster, Entered)])
    case PassDisasterCheck(c, disaster) => Goto(s, c, if disaster then Refused else CheckYolo)
    case LookYolo(c, seen) =>
      Goto(s, c, if seen || s.calls[c].tool !in APPROVAL_TOOLS then Cleared else CheckGlobal)
    case LookGlobal(c, seen) => Goto(s, c, if seen then Cleared else CheckProject)
    case LookProject(c, seen) => Goto(s, c, if seen then Cleared else MustAsk)
    case Register(c, id) =>
      Goto(s, c, Waiting(id)).(slots := s.slots[id := Slot(c, None, false)], pending := s.pending + {id})
    case Wake(c, _, d) => Goto(s, c, Decided(d))
    case TimeOut(c) => Goto(s, c, Decided("deny"))
    case Act(c, _, d) =>
      if d == "always_allow_global" then Goto(AddRule(s, c, false), c, Cleared)
      else if d == "always_allow_project" then Goto(AddRule(s, c, true), c, Cleared)
      else Goto(s, c, if d == "allow_once" then Cleared else Refused)
    case SuperDispatch(c) => Goto(s, c, Running)
  }

  // ---------- runs ----------

  /** The steps can happen one after another from the start. */
  predicate Possible(run: seq<Action>)
    decreases |run|, 0
  {
    run == [] ||
    (var before := run[..|run| - 1];
     Possible(before) && Enabled(After(before), run[|run| - 1]))
  }

  function After(run: seq<Action>): State
    requires Possible(run)
    decreases |run|, 1
  {
    if run == [] then INITIAL
    else Apply(After(run[..|run| - 1]), run[|run| - 1])
  }

  lemma {:induction false} PrefixPossible(run: seq<Action>, n: nat)
    requires Possible(run) && n <= |run|
    ensures Possible(run[..n])
  {
    if n < |run| {
      PrefixPossible(run[..|run| - 1], n);
      assert run[..|run| - 1][..n] == run[..n];
    } else {
      assert run[..n] == run;
    }
  }

  /** The state before a step of a run, and the step. */
  lemma StepOfRun(run: seq<Action>, i: nat)
    requires Possible(run) && i < |run|
    ensures Possible(run[..i]) && Enabled(After(run[..i]), run[i])
  {
    hide Enabled, Apply;
    PrefixPossible(run, i);
    PrefixPossible(run, i + 1);
    assert run[..i + 1][..i] == run[..i] && run[..i + 1][i] == run[i];
  }

  ghost predicate InOrder(run: seq<Action>, x: Action, y: Action) {
    exists i, j :: 0 <= i < j < |run| && run[i] == x && run[j] == y
  }

  ghost predicate InOrder3(run: seq<Action>, x: Action, y: Action, z: Action) {
    exists i, j, k :: 0 <= i < j < k < |run| && run[i] == x && run[j] == y && run[k] == z
  }

  lemma OrderGrows(run: seq<Action>, a: Action)
    ensures forall x | x in run :: InOrder(run + [a], x, a)
    ensures forall x, y | InOrder(run, x, y) :: InOrder(run + [a], x, y) && InOrder3(run + [a], x, y, a)
    ensures forall x, y, z | InOrder3(run, x, y, z) :: InOrder3(run + [a], x, y, z)
  {
    PairsGrow(run, a, run + [a]);
    TriplesGrow(run, a, run + [a]);
  }

  lemma PairsGrow(run: seq<Action>, a: Action, more: seq<Action>)
    requires |more| == |run| + 1 && more[|run|] == a && forall i | 0 <= i < |run| :: more[i] == run[i]
    ensures forall x | x in run :: InOrder(more, x, a)
    ensures forall x, y | InOrder(run, x, y) :: InOrder(more, x, y) && InOrder3(more, x, y, a)
  {
    forall x | x in run ensures InOrder(more, x, a) {
      var i :| 0 <= i < |run| && run[i] == x;
      assert more[i] == x;
    }
    forall x, y | InOrder(run, x, y) ensures InOrder(more, x, y) && InOrder3(more, x, y, a) {
      var i, j :| 0 <= i < j < |run| && run[i] == x && run[j] == y;
      assert more[i] == x && more[j] == y;
    }
  }

  lemma TriplesGrow(run: seq<Action>, a: Action, more: seq<Action>)
    requires |more| == |run| + 1 && forall i | 0 <= i < |run| :: more[i] == run[i]
    ensures forall x, y, z | InOrder3(run, x, y, z) :: InOrder3(more, x, y, z)
  {
    hide InOrder3;
    forall x, y, z | InOrder3(run, x, y, z) ensures InOrder3(more, x, y, z) { TripleGrows(run, more, x, y, z); }
  }

  lemma TripleGrows(run: seq<Action>, more: seq<Action>, x: Action, y: Action, z: Action)
    requires |more| == |run| + 1 && forall i | 0 <= i < |run| :: more[i] == run[i]
    requires InOrder3(run, x, y, z)
    ensures InOrder3(more, x, y, z)
  {
    var i, j, k :| 0 <= i < j < k < |run| && run[i] == x && run[j] == y && run[k] == z;
    TripleAt(more, i, j, k);
  }

  lemma TripleAt(run: seq<Action>, i: nat, j: nat, k: nat)
    requires i < j < k < |run|
    ensures InOrder3(run, run[i], run[j], run[k])
  {}
}
