/** The IM supervisor's process slots (core/src/im_supervisor.rs). Several tasks share them under one
    lock; each locked section is a step, so a run is any interleaving of the tasks. A process is known
    by its pid, and pids are distinct. */
module ImSupervisor {
  import opened Text

  type Pid = nat

  datatype Stage = NotConnected | Starting | WaitingScan | Running | Expired | Errored | Stopped

  datatype Status = Status(stage: Stage, enabled: bool, pid: Option<Pid>, botId: Option<string>,
                           qrImagePath: Option<string>, lastError: Option<string>,
                           revision: Option<string>, stale: bool)

  datatype Slot = Slot(child: Option<Pid>, status: Status)

  type Slots = map<string, Slot>

  /** A line the process printed, once parsed. */
  datatype Line = Line(platform: Option<string>, stage: Stage, botId: Option<string>,
                       qrImagePath: Option<string>, lastError: Option<string>)

  /** How waiting for the process ended: an exit code of 0, or what to report. */
  datatype Exit = Success | Failure(report: string)

  /** The slots, the platform each process was started for, and which processes have been seen to end
      or were asked to. */
  datatype World = World(slots: Slots, started: map<Pid, string>, ended: set<Pid>, asked: set<Pid>)

  const INITIAL := World(map[], map[], {}, {})

  // ---------- the locked sections ----------

  predicate Shows(slots: Slots, platform: string, pid: Pid) {
    platform in slots && slots[platform].status.pid == Some(pid)
  }

  predicate Settled(stage: Stage) {
    stage.Expired? || stage.Errored? || stage.Stopped?
  }

  predicate Active(stage: Stage) {
    stage.Starting? || stage.WaitingScan? || stage.Running?
  }

  function StatusAfterLine(s: Status, line: Line): Status {
    s.(stage := line.stage,
       botId := if line.botId.Some? then line.botId else s.botId,
       qrImagePath := if line.qrImagePath.Some? then line.qrImagePath else s.qrImagePath,
       lastError := if line.lastError.Some? then line.lastError
                    else if line.stage.Errored? then s.lastError else None)
  }

  /** `read_stdout`: a line of the process `pid` started for `platform`. */
  function AfterLine(slots: Slots, platform: string, pid: Pid, line: Line): Slots {
    if (line.platform.Some? && line.platform.value != platform) || !Shows(slots, platform, pid) then slots
    else slots[platform := slots[platform].(status := StatusAfterLine(slots[platform].status, line))]
  }

  /** `read_stderr` and `update_error`. */
  function AfterStderr(slots: Slots, platform: string, pid: Pid, text: string): Slots {
    if Trim(text) == "" || !Shows(slots, platform, pid) then slots
    else slots[platform := slots[platform].(status := slots[platform].status.(lastError := Some(Trim(text))))]
  }

  function StatusAfterExit(s: Status, exit: Exit): Status {
    if Settled(s.stage) then s.(pid := None)
    else match exit
      case Success => s.(pid := None, stage := Stopped)
      case Failure(report) => s.(pid := None, stage := Errored, lastError := Some(report))
  }

  /** `wait_child`, after the loop. */
  function AfterExit(slots: Slots, platform: string, pid: Pid, exit: Exit): Slots {
    if !Shows(slots, platform, pid) then slots
    else slots[platform := Slot(None, StatusAfterExit(slots[platform].status, exit))]
  }

  function AfterTake(slots: Slots, platform: string): Slots {
    if platform in slots then slots[platform := slots[platform].(child := None)] else slots
  }

  function Refreshed(s: Status, enabled: bool, current: Option<string>): Status {
    s.(enabled := enabled, stale := enabled && current.Some? && s.revision != current)
  }

  function AfterRefresh(slots: Slots, platform: string, enabled: bool, current: Option<string>): Slots {
    if platform in slots then
      slots[platform := slots[platform].(status := Refreshed(slots[platform].status, enabled, current))]
    else slots
  }

  function FreshStatus(pid: Pid, revision: Option<string>): Status {
    Status(Starting, true, Some(pid), None, None, None, revision, false)
  }

  /** What `stop` and `logout` leave behind. */
  function IdleStatus(stage: Stage, qr: Option<string>): Status {
    Status(stage, false, None, None, qr, None, None, false)
  }

  // ---------- steps and runs ----------

  datatype Action =
    | Install(platform: string, pid: Pid, revision: Option<string>)
    | Clear(platform: string, stage: Stage, qr: Option<string>)
    | TakeAndKill(platform: string)
    | KillHeld(platform: string)
    | Print(pid: Pid, line: Line)
    | Complain(pid: Pid, text: string)
    | End(pid: Pid, exit: Exit)
    | Refresh(platform: string, enabled: bool, current: Option<string>)

  /** A process prints, complains and ends only once started, and ends once. */
  predicate Enabled(w: World, a: Action) {
    match a
    case Install(_, pid, _) => pid !in w.started
    case Print(pid, _) => pid in w.started
    case Complain(pid, _) => pid in w.started
    case End(pid, _) => pid in w.started && pid !in w.ended
    case Clear(_, _, _) => true
    case TakeAndKill(_) => true
    case KillHeld(_) => true
    case Refresh(_, _, _) => true
  }

  function Held(w: World, platform: string): set<Pid> {
    if platform in w.slots && w.slots[platform].child.Some? then {w.slots[platform].child.value} else {}
  }

  function Apply(w: World, a: Action): World {
    match a
    case Install(platform, pid, revision) =>
      w.(slots := w.slots[platform := Slot(Some(pid), FreshStatus(pid, revision))],
         started := w.started[pid := platform])
    case Clear(platform, stage, qr) => w.(slots := w.slots[platform := Slot(None, IdleStatus(stage, qr))])
    case TakeAndKill(platform) => w.(slots := AfterTake(w.slots, platform), asked := w.asked + Held(w, platform))
    case KillHeld(platform) => w.(asked := w.asked + Held(w, platform))
    case Print(pid, line) =>
      if pid in w.started then w.(slots := AfterLine(w.slots, w.started[pid], pid, line)) else w
    case Complain(pid, text) =>
      if pid in w.started then w.(slots := AfterStderr(w.slots, w.started[pid], pid, text)) else w
    case End(pid, exit) =>
      if pid in w.started then
        w.(slots := AfterExit(w.slots, w.started[pid], pid, exit), ended := w.ended + {pid})
      else w
    case Refresh(platform, enabled, current) => w.(slots := AfterRefresh(w.slots, platform, enabled, current))
  }

  predicate Possible(w: World, run: seq<Action>)
    decreases run
  {
    run == [] || (Enabled(w, run[0]) && Possible(Apply(w, run[0]), run[1..]))
  }

  function After(w: World, run: seq<Action>): World
    decreases run
  {
    if run == [] then w else After(Apply(w, run[0]), run[1..])
  }

  // ---------- the invariant ----------

  /** A slot shows only a process of its own that has not ended, and holds only the one it shows. */
  predicate SlotSound(w: World, platform: string)
    requires platform in w.slots
  {
    var slot := w.slots[platform];
    && (slot.child.Some? ==> slot.status.pid == slot.child)
    && (slot.status.pid.Some? ==>
          var pid := slot.status.pid.value;
          pid in w.started && w.started[pid] == platform && pid !in w.ended)
  }

  predicate Sound(w: World) {
    && w.ended <= w.started.Keys
    && forall platform | platform in w.slots :: SlotSound(w, platform)
  }

  lemma StepSound(w: World, a: Action)
    requires Sound(w) && Enabled(w, a)
    ensures Sound(Apply(w, a))
  {
    var after := Apply(w, a);
    forall platform | platform in after.slots ensures SlotSound(after, platform) {
      if platform in w.slots { assert SlotSound(w, platform); }
    }
  }

  /** Through every run, a held child is the process the slot shows. */
  lemma {:induction false} RunSound(w: World, run: seq<Action>)
    requires Sound(w) && Possible(w, run)
    ensures Sound(After(w, run))
    decreases run
  {
    if run != [] {
      StepSound(w, run[0]);
      RunSound(Apply(w, run[0]), run[1..]);
    }
  }

  lemma HeldIsShown(run: seq<Action>, platform: string)
    requires Possible(INITIAL, run)
    ensures var slots := After(INITIAL, run).slots;
            platform in slots && slots[platform].child.Some? ==> slots[platform].status.pid == slots[platform].child
  {
    RunSound(INITIAL, run);
    var w := After(INITIAL, run);
    if platform in w.slots { assert SlotSound(w, platform); }
  }

  // ---------- fencing ----------

  /** The process was started, and no slot shows it any more. */
  predicate Fenced(w: World, pid: Pid) {
    pid in w.started && forall platform | platform in w.slots :: w.slots[platform].status.pid != Some(pid)
  }

  predicate OfProcess(a: Action, pid: Pid) {
    (a.Print? || a.Complain? || a.End?) && a.pid == pid
  }

  lemma FencedStays(w: World, a: Action, pid: Pid)
    requires Fenced(w, pid) && Enabled(w, a)
    ensures Fenced(Apply(w, a), pid)
    ensures OfProcess(a, pid) ==> Apply(w, a).slots == w.slots
  {}

  /** Replacing or clearing the slot fences the process it showed. */
  lemma ReplacingFences(w: World, a: Action, platform: string, pid: Pid)
    requires Sound(w) && Enabled(w, a) && Shows(w.slots, platform, pid)
    requires Replaces(a, platform)
    ensures Fenced(Apply(w, a), pid)
  {
    assert SlotSound(w, platform);
    forall other | other in w.slots && other != platform ensures w.slots[other].status.pid != Some(pid) {
      assert SlotSound(w, other);
    }
  }

  /** The run without anything the process does. */
  function Without(run: seq<Action>, pid: Pid): seq<Action> {
    if run == [] then [] else (if OfProcess(run[0], pid) then [] else [run[0]]) + Without(run[1..], pid)
  }

  /** The worlds differ at most in whether the process has been seen to end. */
  predicate SameBut(w: World, v: World, pid: Pid) {
    w.slots == v.slots && w.started == v.started && w.asked == v.asked && w.ended - {pid} == v.ended - {pid}
  }

  lemma SameStep(w: World, v: World, a: Action, pid: Pid)
    requires SameBut(w, v, pid) && Enabled(w, a) && !OfProcess(a, pid)
    ensures Enabled(v, a) && SameBut(Apply(w, a), Apply(v, a), pid)
  {
    if a.End? {
      assert a.pid in w.ended - {pid} <==> a.pid in v.ended - {pid};
      assert (w.ended + {a.pid}) - {pid} == (w.ended - {pid}) + {a.pid};
      assert (v.ended + {a.pid}) - {pid} == (v.ended - {pid}) + {a.pid};
    }
  }

  /** Whatever a fenced process prints or however it ends, every later slot is as if it had not. */
  lemma {:induction false} FencedIsInvisible(w: World, v: World, run: seq<Action>, pid: Pid)
    requires Fenced(w, pid) && Possible(w, run) && SameBut(w, v, pid)
    ensures Possible(v, Without(run, pid))
    ensures After(w, run).slots == After(v, Without(run, pid)).slots
    decreases run
  {
    if run != [] {
      var a := run[0];
      FencedStays(w, a, pid);
      if OfProcess(a, pid) {
        assert SameBut(Apply(w, a), v, pid);
        FencedIsInvisible(Apply(w, a), v, run[1..], pid);
        assert Without(run, pid) == Without(run[1..], pid);
      } else {
        SameStep(w, v, a, pid);
        FencedIsInvisible(Apply(w, a), Apply(v, a), run[1..], pid);
        assert Without(run, pid) == [a] + Without(run[1..], pid);
        assert Without(run, pid)[1..] == Without(run[1..], pid);
      }
    }
  }

  /** Once another process or nothing takes the slot, the old process is out of it for good. */
  lemma ReplacedIsInvisible(w: World, a: Action, run: seq<Action>, platform: string, pid: Pid)
    requires Sound(w) && Enabled(w, a) && Shows(w.slots, platform, pid)
    requires Replaces(a, platform)
    requires Possible(Apply(w, a), run)
    ensures After(Apply(w, a), run).slots == After(Apply(w, a), Without(run, pid)).slots
  {
    ReplacingFences(w, a, platform, pid);
    FencedIsInvisible(Apply(w, a), Apply(w, a), run, pid);
  }

  // ---------- the last word ----------

  /** What a slot tells its readers about the process, the preference aside. */
  datatype Told = Told(stage: Stage, botId: Option<string>, qrImagePath: Option<string>, lastError: Option<string>)

  function Tells(s: Status): Told {
    Told(s.stage, s.botId, s.qrImagePath, s.lastError)
  }

  predicate IsReplacement(a: Action) {
    a.Install? || a.Clear?
  }

  predicate Replaces(a: Action, platform: string) {
    IsReplacement(a) && a.platform == platform
  }

  /** When the shown process ends, a settled report stands as it was; any other becomes Stopped or an
      error by its exit. The slot then shows and holds nothing. */
  lemma EndKeepsReport(w: World, pid: Pid, exit: Exit)
    requires Sound(w) && Enabled(w, End(pid, exit)) && Shows(w.slots, w.started[pid], pid)
    ensures var was, slot := w.slots[w.started[pid]].status, Apply(w, End(pid, exit)).slots[w.started[pid]];
            && slot.child == None && slot.status.pid == None
            && Tells(slot.status) == if was.stage in {Expired, Errored, Stopped} then Tells(was)
                                     else if exit.Success? then Tells(was).(stage := Stopped)
                                     else Tells(was).(stage := Errored, lastError := Some(exit.report))
  {}

  /** From then on nothing but a replacement changes what the slot tells. */
  lemma {:induction false} EndedReportStands(w: World, run: seq<Action>, platform: string)
    requires Possible(w, run) && platform in w.slots && w.slots[platform].status.pid == None
    requires forall a | a in run :: !Replaces(a, platform)
    ensures var slots := After(w, run).slots;
            platform in slots && Tells(slots[platform].status) == Tells(w.slots[platform].status)
    decreases run
  {
    if run != [] {
      assert run[0] in run;
      EndedReportStands(Apply(w, run[0]), run[1..], platform);
    }
  }

  // ---------- starting ----------

  /** `start_inner` run on its own: answer with a live slot, or end what it holds and start a process.
      `spawned` is None when anything between fails. */
  function StartActions(w: World, platform: string, restart: bool, spawned: Option<Pid>,
                        revision: Option<string>): seq<Action> {
    var active := platform in w.slots && Active(w.slots[platform].status.stage);
    if active && !restart then []
    else (if active then [TakeAndKill(platform)] else [])
         + (if spawned.Some? then [Install(platform, spawned.value, revision)] else [])
  }

  /** Running processes that nobody holds and nobody asked to end. */
  function Abandoned(w: World): set<Pid> {
    set pid | pid in w.started && pid !in w.ended && pid !in w.asked
              && !(w.started[pid] in w.slots && w.slots[w.started[pid]].child == Some(pid))
  }

  /** One step abandons something exactly when it replaces a held process that nobody asked to end. */
  lemma StepAbandonsExactly(w: World, a: Action)
    requires Sound(w) && Enabled(w, a) && Abandoned(w) == {}
    ensures Abandoned(Apply(w, a)) == {} <==> (IsReplacement(a) ==> Held(w, a.platform) <= w.asked)
  {
    var after := Apply(w, a);
    if IsReplacement(a) {
      AbandonedByReplacing(w, a);
      var unasked := Held(w, a.platform) - w.asked;
      forall p | p in Held(w, a.platform) ensures p in w.asked <==> p !in unasked {}
    } else {
      forall p | p in after.started ensures p !in Abandoned(after) {
        assert p !in Abandoned(w);
      }
    }
  }

  /** What a replacement abandons, whoever makes it. */
  lemma AbandonedByReplacing(w: World, a: Action)
    requires Sound(w) && Enabled(w, a) && IsReplacement(a) && Abandoned(w) == {}
    ensures Abandoned(Apply(w, a)) == Held(w, a.platform) - w.asked
  {
    var after := Apply(w, a);
    if a.platform in w.slots { assert SlotSound(w, a.platform); }
    forall p ensures p in Abandoned(after) <==> p in Held(w, a.platform) - w.asked {
      assert p !in Abandoned(w);
    }
  }

  ghost predicate NeverAbandons(w: World, run: seq<Action>) {
    forall n | 0 <= n <= |run| :: Abandoned(After(w, run[..n])) == {}
  }

  /** Every replacement finds the process the slot holds asked to end, or none. */
  ghost predicate ReplacesAsked(w: World, run: seq<Action>) {
    forall n | 0 <= n < |run| && IsReplacement(run[n]) ::
      Held(After(w, run[..n]), run[n].platform) <= After(w, run[..n]).asked
  }

  lemma {:induction false} AfterSnoc(w: World, run: seq<Action>, a: Action)
    ensures After(w, run + [a]) == Apply(After(w, run), a)
    ensures Possible(w, run + [a]) <==> Possible(w, run) && Enabled(After(w, run), a)
    decreases run
  {
    if run == [] {
      assert run + [a] == [a] && [a][1..] == [];
    } else {
      assert (run + [a])[1..] == run[1..] + [a];
      AfterSnoc(Apply(w, run[0]), run[1..], a);
    }
  }

  lemma {:induction false} PrefixPossible(w: World, run: seq<Action>, n: nat)
    requires Possible(w, run) && n <= |run|
    ensures Possible(w, run[..n])
    decreases |run|
  {
    if n < |run| {
      var last := |run| - 1;
      assert run == run[..last] + [run[last]] && run[..last][..n] == run[..n];
      AfterSnoc(w, run[..last], run[last]);
      PrefixPossible(w, run[..last], n);
    } else {
      assert run[..n] == run;
    }
  }

  /** Over every interleaving of starts, stops, logouts and whatever the processes do, nothing is ever
      abandoned exactly when every replacement finds the held process asked to end. */
  lemma RunAbandonsExactly(run: seq<Action>)
    requires Possible(INITIAL, run)
    ensures NeverAbandons(INITIAL, run) <==> ReplacesAsked(INITIAL, run)
  {
    hide Apply, Enabled, Abandoned, Sound, Possible;
    if ReplacesAsked(INITIAL, run) {
      forall n | 0 <= n <= |run| ensures Abandoned(After(INITIAL, run[..n])) == {} {
        AskedNeverAbandons(run, n);
      }
    }
    if NeverAbandons(INITIAL, run) {
      forall n | 0 <= n < |run| && IsReplacement(run[n])
        ensures Held(After(INITIAL, run[..n]), run[n].platform) <= After(INITIAL, run[..n]).asked
      {
        StepOfRun(run, n);
        StepAbandonsExactly(After(INITIAL, run[..n]), run[n]);
      }
    }
  }

  lemma StepOfRun(run: seq<Action>, n: nat)
    requires Possible(INITIAL, run) && n < |run|
    ensures var w := After(INITIAL, run[..n]);
            Sound(w) && Enabled(w, run[n]) && After(INITIAL, run[..n + 1]) == Apply(w, run[n])
  {
    hide Apply, Enabled, Sound;
    PrefixPossible(INITIAL, run, n);
    PrefixPossible(INITIAL, run, n + 1);
    assert run[..n + 1] == run[..n] + [run[n]];
    AfterSnoc(INITIAL, run[..n], run[n]);
    InitialSound();
    RunSound(INITIAL, run[..n]);
  }

  lemma InitialSound()
    ensures Sound(INITIAL) && Abandoned(INITIAL) == {}
  {}

  lemma {:induction false} AskedNeverAbandons(run: seq<Action>, n: nat)
    requires Possible(INITIAL, run) && ReplacesAsked(INITIAL, run) && n <= |run|
    ensures Abandoned(After(INITIAL, run[..n])) == {}
    decreases n
  {
    hide Apply, Enabled, Abandoned, Sound, Possible;
    if n == 0 {
      InitialSound();
      assert run[..0] == [];
    } else {
      AskedNeverAbandons(run, n - 1);
      StepOfRun(run, n - 1);
      StepAbandonsExactly(After(INITIAL, run[..n - 1]), run[n - 1]);
    }
  }

  /** A start that nobody disturbs abandons the held process exactly when that process has already reported
      something other than starting, waiting or running, for then it is neither ended nor held. */
  lemma StartAbandonsExactly(w: World, platform: string, restart: bool, pid: Pid, revision: Option<string>)
    requires Sound(w) && pid !in w.started && Abandoned(w) == {}
    ensures var after := After(w, StartActions(w, platform, restart, Some(pid), revision));
            Abandoned(after) != {} <==>
            Held(w, platform) - w.asked != {} && w.slots[platform].status.stage !in {Starting, WaitingScan, Running}
  {
    var active := platform in w.slots && Active(w.slots[platform].status.stage);
    var take, install := TakeAndKill(platform), Install(platform, pid, revision);
    var after := After(w, StartActions(w, platform, restart, Some(pid), revision));
    if active && !restart {
      assert after == w;
    } else if active {
      assert [take, install][1..] == [install];
      var taken := Apply(w, take);
      assert After(w, [take, install]) == After(taken, [install]);
      assert After(taken, [install]) == Apply(taken, install);
      assert SlotSound(w, platform);
      assert Abandoned(Apply(taken, install)) == {} by { NoneAbandoned(w, platform, pid, revision); }
    } else {
      assert StartActions(w, platform, restart, Some(pid), revision) == [install];
      assert After(w, [install]) == After(Apply(w, install), []);
      AbandonedByReplacing(w, install);
    }
  }

  lemma NoneAbandoned(w: World, platform: string, pid: Pid, revision: Option<string>)
    requires Sound(w) && pid !in w.started && Abandoned(w) == {}
    ensures Abandoned(Apply(Apply(w, TakeAndKill(platform)), Install(platform, pid, revision))) == {}
  {
    var after := Apply(Apply(w, TakeAndKill(platform)), Install(platform, pid, revision));
    forall p | p in after.started && p != pid ensures p !in Abandoned(after) {
      assert p !in Abandoned(w);
    }
  }

  /** Such a run: a process reports an error and goes on running, and the next start leaves it behind. */
  lemma ErrorThenStartAbandons(platform: string, text: string)
    ensures var reported := [Install(platform, 1, None), Print(1, Line(None, Errored, None, None, Some(text)))];
            var w := After(INITIAL, reported);
            && Possible(INITIAL, reported) && Abandoned(w) == {}
            && 1 in Abandoned(After(w, StartActions(w, platform, true, Some(2), None)))
  {
    var install, tell := Install(platform, 1, None), Print(1, Line(None, Errored, None, None, Some(text)));
    var w1 := Apply(INITIAL, install);
    var w := Apply(w1, tell);
    assert [install, tell][1..] == [tell];
    assert After(w1, [tell]) == After(w, []);
    assert Possible(w1, [tell]);
    assert StartActions(w, platform, true, Some(2), None) == [Install(platform, 2, None)];
    assert After(w, [Install(platform, 2, None)]) == After(Apply(w, Install(platform, 2, None)), []);
  }

  /** Two starts at once: the second replaces what the first has just started. */
  lemma TwoStartsAbandon(platform: string)
    ensures var run := [Install(platform, 1, None), Install(platform, 2, None)];
            Possible(INITIAL, run) && 1 in Abandoned(After(INITIAL, run))
  {
    var one, two := Install(platform, 1, None), Install(platform, 2, None);
    AfterSnoc(INITIAL, [], one);
    AfterSnoc(INITIAL, [one], two);
    assert [] + [one] == [one] && [one] + [two] == [one, two];
  }

  /** A stop overtaken by a start: it has asked the old process to end, and clears the new one. */
  lemma StopRacesStart(platform: string)
    ensures var run := [Install(platform, 1, None), KillHeld(platform), Install(platform, 2, None),
                        Clear(platform, Stopped, None)];
            Possible(INITIAL, run) && 2 in Abandoned(After(INITIAL, run))
  {
    var one, kill, two := Install(platform, 1, None), KillHeld(platform), Install(platform, 2, None);
    var clear := Clear(platform, Stopped, None);
    AfterSnoc(INITIAL, [], one);
    AfterSnoc(INITIAL, [one], kill);
    AfterSnoc(INITIAL, [one, kill], two);
    AfterSnoc(INITIAL, [one, kill, two], clear);
    assert [] + [one] == [one] && [one] + [kill] == [one, kill] && [one, kill] + [two] == [one, kill, two];
    assert [one, kill, two] + [clear] == [one, kill, two, clear];
  }
}
