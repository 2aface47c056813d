/** What the supervisor's slots tell their readers over a run: the latest word of the shown process
    on each point, and of the preferences. */
module ImReports {
  import opened Text
  import opened ImSupervisor

  /** The last action of a kind. */
  function Latest(run: seq<Action>, kind: Action -> bool): (r: Option<Action>)
    ensures r.Some? ==> kind(r.value)
  {
    if run == [] then None
    else if kind(run[|run| - 1]) then Some(run[|run| - 1])
    else Latest(run[..|run| - 1], kind)
  }

  predicate PrintsFor(a: Action, platform: string, pid: Pid) {
    a.Print? && a.pid == pid && (a.line.platform == None || a.line.platform == Some(platform))
  }

  function AnyLine(platform: string, pid: Pid): Action -> bool {
    (a: Action) => PrintsFor(a, platform, pid)
  }

  function BotLine(platform: string, pid: Pid): Action -> bool {
    (a: Action) => PrintsFor(a, platform, pid) && a.line.botId != None
  }

  function QrLine(platform: string, pid: Pid): Action -> bool {
    (a: Action) => PrintsFor(a, platform, pid) && a.line.qrImagePath != None
  }

  /** Anything but an error line without a text says whether there is an error; a complaint does unless it
      is blank. */
  function ErrorWord(platform: string, pid: Pid): Action -> bool {
    (a: Action) =>
      || (PrintsFor(a, platform, pid) && (a.line.stage.Errored? ==> a.line.lastError != None))
      || (a.Complain? && a.pid == pid && Trim(a.text) != "")
  }

  function RefreshOf(platform: string): Action -> bool {
    (a: Action) => a.Refresh? && a.platform == platform
  }

  /** Nothing replaces the slot's process and it does not end. */
  predicate Undisturbed(run: seq<Action>, platform: string, pid: Pid) {
    forall a | a in run :: !Replaces(a, platform) && !(a.End? && a.pid == pid)
  }

  /** The slot shows the process, and what it tells is the latest word on each point. */
  ghost predicate TellsLatest(slots: Slots, run: seq<Action>, platform: string, pid: Pid) {
    && Shows(slots, platform, pid)
    && var s := slots[platform].status;
    && s.stage == (match Latest(run, AnyLine(platform, pid)) case None => Starting case Some(a) => a.line.stage)
    && s.botId == (match Latest(run, BotLine(platform, pid)) case None => None case Some(a) => a.line.botId)
    && s.qrImagePath == (match Latest(run, QrLine(platform, pid))
                         case None => None case Some(a) => a.line.qrImagePath)
    && s.lastError == (match Latest(run, ErrorWord(platform, pid))
                       case None => None
                       case Some(a) => if a.Print? then a.line.lastError else Some(Trim(a.text)))
  }

  lemma {:induction false} LatestSnoc(run: seq<Action>, a: Action, kind: Action -> bool)
    ensures Latest(run + [a], kind) == if kind(a) then Some(a) else Latest(run, kind)
  {
    assert (run + [a])[..|run|] == run;
  }

  lemma TellsNext(w: World, run: seq<Action>, a: Action, platform: string, pid: Pid)
    requires pid in w.started && w.started[pid] == platform && TellsLatest(w.slots, run, platform, pid)
    requires Enabled(w, a) && !Replaces(a, platform) && !(a.End? && a.pid == pid)
    ensures TellsLatest(Apply(w, a).slots, run + [a], platform, pid)
    ensures Apply(w, a).started[pid] == platform
  {
    LatestSnoc(run, a, AnyLine(platform, pid));
    LatestSnoc(run, a, BotLine(platform, pid));
    LatestSnoc(run, a, QrLine(platform, pid));
    LatestSnoc(run, a, ErrorWord(platform, pid));
    hide Latest, Trim;
    if !(a.Print? || a.Complain?) { QuietStep(w, a, platform, pid); }
  }

  /** Other steps leave what the slot tells alone. */
  lemma QuietStep(w: World, a: Action, platform: string, pid: Pid)
    requires pid in w.started && w.started[pid] == platform && Shows(w.slots, platform, pid)
    requires Enabled(w, a) && !Replaces(a, platform) && !(a.End? && a.pid == pid) && !a.Print? && !a.Complain?
    ensures Shows(Apply(w, a).slots, platform, pid) && Apply(w, a).started[pid] == platform
    ensures Tells(Apply(w, a).slots[platform].status) == Tells(w.slots[platform].status)
  {}

  /** From its start until it ends or is replaced, a process's slot tells the process's latest stage, bot
      and QR code and the latest word about an error, whatever other processes and tasks do. */
  lemma {:induction false} SlotTellsLatest(w: World, platform: string, pid: Pid, revision: Option<string>,
                                           run: seq<Action>)
    requires Enabled(w, Install(platform, pid, revision))
    requires Possible(Apply(w, Install(platform, pid, revision)), run) && Undisturbed(run, platform, pid)
    ensures var after := After(Apply(w, Install(platform, pid, revision)), run);
            pid in after.started && after.started[pid] == platform && TellsLatest(after.slots, run, platform, pid)
    decreases |run|
  {
    var v := Apply(w, Install(platform, pid, revision));
    if run != [] {
      hide Apply, Enabled, TellsLatest;
      var n := |run| - 1;
      assert run == run[..n] + [run[n]];
      AfterSnoc(v, run[..n], run[n]);
      SlotTellsLatest(w, platform, pid, revision, run[..n]);
      TellsNext(After(v, run[..n]), run[..n], run[n], platform, pid);
    }
  }

  // ---------- the preference ----------

  ghost predicate SlotIn(slots: Slots, platform: string, was: Status, run: seq<Action>) {
    && platform in slots
    && var s := slots[platform].status;
    && s.revision == was.revision
    && match Latest(run, RefreshOf(platform))
       case None => s.enabled == was.enabled && s.stale == was.stale
       case Some(a) =>
         && s.enabled == a.enabled
         && (s.stale <==> a.enabled && a.current != None && a.current != s.revision)
  }

  lemma KeepsNext(w: World, run: seq<Action>, a: Action, platform: string, was: Status)
    requires SlotIn(w.slots, platform, was, run) && Enabled(w, a) && !Replaces(a, platform)
    ensures SlotIn(Apply(w, a).slots, platform, was, run + [a])
  {
    LatestSnoc(run, a, RefreshOf(platform));
    hide Latest, Trim;
  }

  /** Until it is replaced, a slot keeps the revision it was started with, is enabled as the last refresh
      found, and stale if that refresh found it enabled with another revision in force. */
  lemma {:induction false} SlotKeepsRevision(w: World, platform: string, run: seq<Action>)
    requires platform in w.slots && Possible(w, run) && forall a | a in run :: !Replaces(a, platform)
    ensures SlotIn(After(w, run).slots, platform, w.slots[platform].status, run)
    decreases |run|
  {
    if run != [] {
      hide Apply, Enabled, SlotIn;
      var n := |run| - 1;
      assert run == run[..n] + [run[n]];
      AfterSnoc(w, run[..n], run[n]);
      SlotKeepsRevision(w, platform, run[..n]);
      KeepsNext(After(w, run[..n]), run[..n], run[n], platform, w.slots[platform].status);
    }
  }

  // ---------- the child ----------

  ghost predicate ChildIn(w: World, run: seq<Action>, platform: string, pid: Pid) {
    && Shows(w.slots, platform, pid)
    && w.slots[platform].child == (if TakeAndKill(platform) in run then None else Some(pid))
    && (pid in w.asked <==> TakeAndKill(platform) in run || KillHeld(platform) in run)
  }

  lemma ChildNext(w: World, run: seq<Action>, a: Action, platform: string, pid: Pid)
    requires Sound(w) && ChildIn(w, run, platform, pid)
    requires Enabled(w, a) && !Replaces(a, platform) && !(a.End? && a.pid == pid)
    ensures ChildIn(Apply(w, a), run + [a], platform, pid)
  {
    hide Trim;
    assert SlotSound(w, platform);
    if (a.TakeAndKill? || a.KillHeld?) && a.platform in w.slots { assert SlotSound(w, a.platform); }
  }

  /** Until it ends or is replaced, a process is held by its slot until it is taken out, and has been asked to
      end exactly when it was taken out or the slot's child was told to. */
  lemma {:induction false} ChildUntilTaken(w: World, platform: string, pid: Pid, revision: Option<string>,
                                           run: seq<Action>)
    requires Sound(w) && Enabled(w, Install(platform, pid, revision)) && pid !in w.asked
    requires Possible(Apply(w, Install(platform, pid, revision)), run) && Undisturbed(run, platform, pid)
    ensures ChildIn(After(Apply(w, Install(platform, pid, revision)), run), run, platform, pid)
    decreases |run|
  {
    var v := Apply(w, Install(platform, pid, revision));
    if run != [] {
      StepSound(w, Install(platform, pid, revision));
      hide Apply, Enabled, ChildIn, Sound;
      var n := |run| - 1;
      assert run == run[..n] + [run[n]];
      AfterSnoc(v, run[..n], run[n]);
      ChildUntilTaken(w, platform, pid, revision, run[..n]);
      RunSound(v, run[..n]);
      ChildNext(After(v, run[..n]), run[..n], run[n], platform, pid);
    }
  }

  // ---------- replacements and other slots ----------

  /** A new process's slot and an idle one, in full. */
  lemma ReplacedSlot(w: World, a: Action)
    requires IsReplacement(a)
    ensures var slots := Apply(w, a).slots;
            && a.platform in slots
            && var slot := slots[a.platform];
            && Tells(slot.status).botId == Tells(slot.status).lastError == None && !slot.status.stale
            && (a.Install? ==> slot.child == slot.status.pid == Some(a.pid) && slot.status.stage == Starting
                               && slot.status.qrImagePath == None && slot.status.enabled
                               && slot.status.revision == a.revision)
            && (a.Clear? ==> slot.child == slot.status.pid == None && slot.status.stage == a.stage
                             && slot.status.qrImagePath == a.qr && !slot.status.enabled
                             && slot.status.revision == None)
  {}

  predicate About(w: World, a: Action, platform: string) {
    if a.Print? || a.Complain? || a.End? then a.pid in w.started && w.started[a.pid] == platform
    else a.platform == platform
  }

  /** A step leaves the slots it is not about alone. */
  lemma StepKeepsOthers(w: World, a: Action, platform: string)
    requires !About(w, a, platform)
    ensures platform in Apply(w, a).slots <==> platform in w.slots
    ensures platform in w.slots ==> Apply(w, a).slots[platform] == w.slots[platform]
  {}
}
