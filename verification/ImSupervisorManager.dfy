/** The IM supervisor's manager as an object (core/src/im_supervisor.rs): its methods' locked
    sections are the steps of module ImSupervisor. */
module ImSupervisorManager {
  import opened Text
  import opened ImSupervisor

  class Manager {
    var slots: Slots

    constructor ()
      ensures slots == INITIAL.slots
    {
      slots := map[];
    }

    method SetSlot(platform: string, child: Option<Pid>, status: Status)
      modifies this
      ensures slots == old(slots)[platform := Slot(child, status)]
    {
      slots := slots[platform := Slot(child, status)];
    }

    method TakeChild(platform: string) returns (child: Option<Pid>)
      modifies this
      ensures slots == AfterTake(old(slots), platform)
      ensures child == if platform in old(slots) then old(slots)[platform].child else None
    {
      if platform !in slots { return None; }
      var slot := slots[platform];
      child := slot.child;
      slots := slots[platform := slot.(child := None)];
    }

    method ReadLine(platform: string, pid: Option<Pid>, line: Line)
      requires pid.Some?
      modifies this
      ensures slots == AfterLine(old(slots), platform, pid.value, line)
    {
      var linePlatform := if line.platform.Some? then line.platform.value else platform;
      if linePlatform != platform { return; }
      if platform !in slots { return; }
      var status := slots[platform].status;
      if status.pid != pid { return; }
      status := status.(stage := line.stage);
      if line.botId.Some? { status := status.(botId := line.botId); }
      if line.qrImagePath.Some? { status := status.(qrImagePath := line.qrImagePath); }
      if line.lastError.Some? {
        status := status.(lastError := line.lastError);
      } else if status.stage != Errored {
        status := status.(lastError := None);
      }
      slots := slots[platform := slots[platform].(status := status)];
    }

    method ReadStderr(platform: string, pid: Option<Pid>, text: string)
      requires pid.Some?
      modifies this
      ensures slots == AfterStderr(old(slots), platform, pid.value, text)
    {
      var line := Trim(text);
      if line == "" { return; }
      if platform !in slots || slots[platform].status.pid != pid { return; }
      slots := slots[platform := slots[platform].(status := slots[platform].status.(lastError := Some(line)))];
    }

    /** `wait_child` once the process has ended. */
    method ChildEnded(platform: string, pid: Option<Pid>, exit: Exit)
      requires pid.Some?
      modifies this
      ensures slots == AfterExit(old(slots), platform, pid.value, exit)
    {
      if platform !in slots { return; }
      var status := slots[platform].status;
      if status.pid != pid { return; }
      status := status.(pid := None);
      match status.stage {
        case Expired => {}
        case Errored => {}
        case Stopped => {}
        case _ => {
          match exit {
            case Success => status := status.(stage := Stopped);
            case Failure(report) =>
              status := status.(stage := Errored);
              status := status.(lastError := Some(report));
          }
        }
      }
      slots := slots[platform := Slot(None, status)];
    }

    method RefreshStaleness(platform: string, enabled: bool, current: Option<string>)
      modifies this
      ensures slots == AfterRefresh(old(slots), platform, enabled, current)
    {
      if platform !in slots { return; }
      var status := slots[platform].status;
      var next := status.(enabled := enabled, stale := enabled && current.Some? && status.revision != current);
      if next.enabled == status.enabled && next.stale == status.stale { return; }
      slots := slots[platform := slots[platform].(status := next)];
    }

    /** `start_inner`, undisturbed: `spawned` is the new process's pid, or None when a step in between
        fails. The second result is the process it asked to end. */
    method Start(platform: string, restart: bool, spawned: Option<Pid>, revision: Option<string>)
      returns (answer: Option<Status>, killed: Option<Pid>)
      modifies this
      ensures forall w: World | w.slots == old(slots) ::
                After(w, StartActions(w, platform, restart, spawned, revision)).slots == slots
      ensures answer.Some? ==> platform in slots && slots[platform].status == answer.value && Active(answer.value.stage)
      ensures answer.None? ==> spawned.None?
      ensures killed == if platform in old(slots) && Active(old(slots)[platform].status.stage) && restart
                        then old(slots)[platform].child else None
    {
      killed := None;
      ghost var before := slots;
      if platform in slots && Active(slots[platform].status.stage) {
        if !restart { return Some(slots[platform].status), None; }
        killed := TakeChild(platform);
      }
      if spawned.None? {
        StartIs(before, platform, restart, spawned, revision);
        return None, killed;
      }
      SetSlot(platform, spawned, FreshStatus(spawned.value, revision));
      StartIs(before, platform, restart, spawned, revision);
      answer := Some(slots[platform].status);
    }

    /** `stop`, undisturbed. */
    method Stop(platform: string, qr: Option<string>) returns (killed: Option<Pid>)
      modifies this
      ensures platform !in old(slots) ==> slots == old(slots) && killed == None
      ensures platform in old(slots) ==>
                killed == old(slots)[platform].child
                && forall w: World | w.slots == old(slots) ::
                     After(w, [KillHeld(platform), Clear(platform, Stopped, qr)]).slots == slots
    {
      if platform !in slots { return None; }
      killed := slots[platform].child;
      ghost var before := slots;
      SetSlot(platform, None, IdleStatus(Stopped, qr));
      forall w: World | w.slots == before
        ensures After(w, [KillHeld(platform), Clear(platform, Stopped, qr)]).slots == slots
      {
        var kill, clear := KillHeld(platform), Clear(platform, Stopped, qr);
        assert [kill, clear][1..] == [clear];
        assert After(Apply(w, kill), [clear]) == After(Apply(Apply(w, kill), clear), []);
      }
    }
  }

  /** A start's slots, by cases. */
  lemma StartIs(slots: Slots, platform: string, restart: bool, spawned: Option<Pid>, revision: Option<string>)
    requires restart || !(platform in slots && Active(slots[platform].status.stage))
    ensures forall w: World | w.slots == slots ::
              After(w, StartActions(w, platform, restart, spawned, revision)).slots ==
              var taken := if platform in slots && Active(slots[platform].status.stage)
                           then AfterTake(slots, platform) else slots;
              if spawned.Some?
              then taken[platform := Slot(spawned, FreshStatus(spawned.value, revision))] else taken
  {
    forall w: World | w.slots == slots
      ensures After(w, StartActions(w, platform, restart, spawned, revision)).slots ==
              var taken := if platform in slots && Active(slots[platform].status.stage)
                           then AfterTake(slots, platform) else slots;
              if spawned.Some?
              then taken[platform := Slot(spawned, FreshStatus(spawned.value, revision))] else taken
    {
      var take := TakeAndKill(platform);
      var actions := StartActions(w, platform, restart, spawned, revision);
      if platform in slots && Active(slots[platform].status.stage) {
        assert actions[0] == take && After(w, actions) == After(Apply(w, take), actions[1..]);
        if spawned.Some? {
          var install := Install(platform, spawned.value, revision);
          assert actions[1..] == [install];
          assert After(Apply(w, take), [install]) == After(Apply(Apply(w, take), install), []);
        }
      } else if spawned.Some? {
        var install := Install(platform, spawned.value, revision);
        assert actions == [install];
        assert After(w, [install]) == After(Apply(w, install), []);
      }
    }
  }
}
