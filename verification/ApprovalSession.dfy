/** The session's approval state and the handler that consults it, as objects
    (runner/yole_bridge.py, runner/handlers.py). The rule sets are objects of their own: a
    handler holds references to the session's, and a rebuilt handler holds the same ones. */
module ApprovalSession {
  import opened Text
  import opened ApprovalProtocol

  class RuleSet {
    var tools: set<string>

    constructor ()
      ensures tools == {}
    {
      tools := {};
    }

    /** Cleared and refilled in place, so holders of the reference see the new rules. */
    method Replace(rules: set<string>)
      modifies this
      ensures tools == rules
    {
      tools := {};
      tools := tools + rules;
    }

    method Add(tool: string)
      modifies this
      ensures tools == old(tools) + {tool}
    {
      tools := tools + {tool};
    }
  }

  class PendingApproval {
    var decision: Option<string>
    var signalled: bool

    constructor ()
      ensures decision == None && !signalled
    {
      decision, signalled := None, false;
    }
  }

  class SessionState {
    const alwaysAllowGlobal: RuleSet
    const alwaysAllowProject: RuleSet
    var yoloMode: bool
    var pending: map<string, PendingApproval>

    constructor ()
      ensures fresh(alwaysAllowGlobal) && fresh(alwaysAllowProject) && alwaysAllowGlobal != alwaysAllowProject
      ensures alwaysAllowGlobal.tools == alwaysAllowProject.tools == {} && !yoloMode && pending == map[]
    {
      alwaysAllowGlobal := new RuleSet();
      alwaysAllowProject := new RuleSet();
      yoloMode, pending := false, map[];
    }

    method RegisterPending(id: string) returns (p: PendingApproval)
      modifies `pending
      ensures fresh(p) && p.decision == None && !p.signalled
      ensures pending == old(pending)[id := p]
    {
      p := new PendingApproval();
      pending := pending[id := p];
    }

    /** Takes the slot out before deciding it, so no slot can be decided twice. */
    method ResolvePending(id: string, decision: string) returns (found: bool)
      modifies `pending, if id in pending then {pending[id]} else {}
      ensures found <==> id in old(pending)
      ensures pending == old(pending) - {id}
      ensures found ==> old(pending)[id].decision == Some(decision) && old(pending)[id].signalled
    {
      if id !in pending {
        return false;
      }
      var p := pending[id];
      pending := pending - {id};
      p.decision := Some(decision);
      p.signalled := true;
      found := true;
    }

    method SetApprovalRules(global: set<string>, project: set<string>)
      requires alwaysAllowGlobal != alwaysAllowProject
      modifies alwaysAllowGlobal, alwaysAllowProject
      ensures alwaysAllowGlobal.tools == global && alwaysAllowProject.tools == project
    {
      alwaysAllowGlobal.Replace(global);
      alwaysAllowProject.Replace(project);
    }
  }

  class YoleHandler {
    const session: SessionState
    const global: RuleSet
    const project: RuleSet

    ghost predicate Shares() {
      global == session.alwaysAllowGlobal && project == session.alwaysAllowProject
    }

    constructor (session: SessionState)
      ensures this.session == session && Shares()
    {
      this.session := session;
      global := session.alwaysAllowGlobal;
      project := session.alwaysAllowProject;
    }

    /** The gate, read at one moment. */
    predicate NeedsApproval(tool: string)
      reads session, global, project
    {
      if session.yoloMode then false
      else if tool !in APPROVAL_TOOLS then false
      else if tool in global.tools then false
      else tool !in project.tools
    }

    /** A rebuilt handler decides as the one it replaces. */
    lemma RebuiltAgrees(other: YoleHandler, tool: string)
      requires Shares() && other.Shares() && other.session == session
      ensures NeedsApproval(tool) == other.NeedsApproval(tool)
      ensures NeedsApproval(tool) <==>
                !session.yoloMode && tool in APPROVAL_TOOLS
                && tool !in session.alwaysAllowGlobal.tools && tool !in session.alwaysAllowProject.tools
    {}

    /** What `dispatch` does with a decision; any answer it does not know is a denial. */
    method Settle(tool: string, decision: string) returns (proceed: bool)
      requires Shares() && global != project
      modifies global, project
      ensures proceed <==> Allows(decision)
      ensures global.tools == old(global.tools) + if decision == "always_allow_global" then {tool} else {}
      ensures project.tools == old(project.tools) + if decision == "always_allow_project" then {tool} else {}
      ensures proceed && decision != "allow_once" ==> !NeedsApproval(tool)
    {
      proceed := true;
      if decision == "deny" {
        return false;
      }
      if decision == "always_allow_global" {
        global.Add(tool);
      } else if decision == "always_allow_project" {
        project.Add(tool);
      } else if decision != "allow_once" {
        proceed := false;
      }
    }
  }
}
