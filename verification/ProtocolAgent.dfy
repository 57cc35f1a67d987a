/** The protocol's Worker steps are what a Worker agent does when asked: an agent that mirrors its host in the
    machine still mirrors it afterwards (internal/workerserver/server.go, internal/scheduler/scheduler.go). */
module ProtocolAgent {
  import opened Types
  import opened WorkerAgent
  import opened Protocol

  ghost predicate Mirrors(agent: Agent, m: Machine, w: string)
    reads agent
  {
    agent.Valid() && agent.alive == Alive(m, w) && agent.images == Images(m, w)
  }

  method ServeCheckpoint(agent: Agent, ghost m: Machine, sb: Sandbox, upload: bool, taken: nat, fate: CheckpointFate)
    returns (ok: bool)
    requires Mirrors(agent, m, sb.worker) && taken == VersionOf(m, sb.id) + 1
    modifies agent
    ensures Mirrors(agent, Checkpointed(m, sb, upload, fate), sb.worker) && (ok <==> fate == Done)
    ensures forall v :: v != sb.worker ==> SameHost(m, Checkpointed(m, sb, upload, fate), v)
  {
    ok := agent.HandleCheckpoint(Box(sb.id), Dir(sb.worker, sb.id), taken, fate);
  }

  ghost predicate SameHost(m: Machine, n: Machine, v: string) {
    Alive(n, v) == Alive(m, v) && Images(n, v) == Images(m, v)
  }

  /** How a restore ends as far as the directory goes: a directory already there, or a store with nothing under the
      key, leaves the disk alone whatever fails. */
  function EndingOf(fate: RestoreFate, present: bool, remote: Option<Image>): RestoreFate {
    if present || remote.None? then (if fate == Started && present then Started else Untouched) else fate
  }

  /** One restore RPC is the protocol's claim and fetch one after the other, or its refusal. */
  method ServeRestore(agent: Agent, ghost s: System, ghost c: int, id: string, plan: Plan, remote: Option<Image>,
                      fate: RestoreFate)
    returns (restored: Option<Image>)
    requires c in s.calls && s.calls[c].Restoring? && s.calls[c].sb.id == id && s.calls[c].plan == plan
    requires Mirrors(agent, s.m, s.calls[c].worker) && remote == Remote(s.m, plan.key)
    modifies agent
    ensures !MayClaim(Alive(s.m, s.calls[c].worker), Box(id)) ==>
              restored.None? && RestoreEnabled(s, c, RefuseSlot) && Mirrors(agent, s.m, s.calls[c].worker)
    ensures MayClaim(Alive(s.m, s.calls[c].worker), Box(id)) ==>
              && RestoreEnabled(s, c, ClaimSlot)
              && var claimed := RestoreApply(s, c, ClaimSlot);
                 var ending := EndingOf(fate, plan.dir in Images(s.m, s.calls[c].worker), remote);
                 && RestoreEnabled(claimed, c, Fetch(ending))
                 && var t := RestoreApply(claimed, c, Fetch(ending));
                    && Mirrors(agent, t.m, s.calls[c].worker)
                    && (restored.Some? <==> t.calls[c].Restored?)
                    && (restored.Some? ==> t.calls[c].image == restored.value)
  {
    ghost var w := s.calls[c].worker;
    ghost var claimable := MayClaim(Alive(s.m, w), Box(id));
    if claimable {
      ghost var claimed := RestoreApply(s, c, ClaimSlot);
      assert Alive(claimed.m, w) == {Box(id)} && Images(claimed.m, w) == Images(s.m, w);
      assert Remote(claimed.m, plan.key) == remote;
    }
    restored := agent.HandleRestore(Box(id), plan.dir, remote, fate);
  }

  /** One boot RPC is the protocol's boot of the golden template. */
  method ServeBoot(agent: Agent, ghost s: System, ghost c: int, boot: int, booted: bool) returns (ok: bool)
    requires GoldenEnabled(s, c, BootGolden(boot, booted, false))
    requires Mirrors(agent, s.m, GoldenOf(s.calls[c]).value.worker)
    modifies agent
    ensures Mirrors(agent, GoldenApply(s, c, BootGolden(boot, booted, false)).m, GoldenOf(s.calls[c]).value.worker)
    ensures ok <==> c in GoldenApply(s, c, BootGolden(boot, booted, false)).calls
  {
    ok := agent.HandleBoot(GoldenBoot(boot), booted);
  }

  method ServeDelete(agent: Agent, ghost m: Machine, sb: Sandbox)
    requires sb.id in m.records && m.records[sb.id] == sb && sb.state == Running && sb.worker != ""
    requires Mirrors(agent, m, sb.worker)
    modifies agent
    ensures Mirrors(agent, Deleted(m, sb.id, true), sb.worker)
  {
    agent.HandleDelete(Box(sb.id));
  }
}
