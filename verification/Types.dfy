/** Domain records shared by the scheduler, the policies and the Worker protocol
    (internal/types/types.go). */
module Types {

  /** Seconds on a monotone clock; 0.0 plays the role of Go's zero time. */
  type Time = real
  const UNSET: Time := 0.0

  datatype Option<+T> = None | Some(value: T)

  datatype State = Suspended | Running | Paused | Deleting

  datatype Source = NoSnapshot | LocalSnapshot | ExternalSnapshot

  /** A checkpoint directory snapRoot/worker/id; NoPath is the empty string. */
  datatype Path = NoPath | Dir(worker: string, id: string)

  /** An object-store prefix; NoKey is the empty string. */
  datatype Key = NoKey | GoldenKey | SandboxKey(id: string)

  /** `worker` is the empty string before the first placement. */
  datatype Sandbox = Sandbox(
    id: string,
    state: State,
    worker: string,
    path: Path,
    key: Key,
    source: Source,
    createdAt: Time,
    updatedAt: Time)

  datatype Worker = Worker(
    id: string,
    maxSlots: int,
    usedSlots: int,
    healthy: bool,
    registeredAt: Time)
  {
    function FreeSlots(): int {
      var slots := if maxSlots <= 0 then 1 else maxSlots;
      var free := slots - usedSlots;
      if free < 0 then 0 else free
    }
  }

  /** What a policy tells the scheduler: use an idle Worker, or suspend a victim and use its Worker. */
  datatype Decision = Admit(worker: string) | Preempt(victim: string, worker: string)

  /** The contract between a policy and the protocol, over the views the scheduler read:
      the ids of Workers seen free, and the Worker of every sandbox seen running. */
  predicate Allowed(sb: Sandbox, free: set<string>, running: map<string, string>, d: Decision) {
    && (d.Admit? ==> d.worker in free)
    && (d.Preempt? ==> d.victim in running && running[d.victim] == d.worker)
    && (sb.state == Paused ==> d.worker == sb.worker)
  }
}
