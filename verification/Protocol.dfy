/** The Worker-slot protocol as a state machine over atomic steps: any number of concurrent
    Resume, Pause, Suspend and EnsureGolden calls, one record store, one knock mutex, one
    restore-reservation map, and Workers that claim and release a slot by RPC
    (internal/scheduler/scheduler.go, internal/workerserver/server.go). */
module Protocol {
  import opened Types
  import opened WorkerAgent

  // ----- state -----

  /** One Worker as the protocol sees it: its `alive` set and its checkpoint directories. */
  datatype Host = Host(alive: set<Occupant>, images: map<Path, Image>)

  /** Everything outside the calls' program counters and the scheduler's locks. `versions` counts
      the successful checkpoints of every sandbox ever created; it is history, nothing reads it. */
  datatype Machine = Machine(
    records: map<string, Sandbox>,
    hosts: map<string, Host>,
    objects: map<string, Image>,
    goldenReady: bool,
    versions: map<string, nat>)

  /** pauseOrSuspend: read the record, checkpoint by RPC, write the record. */
  datatype Checkpoint =
    | Asked(victim: string, upload: bool)
    | InFlight(sb: Sandbox, upload: bool)
    | Taken(sb: Sandbox, upload: bool)

  /** EnsureGolden once the golden prefix was found missing. */
  datatype Golden =
    | Placing
    | Making(worker: string, ck: Checkpoint)
    | Booting(worker: string)
    | Sealing(worker: string, boot: int)
    | Cleaning(worker: string, boot: int)
    | Publishing

  /** Where a Restore reads its image from: the directory, and the object prefix to download from. */
  datatype Plan = Plan(dir: Path, key: Key)

  /** Program counters. `sb` is the caller's own copy of the record. */
  datatype Call =
    | Lobby(sb: Sandbox)
    | Held(sb: Sandbox)
    | Scanning(sb: Sandbox, free: set<string>)
    | Masked(sb: Sandbox, free: set<string>)
    | Listed(sb: Sandbox, free: set<string>, running: map<string, string>)
    | Evicting(sb: Sandbox, worker: string, ck: Checkpoint)
    | Chosen(sb: Sandbox, worker: string)
    | Preparing(sb: Sandbox, worker: string, golden: Golden)
    | Restoring(sb: Sandbox, worker: string, plan: Plan)
    | Claimed(sb: Sandbox, worker: string, plan: Plan)
    | Restored(sb: Sandbox, worker: string, plan: Plan, image: Image, wasLocal: bool)
    | Recorded(sb: Sandbox, worker: string)
    | Failing(sb: Sandbox, worker: string)
    | Stopping(ck: Checkpoint)
    | Ensuring(golden: Golden)

  datatype System = System(
    m: Machine,
    reserve: map<string, string>,
    knock: Option<int>,
    calls: map<int, Call>)

  ghost predicate Init(s: System) {
    && s.m.records == map[] && s.m.objects == map[] && s.m.versions == map[] && !s.m.goldenReady
    && "" !in s.m.hosts && (forall w :: w in s.m.hosts ==> s.m.hosts[w] == Host({}, map[]))
    && s.reserve == map[] && s.knock == None && s.calls == map[]
  }

  // ----- Worker steps -----

  function HostOf(m: Machine, w: string): Host {
    if w in m.hosts then m.hosts[w] else Host({}, map[])
  }

  function Alive(m: Machine, w: string): set<Occupant> { HostOf(m, w).alive }

  function Images(m: Machine, w: string): map<Path, Image> { HostOf(m, w).images }

  function SetAlive(m: Machine, w: string, alive: set<Occupant>): (n: Machine)
    ensures forall v :: Alive(n, v) == if v == w then alive else Alive(m, v)
    ensures forall v :: Images(n, v) == Images(m, v)
  {
    m.(hosts := m.hosts[w := HostOf(m, w).(alive := alive)])
  }

  function SetImages(m: Machine, w: string, images: map<Path, Image>): (n: Machine)
    ensures forall v :: Images(n, v) == if v == w then images else Images(m, v)
    ensures forall v :: Alive(n, v) == Alive(m, v)
  {
    m.(hosts := m.hosts[w := HostOf(m, w).(images := images)])
  }

  /** A store write; no Worker notices. */
  function PutRecord(m: Machine, sb: Sandbox): (n: Machine)
    ensures forall v :: Alive(n, v) == Alive(m, v) && Images(n, v) == Images(m, v)
  {
    m.(records := m.records[sb.id := sb])
  }

  function PutGolden(m: Machine): (n: Machine)
    ensures forall v :: Alive(n, v) == Alive(m, v) && Images(n, v) == Images(m, v)
  {
    m.(goldenReady := true)
  }

  function VersionOf(m: Machine, id: string): nat {
    if id in m.versions then m.versions[id] else 0
  }

  /** The object store and the history after a checkpoint; no Worker notices. */
  function PutVersion(m: Machine, id: string, version: nat, uploaded: Option<Image>): (n: Machine)
    ensures forall v :: Alive(n, v) == Alive(m, v) && Images(n, v) == Images(m, v)
  {
    m.(versions := m.versions[id := version],
       objects := if uploaded.Some? then m.objects[id := uploaded.value] else m.objects)
  }

  /** The checkpoint RPC for a record read as running; only a Done one counts as a version. */
  function Checkpointed(m: Machine, sb: Sandbox, upload: bool, fate: CheckpointFate): Machine {
    var next := VersionOf(m, sb.id) + 1;
    var taken := SetImages(m, sb.worker, AfterCheckpoint(Images(m, sb.worker), Dir(sb.worker, sb.id), next, fate));
    if fate == Done then
      PutVersion(SetAlive(taken, sb.worker, Alive(m, sb.worker) - {Box(sb.id)}), sb.id, next,
                 if upload then Some(Image(next, true)) else None)
    else if fate == Torn then PutVersion(taken, sb.id, VersionOf(m, sb.id), Some(Image(next, false)))
    else taken
  }

  /** The record written after a successful checkpoint. */
  function NowStopped(sb: Sandbox, upload: bool, now: Time): Sandbox {
    var at := sb.(path := Dir(sb.worker, sb.id), updatedAt := now);
    if upload then at.(state := Suspended, key := SandboxKey(sb.id), source := ExternalSnapshot)
    else at.(state := Paused, source := LocalSnapshot)
  }

  /** The record written after a successful restore. */
  function NowRunning(sb: Sandbox, w: string, plan: Plan, now: Time): Sandbox {
    sb.(state := Running, worker := w, path := plan.dir, updatedAt := now)
  }

  // ----- Resume's choice of source -----

  predicate LocalOnly(sb: Sandbox) {
    sb.state == Paused || sb.source == LocalSnapshot
  }

  predicate NeedsGolden(sb: Sandbox) {
    !LocalOnly(sb) && !(sb.source == ExternalSnapshot && sb.key != NoKey)
  }

  function RestorePlan(sb: Sandbox, w: string): Plan {
    if LocalOnly(sb) then
      Plan(if sb.path == NoPath then Dir(w, sb.id) else sb.path, NoKey)
    else if NeedsGolden(sb) then
      Plan(Dir(w, sb.id), GoldenKey)
    else
      Plan(if sb.path == NoPath || w != sb.worker then Dir(w, sb.id) else sb.path, sb.key)
  }

  /** What the object store holds under a prefix. The golden template is nobody's checkpoint: version 0. */
  function Remote(m: Machine, key: Key): Option<Image> {
    match key
    case NoKey => None
    case GoldenKey => if m.goldenReady then Some(Image(0, true)) else None
    case SandboxKey(id) => if id in m.objects then Some(m.objects[id]) else None
  }

  // ----- classification of program counters -----

  predicate HoldsKnock(call: Call) {
    call.Held? || call.Scanning? || call.Masked? || call.Listed? || call.Evicting?
    || call.Chosen? || call.Preparing? || call.Stopping?
  }

  predicate IsResume(call: Call) { !call.Stopping? && !call.Ensuring? }

  /** A Resume that has not yet written its record, and has not failed. */
  predicate Pending(call: Call) {
    IsResume(call) && !call.Recorded? && !call.Failing?
  }

  /** A Resume between its reservation and its record. */
  predicate InRestore(call: Call) { call.Restoring? || call.Claimed? || call.Restored? }

  function CheckpointOf(call: Call): Option<Checkpoint> {
    match call
    case Evicting(_, _, ck) => Some(ck)
    case Stopping(ck) => Some(ck)
    case Preparing(_, _, Making(_, ck)) => Some(ck)
    case Ensuring(Making(_, ck)) => Some(ck)
    case _ => None
  }

  function WithCheckpoint(call: Call, ck: Checkpoint): Call {
    match call
    case Evicting(sb, w, _) => Evicting(sb, w, ck)
    case Stopping(_) => Stopping(ck)
    case Preparing(sb, w, Making(gw, _)) => Preparing(sb, w, Making(gw, ck))
    case Ensuring(Making(gw, _)) => Ensuring(Making(gw, ck))
    case _ => call
  }

  function GoldenOf(call: Call): Option<Golden> {
    match call
    case Preparing(_, _, g) => Some(g)
    case Ensuring(g) => Some(g)
    case _ => None
  }

  function WithGolden(call: Call, g: Golden): Call {
    match call
    case Preparing(sb, w, _) => Preparing(sb, w, g)
    case Ensuring(_) => Ensuring(g)
    case _ => call
  }

  // ----- steps -----

  /** API calls that are one step. */
  datatype ApiStep =
    | Create(id: string, now: Time)
    | Delete(id: string, freed: bool)

  /** A Resume from its entry to its reservation. */
  datatype ResumeStep =
    | Enter(id: string)
    | Refresh
    | Acquire
    | Reread
    | ScanStatus(w: string)
    | Mask
    | ViewAtOnce(responding: set<string>)
    | ListRunning
    | Decide(d: Decision)
    | Leave(retry: bool)
    | NeedGolden
    | Reserve

  /** A Resume after its reservation, outside the mutex. */
  datatype RestoreStep =
    | ClaimSlot
    | RefuseSlot
    | Fetch(ending: RestoreFate)
    | RecordStart(now: Time, stored: bool)
    | Clear

  /** pauseOrSuspend, in whichever call runs it. */
  datatype StopStep =
    | Stop(id: string, upload: bool)
    | ReadVictim
    | MissVictim(retry: bool)
    | SendCheckpoint(fate: CheckpointFate, retry: bool)
    | RecordStop(now: Time)

  /** EnsureGolden, inside a Resume or on its own. */
  datatype GoldenStep =
    | AskGolden
    | PlaceGolden(w: string)
    | EvictForGolden(v: string, w: string)
    | GiveUp(retry: bool)
    | BootGolden(boot: int, booted: bool, retry: bool)
    | SealGolden(sealed: bool)
    | CleanGolden(cleaned: bool, retry: bool)
    | PublishGolden(stored: bool, retry: bool)

  datatype Action =
    | Api(api: ApiStep)
    | Admission(c: int, resume: ResumeStep)
    | Load(c: int, restore: RestoreStep)
    | Halt(c: int, stop: StopStep)
    | Build(c: int, golden: GoldenStep)

  function Goto(s: System, c: int, call: Call): System {
    s.(calls := s.calls[c := call])
  }

  /** The deferred Unlock: only the holder's own exit frees the mutex. */
  function Unlocked(s: System, c: int): System {
    if s.knock == Some(c) then s.(knock := None) else s
  }

  /** A call that fails or finishes: back to the lobby if it is a Resume that retries, else gone. */
  function Exit(s: System, c: int, retry: bool): System
    requires c in s.calls
  {
    var u := Unlocked(s, c);
    if retry && IsResume(s.calls[c]) then Goto(u, c, Lobby(s.calls[c].sb))
    else u.(calls := u.calls - {c})
  }

  /** Re-reading the record: a missing one leaves the old copy in place. */
  function Latest(m: Machine, sb: Sandbox): Sandbox {
    if sb.id in m.records then m.records[sb.id] else sb
  }

  function Unreserved(s: System, free: set<string>, id: string): set<string> {
    set w | w in free && !(w in s.reserve && s.reserve[w] != id)
  }

  function RunningView(m: Machine): map<string, string> {
    map id | id in m.records && m.records[id].state == Running :: m.records[id].worker
  }

  // ----- Create and Delete -----

  predicate ApiEnabled(s: System, step: ApiStep) {
    match step
    case Create(id, _) => id !in s.m.versions
    case Delete(id, freed) =>
      id in s.m.records && (freed || (s.m.records[id].state == Running && s.m.records[id].worker != ""))
  }

  function ApiApply(s: System, step: ApiStep): System
    requires ApiEnabled(s, step)
  {
    match step
    case Create(id, now) =>
      var sb := Sandbox(id, Suspended, "", NoPath, NoKey, NoSnapshot, now, now);
      s.(m := PutRecord(s.m, sb).(versions := s.m.versions[id := 0]))
    case Delete(id, freed) => s.(m := Deleted(s.m, id, freed))
  }

  /** Delete as one step: a running sandbox's slot is given back, unless that request fails; the record goes anyway. */
  function Deleted(m: Machine, id: string, freed: bool): Machine
    requires id in m.records
  {
    Emptied(m, m.records[id], freed).(records := m.records - {id})
  }

  function Emptied(m: Machine, sb: Sandbox, freed: bool): (n: Machine)
    ensures forall v :: Alive(n, v) <= Alive(m, v) <= Alive(n, v) + {Box(sb.id)} && Images(n, v) == Images(m, v)
    ensures n.records == m.records && n.versions == m.versions && n.objects == m.objects
  {
    if freed && sb.state == Running && sb.worker != "" then
      SetAlive(m, sb.worker, Alive(m, sb.worker) - {Box(sb.id)})
    else m
  }

  // ----- Resume under the mutex -----

  /** No Resume for this id is in flight: the callers' discipline the protocol relies on. */
  predicate NoResumeOf(s: System, id: string) {
    forall c :: c in s.calls && IsResume(s.calls[c]) ==> s.calls[c].sb.id != id
  }

  predicate ResumeEnabled(s: System, c: int, step: ResumeStep) {
    if step.Enter? then
      && c !in s.calls && step.id in s.m.records && NoResumeOf(s, step.id)
      && s.m.records[step.id].state in {Suspended, Paused}
    else
      c in s.calls && StepAllowed(s, c, s.calls[c], step)
  }

  predicate StepAllowed(s: System, c: int, call: Call, step: ResumeStep) {
    match step
    case Enter(_) => false
    case Refresh => call.Lobby?
    case Acquire => call.Lobby? && s.knock == None
    case Reread => call.Held?
    case ScanStatus(w) => call.Scanning? && w in s.m.hosts
    case Mask => call.Scanning?
    case ViewAtOnce(responding) => call.Scanning? && call.free == {} && responding <= s.m.hosts.Keys
    case ListRunning => call.Masked?
    case Decide(d) => call.Listed? && Allowed(call.sb, call.free, call.running, d)
    case Leave(_) => call.Lobby? || call.Held? || call.Scanning? || call.Masked? || call.Listed? || call.Chosen?
    case NeedGolden => call.Chosen? && NeedsGolden(call.sb) && !s.m.goldenReady
    case Reserve => call.Chosen? && (NeedsGolden(call.sb) ==> s.m.goldenReady)
  }

  function ResumeApply(s: System, c: int, step: ResumeStep): System
    requires ResumeEnabled(s, c, step)
  {
    match step
    case Enter(id) => Goto(s, c, Lobby(s.m.records[id]))
    case Refresh => Goto(s, c, Lobby(Latest(s.m, s.calls[c].sb)))
    case Acquire => Goto(s.(knock := Some(c)), c, Held(s.calls[c].sb))
    case Reread => Goto(s, c, Scanning(Latest(s.m, s.calls[c].sb), {}))
    case ScanStatus(w) =>
      var idle := if Alive(s.m, w) == {} then {w} else {};
      Goto(s, c, Scanning(s.calls[c].sb, s.calls[c].free + idle))
    case Mask => Goto(s, c, Masked(s.calls[c].sb, Unreserved(s, s.calls[c].free, s.calls[c].sb.id)))
    case ViewAtOnce(responding) =>
      var idle := set w | w in responding && Alive(s.m, w) == {};
      Goto(s, c, Masked(s.calls[c].sb, Unreserved(s, idle, s.calls[c].sb.id)))
    case ListRunning => Goto(s, c, Listed(s.calls[c].sb, s.calls[c].free, RunningView(s.m)))
    case Decide(d) =>
      (match d
       case Admit(w) => Goto(s, c, Chosen(s.calls[c].sb, w))
       case Preempt(v, w) => Goto(s, c, Evicting(s.calls[c].sb, w, Asked(v, true))))
    case Leave(retry) => Exit(s, c, retry)
    case NeedGolden => Goto(s, c, Preparing(s.calls[c].sb, s.calls[c].worker, Placing))
    case Reserve =>
      var sb, w := s.calls[c].sb, s.calls[c].worker;
      Goto(Unlocked(s.(reserve := s.reserve[w := sb.id]), c), c, Restoring(sb, w, RestorePlan(sb, w)))
  }

  // ----- Restore outside the mutex -----

  predicate RestoreEnabled(s: System, c: int, step: RestoreStep) {
    && c in s.calls
    && var call := s.calls[c];
       match step
       case ClaimSlot => call.Restoring? && MayClaim(Alive(s.m, call.worker), Box(call.sb.id))
       case RefuseSlot => call.Restoring?
       case Fetch(ending) =>
         && call.Claimed?
         && var present := call.plan.dir in Images(s.m, call.worker);
            && (ending == Started && !present ==> Remote(s.m, call.plan.key).Some?)
            && (ending in {Wiped, Partial, Complete} ==> !present && Remote(s.m, call.plan.key).Some?)
       case RecordStart(_, _) => call.Restored?
       case Clear => call.Recorded? || call.Failing?
  }

  function RestoreApply(s: System, c: int, step: RestoreStep): System
    requires RestoreEnabled(s, c, step)
  {
    var sb, w := s.calls[c].sb, s.calls[c].worker;
    match step
    case ClaimSlot =>
      Goto(s.(m := SetAlive(s.m, w, Alive(s.m, w) + {Box(sb.id)})), c, Claimed(sb, w, s.calls[c].plan))
    case RefuseSlot => Goto(s, c, Failing(sb, w))
    case Fetch(ending) =>
      var plan := s.calls[c].plan;
      var n := AfterFetch(s.m, sb, w, plan, ending);
      Goto(s.(m := n), c,
           if ending != Started then Failing(sb, w)
           else Restored(sb, w, plan, Images(n, w)[plan.dir], plan.dir in Images(s.m, w)))
    case RecordStart(now, stored) =>
      if stored then Goto(s.(m := PutRecord(s.m, NowRunning(sb, w, s.calls[c].plan, now))), c, Recorded(sb, w))
      else Goto(s, c, Failing(sb, w))
    case Clear =>
      var reserve := if w in s.reserve && s.reserve[w] == sb.id then s.reserve - {w} else s.reserve;
      Exit(s.(reserve := reserve), c, false)
  }

  /** The machine after a restore read its image, or failed to and gave the slot back. */
  function AfterFetch(m: Machine, sb: Sandbox, w: string, plan: Plan, ending: RestoreFate): Machine {
    var n := SetImages(m, w, Fetched(m, w, plan, ending));
    if ending == Started then n else SetAlive(n, w, Alive(m, w) - {Box(sb.id)})
  }

  function Fetched(m: Machine, w: string, plan: Plan, ending: RestoreFate): map<Path, Image> {
    var remote := Remote(m, plan.key);
    if plan.dir in Images(m, w) || remote.None? then Images(m, w)
    else AfterDownload(Images(m, w), plan.dir, remote.value, ending)
  }

  // ----- Pause, Suspend and eviction -----

  predicate StopEnabled(s: System, c: int, step: StopStep) {
    if step.Stop? then c !in s.calls && s.knock == None
    else
      && c in s.calls && CheckpointOf(s.calls[c]).Some?
      && var ck := CheckpointOf(s.calls[c]).value;
         match step
         case Stop(_, _) => false
         case ReadVictim => ck.Asked? && ck.victim in s.m.records && s.m.records[ck.victim].state == Running
         case MissVictim(_) => ck.Asked?
         case SendCheckpoint(fate, _) =>
           && ck.InFlight?
           && (!fate.Broken? ==> Box(ck.sb.id) in Alive(s.m, ck.sb.worker))
           && (fate.Torn? || fate.Unsent? ==> ck.upload)
         case RecordStop(_) => ck.Taken?
  }

  function StopApply(s: System, c: int, step: StopStep): System
    requires StopEnabled(s, c, step)
  {
    if step.Stop? then Goto(s.(knock := Some(c)), c, Call.Stopping(Asked(step.id, step.upload)))
    else
      var ck := CheckpointOf(s.calls[c]).value;
      match step
      case Stop(_, _) => s
      case ReadVictim => Goto(s, c, WithCheckpoint(s.calls[c], InFlight(s.m.records[ck.victim], ck.upload)))
      case MissVictim(retry) => Exit(s, c, retry)
      case SendCheckpoint(fate, retry) =>
        var t := s.(m := Checkpointed(s.m, ck.sb, ck.upload, fate));
        if fate == Done then Goto(t, c, WithCheckpoint(s.calls[c], Taken(ck.sb, ck.upload))) else Exit(t, c, retry)
      case RecordStop(now) =>
        var t := s.(m := PutRecord(s.m, NowStopped(ck.sb, ck.upload, now)));
        if s.calls[c].Evicting? then Goto(t, c, Chosen(s.calls[c].sb, s.calls[c].worker))
        else if s.calls[c].Stopping? then Exit(t, c, false)
        else Goto(t, c, WithGolden(s.calls[c], Booting(GoldenOf(s.calls[c]).value.worker)))
  }

  // ----- the golden template -----

  predicate GoldenEnabled(s: System, c: int, step: GoldenStep) {
    if step.AskGolden? then c !in s.calls && !s.m.goldenReady
    else
      && c in s.calls && GoldenOf(s.calls[c]).Some?
      && var g := GoldenOf(s.calls[c]).value;
         match step
         case AskGolden => false
         case PlaceGolden(w) => g.Placing? && w in s.m.hosts
         case EvictForGolden(v, w) => g.Placing? && s.knock == Some(c) && w in s.m.hosts
         case GiveUp(_) => g.Placing?
         case BootGolden(boot, _, _) => g.Booting? && FreshBoot(s, boot)
         case SealGolden(_) => g.Sealing?
         case CleanGolden(_, _) => g.Cleaning?
         case PublishGolden(_, _) => g.Publishing?
  }

  /** A uuid nobody has drawn before: no slot and no call has it. */
  predicate FreshBoot(s: System, boot: int) {
    && (forall w :: w in s.m.hosts ==> GoldenBoot(boot) !in s.m.hosts[w].alive)
    && forall c :: c in s.calls ==> !BootsAs(s.calls[c], boot)
  }

  predicate BootsAs(call: Call, boot: int) {
    var g := GoldenOf(call);
    g.Some? && (g.value.Sealing? || g.value.Cleaning?) && g.value.boot == boot
  }

  function GoldenApply(s: System, c: int, step: GoldenStep): System
    requires GoldenEnabled(s, c, step)
  {
    if step.AskGolden? then Goto(s, c, Ensuring(Placing))
    else
      var call := s.calls[c];
      var g := GoldenOf(call).value;
      match step
      case AskGolden => s
      case PlaceGolden(w) => Goto(s, c, WithGolden(call, Booting(w)))
      case EvictForGolden(v, w) => Goto(s, c, WithGolden(call, Making(w, Asked(v, true))))
      case GiveUp(retry) => Exit(s, c, retry)
      case BootGolden(boot, booted, retry) =>
        if booted && MayClaim(Alive(s.m, g.worker), GoldenBoot(boot)) then
          Goto(s.(m := SetAlive(s.m, g.worker, Alive(s.m, g.worker) + {GoldenBoot(boot)})), c,
               WithGolden(call, Sealing(g.worker, boot)))
        else Exit(s, c, retry)
      case SealGolden(sealed) =>
        if sealed then Goto(s.(m := WithoutGolden(s.m, g.worker, g.boot)), c, WithGolden(call, Publishing))
        else Goto(s, c, WithGolden(call, Cleaning(g.worker, g.boot)))
      case CleanGolden(cleaned, retry) =>
        if cleaned then Exit(s.(m := WithoutGolden(s.m, g.worker, g.boot)), c, retry)
        else Exit(s, c, retry)
      case PublishGolden(stored, retry) =>
        if !stored then Exit(s, c, retry)
        else
          var t := s.(m := PutGolden(s.m));
          if call.Preparing? then Goto(t, c, Chosen(call.sb, call.worker)) else Exit(t, c, false)
  }

  function WithoutGolden(m: Machine, w: string, boot: int): Machine {
    SetAlive(m, w, Alive(m, w) - {GoldenBoot(boot)})
  }

  // ----- all steps -----

  predicate Enabled(s: System, a: Action) {
    match a
    case Api(step) => ApiEnabled(s, step)
    case Admission(c, step) => ResumeEnabled(s, c, step)
    case Load(c, step) => RestoreEnabled(s, c, step)
    case Halt(c, step) => StopEnabled(s, c, step)
    case Build(c, step) => GoldenEnabled(s, c, step)
  }

  function Apply(s: System, a: Action): System
    requires Enabled(s, a)
  {
    match a
    case Api(step) => ApiApply(s, step)
    case Admission(c, step) => ResumeApply(s, c, step)
    case Load(c, step) => RestoreApply(s, c, step)
    case Halt(c, step) => StopApply(s, c, step)
    case Build(c, step) => GoldenApply(s, c, step)
  }

  // ----- runs -----

  /** A run: actions taken one after another, each enabled where it is taken. */
  ghost predicate Run(s: System, actions: seq<Action>, t: System)
    decreases |actions|
  {
    if actions == [] then s == t
    else Enabled(s, actions[0]) && Run(Apply(s, actions[0]), actions[1..], t)
  }

  /** Every Worker that this action keeps as free, having seen it idle earlier, still has no sandbox in its slot. */
  predicate StillFree(s: System, a: Action) {
    a.Admission? && a.resume.Mask? && a.c in s.calls && s.calls[a.c].Scanning? ==>
      forall w :: w in Unreserved(s, s.calls[a.c].free, s.calls[a.c].sb.id) ==> NoBox(Alive(s.m, w))
  }

  predicate NoBox(alive: set<Occupant>) {
    forall o :: o in alive ==> o.GoldenBoot?
  }

  /** No Resume keeps a Worker that was taken since it looked. */
  predicate Undisturbed(s: System, actions: seq<Action>)
    decreases |actions|
  {
    actions == [] || !Enabled(s, actions[0])
    || (StillFree(s, actions[0]) && Undisturbed(Apply(s, actions[0]), actions[1..]))
  }

  /** Status and reservations are read in one step, not one after the other. */
  predicate AtOnce(actions: seq<Action>) {
    forall i :: 0 <= i < |actions| ==> (actions[i].Admission? ==> !actions[i].resume.Mask?)
  }
}
