/**
 Workorders on one server between two restarts: submissions, the queue loop, the tasks it
 spawns, cancellations and evictions, as a system whose steps are the sections that run
 under one lock.
 */
module Lifecycles {
  import opened Common
  import opened Collections
  import opened Workorders

  datatype Limits = Limits(maxWorkers: nat, maxActive: nat)

  datatype Role = Main | Follower

  /** A known client: the hash of its last configuration and its registered active workorder. */
  datatype Client = Client(config: int, active: Option<Id>)

  /** The submission that holds the submission lock. */
  datatype Submission =
    | NoSubmission
    | Locked(client: Id, role: Role, config: int)
    | Admitted(client: Id, role: Role, config: int)
    | Registered(client: Id)
    | Opened(client: Id, id: Id)
    | Inserted(client: Id, id: Id)

  datatype Queue =
    | Idle
    | Picked(id: Id, client: Id)
    | Claimed(id: Id, client: Id)
    | Waiting(id: Id, client: Id)

  datatype Phase = Starting | Preparing | Running | Ending | Clearing | Returned

  datatype Task = Task(client: Id, phase: Phase)

  /** A cancellation past its status change. */
  datatype Cancellation = Cancellation(id: Id, client: Id, wasPending: bool, cleared: bool)

  datatype Server = Server(
    workorders: map<Id, Workorder>,
    clients: map<Id, Client>,
    channels: set<Id>,
    submission: Submission,
    uncounted: nat,
    queue: Queue,
    tasks: map<Id, Task>,
    cancellations: seq<Cancellation>,
    depth: int,
    // history
    used: set<Id>,
    claims: seq<Id>,
    finished: set<Id>,
    pendingAtBoot: nat
  )

  datatype Step =
    | SubmitLock(client: Id, role: Role, config: int)
    | SubmitAdmit
    | SubmitRegister
    | SubmitOpen(id: Id)
    | SubmitInsert(now: int)
    | SubmitActivate
    | SubmitCount
    | QueuePick(id: Id)
    | QueueClaim(now: int)
    | QueueCount
    | QueueSpawn
    | TaskLookup(id: Id)
    | TaskRefuse(id: Id, reason: string, now: int)
    | TaskBuild(id: Id, now: int)
    | TaskEnd(id: Id, failure: Option<string>, now: int)
    | TaskClose(id: Id)
    | TaskClear(id: Id)
    | TaskReturn(id: Id)
    | Cancel(id: Id)
    | CancelClear(i: nat)
    | CancelCount(i: nat)
    | Evict(ids: set<Id>)

  function Live(w: map<Id, Workorder>): set<Id> {
    set id | id in w && !Terminal(w[id].status)
  }

  function PendingIds(w: map<Id, Workorder>): set<Id> {
    set id | id in w && w[id].status.Pending?
  }

  // ── Boot ──────────────────────────────────────────────────────────

  function Rebooted(o: Workorder, now: int): Workorder {
    if o.status.Provisioning? || o.status.Building? then o.(status := Pending, updatedAt := now) else o
  }

  /** In-flight workorders are queued again and every active slot is emptied. */
  function Boot(saved: map<Id, Workorder>, clients: map<Id, Client>, now: int): Server {
    var w := map id | id in saved :: Rebooted(saved[id], now);
    Server(w, map c | c in clients :: clients[c].(active := None), Live(w), NoSubmission, 0, Idle, map[], [], 0,
           w.Keys, [], {}, |PendingIds(w)|)
  }

  // ── Parts of steps ────────────────────────────────────────────────

  function SetStatus(w: map<Id, Workorder>, id: Id, status: Status, now: int): map<Id, Workorder> {
    if id in w then w[id := w[id].(status := status, updatedAt := now)] else w
  }

  function SetSlot(clients: map<Id, Client>, c: Id, slot: Option<Id>): map<Id, Client> {
    if c in clients then clients[c := clients[c].(active := slot)] else clients
  }

  function Slot(clients: map<Id, Client>, c: Id): Option<Id> {
    if c in clients then clients[c].active else None
  }

  /** Registry update: refused for a busy client, and for a follower without the same configuration. */
  function Register(clients: map<Id, Client>, c: Id, role: Role, config: int): Option<map<Id, Client>> {
    if Slot(clients, c).Some? then None
    else if role.Main? then Some(clients[c := Client(config, None)])
    else if c in clients && clients[c].config == config then Some(clients)
    else None
  }

  function WithTask(s: Server, id: Id, phase: Phase): Server
    requires id in s.tasks
  {
    s.(tasks := s.tasks[id := s.tasks[id].(phase := phase)])
  }

  predicate TaskAt(s: Server, id: Id, phase: Phase) {
    id in s.tasks && s.tasks[id].phase == phase
  }

  /** Atomic arithmetic on a 64-bit counter. */
  function Wrap(depth: int): int {
    depth % TWO64
  }

  // ── Steps ─────────────────────────────────────────────────────────

  function SubmitDo(lim: Limits, s: Server, step: Step): Server {
    match step
    case SubmitLock(c, role, config) => if s.submission.NoSubmission? then s.(submission := Locked(c, role, config)) else s
    case SubmitAdmit =>
      if !s.submission.Locked? then s
      else if lim.maxActive > 0 && |Live(s.workorders)| >= lim.maxActive then s.(submission := NoSubmission)
      else s.(submission := Admitted(s.submission.client, s.submission.role, s.submission.config))
    case SubmitRegister =>
      if !s.submission.Admitted? then s
      else
        var r := Register(s.clients, s.submission.client, s.submission.role, s.submission.config);
        if r.None? then s.(submission := NoSubmission) else s.(submission := Registered(s.submission.client), clients := r.value)
    case SubmitOpen(id) =>
      if !s.submission.Registered? || id in s.used then s
      else s.(submission := Opened(s.submission.client, id), channels := s.channels + {id}, used := s.used + {id})
    case SubmitInsert(now) =>
      if !s.submission.Opened? then s
      else
        var c, id := s.submission.client, s.submission.id;
        s.(submission := Inserted(c, id), workorders := s.workorders[id := Workorder(c, Pending, now, now)])
    case SubmitActivate =>
      if !s.submission.Inserted? then s
      else s.(submission := NoSubmission, clients := SetSlot(s.clients, s.submission.client, Some(s.submission.id)), uncounted := s.uncounted + 1)
    case SubmitCount => if s.uncounted == 0 then s else s.(uncounted := s.uncounted - 1, depth := Wrap(s.depth + 1))
    case _ => s
  }

  predicate OldestPending(w: map<Id, Workorder>, id: Id) {
    id in w && w[id].status.Pending? && forall other :: other in w && w[other].status.Pending? ==> w[id].createdAt <= w[other].createdAt
  }

  function QueueDo(lim: Limits, s: Server, step: Step): Server {
    match step
    case QueuePick(id) =>
      if s.queue.Idle? && OldestPending(s.workorders, id) then s.(queue := Picked(id, s.workorders[id].client)) else s
    case QueueClaim(now) =>
      if !s.queue.Picked? then s
      else
        var id := s.queue.id;
        if id in s.workorders && s.workorders[id].status.Pending? then
          s.(queue := Claimed(id, s.queue.client), workorders := SetStatus(s.workorders, id, Provisioning, now), claims := s.claims + [id])
        else s.(queue := Idle)
    case QueueCount => if !s.queue.Claimed? then s else s.(queue := Waiting(s.queue.id, s.queue.client), depth := Wrap(s.depth - 1))
    case QueueSpawn =>
      if !s.queue.Waiting? || |s.tasks| >= lim.maxWorkers then s
      else s.(queue := Idle, tasks := s.tasks[s.queue.id := Task(s.queue.client, Starting)])
    case _ => s
  }

  function TaskDo(s: Server, step: Step): Server {
    match step
    case TaskLookup(id) => if !TaskAt(s, id, Starting) then s else WithTask(s, id, if id in s.channels then Preparing else Returned)
    case TaskRefuse(id, reason, now) =>
      if !TaskAt(s, id, Preparing) then s else WithTask(s, id, Ending).(workorders := SetStatus(s.workorders, id, Failed(reason), now))
    case TaskBuild(id, now) =>
      if !TaskAt(s, id, Preparing) then s else WithTask(s, id, Running).(workorders := SetStatus(s.workorders, id, Building, now))
    case TaskEnd(id, failure, now) =>
      if !TaskAt(s, id, Running) then s
      else WithTask(s, id, Ending).(workorders := SetStatus(s.workorders, id, if failure.None? then Completed else Failed(failure.value), now))
    case TaskClose(id) => if !TaskAt(s, id, Ending) then s else WithTask(s, id, Clearing).(channels := s.channels - {id})
    case TaskClear(id) =>
      if !TaskAt(s, id, Clearing) then s else WithTask(s, id, Returned).(clients := SetSlot(s.clients, s.tasks[id].client, None))
    case TaskReturn(id) => if !TaskAt(s, id, Returned) then s else s.(tasks := s.tasks - {id}, finished := s.finished + {id})
    case _ => s
  }

  function CancelDo(s: Server, step: Step): Server {
    match step
    case Cancel(id) =>
      if id !in s.workorders || Terminal(s.workorders[id].status) then s
      else
        var o := s.workorders[id];
        s.(workorders := s.workorders[id := o.(status := Cancelled)],
           cancellations := s.cancellations + [Cancellation(id, o.client, o.status.Pending?, false)])
    case CancelClear(i) =>
      if i >= |s.cancellations| || s.cancellations[i].cleared then s
      else s.(cancellations := s.cancellations[i := s.cancellations[i].(cleared := true)],
              clients := SetSlot(s.clients, s.cancellations[i].client, None))
    case CancelCount(i) =>
      if i >= |s.cancellations| || !s.cancellations[i].cleared then s
      else s.(cancellations := Without(s.cancellations, i),
              depth := if s.cancellations[i].wasPending then Wrap(s.depth - 1) else s.depth)
    case Evict(ids) =>
      if ids <= s.workorders.Keys && (forall id :: id in ids ==> Terminal(s.workorders[id].status))
      then s.(workorders := s.workorders - ids, channels := s.channels - ids)
      else s
    case _ => s
  }

  predicate IsSubmit(step: Step) {
    step.SubmitLock? || step.SubmitAdmit? || step.SubmitRegister? || step.SubmitOpen? || step.SubmitInsert? || step.SubmitActivate? || step.SubmitCount?
  }

  predicate IsQueue(step: Step) {
    step.QueuePick? || step.QueueClaim? || step.QueueCount? || step.QueueSpawn?
  }

  predicate IsTask(step: Step) {
    step.TaskLookup? || step.TaskRefuse? || step.TaskBuild? || step.TaskEnd? || step.TaskClose? || step.TaskClear? || step.TaskReturn?
  }

  function Do(lim: Limits, s: Server, step: Step): Server {
    if IsSubmit(step) then SubmitDo(lim, s, step)
    else if IsQueue(step) then QueueDo(lim, s, step)
    else if IsTask(step) then TaskDo(s, step)
    else CancelDo(s, step)
  }

  function Run(lim: Limits, s: Server, steps: seq<Step>): Server
    decreases |steps|
  {
    if steps == [] then s else Do(lim, Run(lim, s, steps[..|steps| - 1]), steps[|steps| - 1])
  }
}
