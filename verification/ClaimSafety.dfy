/** What every run keeps: claims, worker slots and the queue-depth counter. */
module ClaimSafety {
  import opened Common
  import opened Collections
  import opened Workorders
  import opened Lifecycles

  // ── Claims and worker slots ───────────────────────────────────────

  predicate Holds(q: Queue, id: Id) {
    (q.Claimed? || q.Waiting?) && q.id == id
  }

  ghost predicate ClaimsOk(s: Server) {
    && Distinct(s.claims)
    && (forall id :: id in s.claims ==> id in s.used && (id in s.workorders ==> !s.workorders[id].status.Pending?))
    && (forall id :: id in s.workorders ==> id in s.used)
    && (s.submission.Opened? ==> s.submission.id in s.used && s.submission.id !in s.claims && s.submission.id !in s.workorders)
  }

  /** Each claimed workorder is in exactly one place. */
  ghost predicate PlacesOk(s: Server) {
    && (forall id :: id in s.claims <==> id in s.tasks || id in s.finished || Holds(s.queue, id))
    && (forall id :: id in s.tasks ==> id !in s.finished && !Holds(s.queue, id))
    && (forall id :: id in s.finished ==> !Holds(s.queue, id))
  }

  ghost predicate SlotsOk(lim: Limits, s: Server) {
    ClaimsOk(s) && PlacesOk(s) && |s.tasks| <= lim.maxWorkers
  }

  lemma SubmitKeepsSlots(lim: Limits, s: Server, step: Step)
    requires SlotsOk(lim, s) && IsSubmit(step)
    ensures SlotsOk(lim, SubmitDo(lim, s, step))
  {
    hide ClaimsOk, Register, SetSlot, Live;
    SubmitKeepsClaims(lim, s, step);
  }

  lemma SubmitKeepsClaims(lim: Limits, s: Server, step: Step)
    requires ClaimsOk(s) && IsSubmit(step)
    ensures ClaimsOk(SubmitDo(lim, s, step))
  {
    hide Register, SetSlot, Live, Distinct;
  }

  lemma ClaimIsNew(s: Server, now: int)
    requires ClaimsOk(s) && PlacesOk(s) && s.queue.Picked? && s.queue.id in s.workorders && s.workorders[s.queue.id].status.Pending?
    ensures var claims' := s.claims + [s.queue.id];
            && s.queue.id !in s.claims && Distinct(claims') && s.queue.id in s.used
            && (forall id :: id in claims' <==> id in s.claims || id == s.queue.id)
            && s.queue.id !in s.tasks && s.queue.id !in s.finished
  {
  }

  lemma ClaimKeepsSlots(lim: Limits, s: Server, now: int)
    requires SlotsOk(lim, s)
    ensures SlotsOk(lim, QueueDo(lim, s, QueueClaim(now)))
  {
    hide Distinct;
    if s.queue.Picked? && s.queue.id in s.workorders && s.workorders[s.queue.id].status.Pending? { ClaimIsNew(s, now); }
  }

  lemma SpawnKeepsSlots(lim: Limits, s: Server)
    requires SlotsOk(lim, s)
    ensures SlotsOk(lim, QueueDo(lim, s, QueueSpawn))
  {
    hide ClaimsOk, PlacesOk;
    var s' := QueueDo(lim, s, QueueSpawn);
    ClaimsFrame(s, s');
    SpawnKeepsPlaces(lim, s);
    if s.queue.Waiting? { OneMoreTask(s.tasks, s.queue.id, Task(s.queue.client, Starting)); }
  }

  lemma OneMoreTask(tasks: map<Id, Task>, id: Id, task: Task)
    ensures |tasks[id := task]| <= |tasks| + 1
  {
    var after := tasks[id := task];
    assert after.Keys == tasks.Keys + {id};
    assert |after| == |after.Keys| && |tasks| == |tasks.Keys|;
  }

  lemma SpawnKeepsPlaces(lim: Limits, s: Server)
    requires PlacesOk(s)
    ensures PlacesOk(QueueDo(lim, s, QueueSpawn))
  {
    var s' := QueueDo(lim, s, QueueSpawn);
    assert s.queue.Waiting? ==> Holds(s.queue, s.queue.id);
  }

  lemma QueueKeepsSlots(lim: Limits, s: Server, step: Step)
    requires SlotsOk(lim, s) && IsQueue(step)
    ensures SlotsOk(lim, QueueDo(lim, s, step))
  {
    hide Distinct, OldestPending;
    if step.QueueClaim? { ClaimKeepsSlots(lim, s, step.now); }
    else if step.QueueSpawn? { SpawnKeepsSlots(lim, s); }
  }

  /** What a step of a build leaves alone, unless the build returns. */
  lemma TaskFrame(s: Server, step: Step)
    requires IsTask(step) && !step.TaskReturn?
    ensures var s' := TaskDo(s, step);
            && s'.tasks.Keys == s.tasks.Keys && s'.workorders.Keys == s.workorders.Keys
            && (forall id :: id in s.workorders && !s.workorders[id].status.Pending? ==> !s'.workorders[id].status.Pending?)
            && s'.claims == s.claims && s'.used == s.used && s'.finished == s.finished && s'.queue == s.queue && s'.submission == s.submission
  {
    hide SetSlot;
  }

  lemma ReturnKeepsSlots(lim: Limits, s: Server, id: Id)
    requires SlotsOk(lim, s)
    ensures SlotsOk(lim, TaskDo(s, TaskReturn(id)))
  {
    hide ClaimsOk;
    var s' := TaskDo(s, TaskReturn(id));
    if s' != s {
      ClaimsFrame(s, s');
      assert s'.tasks.Keys == s.tasks.Keys - {id};
      assert |s'.tasks| == |s'.tasks.Keys| && |s.tasks| == |s.tasks.Keys|;
    }
  }

  lemma ClaimsFrame(s: Server, s': Server)
    requires ClaimsOk(s) && s'.claims == s.claims && s'.used == s.used && s'.submission == s.submission && s'.workorders.Keys == s.workorders.Keys
    requires forall id :: id in s.workorders && !s.workorders[id].status.Pending? ==> !s'.workorders[id].status.Pending?
    ensures ClaimsOk(s')
  {
  }

  lemma TaskKeepsSlots(lim: Limits, s: Server, step: Step)
    requires SlotsOk(lim, s) && IsTask(step)
    ensures SlotsOk(lim, TaskDo(s, step))
  {
    hide ClaimsOk, TaskDo;
    if step.TaskReturn? {
      ReturnKeepsSlots(lim, s, step.id);
    } else {
      var s' := TaskDo(s, step);
      TaskFrame(s, step);
      ClaimsFrame(s, s');
      assert |s'.tasks| == |s'.tasks.Keys| && |s.tasks| == |s.tasks.Keys|;
    }
  }

  lemma CancelKeepsSlots(lim: Limits, s: Server, step: Step)
    requires SlotsOk(lim, s) && !IsSubmit(step) && !IsQueue(step) && !IsTask(step)
    ensures SlotsOk(lim, CancelDo(s, step))
  {
  }

  lemma StepKeepsSlots(lim: Limits, s: Server, step: Step)
    requires SlotsOk(lim, s)
    ensures SlotsOk(lim, Do(lim, s, step))
  {
    hide SubmitDo, QueueDo, TaskDo, CancelDo, SlotsOk;
    if IsSubmit(step) { SubmitKeepsSlots(lim, s, step); }
    else if IsQueue(step) { QueueKeepsSlots(lim, s, step); }
    else if IsTask(step) { TaskKeepsSlots(lim, s, step); }
    else { CancelKeepsSlots(lim, s, step); }
  }

  lemma {:induction false} RunKeepsSlots(lim: Limits, s: Server, steps: seq<Step>)
    requires SlotsOk(lim, s)
    ensures SlotsOk(lim, Run(lim, s, steps))
    decreases |steps|
  {
    hide SlotsOk, Do;
    if steps != [] {
      RunKeepsSlots(lim, s, steps[..|steps| - 1]);
      StepKeepsSlots(lim, Run(lim, s, steps[..|steps| - 1]), steps[|steps| - 1]);
    }
  }

  /**
   In every run from every boot each workorder is claimed at most once, at most maxWorkers
   tasks run at a time, and besides the tasks that run or have returned at most one claimed
   workorder exists: the one waiting for a permit.
   */
  lemma ClaimTheorem(lim: Limits, saved: map<Id, Workorder>, clients: map<Id, Client>, now: int, steps: seq<Step>)
    ensures var s := Run(lim, Boot(saved, clients, now), steps);
            && Distinct(s.claims)
            && |s.tasks| <= lim.maxWorkers
            && (forall id, id' :: id in s.claims && id' in s.claims && id !in s.tasks && id' !in s.tasks && id !in s.finished && id' !in s.finished ==> id == id')
            && (forall id :: id in s.tasks ==> id in s.claims && id !in s.finished)
  {
    RunKeepsSlots(lim, Boot(saved, clients, now), steps);
  }

  // ── The queue-depth counter ───────────────────────────────────────

  function OwedIncrements(s: Server): nat {
    s.uncounted + if s.submission.Inserted? then 1 else 0
  }

  function OwedByCancels(cs: seq<Cancellation>): nat {
    if cs == [] then 0 else OwedByCancels(cs[..|cs| - 1]) + if cs[|cs| - 1].wasPending then 1 else 0
  }

  function OwedDecrements(s: Server): nat {
    OwedByCancels(s.cancellations) + if s.queue.Claimed? then 1 else 0
  }

  /** What the counter would show with everything counted. */
  function Balance(s: Server): int {
    |PendingIds(s.workorders)| - OwedIncrements(s) + OwedDecrements(s) - s.pendingAtBoot
  }

  predicate Congruent(a: int, b: int) {
    (a - b) % TWO64 == 0
  }

  lemma CongruentStep(depth: int, balance: int, d: int)
    requires Congruent(depth, balance)
    ensures Congruent(Wrap(depth + d), balance + d)
  {
    var x := depth + d;
    assert Wrap(x) == x - (x / TWO64) * TWO64;
    var k := (depth - balance) / TWO64;
    assert depth - balance == k * TWO64;
    assert Wrap(x) - (balance + d) == (k - x / TWO64) * TWO64;
  }

  predicate DepthOk(s: Server) {
    Congruent(s.depth, Balance(s))
  }

  lemma PendingAfterInsert(w: map<Id, Workorder>, id: Id, o: Workorder)
    requires id !in w && o.status.Pending?
    ensures |PendingIds(w[id := o])| == |PendingIds(w)| + 1
  {
    assert PendingIds(w[id := o]) == PendingIds(w) + {id};
  }

  lemma PendingAfterUpdate(w: map<Id, Workorder>, id: Id, o: Workorder)
    requires id in w && !o.status.Pending?
    ensures |PendingIds(w[id := o])| == |PendingIds(w)| - (if w[id].status.Pending? then 1 else 0)
  {
    assert PendingIds(w[id := o]) == PendingIds(w) - {id};
  }

  lemma PendingAfterEviction(w: map<Id, Workorder>, ids: set<Id>)
    requires forall id :: id in ids ==> id in w && !w[id].status.Pending?
    ensures PendingIds(w - ids) == PendingIds(w)
  {
  }

  lemma {:induction false} OwedWithout(cs: seq<Cancellation>, i: nat)
    requires i < |cs|
    ensures OwedByCancels(cs) == OwedByCancels(Without(cs, i)) + if cs[i].wasPending then 1 else 0
  {
    if i == |cs| - 1 {
      assert Without(cs, i) == cs[..i];
    } else {
      OwedWithout(cs[..|cs| - 1], i);
      assert Without(cs, i)[..|cs| - 2] == Without(cs[..|cs| - 1], i);
    }
  }

  lemma {:induction false} OwedAfterClear(cs: seq<Cancellation>, i: nat)
    requires i < |cs|
    ensures OwedByCancels(cs[i := cs[i].(cleared := true)]) == OwedByCancels(cs)
  {
    var cs' := cs[i := cs[i].(cleared := true)];
    if i == |cs| - 1 {
      assert cs'[..i] == cs[..i];
    } else {
      OwedAfterClear(cs[..|cs| - 1], i);
      assert cs'[..|cs| - 1] == cs[..|cs| - 1][i := cs[i].(cleared := true)];
    }
  }

  lemma SubmitKeepsDepth(lim: Limits, s: Server, step: Step)
    requires DepthOk(s) && SlotsOk(lim, s) && IsSubmit(step)
    ensures DepthOk(SubmitDo(lim, s, step))
  {
    hide Congruent, Wrap, PendingIds;
    if step.SubmitInsert? && s.submission.Opened? {
      PendingAfterInsert(s.workorders, s.submission.id, Workorder(s.submission.client, Pending, step.now, step.now));
    }
    if step.SubmitCount? { CongruentStep(s.depth, Balance(s), 1); }
  }

  lemma QueueKeepsDepth(lim: Limits, s: Server, step: Step)
    requires DepthOk(s) && IsQueue(step)
    ensures DepthOk(QueueDo(lim, s, step))
  {
    hide Congruent, Wrap, PendingIds;
    if step.QueueClaim? && s.queue.Picked? && s.queue.id in s.workorders {
      PendingAfterUpdate(s.workorders, s.queue.id, s.workorders[s.queue.id].(status := Provisioning, updatedAt := step.now));
    }
    if step.QueueCount? { CongruentStep(s.depth, Balance(s), -1); }
  }

  lemma StatusKeepsDepth(s: Server, id: Id, status: Status, now: int)
    requires DepthOk(s) && !status.Pending? && (id in s.workorders ==> !s.workorders[id].status.Pending?)
    ensures DepthOk(s.(workorders := SetStatus(s.workorders, id, status, now)))
  {
    hide Congruent, PendingIds;
    if id in s.workorders { PendingAfterUpdate(s.workorders, id, s.workorders[id].(status := status, updatedAt := now)); }
  }

  lemma TaskIsClaimed(lim: Limits, s: Server, id: Id)
    requires SlotsOk(lim, s) && id in s.tasks
    ensures id in s.workorders ==> !s.workorders[id].status.Pending?
  {
    hide Distinct;
    assert id in s.claims;
  }

  lemma TaskKeepsDepth(lim: Limits, s: Server, step: Step)
    requires DepthOk(s) && SlotsOk(lim, s) && IsTask(step)
    ensures DepthOk(TaskDo(s, step))
  {
    hide Congruent, PendingIds, SetStatus, SetSlot, OwedByCancels, SlotsOk;
    if step.id in s.tasks {
      TaskIsClaimed(lim, s, step.id);
      match step
      case TaskRefuse(id, reason, now) => StatusKeepsDepth(s, id, Failed(reason), now);
      case TaskBuild(id, now) => StatusKeepsDepth(s, id, Building, now);
      case TaskEnd(id, failure, now) => StatusKeepsDepth(s, id, if failure.None? then Completed else Failed(failure.value), now);
      case _ =>
    }
  }

  lemma CancelKeepsDepth(s: Server, step: Step)
    requires DepthOk(s) && !IsSubmit(step) && !IsQueue(step) && !IsTask(step)
    ensures DepthOk(CancelDo(s, step))
  {
    hide Congruent, Wrap, PendingIds, Without;
    match step
    case Cancel(id) =>
      if id in s.workorders {
        PendingAfterUpdate(s.workorders, id, s.workorders[id].(status := Cancelled));
        var c := Cancellation(id, s.workorders[id].client, s.workorders[id].status.Pending?, false);
        assert (s.cancellations + [c])[..|s.cancellations|] == s.cancellations;
      }
    case CancelClear(i) => if i < |s.cancellations| { OwedAfterClear(s.cancellations, i); }
    case CancelCount(i) =>
      if i < |s.cancellations| {
        OwedWithout(s.cancellations, i);
        CongruentStep(s.depth, Balance(s), -1);
      }
    case Evict(ids) =>
      if CancelDo(s, step) != s { PendingAfterEviction(s.workorders, ids); }
  }

  lemma StepKeepsDepth(lim: Limits, s: Server, step: Step)
    requires DepthOk(s) && SlotsOk(lim, s)
    ensures DepthOk(Do(lim, s, step))
  {
    hide SubmitDo, QueueDo, TaskDo, CancelDo, DepthOk, SlotsOk;
    if IsSubmit(step) { SubmitKeepsDepth(lim, s, step); }
    else if IsQueue(step) { QueueKeepsDepth(lim, s, step); }
    else if IsTask(step) { TaskKeepsDepth(lim, s, step); }
    else { CancelKeepsDepth(s, step); }
  }

  lemma {:induction false} RunKeepsDepth(lim: Limits, s: Server, steps: seq<Step>)
    requires DepthOk(s) && SlotsOk(lim, s)
    ensures DepthOk(Run(lim, s, steps))
    decreases |steps|
  {
    hide DepthOk, SlotsOk, Do;
    if steps != [] {
      var front := steps[..|steps| - 1];
      RunKeepsDepth(lim, s, front);
      RunKeepsSlots(lim, s, front);
      StepKeepsDepth(lim, Run(lim, s, front), steps[|steps| - 1]);
    }
  }

  lemma StepKeepsBootCount(lim: Limits, s: Server, step: Step)
    ensures Do(lim, s, step).pendingAtBoot == s.pendingAtBoot
  {
    hide Register, Live, OldestPending, SetStatus, SetSlot;
  }

  lemma {:induction false} BootCountUnchanged(lim: Limits, s: Server, steps: seq<Step>)
    ensures Run(lim, s, steps).pendingAtBoot == s.pendingAtBoot
    decreases |steps|
  {
    hide Do;
    if steps != [] {
      BootCountUnchanged(lim, s, steps[..|steps| - 1]);
      StepKeepsBootCount(lim, Run(lim, s, steps[..|steps| - 1]), steps[|steps| - 1]);
    }
  }

  lemma BootCounts(lim: Limits, saved: map<Id, Workorder>, clients: map<Id, Client>, now: int)
    ensures SlotsOk(lim, Boot(saved, clients, now)) && DepthOk(Boot(saved, clients, now))
  {
    hide PendingIds;
  }

  /**
   In every run from every boot the counter is, modulo 2^64, the number of pending workorders
   less the increments still owed, plus the decrements still owed, less the number that were
   pending at boot.
   */
  lemma QueueDepthTheorem(lim: Limits, saved: map<Id, Workorder>, clients: map<Id, Client>, now: int, steps: seq<Step>)
    ensures var boot := Boot(saved, clients, now);
            var s := Run(lim, boot, steps);
            Congruent(s.depth, |PendingIds(s.workorders)| - OwedIncrements(s) + OwedDecrements(s) - |PendingIds(boot.workorders)|)
  {
    hide Do, Congruent, SlotsOk;
    var boot := Boot(saved, clients, now);
    BootCounts(lim, saved, clients, now);
    RunKeepsDepth(lim, boot, steps);
    BootCountUnchanged(lim, boot, steps);
  }
}
