/** When a client is locked out until a restart: exactly after a registration that comes too late. */
module Lockouts {
  import opened Common
  import opened Collections
  import opened Workorders
  import opened Lifecycles
  import opened ClaimSafety
  import opened ActiveSafety
  import opened LifecycleRuns

  // ── What will clear a slot ────────────────────────────────────────

  predicate WillClear(s: Server, c: Id, id: Id) {
    id in s.tasks && s.tasks[id].client == c && (s.tasks[id].phase.Ending? || s.tasks[id].phase.Clearing?)
  }

  /** The slot will be emptied: its workorder is live, or its cancellation or its task has yet to empty it. */
  ghost predicate Owed(s: Server, c: Id, id: Id) {
    || (LiveIn(s, id) && s.workorders[id].client == c)
    || (exists i :: 0 <= i < |s.cancellations| && s.cancellations[i].id == id && s.cancellations[i].client == c && !s.cancellations[i].cleared)
    || WillClear(s, c, id)
  }

  /** Every taken slot will be emptied. */
  ghost predicate Owing(s: Server) {
    forall c :: Slot(s.clients, c).Some? ==> Owed(s, c, Slot(s.clients, c).value)
  }

  /** The step registers a workorder whose slot nothing will empty any more. */
  ghost predicate TooLate(s: Server, step: Step) {
    step.SubmitActivate? && s.submission.Inserted? && !Owed(s, s.submission.client, s.submission.id)
  }

  /** The client's slot names a workorder that nothing will ever clear. */
  ghost predicate Stuck(s: Server, c: Id, id: Id) {
    && Slot(s.clients, c) == Some(id)
    && (s.submission.Registered? || s.submission.Opened? || s.submission.Inserted? ==> s.submission.client != c)
    && (forall x :: LiveIn(s, x) ==> s.workorders[x].client != c)
    && QueueAway(s, c)
    && (forall x :: x in s.tasks && !s.tasks[x].phase.Returned? ==> s.tasks[x].client != c)
    && (forall x :: x in s.tasks && (s.tasks[x].phase.Starting? || s.tasks[x].phase.Preparing?) && x in s.workorders ==> s.workorders[x].client != c)
    && (forall i :: 0 <= i < |s.cancellations| && !s.cancellations[i].cleared ==> s.cancellations[i].client != c)
  }

  predicate PendingIn(s: Server, id: Id) {
    id in s.workorders && s.workorders[id].status.Pending?
  }

  /** The queue has nothing of this client in hand, or something it will not claim. */
  predicate QueueAway(s: Server, c: Id) {
    || s.queue.Idle?
    || (s.queue.client != c && (s.queue.id in s.workorders ==> s.workorders[s.queue.id].client != c))
    || (s.queue.Picked? && !PendingIn(s, s.queue.id) && s.queue.id in s.used && !(s.submission.Opened? && s.submission.id == s.queue.id))
  }

  lemma StuckStep(lim: Limits, s: Server, step: Step, c: Id, id: Id)
    requires SlotsOk(lim, s) && Stuck(s, c, id)
    ensures Stuck(Do(lim, s, step), c, id)
  {
    hide SubmitDo, QueueDo, TaskDo, CancelDo, SlotsOk, Stuck;
    if IsSubmit(step) { StuckSubmit(lim, s, step, c, id); }
    else if IsQueue(step) { StuckQueue(lim, s, step, c, id); }
    else if IsTask(step) { StuckTask(lim, s, step, c, id); }
    else { StuckCancel(s, step, c, id); }
  }

  lemma StuckSubmit(lim: Limits, s: Server, step: Step, c: Id, id: Id)
    requires SlotsOk(lim, s) && Stuck(s, c, id) && IsSubmit(step)
    ensures Stuck(SubmitDo(lim, s, step), c, id)
  {
    hide Distinct, Live;
  }

  lemma StuckQueue(lim: Limits, s: Server, step: Step, c: Id, id: Id)
    requires SlotsOk(lim, s) && Stuck(s, c, id) && IsQueue(step)
    ensures Stuck(QueueDo(lim, s, step), c, id)
  {
    hide Distinct;
  }

  lemma StuckTask(lim: Limits, s: Server, step: Step, c: Id, id: Id)
    requires SlotsOk(lim, s) && Stuck(s, c, id) && IsTask(step)
    ensures Stuck(TaskDo(s, step), c, id)
  {
    hide Distinct;
  }

  lemma StuckCancel(s: Server, step: Step, c: Id, id: Id)
    requires Stuck(s, c, id) && !IsSubmit(step) && !IsQueue(step) && !IsTask(step)
    ensures Stuck(CancelDo(s, step), c, id)
  {
  }

  /** A stuck client stays refused in every run until the server restarts. */
  lemma {:induction false} StuckForever(lim: Limits, s: Server, steps: seq<Step>, c: Id, id: Id, role: Role, config: int)
    requires SlotsOk(lim, s) && Stuck(s, c, id)
    ensures Stuck(Run(lim, s, steps), c, id) && Register(Run(lim, s, steps).clients, c, role, config).None?
    decreases |steps|
  {
    hide SlotsOk, Do;
    if steps != [] {
      StuckForever(lim, s, steps[..|steps| - 1], c, id, role, config);
      RunKeepsSlots(lim, s, steps[..|steps| - 1]);
      StuckStep(lim, Run(lim, s, steps[..|steps| - 1]), steps[|steps| - 1], c, id);
    }
  }

  // ── Owing is kept ─────────────────────────────────────────────────

  lemma SubmitKeepsOwing(lim: Limits, s: Server, step: Step)
    requires Safe(lim, s) && Owing(s) && IsSubmit(step) && !TooLate(s, step)
    ensures Owing(SubmitDo(lim, s, step))
  {
    hide Live, SlotsOk, TasksOk, CancelsOk, HeldOk, ChannelsOk, QueueOk, OwnedOk;
    var s' := SubmitDo(lim, s, step);
    forall c | Slot(s'.clients, c).Some? ensures Owed(s', c, Slot(s'.clients, c).value) {
      if Slot(s.clients, c).Some? { OwedAfterSubmit(lim, s, step, c, Slot(s.clients, c).value); }
      if step.SubmitActivate? && s.submission.Inserted? { OwedAfterSubmit(lim, s, step, s.submission.client, s.submission.id); }
    }
  }

  /** A submission step takes nothing away that will empty a slot. */
  lemma OwedAfterSubmit(lim: Limits, s: Server, step: Step, c: Id, id: Id)
    requires SlotsOk(lim, s) && IsSubmit(step) && Owed(s, c, id)
    ensures Owed(SubmitDo(lim, s, step), c, id)
  {
    hide Live, Register, SetSlot, PlacesOk, Distinct;
    var s' := SubmitDo(lim, s, step);
    assert s'.cancellations == s.cancellations && s'.tasks == s.tasks;
  }

  lemma QueueKeepsOwing(lim: Limits, s: Server, step: Step)
    requires Safe(lim, s) && Owing(s) && IsQueue(step)
    ensures Owing(QueueDo(lim, s, step))
  {
    hide OwnedOk, TasksOk, CancelsOk, HeldOk, ChannelsOk, OldestPending, Distinct;
    var s' := QueueDo(lim, s, step);
    forall c | Slot(s'.clients, c).Some? ensures Owed(s', c, Slot(s'.clients, c).value) {
      var id := Slot(s.clients, c).value;
      assert Owed(s, c, id);
      assert s'.cancellations == s.cancellations;
    }
  }

  lemma TaskKeepsOwing(lim: Limits, s: Server, step: Step)
    requires Safe(lim, s) && Owing(s) && IsTask(step)
    ensures Owing(TaskDo(s, step))
  {
    hide OwnedOk, CancelsOk, HeldOk, ChannelsOk, QueueOk, SlotsOk;
    var s' := TaskDo(s, step);
    if step.id in s.tasks { assert TaskOk(s, step.id); }
    forall c | Slot(s'.clients, c).Some? ensures Owed(s', c, Slot(s'.clients, c).value) {
      var id := Slot(s'.clients, c).value;
      assert Slot(s.clients, c) == Some(id);
      assert Owed(s, c, id);
      assert s'.cancellations == s.cancellations;
    }
  }

  lemma CancelKeepsOwing(lim: Limits, s: Server, step: Step)
    requires Safe(lim, s) && Owing(s) && !IsSubmit(step) && !IsQueue(step) && !IsTask(step)
    ensures Owing(CancelDo(s, step))
  {
    hide OwnedOk, TasksOk, HeldOk, ChannelsOk, QueueOk, SlotsOk;
    var s' := CancelDo(s, step);
    forall c | Slot(s'.clients, c).Some? ensures Owed(s', c, Slot(s'.clients, c).value) {
      var id := Slot(s'.clients, c).value;
      assert Slot(s.clients, c) == Some(id);
      OwedAfterCancel(s, step, c, id);
    }
  }

  lemma OwedAfterCancel(s: Server, step: Step, c: Id, id: Id)
    requires !IsSubmit(step) && !IsQueue(step) && !IsTask(step) && Owed(s, c, id) && Slot(CancelDo(s, step).clients, c) == Some(id)
    ensures Owed(CancelDo(s, step), c, id)
  {
    var s' := CancelDo(s, step);
    assert s'.tasks == s.tasks;
    if LiveIn(s, id) && s.workorders[id].client == c {
      if step == Cancel(id) { assert s'.cancellations[|s.cancellations|] == Cancellation(id, c, s.workorders[id].status.Pending?, false); }
    } else if !WillClear(s, c, id) {
      var i :| 0 <= i < |s.cancellations| && s.cancellations[i].id == id && s.cancellations[i].client == c && !s.cancellations[i].cleared;
      var j := if step.CancelCount? && step.i < i && s' != s then i - 1 else i;
      assert s'.cancellations[j] == s.cancellations[i];
    }
  }

  lemma StepKeepsOwing(lim: Limits, s: Server, step: Step)
    requires Safe(lim, s) && Owing(s) && !TooLate(s, step)
    ensures Owing(Do(lim, s, step))
  {
    hide SubmitDo, QueueDo, TaskDo, CancelDo, Safe, Owing, TooLate;
    if IsSubmit(step) { SubmitKeepsOwing(lim, s, step); }
    else if IsQueue(step) { QueueKeepsOwing(lim, s, step); }
    else if IsTask(step) { TaskKeepsOwing(lim, s, step); }
    else { CancelKeepsOwing(lim, s, step); }
  }

  // ── A registration that comes too late ────────────────────────────

  /** While a submission awaits registration, all that belongs to its client is its own workorder. */
  lemma OnlyItsOwn(lim: Limits, s: Server, c: Id, id: Id)
    requires Safe(lim, s) && s.submission == Inserted(c, id)
    ensures c in s.clients && Slot(s.clients, c).None?
    ensures forall x :: LiveIn(s, x) && s.workorders[x].client == c ==> x == id
    ensures forall x :: x in s.tasks && !s.tasks[x].phase.Returned? && s.tasks[x].client == c ==> x == id
    ensures forall x :: x in s.tasks && (s.tasks[x].phase.Starting? || s.tasks[x].phase.Preparing? || s.tasks[x].phase.Running?) ==> LiveIn(s, x) && s.workorders[x].client == s.tasks[x].client
    ensures forall i :: 0 <= i < |s.cancellations| && !s.cancellations[i].cleared && s.cancellations[i].client == c ==> s.cancellations[i].id == id
    ensures (s.queue.Claimed? || s.queue.Waiting?) ==> LiveIn(s, s.queue.id) && s.workorders[s.queue.id].client == s.queue.client
    ensures s.queue.Picked? ==> s.queue.id in s.used && (s.queue.id in s.workorders ==> s.workorders[s.queue.id].client == s.queue.client)
  {
    hide SlotsOk, CapacityOk, HeldOk, ChannelsOk;
    forall x | x in s.tasks ensures TaskOk(s, x) {}
    forall i | 0 <= i < |s.cancellations| ensures CancelOk(s, s.cancellations[i]) {}
  }

  /** A registration leaves its client stuck if and only if nothing is left that would empty the slot. */
  lemma RegistrationSticksExactly(lim: Limits, s: Server, c: Id, id: Id)
    requires Safe(lim, s) && s.submission == Inserted(c, id)
    ensures Stuck(Do(lim, s, SubmitActivate), c, id) <==> TooLate(s, SubmitActivate)
  {
    hide Safe, QueueDo, TaskDo, CancelDo;
    OnlyItsOwn(lim, s, c, id);
    var s' := Do(lim, s, SubmitActivate);
    assert s'.cancellations == s.cancellations && s'.tasks == s.tasks && s'.workorders == s.workorders && s'.queue == s.queue;
    assert forall x :: LiveIn(s', x) <==> LiveIn(s, x);
  }

  lemma OwingIsNotStuck(s: Server, c: Id, id: Id)
    requires Owing(s)
    ensures !Stuck(s, c, id)
  {
    if Slot(s.clients, c) == Some(id) { assert Owed(s, c, id); }
  }

  // ── Whole runs ────────────────────────────────────────────────────

  /** Some registration of the run came too late. */
  ghost predicate RegistersTooLate(lim: Limits, s: Server, steps: seq<Step>) {
    exists i :: 0 <= i < |steps| && TooLate(Run(lim, s, steps[..i]), steps[i])
  }

  lemma {:induction false} RunKeepsOwing(lim: Limits, s: Server, steps: seq<Step>)
    requires Safe(lim, s) && Owing(s) && RunCancelsPending(lim, s, steps) && !RegistersTooLate(lim, s, steps)
    ensures Owing(Run(lim, s, steps))
    decreases |steps|
  {
    hide Safe, Owing, Do, TooLate, CancelsPending;
    if steps != [] {
      var n := |steps| - 1;
      var front := steps[..n];
      assert forall i :: 0 <= i < n ==> front[i] == steps[i] && front[..i] == steps[..i];
      RunKeepsOwing(lim, s, front);
      RunKeepsSafe(lim, s, front);
      StepKeepsOwing(lim, Run(lim, s, front), steps[n]);
    }
  }

  lemma {:induction false} PrefixCancelsPending(lim: Limits, s: Server, steps: seq<Step>, i: nat)
    requires RunCancelsPending(lim, s, steps) && i <= |steps|
    ensures RunCancelsPending(lim, s, steps[..i])
    decreases |steps|
  {
    hide CancelsPending;
    if i < |steps| {
      assert steps[..|steps| - 1][..i] == steps[..i];
      PrefixCancelsPending(lim, s, steps[..|steps| - 1], i);
    } else {
      assert steps[..i] == steps;
    }
  }

  lemma LateRegistrationSticks(lim: Limits, s: Server, steps: seq<Step>, i: nat) returns (c: Id, id: Id)
    requires Safe(lim, s) && RunCancelsPending(lim, s, steps) && i < |steps| && TooLate(Run(lim, s, steps[..i]), steps[i])
    ensures Stuck(Run(lim, s, steps), c, id)
  {
    hide Safe, Do, Stuck, CancelsPending, Run, RunCancelsPending;
    var before := Run(lim, s, steps[..i]);
    PrefixCancelsPending(lim, s, steps, i);
    RunKeepsSafe(lim, s, steps[..i]);
    c, id := before.submission.client, before.submission.id;
    RegistrationSticksExactly(lim, before, c, id);
    RunSplitAt(lim, s, steps, i);
    SafeSlots(lim, before);
    StepKeepsSlots(lim, before, steps[i]);
    StuckForever(lim, Do(lim, before, steps[i]), steps[i + 1..], c, id, Main, 0);
  }

  lemma SafeSlots(lim: Limits, s: Server)
    requires Safe(lim, s)
    ensures SlotsOk(lim, s)
  {
  }

  /**
   From a boot without work in flight, in every run that cancels only pending workorders, some
   client is locked out at the end if and only if some registration of the run came after
   everything that would have emptied the slot.
   */
  lemma LockoutTheorem(lim: Limits, saved: map<Id, Workorder>, clients: map<Id, Client>, now: int, steps: seq<Step>)
    requires forall id :: id in saved ==> Terminal(saved[id].status)
    requires RunCancelsPending(lim, Boot(saved, clients, now), steps)
    ensures var boot := Boot(saved, clients, now);
            (exists c, id :: Stuck(Run(lim, boot, steps), c, id)) <==> RegistersTooLate(lim, boot, steps)
  {
    hide Safe, Owing, Run, TooLate, Stuck;
    var boot := Boot(saved, clients, now);
    BootIsSafe(lim, saved, clients, now);
    BootOwes(saved, clients, now);
    if RegistersTooLate(lim, boot, steps) {
      var i :| 0 <= i < |steps| && TooLate(Run(lim, boot, steps[..i]), steps[i]);
      var c, id := LateRegistrationSticks(lim, boot, steps, i);
    } else {
      RunKeepsOwing(lim, boot, steps);
      forall c, id ensures !Stuck(Run(lim, boot, steps), c, id) { OwingIsNotStuck(Run(lim, boot, steps), c, id); }
    }
  }

  lemma BootOwes(saved: map<Id, Workorder>, clients: map<Id, Client>, now: int)
    ensures Owing(Boot(saved, clients, now))
  {
  }

  /** Such a run: a pending workorder is cancelled and its slot emptied before it is registered. */
  lemma CancelBeforeRegistrationSticks(lim: Limits, s: Server, c: Id, id: Id, steps: seq<Step>, role: Role, config: int)
    requires Safe(lim, s) && s.submission == Inserted(c, id) && LiveIn(s, id) && s.workorders[id].status.Pending?
    ensures var racing := [Cancel(id), CancelClear(|s.cancellations|)] + [SubmitActivate];
            Register(Run(lim, s, racing + steps).clients, c, role, config).None?
  {
    hide Safe, Stuck, Do, Run;
    var k := |s.cancellations|;
    var racing := [Cancel(id), CancelClear(k)] + [SubmitActivate];
    TwoSteps(lim, s, Cancel(id), CancelClear(k));
    RunPush(lim, s, [Cancel(id), CancelClear(k)], SubmitActivate);
    var s2 := Do(lim, Do(lim, s, Cancel(id)), CancelClear(k));
    ClearedBeforeRegistration(lim, s, c, id);
    RegistrationSticksExactly(lim, s2, c, id);
    SafeSlots(lim, s2);
    StepKeepsSlots(lim, s2, SubmitActivate);
    RunAppend(lim, s, racing, steps);
    StuckForever(lim, Run(lim, s, racing), steps, c, id, role, config);
  }

  lemma ClearedBeforeRegistration(lim: Limits, s: Server, c: Id, id: Id)
    requires Safe(lim, s) && s.submission == Inserted(c, id) && LiveIn(s, id) && s.workorders[id].status.Pending?
    ensures var s2 := Do(lim, Do(lim, s, Cancel(id)), CancelClear(|s.cancellations|));
            Safe(lim, s2) && s2.submission == Inserted(c, id) && TooLate(s2, SubmitActivate)
  {
    hide SubmitDo, QueueDo, TaskDo, SlotsOk, CapacityOk, HeldOk, ChannelsOk, OwnedOk, QueueOk;
    StepKeepsSafe(lim, s, Cancel(id));
    var s1 := Do(lim, s, Cancel(id));
    StepKeepsSafe(lim, s1, CancelClear(|s.cancellations|));
    PendingHasNoTask(lim, s, id);
    forall i | 0 <= i < |s.cancellations| ensures s.cancellations[i].id != id { assert CancelOk(s, s.cancellations[i]); }
  }

  /** Another such run without any cancellation: the whole build ends and is cleared away before the registration. */
  lemma BuildBeforeRegistrationSticks(lim: Limits, s: Server, c: Id, id: Id, failure: Option<string>, now: int, steps: seq<Step>, role: Role, config: int)
    requires Safe(lim, s) && s.submission == Inserted(c, id) && TaskAt(s, id, Running) && s.tasks[id].client == c
    ensures var racing := [TaskEnd(id, failure, now), TaskClose(id)] + [TaskClear(id)] + [SubmitActivate];
            Register(Run(lim, s, racing + steps).clients, c, role, config).None?
  {
    hide Safe, Stuck, Do, Run, TooLate;
    var ending := [TaskEnd(id, failure, now), TaskClose(id)];
    TwoSteps(lim, s, TaskEnd(id, failure, now), TaskClose(id));
    RunPush(lim, s, ending, TaskClear(id));
    RunPush(lim, s, ending + [TaskClear(id)], SubmitActivate);
    var s3 := Do(lim, Do(lim, Do(lim, s, TaskEnd(id, failure, now)), TaskClose(id)), TaskClear(id));
    EndedBeforeRegistration(lim, s, c, id, failure, now);
    RegistrationSticksExactly(lim, s3, c, id);
    SafeSlots(lim, s3);
    StepKeepsSlots(lim, s3, SubmitActivate);
    var racing := ending + [TaskClear(id)] + [SubmitActivate];
    RunAppend(lim, s, racing, steps);
    StuckForever(lim, Run(lim, s, racing), steps, c, id, role, config);
  }

  lemma EndedBeforeRegistration(lim: Limits, s: Server, c: Id, id: Id, failure: Option<string>, now: int)
    requires Safe(lim, s) && s.submission == Inserted(c, id) && TaskAt(s, id, Running) && s.tasks[id].client == c
    ensures var s3 := Do(lim, Do(lim, Do(lim, s, TaskEnd(id, failure, now)), TaskClose(id)), TaskClear(id));
            Safe(lim, s3) && s3.submission == Inserted(c, id) && TooLate(s3, SubmitActivate)
  {
    hide SubmitDo, QueueDo, CancelDo, Safe;
    var s1 := Do(lim, s, TaskEnd(id, failure, now));
    var s2 := Do(lim, s1, TaskClose(id));
    StepKeepsSafe(lim, s, TaskEnd(id, failure, now));
    StepKeepsSafe(lim, s1, TaskClose(id));
    StepKeepsSafe(lim, s2, TaskClear(id));
    ClaimedIsNotCancelled(lim, s, id);
  }

  lemma ClaimedIsNotCancelled(lim: Limits, s: Server, id: Id)
    requires Safe(lim, s) && id in s.tasks
    ensures forall i :: 0 <= i < |s.cancellations| ==> s.cancellations[i].id != id
  {
    hide OwnedOk, QueueOk, HeldOk, ChannelsOk, CapacityOk, Distinct;
    assert id in s.claims;
    forall i | 0 <= i < |s.cancellations| ensures s.cancellations[i].id != id { assert CancelOk(s, s.cancellations[i]); }
  }

  lemma PendingHasNoTask(lim: Limits, s: Server, id: Id)
    requires Safe(lim, s) && LiveIn(s, id) && s.workorders[id].status.Pending?
    ensures id !in s.tasks
  {
  }
}
