/** Cancelling: harmless exactly for workorders nobody has claimed yet. */
module CancelExactness {
  import opened Common
  import opened Collections
  import opened Workorders
  import opened Lifecycles
  import opened ClaimSafety
  import opened ActiveSafety
  import opened LifecycleRuns

  /** Every live workorder is registered and no client has two. */
  ghost predicate Orderly(s: Server) {
    OwnedOk(s) && OneActivePerClient(s)
  }

  /** Every run that cancels only pending workorders stays orderly. */
  ghost predicate StaysOrderly(lim: Limits, s: Server) {
    forall steps :: RunCancelsPending(lim, s, steps) ==> Orderly(Run(lim, s, steps))
  }

  /** Some run that cancels only pending workorders leads to disorder. */
  ghost predicate Breaks(lim: Limits, s: Server) {
    exists steps :: RunCancelsPending(lim, s, steps) && !Orderly(Run(lim, s, steps))
  }

  lemma {:induction false} RunAfter(lim: Limits, s: Server, step: Step, steps: seq<Step>)
    requires CancelsPending(s, step) && RunCancelsPending(lim, Do(lim, s, step), steps)
    ensures RunCancelsPending(lim, s, [step] + steps) && Run(lim, s, [step] + steps) == Run(lim, Do(lim, s, step), steps)
    decreases |steps|
  {
    hide Do, CancelsPending;
    var all := [step] + steps;
    if steps == [] {
      assert all[..0] == [] && all[0] == step;
    } else {
      var n := |steps| - 1;
      RunAfter(lim, s, step, steps[..n]);
      assert all[..n + 1] == [step] + steps[..n];
    }
  }

  lemma BreaksNow(lim: Limits, s: Server)
    requires !OwnedOk(s)
    ensures Breaks(lim, s)
  {
    assert RunCancelsPending(lim, s, []) && Run(lim, s, []) == s;
  }

  lemma BreaksAfter(lim: Limits, s: Server, step: Step)
    requires CancelsPending(s, step) && Breaks(lim, Do(lim, s, step))
    ensures Breaks(lim, s)
  {
    hide Do, CancelsPending, Orderly, RunCancelsPending, Run;
    var steps :| RunCancelsPending(lim, Do(lim, s, step), steps) && !Orderly(Run(lim, Do(lim, s, step), steps));
    RunAfter(lim, s, step, steps);
  }

  // ── Cancelled before it builds ────────────────────────────────────

  /** Neither registered nor about to be. */
  predicate Unspoken(s: Server, id: Id) {
    id in s.workorders && !SpokenFor(s, s.workorders[id].client, id)
  }

  lemma PreparingBreaks(lim: Limits, s: Server, id: Id)
    requires TaskAt(s, id, Preparing) && Unspoken(s, id)
    ensures Breaks(lim, s)
  {
    hide Breaks, SubmitDo, QueueDo, CancelDo;
    var s' := Do(lim, s, TaskBuild(id, 0));
    assert LiveIn(s', id) && !SpokenFor(s', s'.workorders[id].client, id);
    BreaksNow(lim, s');
    BreaksAfter(lim, s, TaskBuild(id, 0));
  }

  lemma StartingBreaks(lim: Limits, s: Server, id: Id)
    requires TaskAt(s, id, Starting) && Unspoken(s, id) && id in s.channels
    ensures Breaks(lim, s)
  {
    hide Breaks, SubmitDo, QueueDo, CancelDo;
    PreparingBreaks(lim, Do(lim, s, TaskLookup(id)), id);
    BreaksAfter(lim, s, TaskLookup(id));
  }

  /** The claimed workorder waits for a permit. */
  predicate Waits(s: Server, id: Id) {
    s.queue.Waiting? && s.queue.id == id && id in s.channels && id !in s.tasks && Unspoken(s, id)
  }

  lemma SpawnBreaks(lim: Limits, s: Server, id: Id)
    requires Waits(s, id) && |s.tasks| < lim.maxWorkers
    ensures Breaks(lim, s)
  {
    hide Breaks, SubmitDo, TaskDo, CancelDo;
    StartingBreaks(lim, Do(lim, s, QueueSpawn), id);
    BreaksAfter(lim, s, QueueSpawn);
  }

  /** The step that takes another task towards its return. */
  function Onwards(s: Server, x: Id): Step
    requires x in s.tasks
  {
    match s.tasks[x].phase
    case Starting => TaskLookup(x)
    case Preparing => TaskRefuse(x, "", 0)
    case Running => TaskEnd(x, None, 0)
    case Ending => TaskClose(x)
    case Clearing => TaskClear(x)
    case Returned => TaskReturn(x)
  }

  function StepsLeft(p: Phase): nat {
    match p
    case Starting => 5
    case Preparing => 4
    case Running => 3
    case Ending => 2
    case Clearing => 1
    case Returned => 0
  }

  lemma OnwardsKeepsWaiting(lim: Limits, s: Server, id: Id, x: Id)
    requires Waits(s, id) && x in s.tasks
    ensures var s' := Do(lim, s, Onwards(s, x));
            && Waits(s', id)
            && (if s.tasks[x].phase.Returned? then s'.tasks == s.tasks - {x}
                else x in s'.tasks && s'.tasks.Keys == s.tasks.Keys && StepsLeft(s'.tasks[x].phase) < StepsLeft(s.tasks[x].phase))
  {
    hide SubmitDo, QueueDo, CancelDo, SetStatus, SetSlot, Unspoken;
    OthersKeepUnspoken(s, id, Onwards(s, x));
  }

  /** No task registers a workorder. */
  lemma OthersKeepUnspoken(s: Server, id: Id, step: Step)
    requires Unspoken(s, id) && IsTask(step)
    ensures Unspoken(TaskDo(s, step), id)
  {
  }

  lemma {:induction false} FullHouseBreaks(lim: Limits, s: Server, id: Id, x: Id)
    requires Waits(s, id) && |s.tasks| <= lim.maxWorkers && x in s.tasks
    ensures Breaks(lim, s)
    decreases StepsLeft(s.tasks[x].phase)
  {
    hide Breaks, Do, Waits;
    var step := Onwards(s, x);
    var s' := Do(lim, s, step);
    OnwardsKeepsWaiting(lim, s, id, x);
    assert |s.tasks| == |s.tasks.Keys| && |s'.tasks| == |s'.tasks.Keys|;
    if s.tasks[x].phase.Returned? {
      assert s'.tasks.Keys == s.tasks.Keys - {x};
      SpawnBreaks(lim, s', id);
    } else {
      FullHouseBreaks(lim, s', id, x);
    }
    BreaksAfter(lim, s, step);
  }

  lemma WaitingBreaks(lim: Limits, s: Server, id: Id)
    requires Waits(s, id) && |s.tasks| <= lim.maxWorkers && lim.maxWorkers > 0
    ensures Breaks(lim, s)
  {
    hide Breaks, Do, Waits;
    if |s.tasks| < lim.maxWorkers {
      SpawnBreaks(lim, s, id);
    } else {
      assert |s.tasks| == |s.tasks.Keys|;
      var x :| x in s.tasks.Keys;
      FullHouseBreaks(lim, s, id, x);
    }
  }

  lemma ClaimedBreaks(lim: Limits, s: Server, id: Id)
    requires s.queue.Claimed? && s.queue.id == id && id in s.channels && id !in s.tasks && Unspoken(s, id)
    requires |s.tasks| <= lim.maxWorkers && lim.maxWorkers > 0
    ensures Breaks(lim, s)
  {
    hide Breaks, SubmitDo, TaskDo, CancelDo;
    WaitingBreaks(lim, Do(lim, s, QueueCount), id);
    BreaksAfter(lim, s, QueueCount);
  }

  /** After the cancellation, the submission that holds the lock registers, and the slot is emptied. */
  function Emptied(lim: Limits, s: Server, id: Id): Server {
    Do(lim, Do(lim, Do(lim, s, Cancel(id)), SubmitActivate), CancelClear(|s.cancellations|))
  }

  lemma EmptiedIsUnspoken(lim: Limits, s: Server, id: Id)
    requires LiveIn(s, id)
    ensures var u := Emptied(lim, s, id);
            && Unspoken(u, id) && u.tasks == s.tasks && u.queue == s.queue && u.channels == s.channels
  {
    hide QueueDo, TaskDo;
    var u1 := Do(lim, Do(lim, s, Cancel(id)), SubmitActivate);
    assert u1.cancellations == s.cancellations + [Cancellation(id, s.workorders[id].client, s.workorders[id].status.Pending?, false)];
  }

  lemma BreaksOnceEmptied(lim: Limits, s: Server, id: Id)
    requires Breaks(lim, Emptied(lim, s, id))
    ensures Breaks(lim, Do(lim, s, Cancel(id)))
  {
    hide Breaks, Do;
    var s1 := Do(lim, s, Cancel(id));
    BreaksAfter(lim, Do(lim, s1, SubmitActivate), CancelClear(|s.cancellations|));
    BreaksAfter(lim, s1, SubmitActivate);
  }

  lemma NotYetBuildingBreaks(lim: Limits, s: Server, id: Id)
    requires Safe(lim, s) && LiveIn(s, id) && lim.maxWorkers > 0
    requires Holds(s.queue, id) || TaskAt(s, id, Starting) || TaskAt(s, id, Preparing)
    ensures Breaks(lim, Do(lim, s, Cancel(id)))
  {
    hide Breaks, Do, Emptied, ActiveOk, CapacityOk, HeldOk, ClaimsOk, Unspoken;
    var u := Emptied(lim, s, id);
    EmptiedIsUnspoken(lim, s, id);
    if TaskAt(s, id, Preparing) {
      PreparingBreaks(lim, u, id);
    } else if TaskAt(s, id, Starting) {
      StartingBreaks(lim, u, id);
    } else if s.queue.Waiting? {
      WaitingBreaks(lim, u, id);
    } else {
      ClaimedBreaks(lim, u, id);
    }
    BreaksOnceEmptied(lim, s, id);
  }

  // ── Cancelled while it builds ─────────────────────────────────────

  lemma {:induction false} FreshId(used: set<Id>) returns (id: Id)
    ensures id !in used
  {
    id := Unused(used, {}, 0);
  }

  lemma {:induction false} Unused(used: set<Id>, below: set<Id>, n: Id) returns (id: Id)
    requires below <= used && forall x: Id :: x in below <==> x < n
    ensures id !in used
    decreases used - below
  {
    if n !in used { id := n; } else { id := Unused(used, below + {n}, n + 1); }
  }

  /** A cancelled workorder whose task still builds, with room for another submission. */
  ghost predicate Orphaned(lim: Limits, s: Server, id: Id, c: Id, k: nat) {
    && SlotsOk(lim, s) && TaskAt(s, id, Running) && s.tasks[id].client == c && !LiveIn(s, id)
    && (lim.maxActive > 0 ==> |Live(s.workorders)| < lim.maxActive)
    && k < |s.cancellations| && s.cancellations[k].client == c && !s.cancellations[k].cleared
  }

  /** The submission steps that finish what holds the lock; what it inserts is cancelled at once. */
  function Draining(s: Server, newId: Id): Step {
    match s.submission
    case Locked(_, _, _) => SubmitAdmit
    case Admitted(_, _, _) => SubmitRegister
    case Registered(_) => SubmitOpen(newId)
    case Opened(_, _) => SubmitInsert(0)
    case _ => SubmitActivate
  }

  function ToDrain(sub: Submission): nat {
    match sub
    case NoSubmission => 0
    case Locked(_, _, _) => 5
    case Admitted(_, _, _) => 4
    case Registered(_) => 3
    case Opened(_, _) => 2
    case Inserted(_, _) => 1
  }

  lemma DrainKeepsOrphan(lim: Limits, s: Server, id: Id, c: Id, k: nat, newId: Id)
    requires Orphaned(lim, s, id, c, k) && !s.submission.NoSubmission? && !s.submission.Opened? && newId !in s.used
    ensures var s' := Do(lim, s, Draining(s, newId));
            Orphaned(lim, s', id, c, k) && ToDrain(s'.submission) < ToDrain(s.submission)
  {
    hide SlotsOk, QueueDo, TaskDo, CancelDo, Live, Register, SetSlot;
    StepKeepsSlots(lim, s, Draining(s, newId));
  }

  lemma InsertAndCancel(lim: Limits, s: Server, id: Id, c: Id, k: nat)
    requires Orphaned(lim, s, id, c, k) && s.submission.Opened?
    ensures var s1 := Do(lim, s, SubmitInsert(0));
            var s2 := Do(lim, s1, Cancel(s.submission.id));
            && CancelsPending(s1, Cancel(s.submission.id)) && Orphaned(lim, s2, id, c, k) && s2.submission.Inserted?
  {
    hide QueueDo, TaskDo, SlotsOk;
    var s1 := Do(lim, s, SubmitInsert(0));
    var s2 := Do(lim, s1, Cancel(s.submission.id));
    StepKeepsSlots(lim, s, SubmitInsert(0));
    StepKeepsSlots(lim, s1, Cancel(s.submission.id));
    OpenedIsNew(lim, s, id);
    assert Live(s2.workorders) == Live(s.workorders);
  }

  lemma OpenedIsNew(lim: Limits, s: Server, id: Id)
    requires SlotsOk(lim, s)
    ensures s.submission.Opened? ==> s.submission.id !in s.workorders && s.submission.id !in s.tasks
    ensures id in s.tasks ==> id in s.used
  {
  }

  lemma SubmissionBreaks(lim: Limits, s: Server, c: Id, id: Id)
    requires s.submission.NoSubmission? && Slot(s.clients, c).None? && id !in s.used
    requires lim.maxActive > 0 ==> |Live(s.workorders)| < lim.maxActive
    requires Breaks(lim, Submitted(lim, s, c, id))
    ensures Breaks(lim, s)
  {
    hide Breaks, Do;
    var s1 := Do(lim, s, SubmitLock(c, Main, 0));
    var s2 := Do(lim, s1, SubmitAdmit);
    var s3 := Do(lim, s2, SubmitRegister);
    var s4 := Do(lim, s3, SubmitOpen(id));
    var s5 := Do(lim, s4, SubmitInsert(0));
    BreaksAfter(lim, s5, SubmitActivate);
    BreaksAfter(lim, s4, SubmitInsert(0));
    BreaksAfter(lim, s3, SubmitOpen(id));
    BreaksAfter(lim, s2, SubmitRegister);
    BreaksAfter(lim, s1, SubmitAdmit);
    BreaksAfter(lim, s, SubmitLock(c, Main, 0));
  }

  function Submitted(lim: Limits, s: Server, c: Id, id: Id): Server {
    Do(lim, Do(lim, Do(lim, Do(lim, Do(lim, Do(lim, s, SubmitLock(c, Main, 0)), SubmitAdmit), SubmitRegister), SubmitOpen(id)), SubmitInsert(0)), SubmitActivate)
  }

  /** A submission by an idle client with room to spare succeeds. */
  lemma SubmissionSucceeds(lim: Limits, s: Server, c: Id, id: Id)
    requires s.submission.NoSubmission? && Slot(s.clients, c).None? && id !in s.used
    requires lim.maxActive > 0 ==> |Live(s.workorders)| < lim.maxActive
    ensures var s' := Submitted(lim, s, c, id);
            && s'.workorders == s.workorders[id := Workorder(c, Pending, 0, 0)] && s'.tasks == s.tasks
            && s'.submission.NoSubmission? && Slot(s'.clients, c) == Some(id)
  {
    hide QueueDo, TaskDo, CancelDo, Live;
  }

  /** Cancelled before its build starts, resubmitted for, then built after all: its client has two live workorders. */
  lemma CancelBeforeBuildingRevives(lim: Limits, s: Server, id: Id, newId: Id)
    requires Safe(lim, s) && s.submission.NoSubmission? && TaskAt(s, id, Preparing) && newId !in s.used
    ensures !OneActivePerClient(Do(lim, Submitted(lim, Emptied(lim, s, id), s.tasks[id].client, newId), TaskBuild(id, 0)))
  {
    hide Safe, Live, Submitted, SubmitDo, QueueDo;
    var c, u := s.tasks[id].client, Emptied(lim, s, id);
    PreparingIsLive(lim, s, id);
    RoomAfterCancel(lim, s, id);
    EmptiedIsUnspoken(lim, s, id);
    EmptiedLock(lim, s, id);
    SubmissionSucceeds(lim, u, c, newId);
    var s' := Do(lim, Submitted(lim, u, c, newId), TaskBuild(id, 0));
    assert LiveIn(s', id) && LiveIn(s', newId) && s'.workorders[id].client == s'.workorders[newId].client;
  }

  lemma PreparingIsLive(lim: Limits, s: Server, id: Id)
    requires Safe(lim, s) && TaskAt(s, id, Preparing)
    ensures LiveIn(s, id) && s.workorders[id].client == s.tasks[id].client && id in s.used
  {
    assert TaskOk(s, id);
  }

  lemma RoomAfterCancel(lim: Limits, s: Server, id: Id)
    requires Safe(lim, s) && LiveIn(s, id)
    ensures lim.maxActive > 0 ==> |Live(CancelDo(s, Cancel(id)).workorders)| < lim.maxActive
  {
    hide SlotsOk, ActiveOk, HeldOk, ChannelsOk;
    assert Live(CancelDo(s, Cancel(id)).workorders) == Live(s.workorders) - {id};
  }

  lemma EmptiedLock(lim: Limits, s: Server, id: Id)
    requires LiveIn(s, id) && s.submission.NoSubmission?
    ensures var u := Emptied(lim, s, id);
            && u.submission.NoSubmission? && u.used == s.used && u.workorders == CancelDo(s, Cancel(id)).workorders
            && Slot(u.clients, s.workorders[id].client).None?
  {
    hide QueueDo, TaskDo;
    var u1 := Do(lim, Do(lim, s, Cancel(id)), SubmitActivate);
    assert u1.cancellations == s.cancellations + [Cancellation(id, s.workorders[id].client, s.workorders[id].status.Pending?, false)];
  }

  lemma EndingBreaks(lim: Limits, s: Server, id: Id, other: Id)
    requires TaskAt(s, id, Running) && s.submission.NoSubmission? && LiveIn(s, other) && other != id && s.workorders[other].client == s.tasks[id].client
    ensures Breaks(lim, s)
  {
    hide Breaks, SubmitDo, QueueDo, CancelDo;
    var s1 := Do(lim, s, TaskEnd(id, None, 0));
    var s2 := Do(lim, s1, TaskClose(id));
    var s3 := Do(lim, s2, TaskClear(id));
    assert LiveIn(s3, other) && !SpokenFor(s3, s3.workorders[other].client, other);
    BreaksNow(lim, s3);
    BreaksAfter(lim, s2, TaskClear(id));
    BreaksAfter(lim, s1, TaskClose(id));
    BreaksAfter(lim, s, TaskEnd(id, None, 0));
  }

  /** With the lock free: empty the slot, submit again, let the cancelled build end. */
  lemma OrphanBreaks(lim: Limits, s: Server, id: Id, c: Id, k: nat)
    requires Orphaned(lim, s, id, c, k) && s.submission.NoSubmission?
    ensures Breaks(lim, s)
  {
    hide Breaks, Submitted, SubmitDo, QueueDo, TaskDo, Live, SlotsOk;
    var s1 := Do(lim, s, CancelClear(k));
    var newId := FreshId(s.used);
    OpenedIsNew(lim, s, id);
    SubmissionSucceeds(lim, s1, c, newId);
    EndingBreaks(lim, Submitted(lim, s1, c, newId), id, newId);
    SubmissionBreaks(lim, s1, c, newId);
    BreaksAfter(lim, s, CancelClear(k));
  }

  lemma {:induction false} LockedOrphanBreaks(lim: Limits, s: Server, id: Id, c: Id, k: nat)
    requires Orphaned(lim, s, id, c, k)
    ensures Breaks(lim, s)
    decreases ToDrain(s.submission)
  {
    hide Breaks, Do, Orphaned;
    if s.submission.NoSubmission? {
      OrphanBreaks(lim, s, id, c, k);
    } else if s.submission.Opened? {
      var s1 := Do(lim, s, SubmitInsert(0));
      InsertAndCancel(lim, s, id, c, k);
      LockedOrphanBreaks(lim, Do(lim, s1, Cancel(s.submission.id)), id, c, k);
      BreaksAfter(lim, s1, Cancel(s.submission.id));
      BreaksAfter(lim, s, SubmitInsert(0));
    } else {
      var newId := FreshId(s.used);
      DrainKeepsOrphan(lim, s, id, c, k, newId);
      LockedOrphanBreaks(lim, Do(lim, s, Draining(s, newId)), id, c, k);
      BreaksAfter(lim, s, Draining(s, newId));
    }
  }

  lemma CancelOrphans(lim: Limits, s: Server, id: Id)
    requires Safe(lim, s) && LiveIn(s, id) && TaskAt(s, id, Running)
    ensures Orphaned(lim, Do(lim, s, Cancel(id)), id, s.tasks[id].client, |s.cancellations|)
  {
    hide SlotsOk, OwnedOk, QueueOk, CancelsOk, HeldOk, ChannelsOk, SubmitDo, QueueDo, TaskDo;
    StepKeepsSlots(lim, s, Cancel(id));
    assert TaskOk(s, id);
    RoomAfterCancel(lim, s, id);
  }

  lemma ClaimedBreaksWhenCancelled(lim: Limits, s: Server, id: Id)
    requires Safe(lim, s) && LiveIn(s, id) && lim.maxWorkers > 0 && !s.workorders[id].status.Pending?
    ensures Breaks(lim, Do(lim, s, Cancel(id)))
  {
    hide Breaks, Do, SlotsOk, ActiveOk, CapacityOk, ChannelsOk;
    if TaskAt(s, id, Running) {
      CancelOrphans(lim, s, id);
      LockedOrphanBreaks(lim, Do(lim, s, Cancel(id)), id, s.tasks[id].client, |s.cancellations|);
    } else {
      NotYetBuildingBreaks(lim, s, id);
    }
  }

  // ── Without workers ───────────────────────────────────────────────

  predicate ClearsOwn(s: Server, x: Cancellation) {
    && x.id in s.used && !(s.submission.Opened? && s.submission.id == x.id)
    && !LiveIn(s, x.id) && (!x.cleared ==> SpokenFor(s, x.client, x.id))
  }

  /** A server without workers whose queue waits for a permit that never comes. */
  ghost predicate Jammed(s: Server) {
    && s.tasks == map[] && (s.queue.Claimed? || s.queue.Waiting?)
    && ClaimsOk(s) && OwnedOk(s) && SubmissionOk(s)
    && (forall i :: 0 <= i < |s.cancellations| ==> ClearsOwn(s, s.cancellations[i]))
    && (forall i, j :: 0 <= i < j < |s.cancellations| ==> s.cancellations[i].id != s.cancellations[j].id)
  }

  lemma SubmitKeepsJammed(lim: Limits, s: Server, step: Step)
    requires Jammed(s) && IsSubmit(step)
    ensures Jammed(SubmitDo(lim, s, step))
  {
    hide Register, Live, Distinct;
    if s.submission.Admitted? { RegisterKeepsSlots(s); }
  }

  lemma CancelKeepsJammed(s: Server, step: Step)
    requires Jammed(s) && !IsSubmit(step) && !IsQueue(step) && !IsTask(step)
    ensures Jammed(CancelDo(s, step))
  {
    hide Distinct;
  }

  lemma OtherKeepsJammed(lim: Limits, s: Server, step: Step)
    requires Jammed(s) && lim.maxWorkers == 0 && (IsQueue(step) || IsTask(step))
    ensures Jammed(Do(lim, s, step))
  {
    hide ClaimsOk, SubmitDo, CancelDo;
    ClaimsFrame(s, Do(lim, s, step));
  }

  lemma JammedIsOrderly(s: Server)
    requires Jammed(s)
    ensures Orderly(s)
  {
    hide ClaimsOk;
  }

  lemma {:induction false} JammedStaysOrderly(lim: Limits, s: Server, steps: seq<Step>)
    requires Jammed(s) && lim.maxWorkers == 0
    ensures Jammed(Run(lim, s, steps)) && Orderly(Run(lim, s, steps))
    decreases |steps|
  {
    hide SubmitDo, QueueDo, TaskDo, CancelDo, Jammed, Orderly;
    if steps != [] {
      var front, step := Run(lim, s, steps[..|steps| - 1]), steps[|steps| - 1];
      JammedStaysOrderly(lim, s, steps[..|steps| - 1]);
      if IsSubmit(step) { SubmitKeepsJammed(lim, front, step); }
      else if IsQueue(step) || IsTask(step) { OtherKeepsJammed(lim, front, step); }
      else { CancelKeepsJammed(front, step); }
    }
    JammedIsOrderly(Run(lim, s, steps));
  }

  lemma CancelJams(lim: Limits, s: Server, id: Id)
    requires Safe(lim, s) && LiveIn(s, id) && lim.maxWorkers == 0 && !s.workorders[id].status.Pending?
    ensures Jammed(Do(lim, s, Cancel(id)))
  {
    hide CapacityOk, SubmitDo, QueueDo, TaskDo, Distinct;
    assert |s.tasks| == |s.tasks.Keys|;
    assert s.tasks == map[];
    assert Holds(s.queue, id);
    forall i | 0 <= i < |s.cancellations| ensures ClearsOwn(s, s.cancellations[i]) { assert CancelOk(s, s.cancellations[i]); }
  }

  // ── Exactly when ──────────────────────────────────────────────────

  /**
   Cancelling a live workorder keeps every live workorder registered and one per client,
   whatever follows without cancelling claimed work, if and only if it is still pending or the
   server has no workers.
   */
  lemma CancelTheorem(lim: Limits, s: Server, id: Id)
    requires Safe(lim, s) && LiveIn(s, id)
    ensures StaysOrderly(lim, Do(lim, s, Cancel(id))) <==> s.workorders[id].status.Pending? || lim.maxWorkers == 0
  {
    hide Do, Run, RunCancelsPending, Safe, Orderly, Jammed;
    var s' := Do(lim, s, Cancel(id));
    if s.workorders[id].status.Pending? {
      StepKeepsSafe(lim, s, Cancel(id));
      forall steps | RunCancelsPending(lim, s', steps) ensures Orderly(Run(lim, s', steps)) {
        RunKeepsSafe(lim, s', steps);
        SafeIsOrderly(lim, Run(lim, s', steps));
      }
    } else if lim.maxWorkers == 0 {
      CancelJams(lim, s, id);
      forall steps ensures Orderly(Run(lim, s', steps)) { JammedStaysOrderly(lim, s', steps); }
    } else {
      ClaimedBreaksWhenCancelled(lim, s, id);
      var steps :| RunCancelsPending(lim, s', steps) && !Orderly(Run(lim, s', steps));
    }
  }

  lemma SafeIsOrderly(lim: Limits, s: Server)
    requires Safe(lim, s)
    ensures Orderly(s)
  {
    SafeMeansOne(lim, s);
  }
}
