/** One active workorder per client and the capacity limit, for runs that cancel only pending workorders. */
module ActiveSafety {
  import opened Common
  import opened Collections
  import opened Workorders
  import opened Lifecycles
  import opened ClaimSafety

  /** The workorder is its client's active one, or its submission is about to make it so. */
  predicate SpokenFor(s: Server, c: Id, id: Id) {
    Slot(s.clients, c) == Some(id) || s.submission == Inserted(c, id)
  }

  predicate LiveIn(s: Server, id: Id) {
    id in s.workorders && !Terminal(s.workorders[id].status)
  }

  ghost predicate OwnedOk(s: Server) {
    forall id :: LiveIn(s, id) ==> SpokenFor(s, s.workorders[id].client, id)
  }

  predicate SubmissionOk(s: Server) {
    s.submission.Registered? || s.submission.Opened? || s.submission.Inserted? ==> s.submission.client in s.clients && Slot(s.clients, s.submission.client).None?
  }

  predicate TaskOk(s: Server, id: Id)
    requires id in s.tasks
  {
    match s.tasks[id].phase
    case Returned => true
    case Ending => !LiveIn(s, id) && SpokenFor(s, s.tasks[id].client, id)
    case Clearing => !LiveIn(s, id) && SpokenFor(s, s.tasks[id].client, id)
    case _ => LiveIn(s, id) && s.workorders[id].client == s.tasks[id].client
  }

  ghost predicate TasksOk(s: Server) {
    forall id :: id in s.tasks ==> TaskOk(s, id)
  }

  predicate QueueOk(s: Server) {
    && (s.queue.Picked? ==> s.queue.id in s.used && !(s.submission.Opened? && s.submission.id == s.queue.id)
                            && (s.queue.id in s.workorders ==> s.workorders[s.queue.id].client == s.queue.client))
    && (s.queue.Claimed? || s.queue.Waiting? ==> LiveIn(s, s.queue.id) && s.workorders[s.queue.id].client == s.queue.client)
  }

  predicate CancelOk(s: Server, x: Cancellation) {
    && x.id in s.used && x.id !in s.claims && !(s.submission.Opened? && s.submission.id == x.id)
    && !LiveIn(s, x.id) && (!x.cleared ==> SpokenFor(s, x.client, x.id))
  }

  ghost predicate CancelsOk(s: Server) {
    && (forall i :: 0 <= i < |s.cancellations| ==> CancelOk(s, s.cancellations[i]))
    && (forall i, j :: 0 <= i < j < |s.cancellations| ==> s.cancellations[i].id != s.cancellations[j].id)
  }

  predicate CapacityOk(lim: Limits, s: Server) {
    lim.maxActive > 0 ==>
      |Live(s.workorders)| + (if s.submission.Admitted? || s.submission.Registered? || s.submission.Opened? then 1 else 0) <= lim.maxActive
  }

  ghost predicate ActiveOk(s: Server) {
    OwnedOk(s) && SubmissionOk(s) && TasksOk(s) && QueueOk(s) && CancelsOk(s)
  }

  /** Only pending workorders are cancelled. */
  predicate CancelsPending(s: Server, step: Step) {
    step.Cancel? && LiveIn(s, step.id) ==> s.workorders[step.id].status.Pending?
  }

  predicate RunCancelsPending(lim: Limits, s: Server, steps: seq<Step>)
    decreases |steps|
  {
    steps == [] || (RunCancelsPending(lim, s, steps[..|steps| - 1]) && CancelsPending(Run(lim, s, steps[..|steps| - 1]), steps[|steps| - 1]))
  }

  // ── Slots ─────────────────────────────────────────────────────────

  lemma RegisterKeepsSlots(s: Server)
    requires s.submission.Admitted?
    ensures var r := Register(s.clients, s.submission.client, s.submission.role, s.submission.config);
            r.Some? ==> s.submission.client in r.value && Slot(r.value, s.submission.client).None? && forall c :: Slot(r.value, c) == Slot(s.clients, c)
  {
  }

  lemma SubmitKeepsOwners(lim: Limits, s: Server, step: Step)
    requires ActiveOk(s) && SlotsOk(lim, s) && IsSubmit(step)
    ensures OwnedOk(SubmitDo(lim, s, step)) && SubmissionOk(SubmitDo(lim, s, step)) && QueueOk(SubmitDo(lim, s, step))
  {
    hide Register;
    if s.submission.Admitted? { RegisterKeepsSlots(s); }
  }

  lemma SubmitKeepsTasks(lim: Limits, s: Server, step: Step)
    requires ActiveOk(s) && SlotsOk(lim, s) && IsSubmit(step)
    ensures TasksOk(SubmitDo(lim, s, step))
  {
    hide Register;
    if s.submission.Admitted? { RegisterKeepsSlots(s); }
  }

  lemma SubmitKeepsCancels(lim: Limits, s: Server, step: Step)
    requires ActiveOk(s) && SlotsOk(lim, s) && IsSubmit(step)
    ensures CancelsOk(SubmitDo(lim, s, step))
  {
    hide Register;
    if s.submission.Admitted? { RegisterKeepsSlots(s); }
  }

  lemma SubmitKeepsActive(lim: Limits, s: Server, step: Step)
    requires ActiveOk(s) && SlotsOk(lim, s) && IsSubmit(step)
    ensures ActiveOk(SubmitDo(lim, s, step))
  {
    hide SlotsOk, OwnedOk, SubmissionOk, QueueOk, TasksOk, CancelsOk, SubmitDo;
    SubmitKeepsOwners(lim, s, step);
    SubmitKeepsTasks(lim, s, step);
    SubmitKeepsCancels(lim, s, step);
  }

  lemma QueueKeepsOwners(lim: Limits, s: Server, step: Step)
    requires ActiveOk(s) && SlotsOk(lim, s) && IsQueue(step)
    ensures OwnedOk(QueueDo(lim, s, step)) && SubmissionOk(QueueDo(lim, s, step)) && QueueOk(QueueDo(lim, s, step))
  {
  }

  lemma QueueKeepsTasks(lim: Limits, s: Server, step: Step)
    requires ActiveOk(s) && SlotsOk(lim, s) && IsQueue(step)
    ensures TasksOk(QueueDo(lim, s, step))
  {
  }

  lemma QueueKeepsCancels(lim: Limits, s: Server, step: Step)
    requires ActiveOk(s) && SlotsOk(lim, s) && IsQueue(step)
    ensures CancelsOk(QueueDo(lim, s, step))
  {
  }

  lemma QueueKeepsActive(lim: Limits, s: Server, step: Step)
    requires ActiveOk(s) && SlotsOk(lim, s) && IsQueue(step)
    ensures ActiveOk(QueueDo(lim, s, step))
  {
    hide SlotsOk, OwnedOk, SubmissionOk, QueueOk, TasksOk, CancelsOk, QueueDo;
    QueueKeepsOwners(lim, s, step);
    QueueKeepsTasks(lim, s, step);
    QueueKeepsCancels(lim, s, step);
  }

  lemma TaskKeepsOwners(lim: Limits, s: Server, step: Step)
    requires ActiveOk(s) && SlotsOk(lim, s) && IsTask(step)
    ensures OwnedOk(TaskDo(s, step)) && SubmissionOk(TaskDo(s, step)) && QueueOk(TaskDo(s, step))
  {
    hide CancelsOk, ClaimsOk;
  }

  lemma TaskKeepsTasks(lim: Limits, s: Server, step: Step)
    requires ActiveOk(s) && SlotsOk(lim, s) && IsTask(step)
    ensures TasksOk(TaskDo(s, step))
  {
    hide QueueOk, CancelsOk, SlotsOk;
  }

  lemma TaskKeepsCancels(lim: Limits, s: Server, step: Step)
    requires ActiveOk(s) && SlotsOk(lim, s) && IsTask(step)
    ensures CancelsOk(TaskDo(s, step))
  {
    hide QueueOk, OwnedOk, Distinct;
  }

  lemma TaskKeepsActive(lim: Limits, s: Server, step: Step)
    requires ActiveOk(s) && SlotsOk(lim, s) && IsTask(step)
    ensures ActiveOk(TaskDo(s, step))
  {
    hide SlotsOk, OwnedOk, SubmissionOk, QueueOk, TasksOk, CancelsOk, TaskDo;
    TaskKeepsOwners(lim, s, step);
    TaskKeepsTasks(lim, s, step);
    TaskKeepsCancels(lim, s, step);
  }

  lemma CancelKeepsOwners(lim: Limits, s: Server, step: Step)
    requires ActiveOk(s) && SlotsOk(lim, s) && !IsSubmit(step) && !IsQueue(step) && !IsTask(step) && CancelsPending(s, step)
    ensures OwnedOk(CancelDo(s, step)) && SubmissionOk(CancelDo(s, step)) && QueueOk(CancelDo(s, step))
  {
  }

  lemma CancelKeepsTasks(lim: Limits, s: Server, step: Step)
    requires ActiveOk(s) && SlotsOk(lim, s) && !IsSubmit(step) && !IsQueue(step) && !IsTask(step) && CancelsPending(s, step)
    ensures TasksOk(CancelDo(s, step))
  {
  }

  lemma CancelKeepsCancels(lim: Limits, s: Server, step: Step)
    requires ActiveOk(s) && SlotsOk(lim, s) && !IsSubmit(step) && !IsQueue(step) && !IsTask(step) && CancelsPending(s, step)
    ensures CancelsOk(CancelDo(s, step))
  {
    hide TasksOk, QueueOk, PlacesOk, Distinct;
  }

  lemma CancelKeepsActive(lim: Limits, s: Server, step: Step)
    requires ActiveOk(s) && SlotsOk(lim, s) && !IsSubmit(step) && !IsQueue(step) && !IsTask(step) && CancelsPending(s, step)
    ensures ActiveOk(CancelDo(s, step))
  {
    hide SlotsOk, OwnedOk, SubmissionOk, QueueOk, TasksOk, CancelsOk, CancelDo;
    CancelKeepsOwners(lim, s, step);
    CancelKeepsTasks(lim, s, step);
    CancelKeepsCancels(lim, s, step);
  }

  // ── Claimed work is being worked on ───────────────────────────────

  predicate Unended(s: Server, id: Id) {
    id in s.tasks && (s.tasks[id].phase.Starting? || s.tasks[id].phase.Preparing? || s.tasks[id].phase.Running?)
  }

  /** A live workorder is pending, in the hands of the queue, or of a task that will end it. */
  ghost predicate HeldOk(s: Server) {
    forall id :: LiveIn(s, id) ==> s.workorders[id].status.Pending? || Holds(s.queue, id) || Unended(s, id)
  }

  /** A live workorder has its channels. */
  ghost predicate ChannelsOk(s: Server) {
    (forall id :: LiveIn(s, id) ==> id in s.channels) && (s.submission.Opened? ==> s.submission.id in s.channels)
  }

  lemma SubmitKeepsHeld(lim: Limits, s: Server, step: Step)
    requires HeldOk(s) && ChannelsOk(s) && IsSubmit(step)
    ensures HeldOk(SubmitDo(lim, s, step)) && ChannelsOk(SubmitDo(lim, s, step))
  {
    hide Register, Live, SetSlot;
  }

  lemma QueueKeepsHeld(lim: Limits, s: Server, step: Step)
    requires HeldOk(s) && ChannelsOk(s) && SlotsOk(lim, s) && IsQueue(step)
    ensures HeldOk(QueueDo(lim, s, step)) && ChannelsOk(QueueDo(lim, s, step))
  {
    hide OldestPending, ClaimsOk;
  }

  lemma TaskKeepsHeld(lim: Limits, s: Server, step: Step)
    requires HeldOk(s) && ChannelsOk(s) && TasksOk(s) && SlotsOk(lim, s) && IsTask(step)
    ensures HeldOk(TaskDo(s, step)) && ChannelsOk(TaskDo(s, step))
  {
    hide SlotsOk, HeldOk, ChannelsOk, TasksOk, TaskDo;
    TaskKeepsHolders(s, step);
    TaskKeepsChannels(lim, s, step);
  }

  lemma TaskKeepsHolders(s: Server, step: Step)
    requires HeldOk(s) && ChannelsOk(s) && TasksOk(s) && IsTask(step)
    ensures HeldOk(TaskDo(s, step))
  {
    hide SetSlot, SpokenFor, Holds;
    if step.id in s.tasks { assert TaskOk(s, step.id); }
  }

  lemma TaskKeepsChannels(lim: Limits, s: Server, step: Step)
    requires ChannelsOk(s) && TasksOk(s) && SlotsOk(lim, s) && IsTask(step)
    ensures ChannelsOk(TaskDo(s, step))
  {
    hide SetSlot, SpokenFor, Distinct;
    if step.id in s.tasks { assert TaskOk(s, step.id); }
  }

  lemma CancelKeepsHeld(lim: Limits, s: Server, step: Step)
    requires HeldOk(s) && ChannelsOk(s) && SlotsOk(lim, s) && !IsSubmit(step) && !IsQueue(step) && !IsTask(step)
    ensures HeldOk(CancelDo(s, step)) && ChannelsOk(CancelDo(s, step))
  {
    hide SetSlot, Distinct, PlacesOk;
  }

  // ── Capacity ──────────────────────────────────────────────────────

  lemma FewerLive(w: map<Id, Workorder>, w': map<Id, Workorder>)
    requires forall id :: id in w' && !Terminal(w'[id].status) ==> id in w && !Terminal(w[id].status)
    ensures |Live(w')| <= |Live(w)|
  {
    assert Live(w') <= Live(w);
    assert Live(w) == Live(w') + (Live(w) - Live(w'));
  }

  lemma SubmitKeepsCapacity(lim: Limits, s: Server, step: Step)
    requires CapacityOk(lim, s) && SlotsOk(lim, s) && IsSubmit(step)
    ensures CapacityOk(lim, SubmitDo(lim, s, step))
  {
    hide Live, Register, SlotsOk;
    if step.SubmitInsert? && s.submission.Opened? { OneMoreLive(s, step.now); }
  }

  lemma OneMoreLive(s: Server, now: int)
    requires s.submission.Opened?
    ensures |Live(s.workorders[s.submission.id := Workorder(s.submission.client, Pending, now, now)])| <= |Live(s.workorders)| + 1
  {
    var w' := s.workorders[s.submission.id := Workorder(s.submission.client, Pending, now, now)];
    assert Live(w') == Live(s.workorders) + {s.submission.id};
  }

  lemma OtherKeepsCapacity(lim: Limits, s: Server, step: Step)
    requires CapacityOk(lim, s) && ActiveOk(s) && !IsSubmit(step) && CancelsPending(s, step)
    ensures CapacityOk(lim, Do(lim, s, step))
  {
    hide Live, ActiveOk, Do;
    OtherAddsNothing(lim, s, step);
    FewerLive(s.workorders, Do(lim, s, step).workorders);
  }

  /** Only a submission makes live work. */
  lemma OtherAddsNothing(lim: Limits, s: Server, step: Step)
    requires ActiveOk(s) && !IsSubmit(step) && CancelsPending(s, step)
    ensures Do(lim, s, step).submission == s.submission
    ensures var w, w' := s.workorders, Do(lim, s, step).workorders;
            forall id :: id in w' && !Terminal(w'[id].status) ==> id in w && !Terminal(w[id].status)
  {
    hide Live, OwnedOk, SubmissionOk, CancelsOk, SetSlot, OldestPending, SpokenFor;
    if IsTask(step) && step.id in s.tasks { assert TaskOk(s, step.id); }
  }

  // ── Whole runs ────────────────────────────────────────────────────

  ghost predicate Safe(lim: Limits, s: Server) {
    SlotsOk(lim, s) && ActiveOk(s) && CapacityOk(lim, s) && HeldOk(s) && ChannelsOk(s)
  }

  lemma StepKeepsSafe(lim: Limits, s: Server, step: Step)
    requires Safe(lim, s) && CancelsPending(s, step)
    ensures Safe(lim, Do(lim, s, step))
  {
    hide SlotsOk, ActiveOk, CapacityOk, HeldOk, ChannelsOk, SubmitDo, QueueDo, TaskDo, CancelDo, CancelsPending;
    StepKeepsSlots(lim, s, step);
    if IsSubmit(step) {
      SubmitKeepsActive(lim, s, step);
      SubmitKeepsCapacity(lim, s, step);
      SubmitKeepsHeld(lim, s, step);
    } else {
      OtherKeepsCapacity(lim, s, step);
      if IsQueue(step) {
        QueueKeepsActive(lim, s, step);
        QueueKeepsHeld(lim, s, step);
      } else if IsTask(step) {
        TaskKeepsActive(lim, s, step);
        ActiveTasks(s);
        TaskKeepsHeld(lim, s, step);
      } else {
        CancelKeepsActive(lim, s, step);
        CancelKeepsHeld(lim, s, step);
      }
    }
  }

  lemma ActiveTasks(s: Server)
    requires ActiveOk(s)
    ensures TasksOk(s)
  {
  }

  lemma {:induction false} RunKeepsSafe(lim: Limits, s: Server, steps: seq<Step>)
    requires Safe(lim, s) && RunCancelsPending(lim, s, steps)
    ensures Safe(lim, Run(lim, s, steps))
    decreases |steps|
  {
    hide Safe, Do, CancelsPending;
    if steps != [] {
      RunKeepsSafe(lim, s, steps[..|steps| - 1]);
      StepKeepsSafe(lim, Run(lim, s, steps[..|steps| - 1]), steps[|steps| - 1]);
    }
  }

  lemma BootIsSafe(lim: Limits, saved: map<Id, Workorder>, clients: map<Id, Client>, now: int)
    requires forall id :: id in saved ==> Terminal(saved[id].status)
    ensures Safe(lim, Boot(saved, clients, now))
  {
    var s := Boot(saved, clients, now);
    assert Live(s.workorders) == {};
  }

  /** Live workorders, as a caller of the API sees them: registered, one per client, within capacity. */
  ghost predicate OneActivePerClient(s: Server) {
    forall id, id' :: LiveIn(s, id) && LiveIn(s, id') && s.workorders[id].client == s.workorders[id'].client ==> id == id'
  }

  lemma SafeMeansOne(lim: Limits, s: Server)
    requires Safe(lim, s)
    ensures OneActivePerClient(s)
  {
  }

  /**
   From a boot without work in flight, in every run that cancels only pending workorders:
   each live workorder is its client's registered one (or the submission holding the lock is
   about to register it), no client has two, and a positive capacity is never exceeded.
   */
  lemma ActiveTheorem(lim: Limits, saved: map<Id, Workorder>, clients: map<Id, Client>, now: int, steps: seq<Step>)
    requires forall id :: id in saved ==> Terminal(saved[id].status)
    requires RunCancelsPending(lim, Boot(saved, clients, now), steps)
    ensures var s := Run(lim, Boot(saved, clients, now), steps);
            && OwnedOk(s) && OneActivePerClient(s)
            && (lim.maxActive > 0 ==> |Live(s.workorders)| <= lim.maxActive)
  {
    hide SlotsOk, OwnedOk, TasksOk, CancelsOk, OneActivePerClient, Live;
    BootIsSafe(lim, saved, clients, now);
    RunKeepsSafe(lim, Boot(saved, clients, now), steps);
    SafeMeansOne(lim, Run(lim, Boot(saved, clients, now), steps));
  }
}
