/**
 The server as the object its handlers and tasks share: each method is one section under its
 locks. What holds in all runs is kept by every method without conditions; what holds as long
 as no claimed work is cancelled is kept once it holds.
 */
module WorkorderServers {
  import opened Common
  import opened Collections
  import opened Workorders
  import opened Lifecycles
  import opened ClaimSafety
  import opened ActiveSafety
  import opened Restarts

  lemma StepKeeps(lim: Limits, s: Server, step: Step)
    requires SlotsOk(lim, s) && DepthOk(s)
    ensures SlotsOk(lim, Do(lim, s, step)) && DepthOk(Do(lim, s, step))
    ensures Safe(lim, s) && CancelsPending(s, step) ==> Safe(lim, Do(lim, s, step))
  {
    hide SlotsOk, DepthOk, Safe, Do;
    StepKeepsSlots(lim, s, step);
    StepKeepsDepth(lim, s, step);
    if Safe(lim, s) && CancelsPending(s, step) { StepKeepsSafe(lim, s, step); }
  }

  /** A client without a registered workorder has no live one, unless its submission is inserting it. */
  lemma IdleClientHasNone(lim: Limits, s: Server, c: Id)
    requires Safe(lim, s) && Slot(s.clients, c).None? && !s.submission.Inserted?
    ensures forall id :: LiveIn(s, id) ==> s.workorders[id].client != c
  {
    hide SlotsOk, TasksOk, CancelsOk, HeldOk, ChannelsOk, CapacityOk;
  }

  lemma InsertedIsAlone(lim: Limits, s: Server)
    requires Safe(lim, s) && s.submission.Inserted?
    ensures s.submission.client in s.clients && Slot(s.clients, s.submission.client).None?
    ensures forall x :: LiveIn(s, x) && s.workorders[x].client == s.submission.client ==> x == s.submission.id
  {
    hide SlotsOk, TasksOk, CancelsOk, HeldOk, ChannelsOk, CapacityOk;
  }

  lemma TaskInOrder(lim: Limits, s: Server, id: Id)
    requires Safe(lim, s) && id in s.tasks
    ensures TaskOk(s, id) && (LiveIn(s, id) ==> id in s.channels)
    ensures LiveIn(s, id) ==> SpokenFor(s, s.workorders[id].client, id)
  {
    hide SlotsOk, CancelsOk, HeldOk, CapacityOk;
  }

  lemma BootGuards(lim: Limits, saved: map<Id, Workorder>, known: map<Id, Client>, now: int)
    ensures Safe(lim, Boot(saved, known, now)) <==> forall id :: id in saved ==> Terminal(saved[id].status)
  {
    hide SlotsOk, TasksOk, CancelsOk, HeldOk, ChannelsOk, CapacityOk, Boot;
    BootRegistersOnlyIdleServers(saved, known, now);
    if forall id :: id in saved ==> Terminal(saved[id].status) { BootIsSafe(lim, saved, known, now); }
  }

  class WorkorderServer {
    const limits: Limits
    const walk: set<Id> -> seq<Id>
    var workorders: map<Id, Workorder>
    var clients: map<Id, Client>
    var channels: set<Id>
    var submission: Submission
    var uncounted: nat
    var queue: Queue
    var tasks: map<Id, Task>
    var cancellations: seq<Cancellation>
    var depth: int
    ghost var used: set<Id>
    ghost var claims: seq<Id>
    ghost var finished: set<Id>
    ghost var pendingAtBoot: nat

    ghost function Contents(): Server
      reads this
    {
      Server(workorders, clients, channels, submission, uncounted, queue, tasks, cancellations, depth, used, claims, finished, pendingAtBoot)
    }

    /** Kept in all runs: claims, worker permits and the queue-depth counter. */
    ghost predicate Valid()
      reads this
    {
      Walks(walk) && SlotsOk(limits, Contents()) && DepthOk(Contents())
    }

    /** Kept while no claimed work is cancelled: registration, one per client, capacity. */
    ghost predicate Guarded()
      reads this
    {
      Safe(limits, Contents())
    }

    /** A new server guards its clients if and only if it booted without work in flight. */
    constructor (limits: Limits, walk: set<Id> -> seq<Id>, saved: map<Id, Workorder>, known: map<Id, Client>, now: int)
      requires Walks(walk)
      ensures Valid() && this.limits == limits && this.walk == walk && Contents() == Boot(saved, known, now)
      ensures Guarded() <==> forall id :: id in saved ==> Terminal(saved[id].status)
    {
      this.limits, this.walk := limits, walk;
      var booted := map id | id in saved :: Rebooted(saved[id], now);
      workorders := booted;
      clients := map c | c in known :: known[c].(active := None);
      channels := Live(booted);
      submission, uncounted, queue, tasks, cancellations, depth := NoSubmission, 0, Idle, map[], [], 0;
      used, claims, finished, pendingAtBoot := booted.Keys, [], {}, |PendingIds(booted)|;
      BootCounts(limits, saved, known, now);
      BootGuards(limits, saved, known, now);
    }

    // ── Submission ──────────────────────────────────────────────────

    method CountLive() returns (n: nat)
      requires Valid()
      ensures n == |Live(workorders)|
    {
      var ids := walk(workorders.Keys);
      assert forall id :: id in ids <==> id in workorders.Keys;
      n := 0;
      ghost var seen: set<Id> := {};
      var i := 0;
      while i < |ids|
        invariant i <= |ids| && n == |seen| && forall id :: id in seen <==> id in ids[..i] && !Terminal(workorders[id].status)
      {
        assert ids[i] in ids && ids[i] !in ids[..i];
        if !Terminal(workorders[ids[i]].status) {
          n := n + 1;
          seen := seen + {ids[i]};
        }
        i := i + 1;
      }
      assert ids[..i] == ids;
      assert seen == Live(workorders);
    }

    /** One submission at a time: the lock is never taken from its holder. */
    method Lock(client: Id, role: Role, config: int) returns (locked: bool)
      requires Valid()
      modifies this
      ensures Valid() && (old(Guarded()) ==> Guarded())
      ensures Contents() == Do(limits, old(Contents()), SubmitLock(client, role, config))
      ensures locked <==> old(submission).NoSubmission?
      ensures !locked ==> Contents() == old(Contents())
    {
      hide SlotsOk, DepthOk, Safe;
      StepKeeps(limits, Contents(), SubmitLock(client, role, config));
      locked := submission.NoSubmission?;
      if locked { submission := Locked(client, role, config); }
    }

    /** Admitted if and only if the server has room; refused, the lock is free again. */
    method Admit() returns (admitted: bool)
      requires Valid() && submission.Locked?
      modifies this
      ensures Valid() && (old(Guarded()) ==> Guarded())
      ensures Contents() == Do(limits, old(Contents()), SubmitAdmit)
      ensures admitted <==> limits.maxActive == 0 || |Live(workorders)| < limits.maxActive
      ensures if admitted then submission.Admitted? else submission.NoSubmission?
    {
      hide SlotsOk, DepthOk, Safe;
      StepKeeps(limits, Contents(), SubmitAdmit);
      if limits.maxActive > 0 {
        var active := CountLive();
        if active >= limits.maxActive {
          submission := NoSubmission;
          return false;
        }
      }
      submission := Admitted(submission.client, submission.role, submission.config);
      return true;
    }

    /**
     Refused if and only if the client has a registered workorder or follows without the main
     client's configuration; a client that registers has no live workorder.
     */
    method RegisterClient() returns (registered: bool)
      requires Valid() && submission.Admitted?
      modifies this
      ensures Valid() && (old(Guarded()) ==> Guarded())
      ensures Contents() == Do(limits, old(Contents()), SubmitRegister)
      ensures var sub := old(submission);
              registered <==> Slot(old(clients), sub.client).None? && (sub.role.Main? || (sub.client in old(clients) && old(clients)[sub.client].config == sub.config))
      ensures registered ==> old(submission).client in clients && clients[old(submission).client] == Client(old(submission).config, None)
      ensures registered && old(Guarded()) ==> forall id :: LiveIn(Contents(), id) ==> workorders[id].client != old(submission).client
      ensures !registered ==> clients == old(clients) && submission.NoSubmission?
    {
      hide SlotsOk, DepthOk, Safe;
      StepKeeps(limits, Contents(), SubmitRegister);
      var c := submission.client;
      if c in clients && clients[c].active.Some? {
        submission := NoSubmission;
        return false;
      } else if submission.role.Main? {
        clients := clients[c := Client(submission.config, None)];
        submission := Registered(c);
      } else if c in clients && clients[c].config == submission.config {
        submission := Registered(c);
      } else {
        submission := NoSubmission;
        return false;
      }
      if Guarded() { IdleClientHasNone(limits, Contents(), c); }
      return true;
    }

    /** A fresh identifier gets its channels; nothing of that name exists anywhere. */
    method Open(id: Id)
      requires Valid() && submission.Registered? && id !in used
      modifies this
      ensures Valid() && (old(Guarded()) ==> Guarded())
      ensures Contents() == Do(limits, old(Contents()), SubmitOpen(id))
      ensures id in channels && id !in workorders && id !in tasks && id !in claims && id !in finished
    {
      hide DepthOk, Safe;
      StepKeeps(limits, Contents(), SubmitOpen(id));
      submission := Opened(submission.client, id);
      channels := channels + {id};
      used := used + {id};
    }

    /** The new workorder is pending and, with the clients guarded, its client's only live one and within capacity. */
    method Insert(now: int)
      requires Valid() && submission.Opened?
      modifies this
      ensures Valid() && (old(Guarded()) ==> Guarded())
      ensures Contents() == Do(limits, old(Contents()), SubmitInsert(now))
      ensures submission.Inserted? && submission.id in workorders && submission.id !in old(workorders) && workorders[submission.id].status.Pending?
      ensures old(Guarded()) ==> forall x :: LiveIn(Contents(), x) && workorders[x].client == submission.client ==> x == submission.id
      ensures old(Guarded()) && limits.maxActive > 0 ==> |Live(workorders)| <= limits.maxActive
    {
      hide DepthOk, Safe, PlacesOk;
      StepKeeps(limits, Contents(), SubmitInsert(now));
      workorders := workorders[submission.id := Workorder(submission.client, Pending, now, now)];
      submission := Inserted(submission.client, submission.id);
      if Guarded() {
        InsertedIsAlone(limits, Contents());
        WithinCapacity(limits, Contents());
      }
    }

    /** With the clients guarded, the slot was empty and now names the client's only workorder. */
    method Activate()
      requires Valid() && submission.Inserted?
      modifies this
      ensures Valid() && (old(Guarded()) ==> Guarded())
      ensures Contents() == Do(limits, old(Contents()), SubmitActivate)
      ensures old(Guarded()) ==> Slot(old(clients), old(submission).client).None? && Slot(clients, old(submission).client) == Some(old(submission).id)
      ensures old(Guarded()) ==> forall x :: LiveIn(Contents(), x) && workorders[x].client == old(submission).client ==> x == old(submission).id
      ensures forall c :: c != old(submission).client ==> Slot(clients, c) == Slot(old(clients), c)
    {
      hide SlotsOk, DepthOk, Safe;
      if Guarded() { InsertedIsAlone(limits, Contents()); }
      StepKeeps(limits, Contents(), SubmitActivate);
      var c := submission.client;
      if c in clients { clients := clients[c := clients[c].(active := Some(submission.id))]; }
      submission := NoSubmission;
      uncounted := uncounted + 1;
    }

    method CountSubmission()
      requires Valid() && uncounted > 0
      modifies this
      ensures Valid() && (old(Guarded()) ==> Guarded())
      ensures Contents() == Do(limits, old(Contents()), SubmitCount)
    {
      hide SlotsOk, DepthOk, Safe;
      StepKeeps(limits, Contents(), SubmitCount);
      uncounted := uncounted - 1;
      depth := (depth + 1) % TWO64;
    }

    // ── Queue loop ──────────────────────────────────────────────────

    /** The pending workorder that was created first, if any is pending. */
    method FindOldest() returns (found: Option<Id>)
      requires Valid()
      ensures found.None? ==> forall id :: id in workorders ==> !workorders[id].status.Pending?
      ensures found.Some? ==> OldestPending(workorders, found.value)
    {
      var ids := walk(workorders.Keys);
      assert forall id :: id in ids <==> id in workorders.Keys;
      found := None;
      var i := 0;
      while i < |ids|
        invariant i <= |ids|
        invariant found.None? ==> forall id :: id in ids[..i] ==> !workorders[id].status.Pending?
        invariant found.Some? ==> found.value in workorders && workorders[found.value].status.Pending?
        invariant found.Some? ==> forall id :: id in ids[..i] && workorders[id].status.Pending? ==> workorders[found.value].createdAt <= workorders[id].createdAt
      {
        var id := ids[i];
        assert id in ids;
        if workorders[id].status.Pending? && (found.None? || workorders[id].createdAt < workorders[found.value].createdAt) { found := Some(id); }
        i := i + 1;
      }
      assert ids[..i] == ids;
    }

    /** Picks a pending workorder none is older than, if any is pending. */
    method Pick() returns (picked: bool)
      requires Valid() && queue.Idle?
      modifies this
      ensures Valid() && (old(Guarded()) ==> Guarded())
      ensures picked <==> exists x :: x in workorders && workorders[x].status.Pending?
      ensures picked ==> queue.Picked? && OldestPending(workorders, queue.id) && Contents() == Do(limits, old(Contents()), QueuePick(queue.id))
      ensures !picked ==> Contents() == old(Contents())
    {
      hide SlotsOk, DepthOk, Safe;
      var oldest := FindOldest();
      picked := oldest.Some?;
      if oldest.Some? {
        StepKeeps(limits, Contents(), QueuePick(oldest.value));
        queue := Picked(oldest.value, workorders[oldest.value].client);
      }
    }

    /** Claims what is still pending, and nothing twice. */
    method Claim(now: int) returns (claimed: bool)
      requires Valid() && queue.Picked?
      modifies this
      ensures Valid() && (old(Guarded()) ==> Guarded())
      ensures Contents() == Do(limits, old(Contents()), QueueClaim(now))
      ensures claimed <==> old(queue).id in old(workorders) && old(workorders)[old(queue).id].status.Pending?
      ensures claimed ==> old(queue).id !in old(claims) && Holds(queue, old(queue).id)
      ensures Distinct(claims)
    {
      hide DepthOk, Safe, PlacesOk;
      StepKeeps(limits, Contents(), QueueClaim(now));
      var id := queue.id;
      if id in workorders && workorders[id].status.Pending? {
        workorders := workorders[id := workorders[id].(status := Provisioning, updatedAt := now)];
        queue := Claimed(id, queue.client);
        claims := claims + [id];
        return true;
      }
      queue := Idle;
      return false;
    }

    method CountClaim()
      requires Valid() && queue.Claimed?
      modifies this
      ensures Valid() && (old(Guarded()) ==> Guarded())
      ensures Contents() == Do(limits, old(Contents()), QueueCount)
    {
      hide SlotsOk, DepthOk, Safe;
      StepKeeps(limits, Contents(), QueueCount);
      queue := Waiting(queue.id, queue.client);
      depth := (depth - 1) % TWO64;
    }

    /** A task starts if and only if a permit is free; its workorder never had a task before. */
    method Spawn() returns (spawned: bool)
      requires Valid() && queue.Waiting?
      modifies this
      ensures Valid() && (old(Guarded()) ==> Guarded())
      ensures Contents() == Do(limits, old(Contents()), QueueSpawn)
      ensures spawned <==> |old(tasks)| < limits.maxWorkers
      ensures spawned ==> TaskAt(Contents(), old(queue).id, Starting) && old(queue).id !in old(tasks) && old(queue).id !in finished
      ensures |tasks| <= limits.maxWorkers
    {
      hide DepthOk, Safe, ClaimsOk;
      StepKeeps(limits, Contents(), QueueSpawn);
      spawned := |tasks| < limits.maxWorkers;
      if spawned {
        tasks := tasks[queue.id := Task(queue.client, Starting)];
        queue := Idle;
      }
    }

    // ── Tasks ───────────────────────────────────────────────────────

    method ChangeStatus(id: Id, status: Status, now: int)
      modifies this`workorders
      ensures workorders == SetStatus(old(workorders), id, status, now)
    {
      if id in workorders { workorders := workorders[id := workorders[id].(status := status, updatedAt := now)]; }
    }

    method ClearActive(client: Id)
      modifies this`clients
      ensures clients == SetSlot(old(clients), client, None)
    {
      if client in clients { clients := clients[client := clients[client].(active := None)]; }
    }

    /** With the clients guarded, a task always finds its channels. */
    method LookUp(id: Id) returns (found: bool)
      requires Valid() && TaskAt(Contents(), id, Starting)
      modifies this
      ensures Valid() && (old(Guarded()) ==> Guarded())
      ensures Contents() == Do(limits, old(Contents()), TaskLookup(id))
      ensures found <==> TaskAt(Contents(), id, Preparing)
      ensures old(Guarded()) ==> found
    {
      hide SlotsOk, DepthOk, Safe;
      if Guarded() { TaskInOrder(limits, Contents(), id); }
      StepKeeps(limits, Contents(), TaskLookup(id));
      found := id in channels;
      tasks := tasks[id := tasks[id].(phase := if found then Preparing else Returned)];
    }

    method Refuse(id: Id, reason: string, now: int)
      requires Valid() && TaskAt(Contents(), id, Preparing)
      modifies this
      ensures Valid() && (old(Guarded()) ==> Guarded())
      ensures Contents() == Do(limits, old(Contents()), TaskRefuse(id, reason, now))
      ensures !LiveIn(Contents(), id)
    {
      hide SlotsOk, DepthOk, Safe;
      StepKeeps(limits, Contents(), TaskRefuse(id, reason, now));
      ChangeStatus(id, Failed(reason), now);
      tasks := tasks[id := tasks[id].(phase := Ending)];
    }

    /** With the clients guarded, only work that is still live and its client's registered one is built. */
    method StartBuilding(id: Id, now: int)
      requires Valid() && TaskAt(Contents(), id, Preparing)
      modifies this
      ensures Valid() && (old(Guarded()) ==> Guarded())
      ensures Contents() == Do(limits, old(Contents()), TaskBuild(id, now))
      ensures old(Guarded()) ==> LiveIn(old(Contents()), id) && LiveIn(Contents(), id) && SpokenFor(Contents(), tasks[id].client, id)
    {
      hide SlotsOk, DepthOk, Safe;
      if Guarded() { TaskInOrder(limits, Contents(), id); }
      StepKeeps(limits, Contents(), TaskBuild(id, now));
      ChangeStatus(id, Building, now);
      tasks := tasks[id := tasks[id].(phase := Running)];
    }

    method EndBuild(id: Id, failure: Option<string>, now: int)
      requires Valid() && TaskAt(Contents(), id, Running)
      modifies this
      ensures Valid() && (old(Guarded()) ==> Guarded())
      ensures Contents() == Do(limits, old(Contents()), TaskEnd(id, failure, now))
      ensures !LiveIn(Contents(), id) && forall x :: x != id ==> (LiveIn(Contents(), x) <==> LiveIn(old(Contents()), x))
    {
      hide SlotsOk, DepthOk, Safe;
      StepKeeps(limits, Contents(), TaskEnd(id, failure, now));
      ChangeStatus(id, if failure.None? then Completed else Failed(failure.value), now);
      tasks := tasks[id := tasks[id].(phase := Ending)];
    }

    /** Only a finished workorder loses its channels. */
    method CloseChannels(id: Id)
      requires Valid() && TaskAt(Contents(), id, Ending)
      modifies this
      ensures Valid() && (old(Guarded()) ==> Guarded())
      ensures Contents() == Do(limits, old(Contents()), TaskClose(id))
      ensures id !in channels && (old(Guarded()) ==> forall x :: LiveIn(Contents(), x) ==> x in channels)
    {
      hide SlotsOk, DepthOk, Safe;
      StepKeeps(limits, Contents(), TaskClose(id));
      channels := channels - {id};
      tasks := tasks[id := tasks[id].(phase := Clearing)];
      if Guarded() { LiveHasChannels(limits, Contents()); }
    }

    /** The client's slot is emptied; with the clients guarded, it never named another workorder. */
    method Release(id: Id)
      requires Valid() && TaskAt(Contents(), id, Clearing)
      modifies this
      ensures Valid() && (old(Guarded()) ==> Guarded())
      ensures Contents() == Do(limits, old(Contents()), TaskClear(id))
      ensures Slot(clients, old(tasks)[id].client).None?
      ensures old(Guarded()) ==> forall c, x :: Slot(old(clients), c) == Some(x) && x != id ==> Slot(clients, c) == Some(x)
    {
      hide SlotsOk, DepthOk, Safe, LiveIn;
      if Guarded() { EndingSlot(limits, Contents(), id); }
      StepKeeps(limits, Contents(), TaskClear(id));
      ClearActive(tasks[id].client);
      tasks := tasks[id := tasks[id].(phase := Returned)];
    }

    /** A returning task frees a permit, and its workorder is finished for good. */
    method Return(id: Id)
      requires Valid() && TaskAt(Contents(), id, Returned)
      modifies this
      ensures Valid() && (old(Guarded()) ==> Guarded())
      ensures Contents() == Do(limits, old(Contents()), TaskReturn(id))
      ensures |tasks| < limits.maxWorkers && id in claims && id !in old(finished)
    {
      hide DepthOk, Safe, SlotsOk;
      TaskPlace(limits, Contents(), id);
      StepKeeps(limits, Contents(), TaskReturn(id));
      tasks := tasks - {id};
      finished := finished + {id};
    }

    // ── Cancellation and eviction ───────────────────────────────────

    /** Ends any live workorder; the clients stay guarded when it was pending. */
    method CancelWorkorder(id: Id) returns (cancelled: bool)
      requires Valid()
      modifies this
      ensures Valid()
      ensures Contents() == Do(limits, old(Contents()), Cancel(id))
      ensures cancelled <==> LiveIn(old(Contents()), id)
      ensures !LiveIn(Contents(), id)
      ensures old(Guarded()) && (cancelled ==> old(workorders)[id].status.Pending?) ==> Guarded()
    {
      hide SlotsOk, DepthOk, Safe;
      StepKeeps(limits, Contents(), Cancel(id));
      if id !in workorders || Terminal(workorders[id].status) { return false; }
      var o := workorders[id];
      workorders := workorders[id := o.(status := Cancelled)];
      cancellations := cancellations + [Cancellation(id, o.client, o.status.Pending?, false)];
      return true;
    }

    /** With the clients guarded, a cancellation never empties another workorder's slot. */
    method ClearCancelled(i: nat)
      requires Valid() && i < |cancellations| && !cancellations[i].cleared
      modifies this
      ensures Valid() && (old(Guarded()) ==> Guarded())
      ensures Contents() == Do(limits, old(Contents()), CancelClear(i))
      ensures old(Guarded()) ==> forall c, x :: Slot(old(clients), c) == Some(x) && x != old(cancellations)[i].id ==> Slot(clients, c) == Some(x)
    {
      hide SlotsOk, DepthOk, Safe, LiveIn;
      if Guarded() { CancelledSlot(limits, Contents(), i); }
      StepKeeps(limits, Contents(), CancelClear(i));
      ClearActive(cancellations[i].client);
      cancellations := cancellations[i := cancellations[i].(cleared := true)];
    }

    method CountCancelled(i: nat)
      requires Valid() && i < |cancellations| && cancellations[i].cleared
      modifies this
      ensures Valid() && (old(Guarded()) ==> Guarded())
      ensures Contents() == Do(limits, old(Contents()), CancelCount(i))
    {
      hide SlotsOk, DepthOk, Safe;
      StepKeeps(limits, Contents(), CancelCount(i));
      if cancellations[i].wasPending { depth := (depth - 1) % TWO64; }
      cancellations := Without(cancellations, i);
    }

    /** Eviction loses no live workorder and no live channel. */
    method EvictFinished(ids: set<Id>)
      requires Valid() && ids <= workorders.Keys && forall id :: id in ids ==> Terminal(workorders[id].status)
      modifies this
      ensures Valid() && (old(Guarded()) ==> Guarded())
      ensures Contents() == Do(limits, old(Contents()), Evict(ids))
      ensures Live(workorders) == Live(old(workorders)) && (forall id :: id in Live(workorders) && id in old(channels) ==> id in channels)
    {
      hide SlotsOk, DepthOk, Safe;
      StepKeeps(limits, Contents(), Evict(ids));
      workorders := workorders - ids;
      channels := channels - ids;
    }
  }

  lemma WithinCapacity(lim: Limits, s: Server)
    requires Safe(lim, s)
    ensures lim.maxActive > 0 ==> |Live(s.workorders)| <= lim.maxActive
  {
    hide SlotsOk, ActiveOk, HeldOk, ChannelsOk, Live;
  }

  lemma LiveHasChannels(lim: Limits, s: Server)
    requires Safe(lim, s)
    ensures forall x :: LiveIn(s, x) ==> x in s.channels
  {
    hide SlotsOk, ActiveOk, HeldOk, CapacityOk;
  }

  lemma TaskPlace(lim: Limits, s: Server, id: Id)
    requires SlotsOk(lim, s) && id in s.tasks
    ensures |s.tasks - {id}| < lim.maxWorkers && id in s.claims && id !in s.finished
  {
    hide ClaimsOk;
    var rest := s.tasks - {id};
    assert |s.tasks| == |s.tasks.Keys| && |rest| == |rest.Keys| && rest.Keys == s.tasks.Keys - {id};
  }

  /** The slot a task is about to empty names its own workorder or none. */
  lemma EndingSlot(lim: Limits, s: Server, id: Id)
    requires Safe(lim, s) && TaskAt(s, id, Clearing)
    ensures forall x :: Slot(s.clients, s.tasks[id].client) == Some(x) ==> x == id
  {
    hide SlotsOk, OwnedOk, CancelsOk, HeldOk, ChannelsOk, CapacityOk;
    assert TaskOk(s, id);
  }

  lemma CancelledSlot(lim: Limits, s: Server, i: nat)
    requires Safe(lim, s) && i < |s.cancellations| && !s.cancellations[i].cleared
    ensures forall x :: Slot(s.clients, s.cancellations[i].client) == Some(x) ==> x == s.cancellations[i].id
  {
    hide SlotsOk, OwnedOk, TasksOk, HeldOk, ChannelsOk, CapacityOk;
    assert CancelOk(s, s.cancellations[i]);
  }
}
