/** What a restart does not restore. */
module Restarts {
  import opened Common
  import opened Collections
  import opened Workorders
  import opened Lifecycles
  import opened ClaimSafety
  import opened ActiveSafety
  import opened LifecycleRuns

  /** After a boot every live workorder is registered exactly when nothing was in flight. */
  lemma BootRegistersOnlyIdleServers(saved: map<Id, Workorder>, clients: map<Id, Client>, now: int)
    ensures OwnedOk(Boot(saved, clients, now)) <==> forall id :: id in saved ==> Terminal(saved[id].status)
  {
    var s := Boot(saved, clients, now);
    forall id | id in saved ensures LiveIn(s, id) <==> !Terminal(saved[id].status) {}
    forall c, id ensures !SpokenFor(s, c, id) {}
  }

  /** The first claim of a workorder that was already pending at boot wraps the queue-depth counter. */
  lemma RestartWrapsQueueDepth(lim: Limits, saved: map<Id, Workorder>, clients: map<Id, Client>, now: int, id: Id)
    requires OldestPending(Boot(saved, clients, now).workorders, id)
    ensures Run(lim, Boot(saved, clients, now), [QueuePick(id)] + [QueueClaim(now)] + [QueueCount]).depth == TWO64 - 1
  {
    var s := Boot(saved, clients, now);
    assert [] + [QueuePick(id)] == [QueuePick(id)];
    RunPush(lim, s, [], QueuePick(id));
    RunPush(lim, s, [QueuePick(id)], QueueClaim(now));
    RunPush(lim, s, [QueuePick(id)] + [QueueClaim(now)], QueueCount);
  }
}
