/** Eviction of finished workorders: first by age, then down to a cap, oldest first. */
module Evictions {
  import opened Common
  import opened Collections
  import opened StableSorts
  import opened Workorders

  datatype Aged = Aged(id: Id, at: int)

  function At(a: Aged): int {
    a.at
  }

  // ── What a pass must achieve ──────────────────────────────────────

  predicate Stale(w: map<Id, Workorder>, cutoff: int, id: Id) {
    id in w && Terminal(w[id].status) && w[id].updatedAt < cutoff
  }

  function StaleSet(w: map<Id, Workorder>, cutoff: int): set<Id> {
    set id | id in w && Stale(w, cutoff, id)
  }

  /** Removing these ids from w is an eviction pass. */
  ghost predicate Evicts(w: map<Id, Workorder>, cutoff: int, cap: nat, removed: set<Id>) {
    var kept := w - removed;
    && removed <= w.Keys && (forall id :: id in removed ==> Terminal(w[id].status))
    && StaleSet(w, cutoff) <= removed
    && (cap > 0 && |kept| > cap ==> forall id :: id in kept ==> !Terminal(kept[id].status))
    && (removed != StaleSet(w, cutoff) ==> cap > 0 && |kept| >= cap)
    && (forall gone, stays :: gone in removed && !Stale(w, cutoff, gone) && stays in kept && Terminal(w[stays].status) ==>
          w[gone].updatedAt <= w[stays].updatedAt)
  }

  // ── Lists in iteration order ──────────────────────────────────────

  lemma RemovedSize(w: map<Id, Workorder>, gone: set<Id>)
    requires gone <= w.Keys
    ensures |w - gone| == |w| - |gone|
  {
    assert (w - gone).Keys == w.Keys - gone;
    assert |w - gone| == |(w - gone).Keys| && |w| == |w.Keys|;
  }

  ghost predicate TerminalList(w: map<Id, Workorder>, list: seq<Aged>) {
    && (forall i :: 0 <= i < |list| ==> list[i].id in w && Terminal(w[list[i].id].status) && list[i].at == w[list[i].id].updatedAt)
    && (forall i, j :: 0 <= i < j < |list| ==> list[i].id != list[j].id)
    && (forall id :: id in w && Terminal(w[id].status) ==> Aged(id, w[id].updatedAt) in list)
  }

  lemma SortedListIsTerminalList(w: map<Id, Workorder>, list: seq<Aged>)
    requires TerminalList(w, list)
    ensures TerminalList(w, SortBy(At, list)) && Ascending(At, SortBy(At, list))
  {
    hide SortBy;
    var sorted := SortBy(At, list);
    SortedAscends(At, list);
    forall a ensures a in sorted <==> a in list {
      assert (a in sorted <==> a in multiset(sorted)) && (a in list <==> a in multiset(list));
    }
    NoRepeatedIds(list);
    forall i, j | 0 <= i < j < |sorted| ensures sorted[i].id != sorted[j].id {
      assert sorted[i] in sorted && sorted[j] in sorted;
      if sorted[i].id == sorted[j].id {
        assert sorted[i] == sorted[j];
        TwicePresent(sorted, i, j);
      }
    }
    forall i | 0 <= i < |sorted| ensures sorted[i].id in w && Terminal(w[sorted[i].id].status) && sorted[i].at == w[sorted[i].id].updatedAt {
      assert sorted[i] in sorted;
    }
  }

  lemma {:induction false} NoRepeatedIds(list: seq<Aged>)
    requires forall i, j :: 0 <= i < j < |list| ==> list[i].id != list[j].id
    ensures forall a :: multiset(list)[a] <= 1
  {
    if list != [] {
      NoRepeatedIds(list[..|list| - 1]);
      SplitLast(list);
      assert list[|list| - 1] !in list[..|list| - 1];
      assert multiset(list[..|list| - 1])[list[|list| - 1]] == 0;
    }
  }

  lemma TwicePresent(list: seq<Aged>, i: nat, j: nat)
    requires i < j < |list| && list[i] == list[j]
    ensures multiset(list)[list[i]] >= 2
  {
    assert list == list[..j] + [list[j]] + list[j + 1..];
    assert list[..j][i] == list[i] && list[i] in list[..j];
    assert multiset(list[..j])[list[i]] >= 1;
  }

  datatype Rows = Rows(workorders: map<Id, Workorder>, results: map<Id, int>, progress: map<Id, int>, rawOutput: map<Id, int>,
                       stdin: map<Id, int>, containers: map<Id, int>)
  {
    /** The same ids leave every table. */
    ghost function Minus(gone: set<Id>): Rows {
      Rows(workorders - gone, results - gone, progress - gone, rawOutput - gone, stdin - gone, containers - gone)
    }
  }

  lemma MinusRows(r: Rows, gone: set<Id>)
    ensures r.Minus(gone).workorders == r.workorders - gone
  {
  }

  lemma MinusNone(r: Rows, ids: seq<Id>)
    ensures r.Minus(SetOf(ids[..0])) == r
  {
    assert SetOf(ids[..0]) == {};
    assert r.workorders - {} == r.workorders && r.results - {} == r.results && r.progress - {} == r.progress;
    assert r.rawOutput - {} == r.rawOutput && r.stdin - {} == r.stdin && r.containers - {} == r.containers;
  }

  lemma MinusTwice(r: Rows, a: set<Id>, b: set<Id>)
    ensures r.Minus(a).Minus(b) == r.Minus(a + b) && r.Minus(a + b).workorders == r.workorders - (a + b)
  {
    assert (r.workorders - a) - b == r.workorders - (a + b);
    assert (r.results - a) - b == r.results - (a + b);
    assert (r.progress - a) - b == r.progress - (a + b);
    assert (r.rawOutput - a) - b == r.rawOutput - (a + b);
    assert (r.stdin - a) - b == r.stdin - (a + b);
    assert (r.containers - a) - b == r.containers - (a + b);
  }

  // ── The tables ────────────────────────────────────────────────────

  /** The six per-workorder tables; channels, results and containers are handles. */
  class Tables {
    var workorders: map<Id, Workorder>
    var results: map<Id, int>
    var progress: map<Id, int>
    var rawOutput: map<Id, int>
    var stdin: map<Id, int>
    var containers: map<Id, int>
    const walk: set<Id> -> seq<Id>

    constructor (walk: set<Id> -> seq<Id>)
      requires Walks(walk)
      ensures this.walk == walk && workorders == map[] && results == map[] && progress == map[] && rawOutput == map[] && stdin == map[] && containers == map[]
    {
      this.walk := walk;
      workorders, results, progress, rawOutput, stdin, containers := map[], map[], map[], map[], map[], map[];
    }

    ghost function Contents(): Rows
      reads this
    {
      Rows(workorders, results, progress, rawOutput, stdin, containers)
    }

    method DropOne(id: Id)
      modifies this
      ensures Contents() == old(Contents()).Minus({id})
    {
      workorders := workorders - {id};
      results := results - {id};
      progress := progress - {id};
      rawOutput := rawOutput - {id};
      stdin := stdin - {id};
      containers := containers - {id};
    }

    method Drop(ids: seq<Id>)
      modifies this
      ensures Contents() == old(Contents()).Minus(SetOf(ids))
    {
      hide Rows.Minus;
      ghost var before := Contents();
      MinusNone(before, ids);
      var i := 0;
      while i < |ids|
        invariant i <= |ids| && Contents() == before.Minus(SetOf(ids[..i]))
      {
        DropOne(ids[i]);
        MinusTwice(before, SetOf(ids[..i]), {ids[i]});
        assert SetOf(ids[..i + 1]) == SetOf(ids[..i]) + {ids[i]};
        i := i + 1;
      }
      assert ids[..i] == ids;
    }

    method ListStale(cutoff: int) returns (ids: seq<Id>)
      requires Walks(walk)
      ensures Distinct(ids) && SetOf(ids) == StaleSet(workorders, cutoff)
    {
      var all := walk(workorders.Keys);
      assert forall id :: id in all <==> id in workorders.Keys;
      ids := [];
      var i := 0;
      while i < |all|
        invariant i <= |all| && Distinct(ids)
        invariant forall id :: id in ids <==> id in all[..i] && Stale(workorders, cutoff, id)
      {
        if Stale(workorders, cutoff, all[i]) { ids := ids + [all[i]]; }
        i := i + 1;
      }
    }

    method ListTerminal() returns (list: seq<Aged>)
      requires Walks(walk)
      ensures TerminalList(workorders, list)
    {
      var all := walk(workorders.Keys);
      assert forall id :: id in all <==> id in workorders.Keys;
      list := [];
      var i := 0;
      while i < |all|
        invariant i <= |all|
        invariant forall j :: 0 <= j < |list| ==>
                    list[j].id in all[..i] && list[j].id in workorders && Terminal(workorders[list[j].id].status) && list[j].at == workorders[list[j].id].updatedAt
        invariant forall j, k :: 0 <= j < k < |list| ==> list[j].id != list[k].id
        invariant forall id :: id in all[..i] && Terminal(workorders[id].status) ==> Aged(id, workorders[id].updatedAt) in list
      {
        var id := all[i];
        assert id in all && id !in all[..i];
        if Terminal(workorders[id].status) { list := list + [Aged(id, workorders[id].updatedAt)]; }
        i := i + 1;
      }
      assert all[..i] == all;
    }

    /** The ids of the oldest finished workorders, at most `excess` of them. */
    method OldestTerminal(excess: nat) returns (ids: seq<Id>)
      requires Walks(walk)
      ensures Distinct(ids) && Oldest(workorders, excess, ids)
    {
      var list := ListTerminal();
      SortedListIsTerminalList(workorders, list);
      var sorted := SortBy(At, list);
      var n := if excess < |sorted| then excess else |sorted|;
      ids := [];
      var i := 0;
      while i < n
        invariant i <= n && |ids| == i && forall j :: 0 <= j < i ==> ids[j] == sorted[j].id
      {
        ids := ids + [sorted[i].id];
        i := i + 1;
      }
      OldestAreOldest(workorders, excess, sorted, ids);
    }

    method Evict(retentionHours: nat, cap: nat, now: int) returns (evicted: nat, ghost removed: set<Id>)
      requires Walks(walk)
      modifies this
      ensures Contents() == old(Contents()).Minus(removed) && Evicts(old(workorders), now - retentionHours * 3600, cap, removed)
      ensures evicted == |removed| && |workorders| == |old(workorders)| - evicted
    {
      hide Walks, Evicts, Oldest, StaleSet, Rows.Minus;
      ghost var before := Contents();
      var cutoff := now - retentionHours * 3600;
      ghost var w := workorders;
      var stale := ListStale(cutoff);
      Drop(stale);
      MinusRows(before, SetOf(stale));
      DistinctSize(stale);
      evicted, removed := |stale|, SetOf(stale);
      ghost var kept := workorders;
      if cap > 0 && |workorders| > cap {
        var excess := |workorders| - cap;
        var oldest := OldestTerminal(excess);
        Drop(oldest);
        MinusTwice(before, SetOf(stale), SetOf(oldest));
        DistinctSize(oldest);
        evicted := evicted + |oldest|;
        removed := removed + SetOf(oldest);
        CapEnforced(w, cutoff, cap, SetOf(stale), oldest);
      } else {
        StaleOnly(w, cutoff, cap);
      }
      StaleIsPart(w, cutoff);
      EvictedSize(w, cutoff, cap, removed);
    }
  }

  /** The first `excess` finished workorders by age. */
  ghost predicate Oldest(w: map<Id, Workorder>, excess: nat, ids: seq<Id>) {
    && (forall id :: id in ids ==> id in w && Terminal(w[id].status))
    && |ids| <= excess
    && (|ids| < excess ==> forall id :: id in w && Terminal(w[id].status) ==> id in ids)
    && (forall gone, stays :: gone in ids && stays in w && stays !in ids && Terminal(w[stays].status) ==> w[gone].updatedAt <= w[stays].updatedAt)
  }

  lemma OldestAreOldest(w: map<Id, Workorder>, excess: nat, sorted: seq<Aged>, ids: seq<Id>)
    requires TerminalList(w, sorted) && Ascending(At, sorted)
    requires |ids| == Min(excess, |sorted|) && forall j :: 0 <= j < |ids| ==> ids[j] == sorted[j].id
    ensures Oldest(w, excess, ids)
  {
    forall id | id in w && Terminal(w[id].status) ensures exists i :: 0 <= i < |sorted| && sorted[i] == Aged(id, w[id].updatedAt) {
      assert Aged(id, w[id].updatedAt) in sorted;
    }
    forall gone, stays | gone in ids && stays in w && stays !in ids && Terminal(w[stays].status) ensures w[gone].updatedAt <= w[stays].updatedAt {
      var i :| 0 <= i < |ids| && ids[i] == gone;
      var j :| 0 <= j < |sorted| && sorted[j] == Aged(stays, w[stays].updatedAt);
      assert j >= |ids|;
      assert At(sorted[i]) <= At(sorted[j]);
    }
    if |ids| < excess {
      forall id | id in w && Terminal(w[id].status) ensures id in ids {
        var j :| 0 <= j < |sorted| && sorted[j] == Aged(id, w[id].updatedAt);
        assert ids[j] == id;
      }
    }
  }

  lemma StaleIsPart(w: map<Id, Workorder>, cutoff: int)
    ensures StaleSet(w, cutoff) <= w.Keys
  {
  }

  lemma StaleOnly(w: map<Id, Workorder>, cutoff: int, cap: nat)
    requires cap == 0 || |w - StaleSet(w, cutoff)| <= cap
    ensures Evicts(w, cutoff, cap, StaleSet(w, cutoff))
  {
  }

  lemma EvictedSize(w: map<Id, Workorder>, cutoff: int, cap: nat, removed: set<Id>)
    requires Evicts(w, cutoff, cap, removed)
    ensures |w - removed| == |w| - |removed|
  {
    RemovedSize(w, removed);
  }

  lemma CapEnforced(w: map<Id, Workorder>, cutoff: int, cap: nat, stale: set<Id>, oldest: seq<Id>)
    requires stale == StaleSet(w, cutoff) && cap > 0 && |w - stale| > cap && Distinct(oldest)
    requires Oldest(w - stale, |w - stale| - cap, oldest)
    ensures Evicts(w, cutoff, cap, stale + SetOf(oldest)) && stale !! SetOf(oldest)
  {
    var kept := w - stale;
    var gone := SetOf(oldest);
    var removed := stale + gone;
    assert w - removed == kept - gone;
    DistinctSize(oldest);
    assert gone <= kept.Keys;
    RemovedSize(kept, gone);
  }

  /** A second pass with the same cutoff and cap finds nothing to do. */
  lemma SecondPassEvictsNothing(w: map<Id, Workorder>, cutoff: int, cap: nat, removed: set<Id>, again: set<Id>)
    requires Evicts(w, cutoff, cap, removed) && Evicts(w - removed, cutoff, cap, again)
    ensures again == {}
  {
    var kept := w - removed;
    assert StaleSet(kept, cutoff) == {};
    RemovedSize(kept, again);
    assert again == {} || |again| > 0;
  }

  /** Which finished workorders of equal age go may vary, how many go may not. */
  lemma EvictionSizeIsDetermined(w: map<Id, Workorder>, cutoff: int, cap: nat, removed: set<Id>, removed': set<Id>)
    requires Evicts(w, cutoff, cap, removed) && Evicts(w, cutoff, cap, removed')
    ensures |removed| == |removed'|
  {
    RemovedSize(w, removed);
    RemovedSize(w, removed');
    if |removed| < |removed'| { NotFewer(w, cutoff, cap, removed, removed'); }
    if |removed'| < |removed| { NotFewer(w, cutoff, cap, removed', removed); }
  }

  lemma NotFewer(w: map<Id, Workorder>, cutoff: int, cap: nat, fewer: set<Id>, more: set<Id>)
    requires Evicts(w, cutoff, cap, fewer) && Evicts(w, cutoff, cap, more)
    ensures |more| <= |fewer|
  {
    RemovedSize(w, fewer);
    RemovedSize(w, more);
    if more <= fewer { SubsetSize(more, fewer); }
  }

  lemma SubsetSize(a: set<Id>, b: set<Id>)
    requires a <= b
    ensures |a| <= |b|
  {
    assert b == a + (b - a);
  }
}
