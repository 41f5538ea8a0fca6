/** Running the sync queue: `add` and `process` on the stored jobs. */
module SyncQueue {
  import opened Wrappers
  import opened SyncJobs

  /** A call of `add` reads the pending jobs, or one of the calls that have read inserts. */
  datatype AddStep = Begin(call: AddCall) | End(n: nat)

  /** What happens around one job: whether an interrupt is found before it, which steps of calls of
      `add` are taken while it runs, whether its data insertion throws, and whether an interrupt is
      found after it. */
  datatype Round = Round(isInterruptedBefore: bool, adds: seq<AddStep>, throws: bool, isInterruptedAfter: bool)

  /** How the loop ends: nothing is left, ten jobs are done, an interrupt is found before or after a
      job, or a job throws. */
  datatype Exit = Drained | Capped | StoppedBefore | StoppedAfter | Thrown

  const MAX_JOBS: nat := 10
  const KEPT_FINISHED: nat := 100

  function UpdatedAt(updatedAt: map<nat, nat>, j: Job): nat { if j.id in updatedAt then updatedAt[j.id] else 0 }

  /** `a` was updated after `b`. */
  predicate IsNewer(updatedAt: map<nat, nat>, a: Job, b: Job)
  {
    var p, q := UpdatedAt(updatedAt, a), UpdatedAt(updatedAt, b);
    p > q || (p == q && a.id > b.id)
  }

  function CountNewer(jobs: seq<Job>, updatedAt: map<nat, nat>, b: Job): nat
  {
    if jobs == [] then 0
    else (if jobs[0].state == Finished && IsNewer(updatedAt, jobs[0], b) then 1 else 0)
         + CountNewer(jobs[1..], updatedAt, b)
  }

  predicate IsKept(all: seq<Job>, updatedAt: map<nat, nat>, j: Job)
  {
    j.state == Finished ==> CountNewer(all, updatedAt, j) < KEPT_FINISHED
  }

  /** The finished jobs are removed, but for the last hundred. */
  function Cleaned(all: seq<Job>, updatedAt: map<nat, nat>, jobs: seq<Job>): (r: seq<Job>)
    ensures forall j :: j in r <==> j in jobs && IsKept(all, updatedAt, j)
  {
    if jobs == [] then []
    else
      assert jobs == [jobs[0]] + jobs[1..];
      (if IsKept(all, updatedAt, jobs[0]) then [jobs[0]] else []) + Cleaned(all, updatedAt, jobs[1..])
  }

  function CountFinished(jobs: seq<Job>): nat
  {
    if jobs == [] then 0 else (if jobs[0].state == Finished then 1 else 0) + CountFinished(jobs[1..])
  }

  /** No more than a hundred finished jobs stay, and they are the ones updated last. */
  lemma CleanedLeavesTheLast(jobs: seq<Job>, updatedAt: map<nat, nat>, nextId: nat)
    requires IsQueue(jobs, nextId)
    ensures CountFinished(Cleaned(jobs, updatedAt, jobs)) <= KEPT_FINISHED
    ensures var r := Cleaned(jobs, updatedAt, jobs);
            forall a, b :: a in r && a.state == Finished && b in jobs && b !in r ==> IsNewer(updatedAt, a, b)
  {
    hide CountNewer, IsNewer, CountFinished, IsQueue;
    var r := Cleaned(jobs, updatedAt, jobs);
    CleanedIsQueue(jobs, updatedAt, jobs, nextId);
    if CountFinished(r) > 0 {
      var m := OldestFinished(r, updatedAt, nextId);
      NewerThanOldest(r, updatedAt, m, nextId);
      CleanedCountsLess(jobs, updatedAt, jobs, m);
    }
    forall a, b | a in r && a.state == Finished && b in jobs && b !in r ensures IsNewer(updatedAt, a, b) {
      if !IsNewer(updatedAt, a, b) {
        DistinctAreOrdered(jobs, updatedAt, nextId, a, b);
        NewerThanNewer(jobs, updatedAt, b, a);
      }
    }
  }

  /** And no more go than have to: all jobs stay, or exactly a hundred finished ones. */
  lemma CleanedLeavesAHundred(jobs: seq<Job>, updatedAt: map<nat, nat>, nextId: nat)
    requires IsQueue(jobs, nextId)
    ensures var r := Cleaned(jobs, updatedAt, jobs); r == jobs || CountFinished(r) == KEPT_FINISHED
  {
    hide CountNewer, IsNewer, CountFinished, IsQueue, Cleaned;
    CleanedLeavesTheLast(jobs, updatedAt, nextId);
    var b := NewestGone(jobs, updatedAt, jobs, nextId);
    if b.Some? {
      forall j <- jobs ensures IsNewer(updatedAt, j, b.value) ==> IsKept(jobs, updatedAt, j) {
        NewerIsOneWay(updatedAt, j, b.value);
      }
      NewerAreCounted(jobs, updatedAt, jobs, b.value);
    } else {
      AllAreKept(jobs, updatedAt, jobs);
    }
  }

  lemma NewerIsOneWay(updatedAt: map<nat, nat>, a: Job, b: Job)
    ensures IsNewer(updatedAt, a, b) ==> a != b && !IsNewer(updatedAt, b, a)
  {
  }

  /** The newest of the jobs that go, if any does. */
  lemma {:induction false} NewestGone(all: seq<Job>, updatedAt: map<nat, nat>, jobs: seq<Job>, nextId: nat)
      returns (b: Option<Job>)
    requires IsQueue(jobs, nextId)
    ensures b.None? ==> forall j <- jobs :: IsKept(all, updatedAt, j)
    ensures b.Some? ==>
              && b.value in jobs && !IsKept(all, updatedAt, b.value)
              && forall j <- jobs :: !IsKept(all, updatedAt, j) && j != b.value ==> IsNewer(updatedAt, b.value, j)
    decreases |jobs|
  {
    hide IsKept, IsQueue;
    b := None;
    QueueTail(jobs, nextId);
    if jobs != [] {
      assert jobs == [jobs[0]] + jobs[1..];
      b := NewestGone(all, updatedAt, jobs[1..], nextId);
      if !IsKept(all, updatedAt, jobs[0]) {
        if b.None? {
          b := Some(jobs[0]);
        } else if b.value != jobs[0] {
          DistinctAreOrdered(jobs, updatedAt, nextId, jobs[0], b.value);
          if IsNewer(updatedAt, jobs[0], b.value) { b := Some(jobs[0]); }
        }
      }
    }
  }

  lemma {:induction false} NewerAreCounted(all: seq<Job>, updatedAt: map<nat, nat>, jobs: seq<Job>, b: Job)
    requires forall j <- jobs :: IsNewer(updatedAt, j, b) ==> IsKept(all, updatedAt, j)
    ensures CountNewer(jobs, updatedAt, b) <= CountFinished(Cleaned(all, updatedAt, jobs))
    decreases |jobs|
  {
    hide IsKept, IsNewer;
    if jobs != [] {
      assert jobs == [jobs[0]] + jobs[1..];
      NewerAreCounted(all, updatedAt, jobs[1..], b);
      var rest := Cleaned(all, updatedAt, jobs[1..]);
      assert [] + rest == rest && ([jobs[0]] + rest)[0] == jobs[0] && ([jobs[0]] + rest)[1..] == rest;
    }
  }

  lemma {:induction false} AllAreKept(all: seq<Job>, updatedAt: map<nat, nat>, jobs: seq<Job>)
    requires forall j <- jobs :: IsKept(all, updatedAt, j)
    ensures Cleaned(all, updatedAt, jobs) == jobs
    decreases |jobs|
  {
    hide IsKept;
    if jobs != [] {
      assert jobs == [jobs[0]] + jobs[1..];
      assert jobs[0] in jobs;
      AllAreKept(all, updatedAt, jobs[1..]);
    }
  }

  lemma DistinctAreOrdered(jobs: seq<Job>, updatedAt: map<nat, nat>, nextId: nat, a: Job, b: Job)
    requires IsQueue(jobs, nextId) && a in jobs && b in jobs && a != b
    ensures IsNewer(updatedAt, a, b) || IsNewer(updatedAt, b, a)
  {
    var i :| 0 <= i < |jobs| && jobs[i] == a;
    var k :| 0 <= k < |jobs| && jobs[k] == b;
    assert jobs[i].id != jobs[k].id;
  }

  lemma {:induction false} NewerThanNewer(jobs: seq<Job>, updatedAt: map<nat, nat>, b: Job, a: Job)
    requires IsNewer(updatedAt, b, a)
    ensures CountNewer(jobs, updatedAt, b) <= CountNewer(jobs, updatedAt, a)
  {
    if jobs != [] { NewerThanNewer(jobs[1..], updatedAt, b, a); }
  }

  lemma {:induction false} OldestFinished(jobs: seq<Job>, updatedAt: map<nat, nat>, nextId: nat) returns (m: Job)
    requires IsQueue(jobs, nextId) && CountFinished(jobs) > 0
    ensures m in jobs && m.state == Finished
    ensures forall j :: j in jobs && j.state == Finished && j != m ==> IsNewer(updatedAt, j, m)
  {
    assert jobs == [jobs[0]] + jobs[1..];
    if CountFinished(jobs[1..]) == 0 {
      m := jobs[0];
      NoneFinished(jobs[1..]);
    } else {
      m := OldestFinished(jobs[1..], updatedAt, nextId);
      if jobs[0].state == Finished && !IsNewer(updatedAt, jobs[0], m) {
        HeadIsBefore(jobs, nextId, m);
        m := jobs[0];
      }
    }
  }

  lemma {:induction false} NoneFinished(jobs: seq<Job>)
    requires CountFinished(jobs) == 0
    ensures forall j :: j in jobs ==> j.state != Finished
  {
    if jobs != [] {
      assert jobs == [jobs[0]] + jobs[1..];
      NoneFinished(jobs[1..]);
    }
  }

  lemma {:induction false} NewerThanOldest(jobs: seq<Job>, updatedAt: map<nat, nat>, m: Job, nextId: nat)
    requires IsQueue(jobs, nextId)
    requires forall j :: j in jobs && j.state == Finished && j != m ==> IsNewer(updatedAt, j, m)
    ensures CountFinished(jobs) <= CountNewer(jobs, updatedAt, m) + (if m in jobs then 1 else 0)
  {
    hide IsNewer;
    if jobs != [] {
      assert jobs == [jobs[0]] + jobs[1..];
      NewerThanOldest(jobs[1..], updatedAt, m, nextId);
      HeadIsNotInTail(jobs, nextId);
    }
  }

  lemma HeadIsNotInTail(jobs: seq<Job>, nextId: nat)
    requires IsQueue(jobs, nextId) && jobs != []
    ensures jobs[0] !in jobs[1..]
  {
    forall i | 0 <= i < |jobs[1..]| ensures jobs[1..][i] != jobs[0] { assert jobs[0].id < jobs[i + 1].id; }
  }

  lemma {:induction false} CleanedCountsLess(all: seq<Job>, updatedAt: map<nat, nat>, jobs: seq<Job>, m: Job)
    ensures CountNewer(Cleaned(all, updatedAt, jobs), updatedAt, m) <= CountNewer(jobs, updatedAt, m)
  {
    hide IsNewer, IsKept;
    if jobs != [] {
      CleanedCountsLess(all, updatedAt, jobs[1..], m);
      var rest := Cleaned(all, updatedAt, jobs[1..]);
      assert [] + rest == rest && ([jobs[0]] + rest)[0] == jobs[0] && ([jobs[0]] + rest)[1..] == rest;
    }
  }

  lemma {:induction false} CleanedIsQueue(all: seq<Job>, updatedAt: map<nat, nat>, jobs: seq<Job>, nextId: nat)
    requires IsQueue(jobs, nextId)
    ensures IsQueue(Cleaned(all, updatedAt, jobs), nextId)
  {
    hide IsKept, IsQueue;
    QueueTail(jobs, nextId);
    if jobs != [] {
      CleanedIsQueue(all, updatedAt, jobs[1..], nextId);
      QueueHead(jobs, nextId, Cleaned(all, updatedAt, jobs[1..]));
    }
  }

  lemma QueueTail(jobs: seq<Job>, nextId: nat)
    requires IsQueue(jobs, nextId)
    ensures IsQueue([], nextId) && (jobs != [] ==> jobs[0].id < nextId && IsQueue(jobs[1..], nextId))
  {
  }

  lemma QueueHead(jobs: seq<Job>, nextId: nat, rest: seq<Job>)
    requires IsQueue(jobs, nextId) && IsQueue(rest, nextId) && jobs != [] && forall j :: j in rest ==> j in jobs[1..]
    ensures IsQueue([jobs[0]] + rest, nextId) && [] + rest == rest
  {
    hide IsQueue;
    QueueTail(jobs, nextId);
    forall k | 0 <= k < |rest| ensures jobs[0].id < rest[k].id {
      assert rest[k] in rest;
      HeadIsBefore(jobs, nextId, rest[k]);
    }
    QueueOfBoth(jobs[0], rest, nextId);
  }

  lemma HeadIsBefore(jobs: seq<Job>, nextId: nat, j: Job)
    requires IsQueue(jobs, nextId) && jobs != [] && j in jobs[1..]
    ensures jobs[0].id < j.id < nextId
  {
    var k :| 0 <= k < |jobs[1..]| && jobs[1..][k] == j;
    assert jobs[k + 1] == j;
  }

  lemma QueueOfBoth(j: Job, rest: seq<Job>, nextId: nat)
    requires IsQueue(rest, nextId) && j.id < nextId && forall k :: 0 <= k < |rest| ==> j.id < rest[k].id
    ensures IsQueue([j] + rest, nextId)
  {
  }

  // ----- What holds during a run

  predicate IsAscending(at: seq<nat>) { forall i, j :: 0 <= i < j < |at| ==> at[i] < at[j] }

  predicate IsBelow(at: seq<nat>, n: nat) { forall i :: 0 <= i < |at| ==> at[i] < n }

  /** `start` has become `jobs`: the places in `at` have been picked, in ascending order and up to
      `frontier`; every other job has the state it had, or is new. */
  predicate RunInv(start: seq<Job>, jobs: seq<Job>, at: seq<nat>, frontier: nat)
  {
    && |start| <= |jobs| && frontier <= |jobs|
    && (forall k :: 0 <= k < |start| ==> jobs[k].(state := New) == start[k].(state := New))
    && IsAscending(at) && IsBelow(at, frontier)
    && (forall k :: 0 <= k < |start| && k !in at ==> jobs[k].state == start[k].state)
    && (forall k :: |start| <= k < |jobs| && k !in at ==> jobs[k].state == New)
  }

  /** Nothing before the frontier is left to pick. */
  predicate IsBehind(jobs: seq<Job>, owner: Option<int>, frontier: nat)
  {
    frontier <= |jobs| && forall k :: 0 <= k < frontier ==> !IsCandidate(jobs[k], owner, false)
  }

  lemma PickKeepsRun(start: seq<Job>, jobs: seq<Job>, at: seq<nat>, frontier: nat, n: nat, after: seq<Job>)
    requires RunInv(start, jobs, at, frontier) && frontier <= n < |jobs| <= |after|
    requires IsPickedTo(jobs, n, after, after[n].state)
    ensures RunInv(start, after, at + [n], n + 1)
  {
    forall k | k in at + [n] ensures k in at || k == n {}
    assert (at + [n])[|at|] == n;
    forall k | 0 <= k < |after| && k !in at + [n] ensures k !in at && k != n {
      assert k in at ==> k in at + [n];
    }
  }

  lemma PickKeepsIds(start: seq<Job>, jobs: seq<Job>, at: seq<nat>, frontier: nat, n: nat, after: seq<Job>, exit: Exit)
    requires RunInv(start, jobs, at, frontier) && frontier <= n < |jobs|
    requires AreInState(jobs, at, Drained) && IsPickedTo(jobs, n, after, LastState(exit))
    ensures IsBelow(at + [n], |after|) && IdsAt(after, at + [n]) == IdsAt(jobs, at) + [after[n].id]
    ensures AreInState(after, at + [n], exit)
  {
    hide IdsAt;
    assert IdsAt(after, at + [n]) == IdsAt(jobs, at) + [after[n].id];
  }

  lemma FinishedAnyway(jobs: seq<Job>, at: seq<nat>, exit: Exit)
    requires AreInState(jobs, at, Drained) && LastState(exit) == Finished
    ensures AreInState(jobs, at, exit)
  {
  }

  /** No job that was due is passed over for a later one. */
  predicate NoneOvertaken(jobs: seq<Job>, owner: Option<int>, at: seq<nat>)
  {
    IsBelow(at, |jobs|) && (at != [] ==> IsBehind(jobs, owner, at[|at| - 1]))
  }

  lemma PickMovesOn(jobs: seq<Job>, owner: Option<int>, isFirstSync: bool, n: nat, after: seq<Job>, at: seq<nat>)
    requires GetNext(jobs, owner, isFirstSync) == Some(n) && n < |after| && IsPickedTo(jobs, n, after, after[n].state)
    requires IsBelow(at + [n], |after|)
    ensures NoneOvertaken(after, owner, at + [n])
    ensures after[n].state == Finished ==> IsBehind(after, owner, n + 1)
  {
    forall k | 0 <= k < n ensures !IsCandidate(after[k], owner, false) {
      assert !IsCandidate(jobs[k], owner, isFirstSync);
    }
  }

  predicate IsAfterAll(j: Job, jobs: seq<Job>) { forall i <- jobs :: i.id < j.id }

  /** What a run does, said of ids instead of places. */
  lemma RunOnIds(start: seq<Job>, jobs: seq<Job>, nextId: nat, at: seq<nat>, picked: seq<nat>, exit: Exit)
    requires IsQueue(jobs, nextId) && exists frontier :: RunInv(start, jobs, at, frontier)
    requires IsBelow(at, |jobs|) && picked == IdsAt(jobs, at) && AreInState(jobs, at, exit)
    ensures |picked| == |at| && IsAscending(picked)
    ensures forall j <- jobs :: j.id in picked ==>
              j.state == if j.id == picked[|picked| - 1] then LastState(exit) else Finished
    ensures forall j <- jobs :: j.id !in picked ==> j in start || (j.state == New && IsAfterAll(j, start))
    ensures forall j <- start :: j.state != Finished && j.id !in picked ==> j in jobs
    ensures LastState(exit) != Finished ==> picked != []
    ensures picked != [] ==> exists j <- jobs :: j.id == picked[|picked| - 1] && j.state == LastState(exit)
  {
    hide IsQueue, RunInv, IsAscending, IdsAt, IsAfterAll;
    RunAscends(start, jobs, at);
    IdsAscend(jobs, nextId, at);
    forall k | 0 <= k < |jobs| && jobs[k].id in picked
      ensures jobs[k].state == if jobs[k].id == picked[|picked| - 1] then LastState(exit) else Finished
    {
      PickedById(jobs, nextId, at, picked, k);
    }
    forall k | 0 <= k < |jobs| && jobs[k].id !in picked
      ensures jobs[k] in start || (jobs[k].state == New && IsAfterAll(jobs[k], start))
    {
      NotPickedById(start, jobs, nextId, at, k);
    }
    forall k | 0 <= k < |start| && start[k].id !in picked ensures start[k] in jobs {
      StartById(start, jobs, at, k);
    }
    if picked != [] { assert jobs[at[|at| - 1]] in jobs; }
  }

  lemma RunAscends(start: seq<Job>, jobs: seq<Job>, at: seq<nat>)
    requires exists frontier :: RunInv(start, jobs, at, frontier)
    ensures IsAscending(at) && IsBelow(at, |jobs|)
  {
  }

  lemma OvertakenById(jobs: seq<Job>, nextId: nat, owner: Option<int>, at: seq<nat>)
    requires IsQueue(jobs, nextId) && NoneOvertaken(jobs, owner, at)
    ensures at != [] ==> forall j <- jobs :: j.id < IdsAt(jobs, at)[|at| - 1] ==> !IsCandidate(j, owner, false)
  {
  }

  lemma PickedById(jobs: seq<Job>, nextId: nat, at: seq<nat>, picked: seq<nat>, k: nat)
    requires IsQueue(jobs, nextId) && IsAscending(at) && IsBelow(at, |jobs|) && picked == IdsAt(jobs, at)
    requires k < |jobs| && jobs[k].id in picked
    ensures exists i :: 0 <= i < |at| && at[i] == k && (i == |at| - 1 <==> jobs[k].id == picked[|picked| - 1])
  {
    var i :| 0 <= i < |picked| && picked[i] == jobs[k].id;
    assert at[i] == k;
  }

  lemma NotPickedById(start: seq<Job>, jobs: seq<Job>, nextId: nat, at: seq<nat>, k: nat)
    requires IsQueue(jobs, nextId) && exists frontier :: RunInv(start, jobs, at, frontier)
    requires k < |jobs| && k !in at
    ensures jobs[k] in start || (jobs[k].state == New && IsAfterAll(jobs[k], start))
  {
    if k < |start| {
      assert jobs[k] == start[k];
    } else {
      forall i | 0 <= i < |start| ensures start[i].id < jobs[k].id { assert jobs[i].id == start[i].id; }
    }
  }

  lemma StartById(start: seq<Job>, jobs: seq<Job>, at: seq<nat>, k: nat)
    requires exists frontier :: RunInv(start, jobs, at, frontier)
    requires k < |start| && IsBelow(at, |jobs|) && start[k].id !in IdsAt(jobs, at)
    ensures start[k] in jobs
  {
    forall i | 0 <= i < |at| ensures at[i] != k {
      assert jobs[at[i]].id in IdsAt(jobs, at) by { assert IdsAt(jobs, at)[i] == jobs[at[i]].id; }
    }
    assert jobs[k] == start[k];
  }

  lemma RestIsKept(jobs: seq<Job>, updatedAt: map<nat, nat>)
    ensures forall j <- jobs :: j.state != Finished ==> j in Cleaned(jobs, updatedAt, jobs)
  {
  }

  function IdsAt(jobs: seq<Job>, at: seq<nat>): (r: seq<nat>)
    requires IsBelow(at, |jobs|)
    ensures |r| == |at| && forall i :: 0 <= i < |at| ==> r[i] == jobs[at[i]].id
  {
    if at == [] then []
    else
      var last := |at| - 1;
      IdsAt(jobs, at[..last]) + [jobs[at[last]].id]
  }

  lemma IdsAscend(jobs: seq<Job>, nextId: nat, at: seq<nat>)
    requires IsQueue(jobs, nextId) && IsAscending(at) && IsBelow(at, |jobs|)
    ensures IsAscending(IdsAt(jobs, at))
    ensures forall k :: 0 <= k < |jobs| ==> (jobs[k].id in IdsAt(jobs, at) <==> k in at)
  {
    var ids := IdsAt(jobs, at);
    forall k | 0 <= k < |jobs| && k in at ensures jobs[k].id in ids {
      var i :| 0 <= i < |at| && at[i] == k;
      assert ids[i] == jobs[k].id;
    }
    forall k | 0 <= k < |jobs| && jobs[k].id in ids ensures k in at {
      var i :| 0 <= i < |ids| && ids[i] == jobs[k].id;
      assert at[i] in at;
    }
  }

  class SyncQueue {
    var jobs: seq<Job>
    var nextId: nat
    var isFirstSync: bool
    /** The column `updatedAt`, which a trigger keeps, by id; `clock` is the time. */
    var updatedAt: map<nat, nat>
    var clock: nat
    /** The calls of `add` that have read the pending jobs and not inserted yet. */
    var requests: seq<Request>

    ghost predicate Valid()
      reads this
    {
      IsQueue(jobs, nextId)
    }

    const allowedColls: set<string>

    constructor (jobs: seq<Job>, nextId: nat, allowedColls: set<string>)
      requires IsQueue(jobs, nextId)
      ensures Valid() && this.jobs == jobs && this.nextId == nextId && isFirstSync
      ensures this.allowedColls == allowedColls && requests == []
    {
      this.jobs, this.nextId, isFirstSync, updatedAt, clock := jobs, nextId, true, map[], 0;
      this.allowedColls, requests := allowedColls, [];
    }

    predicate ArePermitted(colls: seq<string>) { colls != [] && forall c <- colls :: c in allowedColls }

    function AddErrorOf(call: AddCall): Option<AddError>
    {
      if call.ownerUserId.Some? == call.isOwnerScheduler then Some(SyncQueueOwnerSettingError)
      else if !ArePermitted(call.colls) then Some(CollSyncPermissionError)
      else None
    }

    /** `add` up to the insertion: both errors, and what is decided on the pending jobs it reads. */
    method BeginAdd(call: AddCall) returns (error: Option<AddError>)
      requires Valid()
      modifies this`requests
      ensures error == AddErrorOf(call)
      ensures requests == old(requests) + if error.Some? || IsNothing(call) then [] else [Requested(call, jobs)]
      ensures error.None? && !IsNothing(call) ==> IsDecided(requests[|requests| - 1].names, call, jobs)
    {
      hide IsDecided;
      if call.ownerUserId.Some? == call.isOwnerScheduler { return Some(SyncQueueOwnerSettingError); }
      if !ArePermitted(call.colls) { return Some(CollSyncPermissionError); }
      error := None;
      if call.isOwnerScheduler && call.signedIn == {} { return; }
      RequestedIsDecided(call, jobs);
      requests := requests + [Requested(call, jobs)];
    }

    /** The insertion, whatever has happened since the pending jobs were read: it keeps the queue free
        of duplicates exactly when the names are distinct and none is pending for the owner by now. */
    method EndAdd(n: nat)
      requires Valid() && n < |requests|
      modifies this`jobs, this`nextId, this`requests
      ensures Valid() && requests == old(requests[..n] + requests[n + 1..])
      ensures jobs == old(jobs) + JobsOf(old(requests[n]), old(nextId))
      ensures HasNoDuplicates(old(jobs)) ==> (HasNoDuplicates(jobs) <==> IsClear(old(jobs), old(requests[n])))
    {
      hide HasNoDuplicates, IsClear;
      var added := JobsOf(requests[n], nextId);
      if HasNoDuplicates(jobs) { InsertKeepsNoDuplicates(jobs, requests[n], nextId); }
      jobs := jobs + added;
      nextId := nextId + |added|;
      requests := requests[..n] + requests[n + 1..];
    }

    /** An undisturbed call of `add` keeps the queue free of duplicates exactly when the request is free
        of them or is compared with pending jobs. */
    method Add(call: AddCall) returns (error: Option<AddError>)
      requires Valid()
      modifies this`jobs, this`nextId, this`requests
      ensures Valid() && error == AddErrorOf(call) && requests == old(requests)
      ensures if error.Some? || IsNothing(call) then jobs == old(jobs)
              else
                && jobs == old(jobs) + JobsOf(Requested(call, old(jobs)), old(nextId))
                && IsDecided(NamesOf(jobs[|old(jobs)|..]), call, old(jobs))
                && (forall k :: |old(jobs)| <= k < |jobs| ==>
                      && jobs[k].id == old(nextId) + (k - |old(jobs)|) && jobs[k].state == New
                      && jobs[k].ownerUserId == call.ownerUserId && jobs[k].isOwnerScheduler == call.isOwnerScheduler)
                && (HasNoDuplicates(old(jobs)) ==>
                      (HasNoDuplicates(jobs) <==> VisibleTo(call, old(jobs)) != [] || IsDistinct(call.colls)))
    {
      hide HasNoDuplicates, IsClear, Requested, JobsOf, IsQueue, ArePermitted, IsDecided;
      error := BeginAdd(call);
      if error.Some? || IsNothing(call) { return; }
      ReadIsClear(jobs, call);
      RequestedIsDecided(call, jobs);
      NewJobsAre(Requested(call, jobs), nextId);
      EndAdd(|requests| - 1);
      assert jobs[|old(jobs)|..] == JobsOf(Requested(call, old(jobs)), old(nextId));
    }

    method UpdateState(n: nat, state: JobState)
      requires Valid() && n < |jobs|
      modifies this`jobs, this`updatedAt, this`clock
      ensures Valid() && jobs == SetState(old(jobs), n, state)
    {
      jobs := SetState(jobs, n, state);
      clock := clock + 1;
      updatedAt := updatedAt[jobs[n].id := clock];
    }

    /** While a job runs only calls of `add` touch the queue. */
    method SubProcess(round: Round) returns (isOk: bool)
      requires Valid()
      modifies this`jobs, this`nextId, this`requests
      ensures Valid() && isOk == !round.throws
      ensures |old(jobs)| <= |jobs| && jobs[..|old(jobs)|] == old(jobs)
      ensures forall k :: |old(jobs)| <= k < |jobs| ==> jobs[k].state == New
    {
      hide ToInsert, IsClear, HasNoDuplicates;
      for k := 0 to |round.adds|
        invariant Valid() && |old(jobs)| <= |jobs| && jobs[..|old(jobs)|] == old(jobs)
        invariant forall k :: |old(jobs)| <= k < |jobs| ==> jobs[k].state == New
      {
        match round.adds[k]
        case Begin(call) => var _ := BeginAdd(call);
        case End(n) => if n < |requests| { EndAdd(n); }
      }
      isOk := !round.throws;
    }

    /** The loop of `process`: it returns the ids it picked and why it ended. */
    method PickJobs(owner: Option<int>, rounds: nat -> Round) returns (ghost at: seq<nat>, picked: seq<nat>, exit: Exit)
      requires Valid()
      modifies this`jobs, this`nextId, this`requests, this`isFirstSync, this`updatedAt, this`clock
      ensures Valid() && IsBelow(at, |jobs|) && |at| <= MAX_JOBS
      ensures exists frontier :: RunInv(old(jobs), jobs, at, frontier)
      ensures picked == IdsAt(jobs, at)
      ensures AreInState(jobs, at, exit) && NoneOvertaken(jobs, owner, at)
      ensures exit == Capped ==> |at| == MAX_JOBS
      ensures exit == Drained ==> forall k :: 0 <= k < |jobs| ==> !IsCandidate(jobs[k], owner, false)
    {
      hide GetNext, RunInv, IsBehind, IsQueue, IsBelow, IdsAt, SetState, AreInState, IsCandidate, NoneOvertaken;
      at, picked := [], [];
      ghost var frontier: nat := 0;
      var count := 0;
      RunStarts(jobs, owner);
      while true
        invariant Valid() && RunInv(old(jobs), jobs, at, frontier) && IsBelow(at, |jobs|)
        invariant picked == IdsAt(jobs, at) && |at| == count <= MAX_JOBS
        invariant AreInState(jobs, at, Drained) && NoneOvertaken(jobs, owner, at)
        invariant IsBehind(jobs, owner, frontier) && (isFirstSync ==> frontier == 0)
        decreases MAX_JOBS - count
      {
        var round := rounds(count);
        if round.isInterruptedBefore { exit := StoppedBefore; FinishedAnyway(jobs, at, exit); return; }
        count := count + 1;
        var isFirst := isFirstSync;
        var next := GetNext(jobs, owner, isFirst);
        isFirstSync := false;
        if next.None? { exit := Drained; NothingNext(jobs, owner, isFirst); return; }
        if count > MAX_JOBS { exit := Capped; FinishedAnyway(jobs, at, exit); return; }
        var n := next.value;
        NextIsAhead(jobs, owner, isFirst, frontier, n);
        ghost var before := jobs;
        var isOk := RunJob(n, round);
        exit := if !isOk then Thrown else if round.isInterruptedAfter then StoppedAfter else Drained;
        PickKeepsRun(old(jobs), before, at, frontier, n, jobs);
        PickKeepsIds(old(jobs), before, at, frontier, n, jobs, exit);
        PickMovesOn(before, owner, isFirst, n, jobs, at);
        at := at + [n];
        picked := picked + [jobs[n].id];
        frontier := n + 1;
        if exit != Drained { return; }
      }
    }

    /** One call of `process`. However it ends, it picks at most ten jobs in the order of their ids and
        leaves none of them locked; every other job keeps its state, and only finished jobs go. */
    method Process(owner: Option<int>, rounds: nat -> Round) returns (picked: seq<nat>, exit: Exit)
      requires Valid()
      modifies this`jobs, this`nextId, this`requests, this`isFirstSync, this`updatedAt, this`clock
      ensures Valid() && IsAscending(picked) && |picked| <= MAX_JOBS
      ensures forall j <- jobs :: j.id in picked ==>
                j.state == if j.id == picked[|picked| - 1] then LastState(exit) else Finished
      ensures forall j <- jobs :: j.id !in picked ==> j in old(jobs) || (j.state == New && IsAfterAll(j, old(jobs)))
      ensures forall j <- old(jobs) :: j.state != Finished && j.id !in picked ==> j in jobs
      ensures forall j <- jobs :: picked != [] && j.id < picked[|picked| - 1] ==> !IsCandidate(j, owner, false)
      ensures exit == Capped ==> |picked| == MAX_JOBS
      ensures LastState(exit) != Finished ==> picked != [] && exists j <- jobs :: j.id == picked[|picked| - 1]
      ensures exit != Thrown ==> CountFinished(jobs) <= KEPT_FINISHED
      ensures exit == Drained ==> forall j <- jobs :: !IsCandidate(j, owner, false)
    {
      hide RunInv, IsQueue, IdsAt, IsBelow, IsCandidate, IsKept, CountFinished, CountNewer, AreInState, IsAscending,
           NoneOvertaken;
      ghost var at;
      at, picked, exit := PickJobs(owner, rounds);
      RunOnIds(old(jobs), jobs, nextId, at, picked, exit);
      OvertakenById(jobs, nextId, owner, at);
      if exit == Thrown { return; }
      CleanedIsQueue(jobs, updatedAt, jobs, nextId);
      CleanedLeavesTheLast(jobs, updatedAt, nextId);
      RestIsKept(jobs, updatedAt);
      jobs := Cleaned(jobs, updatedAt, jobs);
    }

    /** One picked job: it is locked, runs, and gets the state its end calls for. */
    method RunJob(n: nat, round: Round) returns (isOk: bool)
      requires Valid() && n < |jobs|
      modifies this`jobs, this`nextId, this`requests, this`updatedAt, this`clock
      ensures Valid() && isOk == !round.throws
      ensures IsPickedTo(old(jobs), n, jobs,
                         if !isOk then Error else if round.isInterruptedAfter then New else Finished)
    {
      UpdateState(n, Locked);
      isOk := SubProcess(round);
      assert |old(jobs)| <= |jobs| && jobs[..|old(jobs)|] == SetState(old(jobs), n, Locked);
      forall k | 0 <= k < |old(jobs)| ensures jobs[k] == SetState(old(jobs), n, Locked)[k] {
        assert jobs[..|old(jobs)|][k] == jobs[k];
      }
      UpdateState(n, if !isOk then Error else if round.isInterruptedAfter then New else Finished);
    }
  }

  /** Job `n` of `before` has got `state`, and new jobs follow. */
  predicate IsPickedTo(before: seq<Job>, n: nat, after: seq<Job>, state: JobState)
  {
    && n < |before| <= |after|
    && after[n] == before[n].(state := state)
    && (forall k :: 0 <= k < |before| && k != n ==> after[k] == before[k])
    && (forall k :: |before| <= k < |after| ==> after[k].state == New)
  }

  /** The picked jobs are finished, but for the last one if the run ended with it. */
  predicate AreInState(jobs: seq<Job>, at: seq<nat>, exit: Exit)
  {
    && IsBelow(at, |jobs|) && (LastState(exit) != Finished ==> at != [])
    && forall i :: 0 <= i < |at| ==>
         jobs[at[i]].state == if i < |at| - 1 then Finished else LastState(exit)
  }

  function LastState(exit: Exit): JobState
  {
    match exit
    case Thrown => Error
    case StoppedAfter => New
    case _ => Finished
  }

  lemma RunStarts(jobs: seq<Job>, owner: Option<int>)
    ensures RunInv(jobs, jobs, [], 0) && IsBehind(jobs, owner, 0) && AreInState(jobs, [], Drained)
    ensures NoneOvertaken(jobs, owner, []) && IdsAt(jobs, []) == []
  {
  }

  lemma NothingNext(jobs: seq<Job>, owner: Option<int>, isFirst: bool)
    requires GetNext(jobs, owner, isFirst).None?
    ensures forall k :: 0 <= k < |jobs| ==> !IsCandidate(jobs[k], owner, false)
  {
    forall k | 0 <= k < |jobs| ensures !IsCandidate(jobs[k], owner, false) {
      assert !IsCandidate(jobs[k], owner, isFirst);
    }
  }

  lemma NextIsAhead(jobs: seq<Job>, owner: Option<int>, isFirst: bool, frontier: nat, n: nat)
    requires GetNext(jobs, owner, isFirst) == Some(n) && IsBehind(jobs, owner, frontier) && (isFirst ==> frontier == 0)
    ensures frontier <= n < |jobs|
  {
  }
}
