/** The persistent queue of sync jobs: who sees which jobs, which one is next, and adding without
duplicates. */
module SyncJobs {
  import opened Wrappers

  datatype JobState = New | Locked | Finished | Error

  datatype Job = Job(id: nat, collName: string, state: JobState, ownerUserId: Option<int>, isOwnerScheduler: bool)

  /** The table in the order of the ids; a new job gets an id above all others. */
  predicate IsQueue(jobs: seq<Job>, nextId: nat)
  {
    && (forall j, k :: 0 <= j < k < |jobs| ==> jobs[j].id < jobs[k].id)
    && (forall k :: 0 <= k < |jobs| ==> jobs[k].id < nextId)
  }

  const ALL := "_ALL"
  const PUBLIC := "_PUBLIC"
  const PRIVATE := "_PRIVATE"

  /** What has not been finished. */
  predicate IsPending(j: Job) { j.state in {New, Error, Locked} }

  predicate SameOwner(a: Job, b: Job) { a.ownerUserId == b.ownerUserId && a.isOwnerScheduler == b.isOwnerScheduler }

  /** No owner has two pending jobs for one collection. */
  predicate HasNoDuplicates(jobs: seq<Job>)
  {
    forall j, k :: 0 <= j < k < |jobs| && IsPending(jobs[j]) && IsPending(jobs[k]) && SameOwner(jobs[j], jobs[k])
                   ==> jobs[j].collName != jobs[k].collName
  }

  // ----- add

  datatype AddError = SyncQueueOwnerSettingError | CollSyncPermissionError

  /** The pending jobs that `add` compares the request with. */
  predicate IsVisibleToAdd(j: Job, ownerUserId: Option<int>, signedIn: set<int>)
  {
    && IsPending(j)
    && (j.isOwnerScheduler
        || (j.ownerUserId.Some?
            && if ownerUserId.Some? then j.ownerUserId == ownerUserId else j.ownerUserId.value in signedIn))
  }

  predicate HasColl(jobs: seq<Job>, collName: string) { exists k :: 0 <= k < |jobs| && jobs[k].collName == collName }

  function VisibleToAdd(jobs: seq<Job>, ownerUserId: Option<int>, signedIn: set<int>): (r: seq<Job>)
    ensures forall j :: j in r <==> j in jobs && IsVisibleToAdd(j, ownerUserId, signedIn)
  {
    if jobs == [] then []
    else
      assert jobs == [jobs[0]] + jobs[1..];
      (if IsVisibleToAdd(jobs[0], ownerUserId, signedIn) then [jobs[0]] else [])
      + VisibleToAdd(jobs[1..], ownerUserId, signedIn)
  }

  /** The requested collections that are neither in the queue nor requested before. */
  function UniqueNames(visible: seq<Job>, colls: seq<string>): seq<string>
  {
    if colls == [] then []
    else
      var k := |colls| - 1;
      var rest := UniqueNames(visible, colls[..k]);
      if !HasColl(visible, colls[k]) && colls[k] !in rest then rest + [colls[k]] else rest
  }

  /** What is inserted: nothing while a job for all collections is pending, and the request as it is
      when nothing is pending. */
  function ToInsert(visible: seq<Job>, colls: seq<string>): seq<string>
  {
    if HasColl(visible, ALL) then []
    else if visible == [] then colls
    else UniqueNames(visible, colls)
  }

  function NewJobs(colls: seq<string>, ownerUserId: Option<int>, isOwnerScheduler: bool, nextId: nat): (r: seq<Job>)
    ensures |r| == |colls|
    ensures forall k :: 0 <= k < |colls| ==> r[k] == Job(nextId + k, colls[k], New, ownerUserId, isOwnerScheduler)
  {
    seq(|colls|, k requires 0 <= k < |colls| => Job(nextId + k, colls[k], New, ownerUserId, isOwnerScheduler))
  }

  predicate IsDistinct(colls: seq<string>) { forall j, k :: 0 <= j < k < |colls| ==> colls[j] != colls[k] }

  lemma {:induction false} UniqueNamesAreNew(visible: seq<Job>, colls: seq<string>)
    ensures var r := UniqueNames(visible, colls);
            && IsDistinct(r)
            && (forall c <- r :: c in colls && !HasColl(visible, c))
            && (forall c <- colls :: c in r || HasColl(visible, c))
    decreases |colls|
  {
    if colls != [] {
      var k := |colls| - 1;
      assert colls == colls[..k] + [colls[k]];
      UniqueNamesAreNew(visible, colls[..k]);
    }
  }

  /** A call of `add`. */
  datatype AddCall = AddCall(colls: seq<string>, ownerUserId: Option<int>, isOwnerScheduler: bool, signedIn: set<int>)

  /** What a call has decided to insert, between reading the pending jobs and inserting. */
  datatype Request = Request(names: seq<string>, ownerUserId: Option<int>, isOwnerScheduler: bool)

  predicate IsNothing(call: AddCall) { call.isOwnerScheduler && call.signedIn == {} }

  function VisibleTo(call: AddCall, jobs: seq<Job>): seq<Job> { VisibleToAdd(jobs, call.ownerUserId, call.signedIn) }

  function Requested(call: AddCall, jobs: seq<Job>): Request
  {
    Request(ToInsert(VisibleTo(call, jobs), call.colls), call.ownerUserId, call.isOwnerScheduler)
  }

  /** The job has not been finished, and is the scheduler's, the asking user's, or, if the scheduler asks,
      that of a user who is signed in. */
  predicate Concerns(j: Job, call: AddCall)
  {
    && (j.state == New || j.state == Error || j.state == Locked)
    && (|| j.isOwnerScheduler
        || (call.ownerUserId.Some? && j.ownerUserId == call.ownerUserId)
        || (call.ownerUserId.None? && j.ownerUserId.Some? && j.ownerUserId.value in call.signedIn))
  }

  predicate IsAwaited(jobs: seq<Job>, call: AddCall, collName: string)
  {
    exists k :: 0 <= k < |jobs| && Concerns(jobs[k], call) && jobs[k].collName == collName
  }

  predicate IsAnyAwaited(jobs: seq<Job>, call: AddCall) { exists k :: 0 <= k < |jobs| && Concerns(jobs[k], call) }

  /** The names are requested first at these places, which ascend. */
  predicate AreFirstsAt(names: seq<string>, colls: seq<string>, places: seq<nat>)
  {
    && |places| == |names| && (forall m, n :: 0 <= m < n < |places| ==> places[m] < places[n])
    && forall n :: 0 <= n < |names| ==>
         && places[n] < |colls| && colls[places[n]] == names[n]
         && forall p :: 0 <= p < places[n] ==> colls[p] != names[n]
  }

  /** What is inserted: nothing while a job for all collections is awaited; as long as another one is, the
      requested collections that are not, each once, as first requested; and otherwise the request as it is. */
  ghost predicate IsDecided(names: seq<string>, call: AddCall, jobs: seq<Job>)
  {
    && (IsAwaited(jobs, call, ALL) ==> names == [])
    && (!IsAwaited(jobs, call, ALL) && IsAnyAwaited(jobs, call) ==>
          && (forall c :: c in names <==> c in call.colls && !IsAwaited(jobs, call, c))
          && IsDistinct(names) && exists places :: AreFirstsAt(names, call.colls, places))
    && (!IsAnyAwaited(jobs, call) ==> names == call.colls)
  }

  lemma {:induction false} UniqueNamesAreFirsts(visible: seq<Job>, colls: seq<string>) returns (places: seq<nat>)
    ensures AreFirstsAt(UniqueNames(visible, colls), colls, places)
    decreases |colls|
  {
    places := [];
    if colls != [] {
      var k := |colls| - 1;
      places := UniqueNamesAreFirsts(visible, colls[..k]);
      UniqueNamesAreNew(visible, colls[..k]);
      hide AreFirstsAt, IsDistinct;
      OneMoreFirst(UniqueNames(visible, colls[..k]), colls[..k], places, colls[k]);
      assert colls[..k] + [colls[k]] == colls;
      if !HasColl(visible, colls[k]) && colls[k] !in UniqueNames(visible, colls[..k]) { places := places + [k]; }
    }
  }

  lemma OneMoreFirst(names: seq<string>, colls: seq<string>, places: seq<nat>, c: string)
    requires AreFirstsAt(names, colls, places)
    ensures AreFirstsAt(names, colls + [c], places)
    ensures c !in colls ==> AreFirstsAt(names + [c], colls + [c], places + [|colls|])
  {
  }

  lemma VisibleAreAwaited(jobs: seq<Job>, call: AddCall, collName: string)
    ensures HasColl(VisibleTo(call, jobs), collName) <==> IsAwaited(jobs, call, collName)
  {
    var visible := VisibleTo(call, jobs);
    if HasColl(visible, collName) {
      var n :| 0 <= n < |visible| && visible[n].collName == collName;
      assert visible[n] in visible;
      var k :| 0 <= k < |jobs| && jobs[k] == visible[n];
    }
    if IsAwaited(jobs, call, collName) {
      var k :| 0 <= k < |jobs| && Concerns(jobs[k], call) && jobs[k].collName == collName;
      assert jobs[k] in visible;
      var n :| 0 <= n < |visible| && visible[n] == jobs[k];
    }
  }

  lemma AnyVisibleIsAwaited(jobs: seq<Job>, call: AddCall)
    ensures VisibleTo(call, jobs) != [] <==> IsAnyAwaited(jobs, call)
  {
    var visible := VisibleTo(call, jobs);
    if visible != [] {
      assert visible[0] in visible;
      var k :| 0 <= k < |jobs| && jobs[k] == visible[0];
    }
    if IsAnyAwaited(jobs, call) {
      var k :| 0 <= k < |jobs| && Concerns(jobs[k], call);
      assert jobs[k] in visible;
    }
  }

  /** Every call, on every queue, decides so and for its own owner. */
  lemma RequestedIsDecided(call: AddCall, jobs: seq<Job>)
    ensures var r := Requested(call, jobs);
            && IsDecided(r.names, call, jobs)
            && r.ownerUserId == call.ownerUserId && r.isOwnerScheduler == call.isOwnerScheduler
  {
    hide IsAwaited, IsAnyAwaited, VisibleTo, UniqueNames;
    var visible := VisibleTo(call, jobs);
    AnyVisibleIsAwaited(jobs, call);
    VisibleAreAwaited(jobs, call, ALL);
    UniqueNamesAreNew(visible, call.colls);
    var places := UniqueNamesAreFirsts(visible, call.colls);
    forall c: string ensures HasColl(visible, c) <==> IsAwaited(jobs, call, c) {
      VisibleAreAwaited(jobs, call, c);
    }
    hide HasColl;
  }

  function JobsOf(r: Request, nextId: nat): (jobs: seq<Job>)
    ensures |jobs| == |r.names|
  {
    NewJobs(r.names, r.ownerUserId, r.isOwnerScheduler, nextId)
  }

  function NamesOf(jobs: seq<Job>): (names: seq<string>)
    ensures |names| == |jobs| && forall k :: 0 <= k < |jobs| ==> names[k] == jobs[k].collName
  {
    seq(|jobs|, k requires 0 <= k < |jobs| => jobs[k].collName)
  }

  /** One new job for each name, with ids in their order. */
  lemma NewJobsAre(r: Request, nextId: nat)
    ensures NamesOf(JobsOf(r, nextId)) == r.names
    ensures forall k :: 0 <= k < |r.names| ==>
              JobsOf(r, nextId)[k] == Job(nextId + k, r.names[k], New, r.ownerUserId, r.isOwnerScheduler)
  {
  }

  predicate IsOwnerOf(r: Request, j: Job) { j.ownerUserId == r.ownerUserId && j.isOwnerScheduler == r.isOwnerScheduler }

  /** The names are distinct and none of them is pending for the owner. */
  predicate IsClear(jobs: seq<Job>, r: Request)
  {
    && IsDistinct(r.names)
    && forall k :: 0 <= k < |jobs| && IsPending(jobs[k]) && IsOwnerOf(r, jobs[k]) ==> jobs[k].collName !in r.names
  }

  /** Inserting keeps the queue free of duplicates exactly when the request is clear at that moment. */
  lemma InsertKeepsNoDuplicates(jobs: seq<Job>, r: Request, nextId: nat)
    requires IsQueue(jobs, nextId) && HasNoDuplicates(jobs)
    ensures IsQueue(jobs + JobsOf(r, nextId), nextId + |r.names|)
    ensures HasNoDuplicates(jobs + JobsOf(r, nextId)) <==> IsClear(jobs, r)
  {
    var added := JobsOf(r, nextId);
    var all := jobs + added;
    if !IsDistinct(r.names) {
      var j, k :| 0 <= j < k < |r.names| && r.names[j] == r.names[k];
      assert all[|jobs| + j] == added[j] && all[|jobs| + k] == added[k];
    } else if !IsClear(jobs, r) {
      var k :| 0 <= k < |jobs| && IsPending(jobs[k]) && IsOwnerOf(r, jobs[k]) && jobs[k].collName in r.names;
      var j :| 0 <= j < |r.names| && r.names[j] == jobs[k].collName;
      assert all[k] == jobs[k] && all[|jobs| + j] == added[j];
    } else {
      ClearStaysFree(jobs, r, nextId);
    }
  }

  lemma ClearStaysFree(jobs: seq<Job>, r: Request, nextId: nat)
    requires HasNoDuplicates(jobs) && IsClear(jobs, r)
    ensures HasNoDuplicates(jobs + JobsOf(r, nextId))
  {
    var added := JobsOf(r, nextId);
    var all := jobs + added;
    forall j, k | 0 <= j < k < |all| && IsPending(all[j]) && IsPending(all[k]) && SameOwner(all[j], all[k])
      ensures all[j].collName != all[k].collName
    {
      if j < |jobs| <= k { assert all[k].collName == r.names[k - |jobs|]; }
    }
  }

  /** What a call decides on is clear while nothing has changed, exactly when the call names no
      collection twice or is compared with something. */
  lemma ReadIsClear(jobs: seq<Job>, call: AddCall)
    requires call.ownerUserId.Some? != call.isOwnerScheduler
    ensures IsClear(jobs, Requested(call, jobs)) <==> VisibleTo(call, jobs) != [] || IsDistinct(call.colls)
  {
    var visible := VisibleTo(call, jobs);
    var r := Requested(call, jobs);
    UniqueNamesAreNew(visible, call.colls);
    forall j | 0 <= j < |jobs| && IsPending(jobs[j]) && IsOwnerOf(r, jobs[j]) ensures jobs[j].collName !in r.names {
      assert jobs[j] in visible;
      var k :| 0 <= k < |visible| && visible[k] == jobs[j];
      assert HasColl(visible, jobs[j].collName);
    }
  }

  // ----- next

  predicate IsVisibleToProcess(j: Job, owner: Option<int>)
  {
    owner.Some? ==> j.isOwnerScheduler || j.ownerUserId == owner
  }

  predicate IsCandidate(j: Job, owner: Option<int>, isFirstSync: bool)
  {
    && IsVisibleToProcess(j, owner)
    && (j.state in {New, Error} || (isFirstSync && j.state == Locked))
  }

  /** The first candidate in the order of the ids; locked jobs only count in the first look after a
      start, because they were left behind by a process that ended. */
  function GetNext(jobs: seq<Job>, owner: Option<int>, isFirstSync: bool): (r: Option<nat>)
    ensures r.None? ==> forall k :: 0 <= k < |jobs| ==> !IsCandidate(jobs[k], owner, isFirstSync)
    ensures r.Some? ==>
              && r.value < |jobs| && IsCandidate(jobs[r.value], owner, isFirstSync)
              && forall k :: 0 <= k < r.value ==> !IsCandidate(jobs[k], owner, isFirstSync)
  {
    NextFrom(jobs, owner, isFirstSync, 0)
  }

  function NextFrom(jobs: seq<Job>, owner: Option<int>, isFirstSync: bool, n: nat): (r: Option<nat>)
    requires n <= |jobs|
    ensures r.None? ==> forall k :: n <= k < |jobs| ==> !IsCandidate(jobs[k], owner, isFirstSync)
    ensures r.Some? ==>
              && n <= r.value < |jobs| && IsCandidate(jobs[r.value], owner, isFirstSync)
              && forall k :: n <= k < r.value ==> !IsCandidate(jobs[k], owner, isFirstSync)
    decreases |jobs| - n
  {
    if n == |jobs| then None
    else if IsCandidate(jobs[n], owner, isFirstSync) then Some(n)
    else NextFrom(jobs, owner, isFirstSync, n + 1)
  }

  /** The job waits, or was left locked before the start, and is the scheduler's or the user's, or the
      scheduler looks, who sees all jobs. */
  predicate IsDue(j: Job, owner: Option<int>, isFirstSync: bool)
  {
    && (j.state == New || j.state == Error || (j.state == Locked && isFirstSync))
    && (owner == None || j.isOwnerScheduler || j.ownerUserId == owner)
  }

  /** The next job is the one with the lowest id of all that are due. */
  lemma NextHasLowestId(jobs: seq<Job>, nextId: nat, owner: Option<int>, isFirstSync: bool)
    requires IsQueue(jobs, nextId)
    ensures var n := GetNext(jobs, owner, isFirstSync);
            && (n == None <==> forall j <- jobs :: !IsDue(j, owner, isFirstSync))
            && (n.Some? ==>
                  && IsDue(jobs[n.value], owner, isFirstSync)
                  && forall j <- jobs :: IsDue(j, owner, isFirstSync) ==> jobs[n.value].id <= j.id)
  {
    hide GetNext;
    var n := GetNext(jobs, owner, isFirstSync);
    forall j <- jobs
      ensures IsDue(j, owner, isFirstSync) <==> IsCandidate(j, owner, isFirstSync)
      ensures n.Some? && IsDue(j, owner, isFirstSync) ==> jobs[n.value].id <= j.id
    {
      var k :| 0 <= k < |jobs| && jobs[k] == j;
    }
  }

  function SetState(jobs: seq<Job>, n: nat, state: JobState): seq<Job>
    requires n < |jobs|
  {
    jobs[n := jobs[n].(state := state)]
  }
}
