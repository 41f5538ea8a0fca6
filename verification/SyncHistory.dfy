/** The sync queue over its whole life: the steps of calls of `add`, picked and ended jobs, clean-ups and
restarts in any order. */
module SyncHistory {
  import opened Wrappers
  import opened SyncJobs
  import SyncQueue

  /** `requests` are the calls of `add` that have read the pending jobs and not inserted yet; `running`
      is the place of the job that is being synced. */
  datatype State = State(
    jobs: seq<Job>, nextId: nat, requests: seq<Request>, isFirstSync: bool, running: Option<nat>)

  /** `Abandon` stands for the error of an update that should have ended the running job's state. */
  datatype Event =
    | AddRead(call: AddCall)
    | AddInsert(n: nat)
    | Pick(owner: Option<int>)
    | End(state: JobState)
    | Abandon
    | Clean(updatedAt: map<nat, nat>)
    | Restart

  const INITIAL: State := State([], 1, [], true, None)

  predicate CanHappen(s: State, e: Event)
  {
    match e
    case AddRead(call) => call.ownerUserId.Some? != call.isOwnerScheduler && !IsNothing(call)
    case AddInsert(n) => n < |s.requests|
    case Pick(_) => s.running.None?
    case End(state) => s.running.Some? && s.running.value < |s.jobs| && state in {New, Finished, Error}
    case Abandon => s.running.Some?
    case Clean(_) => s.running.None?
    case Restart => true
  }

  function Step(s: State, e: Event): State
    requires CanHappen(s, e)
  {
    match e
    case AddRead(call) => s.(requests := s.requests + [Requested(call, s.jobs)])
    case AddInsert(n) =>
      s.(jobs := s.jobs + JobsOf(s.requests[n], s.nextId), nextId := s.nextId + |s.requests[n].names|,
         requests := s.requests[..n] + s.requests[n + 1..])
    case Pick(owner) =>
      var next := GetNext(s.jobs, owner, s.isFirstSync);
      if next.None? then s.(isFirstSync := false)
      else s.(jobs := SetState(s.jobs, next.value, Locked), isFirstSync := false, running := next)
    case End(state) => s.(jobs := SetState(s.jobs, s.running.value, state), running := None)
    case Abandon => s.(running := None)
    case Clean(updatedAt) => s.(jobs := SyncQueue.Cleaned(s.jobs, updatedAt, s.jobs))
    case Restart => s.(requests := [], isFirstSync := true, running := None)
  }

  /** `t` is reached from `s` by the events in their order. */
  predicate Leads(s: State, events: seq<Event>, t: State)
    decreases |events|
  {
    if events == [] then t == s
    else CanHappen(s, events[0]) && Leads(Step(s, events[0]), events[1..], t)
  }

  predicate IsSound(s: State)
  {
    && IsQueue(s.jobs, s.nextId)
    && (s.running.Some? ==>
          !s.isFirstSync && s.running.value < |s.jobs| && s.jobs[s.running.value].state == Locked)
  }

  lemma StepIsSound(s: State, e: Event)
    requires IsSound(s) && CanHappen(s, e)
    ensures IsSound(Step(s, e))
  {
    hide ToInsert, GetNext, SyncQueue.Cleaned;
    if e.Clean? { SyncQueue.CleanedIsQueue(s.jobs, e.updatedAt, s.jobs, s.nextId); }
  }

  // ----- Duplicates, exactly

  /** An insertion finds its request still clear. */
  predicate InsertsClear(s: State, e: Event) { e.AddInsert? && e.n < |s.requests| ==> IsClear(s.jobs, s.requests[e.n]) }

  /** Every insertion on the way finds its request still clear. */
  predicate AlwaysInsertsClear(s: State, events: seq<Event>)
    decreases |events|
  {
    events == []
    || (CanHappen(s, events[0]) && InsertsClear(s, events[0]) && AlwaysInsertsClear(Step(s, events[0]), events[1..]))
  }

  /** No state on the way has duplicates. */
  predicate NeverHasDuplicates(s: State, events: seq<Event>)
    decreases |events|
  {
    && HasNoDuplicates(s.jobs)
    && (events == [] || (CanHappen(s, events[0]) && NeverHasDuplicates(Step(s, events[0]), events[1..])))
  }

  lemma StepMakesDuplicates(s: State, e: Event)
    requires IsSound(s) && HasNoDuplicates(s.jobs) && CanHappen(s, e)
    ensures HasNoDuplicates(Step(s, e).jobs) <==> InsertsClear(s, e)
  {
    hide ToInsert, GetNext, HasNoDuplicates, IsClear, SyncQueue.Cleaned;
    match e
    case AddRead(call) =>
    case AddInsert(n) => InsertKeepsNoDuplicates(s.jobs, s.requests[n], s.nextId);
    case Pick(owner) =>
      var next := GetNext(s.jobs, owner, s.isFirstSync);
      if next.Some? { StateKeepsNoDuplicates(s.jobs, next.value, Locked); }
    case End(state) => StateKeepsNoDuplicates(s.jobs, s.running.value, state);
    case Abandon =>
    case Clean(updatedAt) =>
      SyncQueue.CleanedIsQueue(s.jobs, updatedAt, s.jobs, s.nextId);
      FewerHaveNoDuplicates(s.jobs, s.nextId, SyncQueue.Cleaned(s.jobs, updatedAt, s.jobs));
    case Restart =>
  }

  lemma StateKeepsNoDuplicates(jobs: seq<Job>, n: nat, state: JobState)
    requires HasNoDuplicates(jobs) && n < |jobs| && IsPending(jobs[n])
    ensures HasNoDuplicates(SetState(jobs, n, state))
  {
  }

  lemma FewerHaveNoDuplicates(jobs: seq<Job>, nextId: nat, rest: seq<Job>)
    requires IsQueue(jobs, nextId) && HasNoDuplicates(jobs) && IsQueue(rest, nextId)
    requires forall j :: j in rest ==> j in jobs
    ensures HasNoDuplicates(rest)
  {
    forall j, k | 0 <= j < k < |rest| && IsPending(rest[j]) && IsPending(rest[k]) && SameOwner(rest[j], rest[k])
      ensures rest[j].collName != rest[k].collName
    {
      assert rest[j] in rest && rest[k] in rest;
      var p :| 0 <= p < |jobs| && jobs[p] == rest[j];
      var q :| 0 <= q < |jobs| && jobs[q] == rest[k];
      assert p != q;
    }
  }

  /** Over any history an owner never has two pending jobs for one collection exactly when every
      insertion finds its request clear: its names distinct and none of them pending for the owner. */
  lemma {:induction false} NoDuplicatesExactly(s: State, events: seq<Event>, t: State)
    requires IsSound(s) && HasNoDuplicates(s.jobs) && Leads(s, events, t)
    ensures NeverHasDuplicates(s, events) <==> AlwaysInsertsClear(s, events)
    decreases |events|
  {
    hide IsSound, Step, HasNoDuplicates, InsertsClear;
    if events != [] {
      StepMakesDuplicates(s, events[0]);
      StepIsSound(s, events[0]);
      if HasNoDuplicates(Step(s, events[0]).jobs) {
        NoDuplicatesExactly(Step(s, events[0]), events[1..], t);
      } else {
        NotFromTheStart(Step(s, events[0]), events[1..]);
      }
    }
  }

  lemma NotFromTheStart(s: State, events: seq<Event>)
    requires !HasNoDuplicates(s.jobs)
    ensures !NeverHasDuplicates(s, events)
  {
  }

  // ----- One call of an owner at a time

  predicate IsSameOwner(r: Request, call: AddCall)
  {
    r.ownerUserId == call.ownerUserId && r.isOwnerScheduler == call.isOwnerScheduler
  }

  /** A call begins when no other call of its owner is on the way, and it names no collection twice
      unless it is compared with something. */
  predicate BeginsAlone(s: State, e: Event)
  {
    e.AddRead? ==>
      && (VisibleTo(e.call, s.jobs) != [] || IsDistinct(e.call.colls))
      && forall k :: 0 <= k < |s.requests| ==> !IsSameOwner(s.requests[k], e.call)
  }

  predicate AlwaysBeginsAlone(s: State, events: seq<Event>)
    decreases |events|
  {
    events == []
    || (CanHappen(s, events[0]) && BeginsAlone(s, events[0]) && AlwaysBeginsAlone(Step(s, events[0]), events[1..]))
  }

  /** The calls on the way are of different owners and clear. */
  predicate AreClear(s: State)
  {
    && (forall j, k :: 0 <= j < k < |s.requests| ==>
          s.requests[j].ownerUserId != s.requests[k].ownerUserId
          || s.requests[j].isOwnerScheduler != s.requests[k].isOwnerScheduler)
    && (forall k :: 0 <= k < |s.requests| ==> IsClear(s.jobs, s.requests[k]))
  }

  lemma StateStaysClear(jobs: seq<Job>, n: nat, state: JobState, r: Request)
    requires n < |jobs| && IsPending(jobs[n]) && IsClear(jobs, r)
    ensures IsClear(SetState(jobs, n, state), r)
  {
  }

  lemma InsertStaysClear(s: State, n: nat, k: nat)
    requires AreClear(s) && n < |s.requests| && k < |s.requests| && k != n
    ensures IsClear(s.jobs + JobsOf(s.requests[n], s.nextId), s.requests[k])
  {
    var added := JobsOf(s.requests[n], s.nextId);
    forall j | 0 <= j < |added| ensures !IsOwnerOf(s.requests[k], added[j]) {}
  }

  lemma CleanStaysClear(jobs: seq<Job>, rest: seq<Job>, r: Request)
    requires IsClear(jobs, r) && forall j :: j in rest ==> j in jobs
    ensures IsClear(rest, r)
  {
    forall k | 0 <= k < |rest| && IsPending(rest[k]) && IsOwnerOf(r, rest[k]) ensures rest[k].collName !in r.names {
      assert rest[k] in rest;
      var j :| 0 <= j < |jobs| && jobs[j] == rest[k];
    }
  }

  lemma StepKeepsClear(s: State, e: Event)
    requires IsSound(s) && AreClear(s) && CanHappen(s, e) && BeginsAlone(s, e)
    ensures AreClear(Step(s, e)) && InsertsClear(s, e)
  {
    hide ToInsert, GetNext, IsClear, SyncQueue.Cleaned, IsQueue, SetState, JobsOf;
    var t := Step(s, e);
    match e
    case AddRead(call) => ReadIsClear(s.jobs, call);
    case AddInsert(n) =>
      forall k | 0 <= k < |t.requests| ensures IsClear(t.jobs, t.requests[k]) {
        InsertStaysClear(s, n, if k < n then k else k + 1);
      }
    case Pick(owner) =>
      var next := GetNext(s.jobs, owner, s.isFirstSync);
      if next.Some? {
        forall k | 0 <= k < |s.requests| ensures IsClear(t.jobs, s.requests[k]) {
          StateStaysClear(s.jobs, next.value, Locked, s.requests[k]);
        }
      }
    case End(state) =>
      forall k | 0 <= k < |s.requests| ensures IsClear(t.jobs, s.requests[k]) {
        StateStaysClear(s.jobs, s.running.value, state, s.requests[k]);
      }
    case Abandon =>
    case Clean(updatedAt) =>
      forall k | 0 <= k < |s.requests| ensures IsClear(t.jobs, s.requests[k]) {
        CleanStaysClear(s.jobs, t.jobs, s.requests[k]);
      }
    case Restart =>
  }

  /** As long as no owner has two calls of `add` on the way at once, no owner ever has two pending jobs
      for one collection. */
  lemma {:induction false} AloneNeverDuplicates(s: State, events: seq<Event>, t: State)
    requires IsSound(s) && HasNoDuplicates(s.jobs) && AreClear(s) && Leads(s, events, t)
    requires AlwaysBeginsAlone(s, events)
    ensures AlwaysInsertsClear(s, events) && NeverHasDuplicates(s, events) && HasNoDuplicates(t.jobs)
    decreases |events|
  {
    hide IsSound, Step, HasNoDuplicates, InsertsClear, AreClear, BeginsAlone;
    if events != [] {
      StepKeepsClear(s, events[0]);
      StepIsSound(s, events[0]);
      StepMakesDuplicates(s, events[0]);
      AloneNeverDuplicates(Step(s, events[0]), events[1..], t);
    }
  }

  /** The default call of one user. */
  const SYNC_NOW := AddCall([ALL], Some(1), false, {1})

  const ASKED := Request([ALL], Some(1), false)
  const ONE := Job(1, ALL, New, Some(1), false)
  const TWO := Job(2, ALL, New, Some(1), false)
  const CLASH := State([ONE, TWO], 3, [], true, None)

  lemma LeadsOn(s: State, e: Event, next: State, rest: seq<Event>, t: State)
    requires CanHappen(s, e) && Step(s, e) == next && Leads(next, rest, t)
    ensures Leads(s, [e] + rest, t)
  {
    assert ([e] + rest)[1..] == rest;
  }

  lemma BothRead()
    ensures CanHappen(INITIAL, AddRead(SYNC_NOW))
    ensures Step(INITIAL, AddRead(SYNC_NOW)) == INITIAL.(requests := [ASKED])
    ensures Step(INITIAL.(requests := [ASKED]), AddRead(SYNC_NOW)) == INITIAL.(requests := [ASKED, ASKED])
  {
    assert VisibleTo(SYNC_NOW, []) == [];
  }

  lemma BothInsert()
    ensures Step(INITIAL.(requests := [ASKED, ASKED]), AddInsert(0)) == State([ONE], 2, [ASKED], true, None)
    ensures Step(State([ONE], 2, [ASKED], true, None), AddInsert(0)) == CLASH
  {
    assert JobsOf(ASKED, 1) == [ONE] && JobsOf(ASKED, 2) == [TWO];
  }

  /** Two overlapping calls that name no collection twice: both read the empty queue, both insert, and
      the user has two pending jobs for everything. */
  lemma OverlappingCallsDuplicate()
    ensures Leads(INITIAL, [AddRead(SYNC_NOW), AddRead(SYNC_NOW), AddInsert(0), AddInsert(0)], CLASH)
    ensures IsDistinct(SYNC_NOW.colls) && HasNoDuplicates(INITIAL.jobs) && !HasNoDuplicates(CLASH.jobs)
  {
    BothRead();
    BothInsert();
    hide Step, Requested, JobsOf;
    var insert := AddInsert(0);
    LeadsOn(State([ONE], 2, [ASKED], true, None), insert, CLASH, [], CLASH);
    LeadsOn(INITIAL.(requests := [ASKED, ASKED]), insert, State([ONE], 2, [ASKED], true, None), [insert], CLASH);
    LeadsOn(INITIAL.(requests := [ASKED]), AddRead(SYNC_NOW), INITIAL.(requests := [ASKED, ASKED]), [insert, insert],
            CLASH);
    LeadsOn(INITIAL, AddRead(SYNC_NOW), INITIAL.(requests := [ASKED]), [AddRead(SYNC_NOW), insert, insert], CLASH);
    assert CLASH.jobs[0].collName == CLASH.jobs[1].collName;
    assert [insert] + [] == [insert] && [insert] + [insert] == [insert, insert];
    assert [AddRead(SYNC_NOW)] + [insert, insert] == [AddRead(SYNC_NOW), insert, insert];
    assert [AddRead(SYNC_NOW)] + [AddRead(SYNC_NOW), insert, insert]
        == [AddRead(SYNC_NOW), AddRead(SYNC_NOW), insert, insert];
  }

  // ----- Locked jobs

  /** A locked job is the one that runs or, before the first look after a restart, the one that ran
      when the process ended; everything before it is finished. */
  predicate IsAccountedFor(s: State)
  {
    && (s.running.Some? ==> !s.isFirstSync && s.running.value < |s.jobs| && s.jobs[s.running.value].state == Locked)
    && (forall k :: 0 <= k < |s.jobs| && s.jobs[k].state == Locked ==>
          && (s.running == Some(k) || (s.running.None? && s.isFirstSync))
          && AllFinishedBefore(s.jobs, k))
  }

  predicate AllFinishedBefore(jobs: seq<Job>, n: nat)
  {
    forall k :: 0 <= k < n && k < |jobs| ==> jobs[k].state == Finished
  }

  /** The one that looks sees all jobs, and no job is abandoned. */
  predicate LooksAtAll(e: Event) { !e.Abandon? && (e.Pick? ==> e.owner.None?) }

  lemma StepIsAccountedFor(s: State, e: Event)
    requires IsQueue(s.jobs, s.nextId)
    requires IsAccountedFor(s) && CanHappen(s, e) && LooksAtAll(e)
    ensures IsAccountedFor(Step(s, e))
  {
    hide GetNext, ToInsert, SyncQueue.Cleaned, IsQueue, AllFinishedBefore;
    match e
    case AddRead(call) =>
    case AddInsert(n) => AddIsAccountedFor(s, JobsOf(s.requests[n], s.nextId));
    case Pick(owner) => PickIsAccountedFor(s);
    case End(state) =>
    case Abandon =>
    case Clean(updatedAt) => CleanIsAccountedFor(s, updatedAt);
    case Restart =>
  }

  lemma AddIsAccountedFor(s: State, added: seq<Job>)
    requires IsAccountedFor(s) && forall k :: 0 <= k < |added| ==> added[k].state == New
    ensures forall requests, nextId :: IsAccountedFor(State(s.jobs + added, nextId, requests, s.isFirstSync, s.running))
  {
  }

  lemma PickIsAccountedFor(s: State)
    requires IsAccountedFor(s) && s.running.None?
    ensures IsAccountedFor(Step(s, Pick(None)))
  {
    var next := GetNext(s.jobs, None, s.isFirstSync);
    forall k | 0 <= k < |s.jobs| && (next.Some? ==> k < next.value) ensures s.jobs[k].state == Finished {
      assert !IsCandidate(s.jobs[k], None, s.isFirstSync);
    }
  }

  lemma CleanIsAccountedFor(s: State, updatedAt: map<nat, nat>)
    requires IsQueue(s.jobs, s.nextId) && IsAccountedFor(s) && s.running.None?
    ensures IsAccountedFor(Step(s, Clean(updatedAt)))
  {
    hide SyncQueue.Cleaned, IsQueue, AllFinishedBefore;
    var jobs := SyncQueue.Cleaned(s.jobs, updatedAt, s.jobs);
    SyncQueue.CleanedIsQueue(s.jobs, updatedAt, s.jobs, s.nextId);
    forall k | 0 <= k < |jobs| && jobs[k].state == Locked ensures s.isFirstSync && AllFinishedBefore(jobs, k) {
      assert jobs[k] in jobs;
      var p :| 0 <= p < |s.jobs| && s.jobs[p] == jobs[k];
      FewerAreFinished(s.jobs, s.nextId, jobs, p, k);
    }
  }

  lemma FewerAreFinished(jobs: seq<Job>, nextId: nat, rest: seq<Job>, p: nat, k: nat)
    requires IsQueue(jobs, nextId) && IsQueue(rest, nextId) && forall j :: j in rest ==> j in jobs
    requires p < |jobs| && k < |rest| && jobs[p] == rest[k] && AllFinishedBefore(jobs, p)
    ensures AllFinishedBefore(rest, k)
  {
    forall i | 0 <= i < k ensures rest[i].state == Finished {
      assert rest[i] in rest;
      var q :| 0 <= q < |jobs| && jobs[q] == rest[i];
      assert rest[i].id < rest[k].id;
      assert q < p;
    }
  }

  /** Whatever happens, as long as every run looks at all jobs, no job is locked without being synced
      but for the one a restart left behind, until the first look. */
  lemma {:induction false} LockedMeansRunning(s: State, events: seq<Event>, t: State)
    requires IsSound(s) && IsAccountedFor(s) && Leads(s, events, t)
    requires forall e <- events :: LooksAtAll(e)
    ensures IsAccountedFor(t)
    decreases |events|
  {
    hide IsAccountedFor, Step, LooksAtAll;
    if events != [] {
      StepIsAccountedFor(s, events[0]);
      StepIsSound(s, events[0]);
      LockedMeansRunning(Step(s, events[0]), events[1..], t);
    }
  }

  /** After a restart the first look takes up the job that was left behind exactly when the one who
      looks may see it. */
  lemma LeftBehindIsTakenUp(s: State, n: nat, owner: Option<int>)
    requires IsAccountedFor(s) && s.running == Some(n)
    ensures var t := Step(Step(s, Restart), Pick(owner));
            && (t.running == Some(n) <==> IsVisibleToProcess(s.jobs[n], owner))
            && (t.running != Some(n) ==> t.jobs[n].state == Locked && !t.isFirstSync)
  {
    hide GetNext;
    var next := GetNext(s.jobs, owner, true);
    assert forall k :: 0 <= k < n ==> s.jobs[k].state == Finished;
  }

  predicate IsStuck(s: State, id: nat)
  {
    && !s.isFirstSync
    && exists k :: 0 <= k < |s.jobs| && s.jobs[k].id == id && s.jobs[k].state == Locked && s.running != Some(k)
  }

  /** A job abandoned by a failed update is stuck. */
  lemma AbandonedIsStuck(s: State)
    requires IsSound(s) && CanHappen(s, Abandon)
    ensures IsStuck(Step(s, Abandon), s.jobs[s.running.value].id)
  {
    assert Step(s, Abandon).jobs[s.running.value] == s.jobs[s.running.value];
  }

  lemma StepStaysStuck(s: State, e: Event, id: nat)
    requires IsQueue(s.jobs, s.nextId) && IsStuck(s, id) && CanHappen(s, e) && !e.Restart?
    ensures IsStuck(Step(s, e), id)
  {
    hide ToInsert, GetNext, SyncQueue.Cleaned;
    var k :| 0 <= k < |s.jobs| && s.jobs[k].id == id && s.jobs[k].state == Locked && s.running != Some(k);
    var t := Step(s, e);
    if e.Clean? {
      assert s.jobs[k] in t.jobs;
      var p :| 0 <= p < |t.jobs| && t.jobs[p] == s.jobs[k];
    } else {
      assert t.jobs[k] == s.jobs[k];
    }
  }

  /** A job that is not taken up then stays locked, whatever happens, until the next restart. */
  lemma {:induction false} NotTakenUpStaysLocked(s: State, events: seq<Event>, t: State, id: nat)
    requires IsSound(s) && IsStuck(s, id) && Leads(s, events, t)
    requires forall e <- events :: !e.Restart?
    ensures IsStuck(t, id)
    decreases |events|
  {
    hide IsStuck, Step;
    if events != [] {
      StepStaysStuck(s, events[0], id);
      StepIsSound(s, events[0]);
      NotTakenUpStaysLocked(Step(s, events[0]), events[1..], t, id);
    }
  }
}
