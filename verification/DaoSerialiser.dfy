/** Who waits for whom in the data access layer.

A queued query waits for the transactions that are pending when it is called; a transaction waits
for the queries that are pending when it is called, then enters the global serialiser, where it
waits for the bodies that are pending when it enters. A promise stays in its set until some time
after it has settled. Everything between two awaits is one step; the steps of the pending calls
interleave freely. A call is named by its number in the order of the calls. */
module DaoSerialiser {

  datatype Kind = Query | Trans

  /** A transaction goes through all phases; a query is never `Entered`, `Finished` or `Left`. A finished
      body has settled, a transaction that has left the serialiser has taken its body from the set. */
  datatype Phase = Waiting | Entered | Running | Finished | Left | Settled

  /** `waits` is the set of promises taken at the call, `turnWaits` the one taken on entering the
      serialiser. */
  datatype Op = Op(kind: Kind, phase: Phase, waits: set<nat>, turnWaits: set<nat>)

  /** `entered` and `started` record in which order bodies entered the serialiser and began. */
  datatype State = State(
    ops: seq<Op>, querySet: set<nat>, transQuerySet: set<nat>, transactionPromisesSet: set<nat>,
    entered: seq<nat>, started: seq<nat>)

  const INITIAL := State([], {}, {}, {}, [], [])

  datatype Action =
    | CallQuery
    | CallTrans
    | StartQuery(id: nat)
    | SettleQuery(id: nat)
    | DropQuery(id: nat)
    | EnterSerialiser(id: nat)
    | StartBody(id: nat)
    | FinishBody(id: nat)
    | LeaveSerialiser(id: nat)
    | SettleTrans(id: nat)
    | DropTrans(id: nat)

  predicate Is(s: State, id: nat, kind: Kind, phase: Phase)
  {
    id < |s.ops| && s.ops[id].kind == kind && s.ops[id].phase == phase
  }

  predicate IsSettled(s: State, id: nat) { id < |s.ops| && s.ops[id].phase == Settled }

  /** The promise of the body has settled, though the call around it may not have returned yet. */
  predicate IsBodyDone(s: State, id: nat) { id < |s.ops| && s.ops[id].phase in {Finished, Left, Settled} }

  predicate Enabled(s: State, a: Action)
  {
    match a
    case CallQuery => true
    case CallTrans => true
    case StartQuery(id) => Is(s, id, Query, Waiting) && forall w <- s.ops[id].waits :: IsSettled(s, w)
    case SettleQuery(id) => Is(s, id, Query, Running)
    case DropQuery(id) => Is(s, id, Query, Settled) && id in s.querySet
    case EnterSerialiser(id) => Is(s, id, Trans, Waiting) && forall w <- s.ops[id].waits :: IsSettled(s, w)
    case StartBody(id) => Is(s, id, Trans, Entered) && forall w <- s.ops[id].turnWaits :: IsBodyDone(s, w)
    case FinishBody(id) => Is(s, id, Trans, Running)
    case LeaveSerialiser(id) => Is(s, id, Trans, Finished)
    case SettleTrans(id) => Is(s, id, Trans, Left)
    case DropTrans(id) => Is(s, id, Trans, Settled) && id in s.transQuerySet
  }

  function SetPhase(s: State, id: nat, phase: Phase): State
    requires id < |s.ops|
  {
    s.(ops := s.ops[id := s.ops[id].(phase := phase)])
  }

  function Apply(s: State, a: Action): State
    requires Enabled(s, a)
  {
    var n := |s.ops|;
    match a
    case CallQuery =>
      s.(ops := s.ops + [Op(Query, Waiting, s.transQuerySet, {})], querySet := s.querySet + {n})
    case CallTrans =>
      s.(ops := s.ops + [Op(Trans, Waiting, s.querySet, {})], transQuerySet := s.transQuerySet + {n})
    case StartQuery(id) => SetPhase(s, id, Running)
    case SettleQuery(id) => SetPhase(s, id, Settled)
    case DropQuery(id) => s.(querySet := s.querySet - {id})
    case EnterSerialiser(id) =>
      s.(ops := s.ops[id := s.ops[id].(phase := Entered, turnWaits := s.transactionPromisesSet)],
         transactionPromisesSet := s.transactionPromisesSet + {id}, entered := s.entered + [id])
    case StartBody(id) => SetPhase(s, id, Running).(started := s.started + [id])
    case FinishBody(id) => SetPhase(s, id, Finished)
    case LeaveSerialiser(id) => SetPhase(s, id, Left).(transactionPromisesSet := s.transactionPromisesSet - {id})
    case SettleTrans(id) => SetPhase(s, id, Settled)
    case DropTrans(id) => s.(transQuerySet := s.transQuerySet - {id})
  }

  // ----- The invariant

  predicate HasId(s: State, id: nat, kind: Kind) { id < |s.ops| && s.ops[id].kind == kind }

  /** The sets hold calls of their kind, and no pending one is missing. */
  ghost predicate SetsAreRight(s: State)
  {
    && (forall id <- s.querySet :: HasId(s, id, Query))
    && (forall id <- s.transQuerySet :: HasId(s, id, Trans))
    && (forall id: nat :: HasId(s, id, Query) && !IsSettled(s, id) ==> id in s.querySet)
    && (forall id: nat :: HasId(s, id, Trans) && !IsSettled(s, id) ==> id in s.transQuerySet)
    && (forall id: nat :: HasId(s, id, Query) ==> s.ops[id].phase !in {Entered, Finished, Left})
  }

  /** Of a query and a transaction, the later one waits for the earlier one unless that has settled;
      and whoever has gone on has everything it waited for behind it. */
  ghost predicate WaitsAreRight(s: State)
  {
    && (forall a: nat, b: nat :: a < b < |s.ops| && s.ops[a].kind != s.ops[b].kind && !IsSettled(s, a)
                                 ==> a in s.ops[b].waits)
    && (forall id: nat, w: nat :: id < |s.ops| && w in s.ops[id].waits ==> w < id)
    && (forall id: nat, w: nat :: id < |s.ops| && s.ops[id].phase != Waiting && w in s.ops[id].waits
                                  ==> IsSettled(s, w))
  }

  predicate HasEntered(s: State, id: nat) { HasId(s, id, Trans) && s.ops[id].phase != Waiting }

  predicate HasStarted(s: State, id: nat) { HasId(s, id, Trans) && s.ops[id].phase !in {Waiting, Entered} }

  predicate HasLeft(s: State, id: nat) { id < |s.ops| && s.ops[id].phase in {Left, Settled} }

  /** `entered` lists the transactions that have entered, each once. */
  ghost predicate EntriesAreRight(s: State)
  {
    && (forall i: nat :: i < |s.entered| ==> HasEntered(s, s.entered[i]))
    && (forall i: nat, j: nat :: i < j < |s.entered| ==> s.entered[i] != s.entered[j])
    && (forall id: nat :: HasEntered(s, id) ==> id in s.entered)
  }

  /** The set of the serialiser holds bodies that entered and have not left, and none that is still to
      settle is missing. */
  ghost predicate PromisesAreRight(s: State)
  {
    && (forall i: nat :: i < |s.entered| && !IsBodyDone(s, s.entered[i]) ==> s.entered[i] in s.transactionPromisesSet)
    && (forall id <- s.transactionPromisesSet :: id in s.entered && !HasLeft(s, id))
  }

  /** A body waits for bodies that entered before it, and for all of those that are still to settle. */
  ghost predicate TurnWaitsAreRight(s: State)
  {
    && (forall i: nat :: i < |s.entered| ==> s.entered[i] < |s.ops|)
    && (forall i: nat, j: nat :: i < j < |s.entered| && !IsBodyDone(s, s.entered[i])
                                 ==> s.entered[i] in s.ops[s.entered[j]].turnWaits)
    && (forall j: nat, w: nat :: j < |s.entered| && w in s.ops[s.entered[j]].turnWaits ==> w in s.entered[..j])
  }

  /** Bodies began in the order of entry, each after the one before had settled. */
  ghost predicate StartsAreRight(s: State)
  {
    && s.started <= s.entered
    && (forall i: nat :: i < |s.entered| ==> (HasStarted(s, s.entered[i]) <==> i < |s.started|))
    && (forall i: nat :: i + 1 < |s.started| ==> IsBodyDone(s, s.entered[i]))
  }

  ghost predicate TurnsAreRight(s: State)
  {
    EntriesAreRight(s) && PromisesAreRight(s) && TurnWaitsAreRight(s) && StartsAreRight(s)
  }

  ghost predicate Inv(s: State) { SetsAreRight(s) && WaitsAreRight(s) && TurnsAreRight(s) }

  lemma InitialInv()
    ensures Inv(INITIAL)
  {
  }

  lemma SetsStayRight(s: State, a: Action)
    requires Inv(s) && Enabled(s, a)
    ensures SetsAreRight(Apply(s, a))
  {
    hide TurnsAreRight;
  }

  lemma WaitsStayRight(s: State, a: Action)
    requires Inv(s) && Enabled(s, a)
    ensures WaitsAreRight(Apply(s, a))
  {
    hide TurnsAreRight;
    var t := Apply(s, a);
    forall c: nat, b: nat | c < b < |t.ops| && t.ops[c].kind != t.ops[b].kind && !IsSettled(t, c)
      ensures c in t.ops[b].waits
    {
      assert !IsSettled(s, c);
      if b == |s.ops| { assert HasId(s, c, Query) || HasId(s, c, Trans); }
    }
    forall id: nat, w: nat | id < |t.ops| && t.ops[id].phase != Waiting && w in t.ops[id].waits
      ensures IsSettled(t, w)
    {
      if id < |s.ops| && s.ops[id].phase != Waiting { assert IsSettled(s, w); }
      assert IsSettled(s, w);
    }
  }

  lemma SameOnEntered(s: State, t: State)
    requires EntriesAreRight(s) && |s.ops| <= |t.ops|
    requires forall id: nat :: id < |s.ops| ==> s.ops[id].kind == t.ops[id].kind
    requires forall id: nat :: HasId(s, id, Trans) ==> s.ops[id] == t.ops[id]
    requires forall id: nat :: |s.ops| <= id < |t.ops| ==> t.ops[id].phase == Waiting
    ensures forall i: nat :: i < |s.entered| ==>
              && HasEntered(s, s.entered[i]) && HasEntered(t, s.entered[i])
              && s.ops[s.entered[i]] == t.ops[s.entered[i]]
    ensures forall id: nat :: HasEntered(t, id) ==> HasEntered(s, id)
  {
    forall i: nat | i < |s.entered| ensures HasEntered(s, s.entered[i]) && HasEntered(t, s.entered[i]) {
      assert HasId(s, s.entered[i], Trans);
    }
    forall id: nat | HasEntered(t, id) ensures HasEntered(s, id) {}
  }

  /** Steps that touch no transaction on its way through the serialiser keep the turns. */
  lemma TurnsUntouched(s: State, t: State)
    requires TurnsAreRight(s) && |s.ops| <= |t.ops|
    requires t.entered == s.entered && t.started == s.started && t.transactionPromisesSet == s.transactionPromisesSet
    requires forall id: nat :: id < |s.ops| ==> s.ops[id].kind == t.ops[id].kind
    requires forall id: nat :: HasId(s, id, Trans) ==> s.ops[id] == t.ops[id]
    requires forall id: nat :: |s.ops| <= id < |t.ops| ==> t.ops[id].phase == Waiting
    ensures TurnsAreRight(t)
  {
    SameOnEntered(s, t);
    hide HasEntered;
    assert EntriesAreRight(t);
    assert forall i: nat :: i < |s.entered| ==> IsBodyDone(s, s.entered[i]) == IsBodyDone(t, s.entered[i]);
    assert forall i: nat :: i < |s.entered| ==> HasStarted(s, s.entered[i]) == HasStarted(t, s.entered[i]);
    hide HasId, IsBodyDone, HasStarted;
  }

  lemma EnteringKeepsEntries(s: State, id: nat)
    requires TurnsAreRight(s) && Enabled(s, EnterSerialiser(id))
    ensures EntriesAreRight(Apply(s, EnterSerialiser(id)))
  {
    hide PromisesAreRight, TurnWaitsAreRight, StartsAreRight;
    var t := Apply(s, EnterSerialiser(id));
    forall i: nat | i < |s.entered| ensures s.entered[i] != id { assert HasEntered(s, s.entered[i]); }
    forall k: nat | HasEntered(t, k) ensures k in t.entered {
      if k == id { assert t.entered[|s.entered|] == id; } else { assert HasEntered(s, k); }
    }
  }

  lemma EnteringKeepsPromises(s: State, id: nat)
    requires TurnsAreRight(s) && Enabled(s, EnterSerialiser(id))
    ensures PromisesAreRight(Apply(s, EnterSerialiser(id)))
  {
    hide TurnWaitsAreRight, StartsAreRight, EntriesAreRight;
    var t := Apply(s, EnterSerialiser(id));
    assert t.entered[|s.entered|] == id;
    forall i: nat | i < |t.entered| && !IsBodyDone(t, t.entered[i]) ensures t.entered[i] in t.transactionPromisesSet {
      if i < |s.entered| { assert s.entered[i] == t.entered[i]; }
    }
  }

  lemma EnteringLeavesOthers(s: State, id: nat)
    requires EntriesAreRight(s) && Enabled(s, EnterSerialiser(id))
    ensures var t := Apply(s, EnterSerialiser(id));
            && t.entered == s.entered + [id] && id < |s.ops| == |t.ops|
            && t.ops[id].turnWaits == s.transactionPromisesSet
            && forall i: nat :: i < |s.entered| ==>
                 s.entered[i] < |s.ops| && s.entered[i] != id && t.ops[s.entered[i]] == s.ops[s.entered[i]]
  {
    forall i: nat | i < |s.entered| ensures s.entered[i] != id && s.entered[i] < |s.ops| {
      assert HasEntered(s, s.entered[i]);
    }
  }

  lemma EnteringKeepsTurnWaits(s: State, id: nat)
    requires TurnsAreRight(s) && Enabled(s, EnterSerialiser(id))
    ensures TurnWaitsAreRight(Apply(s, EnterSerialiser(id)))
  {
    EnteringLeavesOthers(s, id);
    hide EntriesAreRight, StartsAreRight, Enabled, Apply;
    var t := Apply(s, EnterSerialiser(id));
    var n := |s.entered|;
    forall i: nat, j: nat | i < j < |t.entered| && !IsBodyDone(t, t.entered[i])
      ensures t.entered[i] in t.ops[t.entered[j]].turnWaits
    {
      assert t.entered[i] == s.entered[i] && !IsBodyDone(s, s.entered[i]);
      if j < n { assert s.entered[i] in s.ops[s.entered[j]].turnWaits; }
    }
    forall j: nat, w: nat | j < |t.entered| && w in t.ops[t.entered[j]].turnWaits ensures w in t.entered[..j] {
      if j < n { assert t.entered[..j] == s.entered[..j]; } else { assert t.entered[..j] == s.entered; }
    }
  }

  lemma EnteringKeepsStarts(s: State, id: nat)
    requires TurnsAreRight(s) && Enabled(s, EnterSerialiser(id))
    ensures StartsAreRight(Apply(s, EnterSerialiser(id)))
  {
    var t := Apply(s, EnterSerialiser(id));
    var n := |s.entered|;
    forall i: nat | i < n ensures s.entered[i] != id && t.entered[i] == s.entered[i] {
      assert HasEntered(s, s.entered[i]);
    }
    assert t.entered[n] == id;
    hide EntriesAreRight, PromisesAreRight, TurnWaitsAreRight;
  }

  lemma EnteringKeepsTurns(s: State, id: nat)
    requires TurnsAreRight(s) && Enabled(s, EnterSerialiser(id))
    ensures TurnsAreRight(Apply(s, EnterSerialiser(id)))
  {
    hide EntriesAreRight, PromisesAreRight, TurnWaitsAreRight, StartsAreRight, Apply;
    EnteringKeepsEntries(s, id);
    EnteringKeepsPromises(s, id);
    EnteringKeepsTurnWaits(s, id);
    EnteringKeepsStarts(s, id);
  }

  /** A body can only start when it is the next one in the order of entry. */
  lemma NextInTurn(s: State, id: nat)
    requires TurnsAreRight(s) && Enabled(s, StartBody(id))
    ensures |s.started| < |s.entered| && s.entered[|s.started|] == id
    ensures forall i: nat :: i < |s.started| ==> IsBodyDone(s, s.entered[i])
  {
    assert HasEntered(s, id);
    var j: nat :| j < |s.entered| && s.entered[j] == id;
    forall i: nat | i < j ensures IsBodyDone(s, s.entered[i]) {
      assert s.entered[i] in s.ops[id].turnWaits || IsBodyDone(s, s.entered[i]);
    }
    forall i: nat | i < j ensures HasStarted(s, s.entered[i]) { assert HasEntered(s, s.entered[i]); }
    assert !HasStarted(s, id);
  }

  /** Most of the turns only needs that phases of entered transactions move forward. */
  lemma PhaseKeepsTurns(s: State, id: nat, phase: Phase)
    requires TurnsAreRight(s) && HasEntered(s, id) && phase in {Running, Finished, Left, Settled}
    requires IsBodyDone(s, id) ==> phase in {Finished, Left, Settled}
    ensures var t := SetPhase(s, id, phase);
            && (forall k: nat :: IsBodyDone(s, k) ==> IsBodyDone(t, k))
            && (forall k: nat :: k != id ==>
                  IsBodyDone(t, k) == IsBodyDone(s, k) && HasStarted(t, k) == HasStarted(s, k))
            && (forall k: nat :: HasEntered(t, k) == HasEntered(s, k))
            && (forall k: nat :: k != id ==> HasLeft(t, k) == HasLeft(s, k))
            && (HasLeft(t, id) <==> phase in {Left, Settled})
            && |t.ops| == |s.ops| && (forall k: nat :: k < |s.ops| ==> t.ops[k].turnWaits == s.ops[k].turnWaits)
            && HasStarted(t, id)
  {
    hide TurnsAreRight;
  }

  /** A step that only moves the phase of an entered body forward keeps all but the starts. */
  lemma PhaseKeepsOrder(s: State, t: State, id: nat, phase: Phase)
    requires TurnsAreRight(s) && HasEntered(s, id) && phase in {Running, Finished, Left, Settled}
    requires IsBodyDone(s, id) ==> phase in {Finished, Left, Settled}
    requires t.ops == SetPhase(s, id, phase).ops && t.entered == s.entered
    requires phase == Settled ==> HasLeft(s, id)
    requires t.transactionPromisesSet == s.transactionPromisesSet - (if phase == Left then {id} else {})
    ensures EntriesAreRight(t) && PromisesAreRight(t) && TurnWaitsAreRight(t)
  {
    hide StartsAreRight;
    PhaseKeepsTurns(s, id, phase);
    hide SetPhase;
    assert forall k: nat :: IsBodyDone(t, k) == IsBodyDone(SetPhase(s, id, phase), k);
    assert forall k: nat :: HasEntered(t, k) == HasEntered(SetPhase(s, id, phase), k);
    assert forall k: nat :: k != id ==> HasLeft(t, k) == HasLeft(s, k);
    assert |t.ops| == |s.ops|;
  }

  lemma StartingKeepsTurns(s: State, id: nat)
    requires TurnsAreRight(s) && Enabled(s, StartBody(id))
    ensures TurnsAreRight(Apply(s, StartBody(id)))
  {
    NextInTurn(s, id);
    PhaseKeepsTurns(s, id, Running);
    var t := Apply(s, StartBody(id));
    PhaseKeepsOrder(s, t, id, Running);
    assert t.started == s.entered[..|s.started| + 1];
    hide PromisesAreRight, TurnWaitsAreRight;
  }

  /** A body that has started goes on to its next phases. */
  lemma GoingOnKeepsTurns(s: State, a: Action, id: nat, phase: Phase)
    requires TurnsAreRight(s) && Enabled(s, a) && HasStarted(s, id) && (IsBodyDone(s, id) || phase == Finished)
    requires phase in {Finished, Left, Settled} && Apply(s, a).ops == SetPhase(s, id, phase).ops
    requires Apply(s, a).entered == s.entered && Apply(s, a).started == s.started
    requires phase == Settled ==> HasLeft(s, id)
    requires Apply(s, a).transactionPromisesSet == s.transactionPromisesSet - (if phase == Left then {id} else {})
    ensures TurnsAreRight(Apply(s, a))
  {
    hide PromisesAreRight, TurnWaitsAreRight, Apply;
    PhaseKeepsTurns(s, id, phase);
    PhaseKeepsOrder(s, Apply(s, a), id, phase);
  }

  lemma TurnsStayRight(s: State, a: Action)
    requires Inv(s) && Enabled(s, a)
    ensures TurnsAreRight(Apply(s, a))
  {
    match a
    case EnterSerialiser(id) => EnteringKeepsTurns(s, id);
    case StartBody(id) => StartingKeepsTurns(s, id);
    case FinishBody(id) => GoingOnKeepsTurns(s, a, id, Finished);
    case LeaveSerialiser(id) => GoingOnKeepsTurns(s, a, id, Left);
    case SettleTrans(id) => GoingOnKeepsTurns(s, a, id, Settled);
    case _ =>
      hide WaitsAreRight, SetsAreRight;
      TurnsUntouched(s, Apply(s, a));
  }

  // ----- Whole runs

  /** The states a run goes through, starting from nothing pending. */
  ghost predicate IsRun(actions: seq<Action>, states: seq<State>)
  {
    && |states| == |actions| + 1 && states[0] == INITIAL
    && forall k :: 0 <= k < |actions| ==>
         Enabled(states[k], actions[k]) && states[k + 1] == Apply(states[k], actions[k])
  }

  lemma {:induction false} InvHoldsAlways(actions: seq<Action>, states: seq<State>, k: nat)
    requires IsRun(actions, states) && k < |states|
    ensures Inv(states[k])
  {
    hide Inv, Enabled, Apply;
    if k == 0 {
      InitialInv();
    } else {
      InvHoldsAlways(actions, states, k - 1);
      StepKeepsInv(states[k - 1], actions[k - 1]);
    }
  }

  lemma StepKeepsInv(s: State, a: Action)
    requires Inv(s) && Enabled(s, a)
    ensures Inv(Apply(s, a))
  {
    SetsStayRight(s, a);
    WaitsStayRight(s, a);
    TurnsStayRight(s, a);
  }

  lemma LaterWaits(s: State, a: nat, b: nat)
    requires WaitsAreRight(s) && a < b < |s.ops| && s.ops[a].kind != s.ops[b].kind
    ensures IsSettled(s, a) || a in s.ops[b].waits
  {
  }

  /** Of a query that runs and a transaction that has entered, the later one had waited for the other. */
  lemma NoQueryBetween(s: State, body: nat, query: nat)
    requires WaitsAreRight(s) && HasEntered(s, body) && Is(s, query, Query, Running)
    ensures IsSettled(s, body)
  {
    var first, second := if body < query then body else query, if body < query then query else body;
    LaterWaits(s, first, second);
    assert s.ops[second].phase != Waiting;
    assert IsSettled(s, first);
    assert !IsSettled(s, query);
  }

  lemma EarlierBodiesAreDone(s: State, body: nat, other: nat)
    requires EntriesAreRight(s) && StartsAreRight(s) && body != other
    requires Is(s, body, Trans, Running) && HasStarted(s, other)
    ensures IsBodyDone(s, other)
  {
    assert HasEntered(s, body) && HasEntered(s, other);
    var i, j := Position(s.entered, body), Position(s.entered, other);
    assert HasStarted(s, s.entered[i]) && HasStarted(s, s.entered[j]);
    assert i != j;
  }

  /** While a body runs, nothing else does. */
  lemma RunsAlone(s: State, body: nat, other: nat)
    requires Inv(s) && Is(s, body, Trans, Running) && other < |s.ops| && other != body
    ensures s.ops[other].phase != Running
  {
    if Is(s, other, Query, Running) { NoQueryBetween(s, body, other); }
    hide WaitsAreRight, SetsAreRight;
    if HasStarted(s, other) { EarlierBodiesAreDone(s, body, other); }
  }

  /** In every interleaving no two transaction bodies overlap, and from the moment a transaction enters
      the serialiser until its call has settled no queued query executes. */
  lemma NothingOverlaps(actions: seq<Action>, states: seq<State>, k: nat, body: nat, other: nat)
    requires IsRun(actions, states) && k < |states| && other != body
    ensures Is(states[k], body, Trans, Running) ==> !Is(states[k], other, Trans, Running)
    ensures HasEntered(states[k], body) && !IsSettled(states[k], body) ==> !Is(states[k], other, Query, Running)
  {
    hide IsRun;
    InvHoldsAlways(actions, states, k);
    var s := states[k];
    if Is(s, body, Trans, Running) && other < |s.ops| { RunsAlone(s, body, other); }
    if Is(s, other, Query, Running) && HasEntered(s, body) { NoQueryBetween(s, body, other); }
  }

  /** Bodies run in the order in which they enter the serialiser, and each begins after every one
      before it has settled. */
  lemma BodiesRunInOrder(actions: seq<Action>, states: seq<State>, k: nat)
    requires IsRun(actions, states) && k < |states|
    ensures states[k].started <= states[k].entered
    ensures forall i :: 0 <= i < |states[k].started| - 1 ==> IsBodyDone(states[k], states[k].started[i])
  {
    hide IsRun;
    InvHoldsAlways(actions, states, k);
  }

  // ----- Progress

  predicate IsCall(a: Action) { a == CallQuery || a == CallTrans }

  /** What a pending call still waits for. */
  ghost predicate WaitsFor(s: State, a: nat, b: nat)
  {
    && a < |s.ops| && b < |s.ops|
    && ((s.ops[a].phase == Waiting && b in s.ops[a].waits && !IsSettled(s, b))
        || (s.ops[a].phase == Entered && b in s.ops[a].turnWaits && !IsBodyDone(s, b)))
  }

  /** The position of a call in an order that `WaitsFor` always descends: first the bodies in the
      order of entry, then the rest in the order of the calls. */
  ghost function Rank(s: State, id: nat): (int, int)
  {
    if HasEntered(s, id) && id in s.entered then (0, Position(s.entered, id)) else (1, id)
  }

  ghost function Position(ids: seq<nat>, id: nat): nat
    requires id in ids
    ensures Position(ids, id) < |ids| && ids[Position(ids, id)] == id
  {
    var i: nat :| i < |ids| && ids[i] == id;
    i
  }

  predicate Below(a: (int, int), b: (int, int)) { a.0 < b.0 || (a.0 == b.0 && a.1 < b.1) }

  /** So the waits-for relation has no cycle. */
  lemma WaitsForDescends(actions: seq<Action>, states: seq<State>, k: nat, a: nat, b: nat)
    requires IsRun(actions, states) && k < |states| && WaitsFor(states[k], a, b)
    ensures Below(Rank(states[k], b), Rank(states[k], a))
  {
    hide IsRun;
    InvHoldsAlways(actions, states, k);
    var s := states[k];
    if s.ops[a].phase == Entered {
      assert HasEntered(s, a) by { assert s.ops[a].kind == Trans; }
      var j := Position(s.entered, a);
      assert b in s.entered[..j];
      var i: nat :| i < j && s.entered[i] == b;
      assert HasEntered(s, s.entered[i]);
      var p := Position(s.entered, b);
      assert p == i;
    }
  }

  /** Steps left until a call is over and out of its set. */
  function StepsOf(s: State, id: nat): nat
    requires id < |s.ops|
  {
    var op := s.ops[id];
    var inSet := if id in s.querySet || id in s.transQuerySet then 1 else 0;
    match op.phase
    case Waiting => if op.kind == Query then 3 else 6
    case Entered => 5
    case Running => if op.kind == Query then 2 else 4
    case Finished => 3
    case Left => 2
    case Settled => inSet
  }

  function StepsLeft(s: State, n: nat): nat
    requires n <= |s.ops|
  {
    if n == 0 then 0 else StepsLeft(s, n - 1) + StepsOf(s, n - 1)
  }

  lemma {:induction false} StepsElsewhere(s: State, t: State, n: nat)
    requires n <= |s.ops| && n <= |t.ops|
    requires forall k: nat :: k < n ==> StepsOf(s, k) == StepsOf(t, k)
    ensures StepsLeft(s, n) == StepsLeft(t, n)
  {
    if n > 0 { StepsElsewhere(s, t, n - 1); }
  }

  lemma {:induction false} OneStepLess(s: State, t: State, n: nat, id: nat)
    requires id < n <= |s.ops| && n <= |t.ops|
    requires forall k: nat :: k < n && k != id ==> StepsOf(s, k) == StepsOf(t, k)
    requires StepsOf(t, id) + 1 == StepsOf(s, id)
    ensures StepsLeft(t, n) + 1 == StepsLeft(s, n)
  {
    if id == n - 1 { StepsElsewhere(s, t, n - 1); } else { OneStepLess(s, t, n - 1, id); }
  }

  function Subject(a: Action): nat
    requires !IsCall(a)
  {
    match a
    case StartQuery(id) => id
    case SettleQuery(id) => id
    case DropQuery(id) => id
    case EnterSerialiser(id) => id
    case StartBody(id) => id
    case FinishBody(id) => id
    case LeaveSerialiser(id) => id
    case SettleTrans(id) => id
    case DropTrans(id) => id
  }

  lemma StepsOfSubject(s: State, a: Action, k: nat)
    requires SetsAreRight(s) && Enabled(s, a) && !IsCall(a) && k < |s.ops|
    ensures var t := Apply(s, a);
            |t.ops| == |s.ops| && StepsOf(s, k) == StepsOf(t, k) + if k == Subject(a) then 1 else 0
  {
  }

  /** Every step but a new call uses up one of the steps that are left. */
  lemma EveryStepCounts(s: State, a: Action)
    requires Inv(s) && Enabled(s, a) && !IsCall(a)
    ensures |Apply(s, a).ops| == |s.ops|
    ensures StepsLeft(Apply(s, a), |s.ops|) + 1 == StepsLeft(s, |s.ops|)
  {
    hide WaitsAreRight, TurnsAreRight, StepsOf, Apply;
    assert Subject(a) < |s.ops|;
    StepsOfSubject(s, a, Subject(a));
    hide Enabled;
    forall k: nat | k < |s.ops|
      ensures StepsOf(s, k) == StepsOf(Apply(s, a), k) + if k == Subject(a) then 1 else 0
    {
      StepsOfSubject(s, a, k);
    }
    OneStepLess(s, Apply(s, a), |s.ops|, Subject(a));
  }

  /** As long as steps are left one of them can be taken, so nothing ever waits forever: the calls
      that are pending all settle and leave the sets, whatever the interleaving. */
  lemma NobodyWaitsForever(actions: seq<Action>, states: seq<State>, k: nat) returns (a: Action)
    requires IsRun(actions, states) && k < |states| && StepsLeft(states[k], |states[k].ops|) > 0
    ensures !IsCall(a) && Enabled(states[k], a)
    ensures |Apply(states[k], a).ops| == |states[k].ops|
    ensures StepsLeft(Apply(states[k], a), |states[k].ops|) + 1 == StepsLeft(states[k], |states[k].ops|)
  {
    hide IsRun;
    InvHoldsAlways(actions, states, k);
    a := SomeStep(states[k]);
    EveryStepCounts(states[k], a);
  }

  /** The one step that a call can take next. */
  function NextOf(s: State, id: nat): Action
    requires id < |s.ops|
  {
    var isQuery := s.ops[id].kind == Query;
    match s.ops[id].phase
    case Waiting => if isQuery then StartQuery(id) else EnterSerialiser(id)
    case Entered => StartBody(id)
    case Running => if isQuery then SettleQuery(id) else FinishBody(id)
    case Finished => LeaveSerialiser(id)
    case Left => SettleTrans(id)
    case Settled => if isQuery then DropQuery(id) else DropTrans(id)
  }

  /** When no call can take its next step nothing is left. */
  lemma StuckIsDone(s: State)
    requires Inv(s) && forall id: nat :: id < |s.ops| ==> !Enabled(s, NextOf(s, id))
    ensures StepsLeft(s, |s.ops|) == 0
  {
    hide Inv, Enabled, StepsLeft;
    if StepsLeft(s, |s.ops|) > 0 { var id := SomeCallGoesOn(s); }
  }

  lemma SomeCallGoesOn(s: State) returns (id: nat)
    requires Inv(s) && StepsLeft(s, |s.ops|) > 0
    ensures id < |s.ops| && Enabled(s, NextOf(s, id))
  {
    hide Inv, StepsLeft;
    var a := SomeStep(s);
    id := Subject(a);
    assert a == NextOf(s, id);
  }

  /** From any state of any run, calls not counted, exactly the steps that are left can be taken, in
      whatever order, and then all is over. */
  lemma {:induction false} SchedulesEnd(actions: seq<Action>, states: seq<State>, k: nat)
    requires IsRun(actions, states) && k < |states|
    requires forall j :: k <= j < |actions| ==> !IsCall(actions[j])
    ensures |states[|actions|].ops| == |states[k].ops|
    ensures |actions| - k + StepsLeft(states[|actions|], |states[k].ops|) == StepsLeft(states[k], |states[k].ops|)
    ensures |actions| - k == StepsLeft(states[k], |states[k].ops|) ==> IsOver(states[|actions|])
    decreases |actions| - k
  {
    hide Inv, Enabled, Apply, StepsLeft, IsOver;
    InvHoldsAlways(actions, states, k);
    if k < |actions| {
      EveryStepCounts(states[k], actions[k]);
      SchedulesEnd(actions, states, k + 1);
    } else if StepsLeft(states[k], |states[k].ops|) == 0 {
      NothingLeftIsOver(states[k]);
    }
  }

  predicate IsOver(s: State)
  {
    && (forall id :: 0 <= id < |s.ops| ==> IsSettled(s, id))
    && s.querySet == {} && s.transQuerySet == {} && s.transactionPromisesSet == {}
  }

  /** When no steps are left all calls have settled and have left the sets. */
  lemma NothingLeftIsOver(s: State)
    requires Inv(s) && StepsLeft(s, |s.ops|) == 0
    ensures IsOver(s)
  {
    hide WaitsAreRight, TurnsAreRight;
    forall id: nat | id < |s.ops| ensures IsSettled(s, id) && id !in s.querySet && id !in s.transQuerySet {
      NoneIsLeft(s, |s.ops|, id);
    }
    forall id: nat ensures id !in s.querySet && id !in s.transQuerySet {
      assert id in s.querySet ==> HasId(s, id, Query);
      assert id in s.transQuerySet ==> HasId(s, id, Trans);
    }
    NobodyIsInside(s);
  }

  lemma {:induction false} NoneIsLeft(s: State, n: nat, id: nat)
    requires id < n <= |s.ops| && StepsLeft(s, n) == 0
    ensures StepsOf(s, id) == 0
  {
    if id < n - 1 { NoneIsLeft(s, n - 1, id); }
  }

  /** The serialiser's set holds only bodies that have not left it. */
  lemma NobodyIsInside(s: State)
    requires TurnsAreRight(s) && forall id :: 0 <= id < |s.ops| ==> IsSettled(s, id)
    ensures s.transactionPromisesSet == {}
  {
    hide TurnWaitsAreRight, StartsAreRight;
    forall id: nat ensures id !in s.transactionPromisesSet {
      if id in s.entered {
        var i: nat :| i < |s.entered| && s.entered[i] == id;
        assert HasEntered(s, s.entered[i]) && IsSettled(s, id) && HasLeft(s, id);
      }
    }
  }

  lemma {:induction false} SomethingIsLeft(s: State, n: nat) returns (id: nat)
    requires n <= |s.ops| && StepsLeft(s, n) > 0
    ensures id < n && StepsOf(s, id) > 0
  {
    if StepsOf(s, n - 1) > 0 { id := n - 1; } else { id := SomethingIsLeft(s, n - 1); }
  }

  lemma SomeStep(s: State) returns (a: Action)
    requires Inv(s) && StepsLeft(s, |s.ops|) > 0
    ensures !IsCall(a) && Enabled(s, a)
  {
    var id := SomethingIsLeft(s, |s.ops|);
    hide TurnsAreRight, WaitsAreRight;
    if Is(s, id, Query, Running) { return SettleQuery(id); }
    if Is(s, id, Trans, Running) { return FinishBody(id); }
    if Is(s, id, Trans, Finished) { return LeaveSerialiser(id); }
    if Is(s, id, Trans, Left) { return SettleTrans(id); }
    if Is(s, id, Query, Settled) && id in s.querySet { return DropQuery(id); }
    if Is(s, id, Trans, Settled) && id in s.transQuerySet { return DropTrans(id); }
    if Is(s, id, Trans, Entered) { a := StepOfEntered(s, id); return; }
    a := StepOfWaiting(s, id);
  }

  /** If a body waits for its turn, the first one that has not settled can go on. */
  lemma StepOfEntered(s: State, id: nat) returns (a: Action)
    requires Inv(s) && Is(s, id, Trans, Entered)
    ensures !IsCall(a) && Enabled(s, a)
  {
    hide WaitsAreRight;
    assert HasEntered(s, id);
    var j: nat :| j < |s.entered| && s.entered[j] == id;
    a := FirstInTurn(s, j);
  }

  lemma {:induction false} FirstInTurn(s: State, j: nat) returns (a: Action)
    requires Inv(s) && j < |s.entered| && !IsBodyDone(s, s.entered[j])
    ensures !IsCall(a) && Enabled(s, a)
    decreases j
  {
    hide WaitsAreRight, SetsAreRight;
    assert HasEntered(s, s.entered[j]);
    if i: nat :| i < j && !IsBodyDone(s, s.entered[i]) {
      a := FirstInTurn(s, i);
    } else if Is(s, s.entered[j], Trans, Running) {
      a := FinishBody(s.entered[j]);
    } else {
      a := StartBody(s.entered[j]);
    }
  }

  /** If a call waits, the earliest call that has not settled can go on. */
  lemma {:induction false} StepOfWaiting(s: State, id: nat) returns (a: Action)
    requires Inv(s) && id < |s.ops| && s.ops[id].phase == Waiting
    ensures !IsCall(a) && Enabled(s, a)
    decreases id
  {
    hide TurnsAreRight, SetsAreRight;
    if w: nat :| w in s.ops[id].waits && !IsSettled(s, w) {
      if Is(s, w, Query, Running) { return SettleQuery(w); }
      if Is(s, w, Trans, Running) { return FinishBody(w); }
      if Is(s, w, Trans, Finished) { return LeaveSerialiser(w); }
      if Is(s, w, Trans, Left) { return SettleTrans(w); }
      if Is(s, w, Trans, Entered) { a := StepOfEntered(s, w); return; }
      if s.ops[w].kind == Query { QueriesAreNever(s, w); }
      a := StepOfWaiting(s, w);
    } else {
      a := if s.ops[id].kind == Query then StartQuery(id) else EnterSerialiser(id);
    }
  }

  lemma QueriesAreNever(s: State, id: nat)
    requires SetsAreRight(s) && id < |s.ops| && s.ops[id].kind == Query
    ensures s.ops[id].phase !in {Entered, Finished, Left}
  {
    assert HasId(s, id, Query);
  }

  /** This rests on bodies that issue no queued queries: a query called while a body runs waits for the
      transaction of that body, so a body that waited for it would wait for itself. */
  lemma QueuedQueryInsideBodyWaitsForIt(s: State, body: nat)
    requires Inv(s) && Is(s, body, Trans, Running)
    ensures var t, query := Apply(s, CallQuery), |s.ops|;
            WaitsFor(t, query, body) && !Enabled(t, StartQuery(query))
  {
    hide TurnsAreRight, WaitsAreRight;
    assert HasId(s, body, Trans) && !IsSettled(s, body);
    var t, query := Apply(s, CallQuery), |s.ops|;
    assert body in t.ops[query].waits && !IsSettled(t, body);
  }
}
