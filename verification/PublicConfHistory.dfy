/** Edits of the stored configuration whose steps overlap: an edit reads what is stored, then inserts, then
removes, then updates, and other edits may come in between. */
module PublicConfHistory {
  import opened Wrappers
  import opened PublicConf

  /** The last step an edit has taken. */
  datatype Phase = HasRead | HasInserted | HasRemoved

  /** An edit on the way: `mine` is what it has read, `firstId` the id its first inserted row has got. */
  datatype Edit = Edit(userId: int, confName: string, data: seq<Conf>, mine: seq<Row>, phase: Phase, firstId: nat)

  datatype State = State(rows: seq<Row>, nextId: nat, edits: seq<Edit>)

  datatype Event =
    | Begin(userId: int, confName: string, data: seq<Conf>)
    | Insert(n: nat)
    | Remove(n: nat)
    | Update(n: nat)

  function NewData(e: Edit): seq<Conf> { Firsts(e.confName, Confs(e.mine), e.data, false) }

  function UpdatedData(e: Edit): seq<Conf> { Firsts(e.confName, Confs(e.mine), e.data, true) }

  predicate IsAt(s: State, n: nat, phase: Phase) { n < |s.edits| && s.edits[n].phase == phase }

  predicate CanHappen(s: State, v: Event)
  {
    match v
    case Begin(_, _, _) => true
    case Insert(n) => IsAt(s, n, HasRead)
    case Remove(n) => IsAt(s, n, HasInserted)
    case Update(n) => IsAt(s, n, HasRemoved)
  }

  function Step(s: State, v: Event): State
    requires CanHappen(s, v)
  {
    match v
    case Begin(userId, confName, data) =>
      s.(edits := s.edits + [Edit(userId, confName, data, Select(s.rows, userId, confName, true), HasRead, 0)])
    case Insert(n) =>
      var e := s.edits[n];
      State(s.rows + NewRows(NewData(e), e.userId, e.confName, s.nextId), s.nextId + |NewData(e)|,
            s.edits[n := e.(phase := HasInserted, firstId := s.nextId)])
    case Remove(n) =>
      var e := s.edits[n];
      s.(rows := Without(s.rows, e.userId, e.confName, RemovedIds(e.confName, e.data, e.mine)),
         edits := s.edits[n := e.(phase := HasRemoved)])
    case Update(n) =>
      var e := s.edits[n];
      s.(rows := UpdatedAll(s.rows, e.userId, e.confName, UpdatedData(e)), edits := s.edits[..n] + s.edits[n + 1..])
  }

  /** `t` is reached from `s` by the events in their order. */
  predicate Leads(s: State, events: seq<Event>, t: State)
    decreases |events|
  {
    if events == [] then t == s
    else CanHappen(s, events[0]) && Leads(Step(s, events[0]), events[1..], t)
  }

  // ----- What an edit leaves alone

  predicate AreApart(userId: int, confName: string, e: Edit) { e.userId != userId || e.confName != confName }

  lemma {:induction false} WithoutOther(rows: seq<Row>, e: Edit, ids: seq<nat>, userId: int, confName: string)
    requires AreApart(userId, confName, e)
    ensures Select(Without(rows, e.userId, e.confName, ids), userId, confName, true)
            == Select(rows, userId, confName, true)
  {
    hide IsOf;
    if rows != [] {
      NotOfBoth(rows[0], e, userId, confName);
      WithoutOther(rows[1..], e, ids, userId, confName);
      var rest := Without(rows[1..], e.userId, e.confName, ids);
      assert [] + rest == rest && ([rows[0]] + rest)[1..] == rest;
    }
  }

  lemma NotOfBoth(r: Row, e: Edit, userId: int, confName: string)
    requires AreApart(userId, confName, e)
    ensures !(IsOf(r, e.userId, e.confName) && IsOf(r, userId, confName))
  {
  }

  lemma {:induction false} UpdatedOther(rows: seq<Row>, e: Edit, c: Conf, userId: int, confName: string)
    requires AreApart(userId, confName, e)
    ensures Select(Updated(rows, e.userId, e.confName, c), userId, confName, true)
            == Select(rows, userId, confName, true)
  {
    if rows != [] {
      UpdatedOther(rows[1..], e, c, userId, confName);
      assert Updated(rows, e.userId, e.confName, c)[1..] == Updated(rows[1..], e.userId, e.confName, c);
    }
  }

  lemma {:induction false} UpdatedAllOther(rows: seq<Row>, e: Edit, confs: seq<Conf>, userId: int, confName: string)
    requires AreApart(userId, confName, e)
    ensures Select(UpdatedAll(rows, e.userId, e.confName, confs), userId, confName, true)
            == Select(rows, userId, confName, true)
    decreases |confs|
  {
    hide Select, Updated;
    if confs != [] {
      var k := |confs| - 1;
      UpdatedAllOther(rows, e, confs[..k], userId, confName);
      UpdatedOther(UpdatedAll(rows, e.userId, e.confName, confs[..k]), e, confs[k], userId, confName);
    }
  }

  lemma {:induction false} SelectNone(rows: seq<Row>, e: Edit, userId: int, confName: string)
    requires AreApart(userId, confName, e) && forall k :: 0 <= k < |rows| ==> IsOf(rows[k], e.userId, e.confName)
    ensures Select(rows, userId, confName, true) == []
  {
    if rows != [] { SelectNone(rows[1..], e, userId, confName); }
  }

  /** No step of an edit touches the rows of another user or another configuration. */
  lemma StepLeavesOthers(s: State, v: Event, n: nat, userId: int, confName: string)
    requires CanHappen(s, v) && v in {Insert(n), Remove(n), Update(n)} && AreApart(userId, confName, s.edits[n])
    ensures Select(Step(s, v).rows, userId, confName, true) == Select(s.rows, userId, confName, true)
  {
    hide Select, Without, UpdatedAll, RemovedIds, Firsts, IsOf;
    var e := s.edits[n];
    match v
    case Insert(_) =>
      var added := NewRows(NewData(e), e.userId, e.confName, s.nextId);
      SelectOfBoth(s.rows, added, userId, confName, true);
      NewRowsAreOf(NewData(e), e.userId, e.confName, s.nextId);
      SelectNone(added, e, userId, confName);
    case Remove(_) => WithoutOther(s.rows, e, RemovedIds(e.confName, e.data, e.mine), userId, confName);
    case Update(_) => UpdatedAllOther(s.rows, e, UpdatedData(e), userId, confName);
  }

  lemma NewRowsAreOf(confs: seq<Conf>, userId: int, confName: string, nextId: nat)
    ensures forall k :: 0 <= k < |confs| ==> IsOf(NewRows(confs, userId, confName, nextId)[k], userId, confName)
  {
  }

  // ----- One edit of a configuration at a time

  /** What an edit that is alone has made of the rows it has read. */
  function RowsSoFar(e: Edit): seq<Row>
  {
    match e.phase
    case HasRead => e.mine
    case HasInserted => e.mine + NewRows(NewData(e), e.userId, e.confName, e.firstId)
    case HasRemoved => Left(e.mine, e.userId, e.confName, e.data, e.firstId)
  }

  predicate IsOnTrack(s: State, e: Edit)
  {
    && Select(s.rows, e.userId, e.confName, true) == RowsSoFar(e)
    && AreOf(e.mine, e.userId, e.confName)
    && (e.phase != HasRead ==> IsTable(e.mine, e.firstId))
  }

  predicate AreOnTrack(s: State)
  {
    && IsTable(s.rows, s.nextId)
    && (forall k :: 0 <= k < |s.edits| ==> IsOnTrack(s, s.edits[k]))
    && (forall j, k :: 0 <= j < k < |s.edits| ==> AreApart(s.edits[j].userId, s.edits[j].confName, s.edits[k]))
  }

  /** An edit begins when no other edit of the same user and configuration is on the way. */
  predicate BeginsAlone(s: State, v: Event)
  {
    v.Begin? ==> forall k :: 0 <= k < |s.edits| ==> AreApart(v.userId, v.confName, s.edits[k])
  }

  predicate AlwaysBeginsAlone(s: State, events: seq<Event>)
    decreases |events|
  {
    events == []
    || (CanHappen(s, events[0]) && BeginsAlone(s, events[0]) && AlwaysBeginsAlone(Step(s, events[0]), events[1..]))
  }

  lemma {:induction false} UpdatedAllIsTable(rows: seq<Row>, nextId: nat, userId: int, confName: string,
                                             confs: seq<Conf>)
    requires IsTable(rows, nextId)
    ensures IsTable(UpdatedAll(rows, userId, confName, confs), nextId)
    decreases |confs|
  {
    hide IsTable, Updated;
    if confs != [] {
      var k := |confs| - 1;
      UpdatedAllIsTable(rows, nextId, userId, confName, confs[..k]);
      UpdatedIsTable(UpdatedAll(rows, userId, confName, confs[..k]), nextId, userId, confName, confs[k]);
    }
  }

  lemma StepKeepsTable(s: State, v: Event)
    requires IsTable(s.rows, s.nextId) && CanHappen(s, v)
    ensures IsTable(Step(s, v).rows, Step(s, v).nextId)
  {
    hide IsTable, Without, UpdatedAll, RemovedIds, Firsts, Select;
    match v
    case Begin(_, _, _) =>
    case Insert(n) => AddedIsTable(s.rows, s.nextId, NewData(s.edits[n]), s.edits[n].userId, s.edits[n].confName);
    case Remove(n) =>
      var e := s.edits[n];
      WithoutIsTable(s.rows, e.userId, e.confName, RemovedIds(e.confName, e.data, e.mine), s.nextId);
    case Update(n) =>
      UpdatedAllIsTable(s.rows, s.nextId, s.edits[n].userId, s.edits[n].confName, UpdatedData(s.edits[n]));
  }

  /** The edit that takes the step stays on its track. */
  lemma OwnStepStaysOnTrack(s: State, v: Event, n: nat)
    requires IsTable(s.rows, s.nextId) && CanHappen(s, v) && v in {Insert(n), Remove(n)} && IsOnTrack(s, s.edits[n])
    ensures IsOnTrack(Step(s, v), Step(s, v).edits[n])
  {
    hide Select, Without, RemovedIds, Firsts, IsTable, IsOf;
    var e := s.edits[n];
    match v
    case Insert(_) =>
      var added := NewRows(NewData(e), e.userId, e.confName, s.nextId);
      NewRowsAreOf(NewData(e), e.userId, e.confName, s.nextId);
      SelectAdded(s.rows, added, e.userId, e.confName);
      SelectIsTable(s.rows, e.userId, e.confName, s.nextId);
    case Remove(_) => SelectWithout(s.rows, e.userId, e.confName, RemovedIds(e.confName, e.data, e.mine), true);
  }

  lemma StepStaysOnTrack(s: State, v: Event)
    requires AreOnTrack(s) && CanHappen(s, v) && BeginsAlone(s, v)
    ensures AreOnTrack(Step(s, v))
  {
    hide IsTable, IsOnTrack, Select, Without, UpdatedAll, RemovedIds, Firsts;
    StepKeepsTable(s, v);
    var t := Step(s, v);
    if v.Begin? {
      BeginIsOnTrack(s, v);
    } else {
      var n := match v case Insert(n) => n case Remove(n) => n case Update(n) => n;
      forall k | 0 <= k < |s.edits| && k != n ensures IsOnTrack(t, s.edits[k]) { OtherStaysOnTrack(s, v, n, k); }
      if v.Update? {
        assert forall k :: 0 <= k < |t.edits| ==> t.edits[k] == s.edits[if k < n then k else k + 1];
      } else {
        OwnStepStaysOnTrack(s, v, n);
        assert forall k :: 0 <= k < |t.edits| && k != n ==> t.edits[k] == s.edits[k];
      }
    }
  }

  lemma BeginIsOnTrack(s: State, v: Event)
    requires AreOnTrack(s) && v.Begin? && BeginsAlone(s, v)
    ensures AreOnTrack(Step(s, v))
  {
    hide IsTable, Select;
    var t := Step(s, v);
    SelectIsTable(s.rows, v.userId, v.confName, s.nextId);
    forall k | 0 <= k < |s.edits| ensures IsOnTrack(t, s.edits[k]) { assert IsOnTrack(s, s.edits[k]); }
    assert AreOf(t.edits[|s.edits|].mine, v.userId, v.confName);
  }

  lemma OtherStaysOnTrack(s: State, v: Event, n: nat, k: nat)
    requires AreOnTrack(s) && CanHappen(s, v) && v in {Insert(n), Remove(n), Update(n)} && k < |s.edits| && k != n
    ensures IsOnTrack(Step(s, v), s.edits[k])
  {
    hide IsTable, Select, Step;
    StepLeavesOthers(s, v, n, s.edits[k].userId, s.edits[k].confName);
  }

  lemma {:induction false} AllStayOnTrack(s: State, events: seq<Event>, t: State)
    requires AreOnTrack(s) && Leads(s, events, t) && AlwaysBeginsAlone(s, events)
    ensures AreOnTrack(t)
    decreases |events|
  {
    hide AreOnTrack, Step, BeginsAlone;
    if events != [] {
      StepStaysOnTrack(s, events[0]);
      AllStayOnTrack(Step(s, events[0]), events[1..], t);
    }
  }

  /** Whatever other edits come in between, as long as none of them is of the same user and configuration:
      when an edit ends, the stored keys are exactly the requested ones, with the start of the first
      request for each, and once each if they were stored once each when it began. */
  lemma AloneIsExact(s: State, events: seq<Event>, t: State, n: nat)
    requires AreOnTrack(s) && Leads(s, events, t) && AlwaysBeginsAlone(s, events) && CanHappen(t, Update(n))
    ensures var e := t.edits[n];
            var mine := Select(Step(t, Update(n)).rows, e.userId, e.confName, true);
            && (forall key :: RowsHaveKey(e.confName, mine, key) <==> HasKey(e.confName, e.data, key))
            && (forall k :: 0 <= k < |mine| ==>
                  FirstStart(e.confName, e.data, KeyOf(e.confName, mine[k].conf)) == Some(mine[k].conf.start))
            && (HasOneRowEach(e.confName, e.mine) ==> HasOneRowEach(e.confName, mine))
  {
    AllStayOnTrack(s, events, t);
    hide Leads, AlwaysBeginsAlone, Select, UpdatedAll, Without, IsOf, Left, Firsts, RowsHaveKey, HasKey,
         FirstStart, KeyOf, HasOneRowEach, IsTable, AreOf;
    var e := t.edits[n];
    assert IsOnTrack(t, e);
    SelectUpdatedAll(t.rows, e.userId, e.confName, UpdatedData(e));
    EditedIsRequested(e.mine, e.userId, e.confName, e.data, e.firstId);
  }

  // ----- When a key is stored twice

  function RowsOf(s: State, e: Edit): seq<Row> { Select(s.rows, e.userId, e.confName, true) }

  /** None of the keys an edit is going to insert has been stored since it read. */
  predicate InsertsNewKeys(s: State, e: Edit)
  {
    forall k :: 0 <= k < |NewData(e)| ==> !RowsHaveKey(e.confName, RowsOf(s, e), KeyOf(e.confName, NewData(e)[k]))
  }

  /** Whatever has come in between, an insertion keeps every key stored once exactly when it inserts new
      keys; removing and updating always do. */
  lemma StoresOnceExactly(s: State, v: Event, n: nat)
    requires CanHappen(s, v) && v in {Insert(n), Remove(n), Update(n)} && IsTable(s.rows, s.nextId)
    requires HasOneRowEach(s.edits[n].confName, RowsOf(s, s.edits[n]))
    ensures HasOneRowEach(s.edits[n].confName, RowsOf(Step(s, v), s.edits[n]))
            <==> (v.Insert? ==> InsertsNewKeys(s, s.edits[n]))
  {
    hide Select, Without, UpdatedAll, RemovedIds, Firsts, HasOneRowEach, IsTable, InsertsNewKeys, IsOf;
    var e := s.edits[n];
    match v
    case Insert(_) =>
      var added := NewRows(NewData(e), e.userId, e.confName, s.nextId);
      NewRowsAreOf(NewData(e), e.userId, e.confName, s.nextId);
      SelectAdded(s.rows, added, e.userId, e.confName);
      AddedOnceExactly(s, e, added);
    case Remove(_) =>
      var ids := RemovedIds(e.confName, e.data, e.mine);
      SelectWithout(s.rows, e.userId, e.confName, ids, true);
      WithoutHasOneEach(RowsOf(s, e), e.userId, e.confName, ids);
    case Update(_) =>
      SelectUpdatedAll(s.rows, e.userId, e.confName, UpdatedData(e));
      SelectIsTable(s.rows, e.userId, e.confName, s.nextId);
      UpdatedHasOneEach(RowsOf(s, e), e.userId, e.confName, UpdatedData(e));
  }

  lemma AddedOnceExactly(s: State, e: Edit, added: seq<Row>)
    requires added == NewRows(NewData(e), e.userId, e.confName, s.nextId) && HasOneRowEach(e.confName, RowsOf(s, e))
    ensures HasOneRowEach(e.confName, RowsOf(s, e) + added) <==> InsertsNewKeys(s, e)
  {
    hide Select, Firsts, KeyOf, Stored;
    FirstsAreFirst(e.confName, Confs(e.mine), e.data, false);
    var rows := RowsOf(s, e);
    var all := rows + added;
    if !InsertsNewKeys(s, e) {
      var k :| 0 <= k < |NewData(e)| && RowsHaveKey(e.confName, rows, KeyOf(e.confName, NewData(e)[k]));
      var j :| 0 <= j < |rows| && KeyOf(e.confName, rows[j].conf) == KeyOf(e.confName, NewData(e)[k]);
      assert all[j] == rows[j] && all[|rows| + k] == added[k];
    } else {
      forall j, k | 0 <= j < k < |all| ensures KeyOf(e.confName, all[j].conf) != KeyOf(e.confName, all[k].conf) {
        if j < |rows| <= k {
          assert !RowsHaveKey(e.confName, rows, KeyOf(e.confName, NewData(e)[k - |rows|]));
        }
      }
    }
  }

  lemma UpdatedHasOneEach(rows: seq<Row>, userId: int, confName: string, confs: seq<Conf>)
    requires AreOf(rows, userId, confName) && HasOneRowEach(confName, rows)
    ensures HasOneRowEach(confName, UpdatedAll(rows, userId, confName, confs))
  {
    hide UpdatedAll, KeyOf, HasKey;
    UpdatedAllIsAsLong(rows, userId, confName, confs);
    forall i | 0 <= i < |rows|
      ensures KeyOf(confName, UpdatedAll(rows, userId, confName, confs)[i].conf) == KeyOf(confName, rows[i].conf)
    {
      UpdatedAllAt(rows, userId, confName, confs, i);
    }
  }

  // ----- Two edits of one configuration at once

  const NAME := "publicTradesConf"
  const CONF := Conf("tBTCUSD", None, 0)
  const EMPTY := State([], 1, [])
  const FIRST := Row(1, 1, NAME, CONF)
  const SECOND := Row(2, 1, NAME, CONF)

  function Edits(phase: Phase, firstId: nat): Edit { Edit(1, NAME, [CONF], [], phase, firstId) }

  lemma EditsDecide(phase: Phase, firstId: nat)
    ensures NewData(Edits(phase, firstId)) == [CONF] && UpdatedData(Edits(phase, firstId)) == []
    ensures RemovedIds(NAME, [CONF], []) == [] && Stored(NAME, CONF) == CONF
  {
    assert [CONF][..0] == [];
    assert Confs([]) == [];
    assert Firsts(NAME, [], [], false) == [] && Firsts(NAME, [], [], true) == [];
    assert Firsts(NAME, [], [CONF], false) == [CONF] && Firsts(NAME, [], [CONF], true) == [];
  }

  lemma LeadsOn(s: State, v: Event, next: State, rest: seq<Event>, t: State)
    requires CanHappen(s, v) && Step(s, v) == next && Leads(next, rest, t)
    ensures Leads(s, [v] + rest, t)
  {
    assert ([v] + rest)[1..] == rest;
  }

  function Twice(first: Phase, second: Phase): State
  {
    State([FIRST, SECOND], 3, [Edits(first, 1), Edits(second, 2)])
  }

  lemma BothBegin()
    ensures Step(EMPTY, Begin(1, NAME, [CONF])) == EMPTY.(edits := [Edits(HasRead, 0)])
    ensures Step(EMPTY.(edits := [Edits(HasRead, 0)]), Begin(1, NAME, [CONF]))
            == EMPTY.(edits := [Edits(HasRead, 0), Edits(HasRead, 0)])
  {
  }

  const ONCE := State([FIRST], 2, [Edits(HasInserted, 1), Edits(HasRead, 0)])

  lemma BothInsert()
    ensures Step(EMPTY.(edits := [Edits(HasRead, 0), Edits(HasRead, 0)]), Insert(0)) == ONCE
    ensures Step(ONCE, Insert(1)) == Twice(HasInserted, HasInserted)
  {
    hide Firsts;
    EditsDecide(HasRead, 0);
    assert NewRows([CONF], 1, NAME, 1) == [FIRST] && NewRows([CONF], 1, NAME, 2) == [SECOND];
  }

  lemma NothingWithout(rows: seq<Row>)
    requires |rows| == 2
    ensures Without(rows, 1, NAME, []) == rows
  {
    assert rows == [rows[0]] + rows[1..] && rows[1..] == [rows[1]] && rows[1..][1..] == [];
    assert Without(rows[1..], 1, NAME, []) == rows[1..];
  }

  lemma BothGoOn()
    ensures Step(Twice(HasInserted, HasInserted), Remove(0)) == Twice(HasRemoved, HasInserted)
    ensures Step(Twice(HasRemoved, HasInserted), Remove(1)) == Twice(HasRemoved, HasRemoved)
    ensures Step(Twice(HasRemoved, HasRemoved), Update(0)) == State([FIRST, SECOND], 3, [Edits(HasRemoved, 2)])
    ensures Step(State([FIRST, SECOND], 3, [Edits(HasRemoved, 2)]), Update(0)) == State([FIRST, SECOND], 3, [])
  {
    hide Firsts, Without, RemovedIds;
    EditsDecide(HasInserted, 1);
    EditsDecide(HasInserted, 2);
    EditsDecide(HasRemoved, 1);
    EditsDecide(HasRemoved, 2);
    NothingWithout([FIRST, SECOND]);
  }

  const BEGIN := Begin(1, NAME, [CONF])

  const STORED := State([FIRST, SECOND], 3, [])

  lemma TheyEnd()
    ensures Leads(Twice(HasInserted, HasInserted), [Remove(0), Remove(1), Update(0), Update(0)], STORED)
  {
    BothGoOn();
    hide Step, CanHappen;
    var last := State([FIRST, SECOND], 3, [Edits(HasRemoved, 2)]);
    TheyCan();
    LeadsOn(last, Update(0), STORED, [], STORED);
    LeadsOn(Twice(HasRemoved, HasRemoved), Update(0), last, [Update(0)], STORED);
    LeadsOn(Twice(HasRemoved, HasInserted), Remove(1), Twice(HasRemoved, HasRemoved), [Update(0), Update(0)], STORED);
    LeadsOn(Twice(HasInserted, HasInserted), Remove(0), Twice(HasRemoved, HasInserted),
            [Remove(1), Update(0), Update(0)], STORED);
    assert [Update(0)] + [] == [Update(0)] && [Update(0)] + [Update(0)] == [Update(0), Update(0)];
    assert [Remove(1)] + [Update(0), Update(0)] == [Remove(1), Update(0), Update(0)];
    assert [Remove(0)] + [Remove(1), Update(0), Update(0)] == [Remove(0), Remove(1), Update(0), Update(0)];
  }

  lemma TheyCan()
    ensures CanHappen(Twice(HasInserted, HasInserted), Remove(0))
    ensures CanHappen(Twice(HasRemoved, HasInserted), Remove(1))
    ensures CanHappen(Twice(HasRemoved, HasRemoved), Update(0))
    ensures CanHappen(State([FIRST, SECOND], 3, [Edits(HasRemoved, 2)]), Update(0))
  {
  }

  /** Two overlapping edits of one user that both ask for one symbol: both read the empty table, both
      insert, and the symbol stays stored twice. */
  lemma OverlappingEditsStoreTwice()
    ensures Leads(EMPTY, [BEGIN, BEGIN, Insert(0), Insert(1)] + [Remove(0), Remove(1), Update(0), Update(0)], STORED)
    ensures !HasOneRowEach(NAME, Select(STORED.rows, 1, NAME, true))
  {
    TheyEnd();
    BothBegin();
    BothInsert();
    BothAreSelected();
    hide Step, Select;
    var rest := [Remove(0), Remove(1), Update(0), Update(0)];
    var one, two := EMPTY.(edits := [Edits(HasRead, 0)]), EMPTY.(edits := [Edits(HasRead, 0), Edits(HasRead, 0)]);
    LeadsOn(ONCE, Insert(1), Twice(HasInserted, HasInserted), rest, STORED);
    LeadsOn(two, Insert(0), ONCE, [Insert(1)] + rest, STORED);
    LeadsOn(one, BEGIN, two, [Insert(0)] + ([Insert(1)] + rest), STORED);
    LeadsOn(EMPTY, BEGIN, one, [BEGIN] + ([Insert(0)] + ([Insert(1)] + rest)), STORED);
    assert [BEGIN] + ([BEGIN] + ([Insert(0)] + ([Insert(1)] + rest))) == [BEGIN, BEGIN, Insert(0), Insert(1)] + rest;
    assert KeyOf(NAME, STORED.rows[0].conf) == KeyOf(NAME, STORED.rows[1].conf);
  }

  lemma BothAreSelected()
    ensures Select([FIRST, SECOND], 1, NAME, true) == [FIRST, SECOND]
  {
    assert [FIRST, SECOND][1..] == [SECOND] && [SECOND][1..] == [];
    assert Select([SECOND], 1, NAME, true) == [SECOND];
  }
}
