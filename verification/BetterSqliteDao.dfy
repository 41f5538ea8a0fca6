/** The data access object: the code between two awaits of `query`, `_beginTrans` and
`manageTransaction`, each as a method that takes one step of the protocol on the shared sets. */
module BetterSqliteDao {
  import opened DaoSerialiser

  class Dao {
    /** The pending calls: what each is doing and which promises it awaits. */
    var ops: seq<Op>
    var querySet: set<nat>
    var transQuerySet: set<nat>
    var transactionPromisesSet: set<nat>
    ghost var entered: seq<nat>
    ghost var started: seq<nat>

    constructor ()
      ensures View() == INITIAL && Inv(View())
    {
      ops, querySet, transQuerySet, transactionPromisesSet, entered, started := [], {}, {}, {}, [], [];
      new;
      InitialInv();
    }

    ghost function View(): State
      reads this
    {
      State(ops, querySet, transQuerySet, transactionPromisesSet, entered, started)
    }

    /** `query` up to its first await: it takes the pending transactions and adds its own promise. */
    method CallQuery() returns (id: nat)
      requires Inv(View())
      modifies this
      ensures View() == Apply(old(View()), Action.CallQuery) && Inv(View())
      ensures id == |old(ops)| && ops[id].waits == old(transQuerySet)
    {
      StepKeepsInv(View(), Action.CallQuery);
      id := |ops|;
      ops := ops + [Op(Query, Waiting, transQuerySet, {})];
      querySet := querySet + {id};
    }

    /** The query itself, once all it waits for has settled, either way. */
    method StartQuery(id: nat)
      requires Inv(View()) && Enabled(View(), Action.StartQuery(id))
      modifies this`ops
      ensures View() == Apply(old(View()), Action.StartQuery(id)) && Inv(View())
    {
      StepKeepsInv(View(), Action.StartQuery(id));
      ops := ops[id := ops[id].(phase := Running)];
    }

    method SettleQuery(id: nat)
      requires Inv(View()) && Enabled(View(), Action.SettleQuery(id))
      modifies this`ops
      ensures View() == Apply(old(View()), Action.SettleQuery(id)) && Inv(View())
    {
      StepKeepsInv(View(), Action.SettleQuery(id));
      ops := ops[id := ops[id].(phase := Settled)];
    }

    /** `query` after its await, with or without an error. */
    method EndQuery(id: nat)
      requires Inv(View()) && Enabled(View(), DropQuery(id))
      modifies this`querySet
      ensures View() == Apply(old(View()), DropQuery(id)) && Inv(View())
    {
      StepKeepsInv(View(), DropQuery(id));
      querySet := querySet - {id};
    }

    /** `_beginTrans` up to its first await: it takes the pending queries and adds its own promise. */
    method BeginTrans() returns (id: nat)
      requires Inv(View())
      modifies this
      ensures View() == Apply(old(View()), CallTrans) && Inv(View())
      ensures id == |old(ops)| && ops[id].waits == old(querySet)
    {
      StepKeepsInv(View(), CallTrans);
      id := |ops|;
      ops := ops + [Op(Trans, Waiting, querySet, {})];
      transQuerySet := transQuerySet + {id};
    }

    /** `manageTransaction` up to its first await: it takes the bodies that are pending. */
    method ManageTransaction(id: nat)
      requires Inv(View()) && Enabled(View(), EnterSerialiser(id))
      modifies this
      ensures View() == Apply(old(View()), EnterSerialiser(id)) && Inv(View())
      ensures ops[id].turnWaits == old(transactionPromisesSet)
    {
      StepKeepsInv(View(), EnterSerialiser(id));
      ops := ops[id := ops[id].(phase := Entered, turnWaits := transactionPromisesSet)];
      transactionPromisesSet := transactionPromisesSet + {id};
      entered := entered + [id];
    }

    /** The body begins; it is the only one, and no queued query runs beside it. */
    method StartBody(id: nat)
      requires Inv(View()) && Enabled(View(), Action.StartBody(id))
      modifies this`ops, this`started
      ensures View() == Apply(old(View()), Action.StartBody(id)) && Inv(View())
      ensures forall other: nat :: other < |ops| && other != id ==> ops[other].phase != Running
    {
      StepKeepsInv(View(), Action.StartBody(id));
      ops := ops[id := ops[id].(phase := Running)];
      started := started + [id];
      forall other: nat | other < |ops| && other != id ensures ops[other].phase != Running {
        assert Is(View(), id, Trans, Running);
        RunsAlone(View(), id, other);
      }
    }

    method FinishBody(id: nat)
      requires Inv(View()) && Enabled(View(), Action.FinishBody(id))
      modifies this`ops
      ensures View() == Apply(old(View()), Action.FinishBody(id)) && Inv(View())
    {
      StepKeepsInv(View(), Action.FinishBody(id));
      ops := ops[id := ops[id].(phase := Finished)];
    }

    /** `manageTransaction` after its await: it removes the promise of the body and returns. */
    method EndBody(id: nat)
      requires Inv(View()) && Enabled(View(), LeaveSerialiser(id))
      modifies this`ops, this`transactionPromisesSet
      ensures View() == Apply(old(View()), LeaveSerialiser(id)) && Inv(View())
    {
      StepKeepsInv(View(), LeaveSerialiser(id));
      transactionPromisesSet := transactionPromisesSet - {id};
      ops := ops[id := ops[id].(phase := Left)];
    }

    method SettleTrans(id: nat)
      requires Inv(View()) && Enabled(View(), Action.SettleTrans(id))
      modifies this`ops
      ensures View() == Apply(old(View()), Action.SettleTrans(id)) && Inv(View())
    {
      StepKeepsInv(View(), Action.SettleTrans(id));
      ops := ops[id := ops[id].(phase := Settled)];
    }

    /** `_beginTrans` after its await. */
    method EndTrans(id: nat)
      requires Inv(View()) && Enabled(View(), DropTrans(id))
      modifies this`transQuerySet
      ensures View() == Apply(old(View()), DropTrans(id)) && Inv(View())
    {
      StepKeepsInv(View(), DropTrans(id));
      transQuerySet := transQuerySet - {id};
    }

    /** The code that a step stands for. */
    method Take(a: Action)
      requires Inv(View()) && Enabled(View(), a) && !IsCall(a)
      modifies this
      ensures View() == Apply(old(View()), a) && Inv(View())
    {
      hide Inv, Apply, Enabled;
      match a
      case StartQuery(id) => StartQuery(id);
      case SettleQuery(id) => SettleQuery(id);
      case DropQuery(id) => EndQuery(id);
      case EnterSerialiser(id) => ManageTransaction(id);
      case StartBody(id) => StartBody(id);
      case FinishBody(id) => FinishBody(id);
      case LeaveSerialiser(id) => EndBody(id);
      case SettleTrans(id) => SettleTrans(id);
      case DropTrans(id) => EndTrans(id);
    }

    /** A call takes its next step, if it can. */
    method Advance(id: nat) returns (moved: bool)
      requires Inv(View()) && id < |ops|
      modifies this
      ensures Inv(View()) && |ops| == |old(ops)|
      ensures moved <==> Enabled(old(View()), NextOf(old(View()), id))
      ensures moved ==> StepsLeft(View(), |ops|) < StepsLeft(old(View()), |ops|)
      ensures !moved ==> View() == old(View())
    {
      hide Inv, StepsLeft;
      var now := State(ops, querySet, transQuerySet, transactionPromisesSet, [], []);
      var a := NextOf(now, id);
      assert a == NextOf(View(), id) && Enabled(now, a) == Enabled(View(), a);
      moved := Enabled(now, a);
      if moved {
        EveryStepCounts(View(), a);
        hide Apply, Enabled;
        Take(a);
      }
    }

    /** Whichever call is preferred in each turn, the pending calls all settle and leave the sets. */
    method RunToTheEnd(prefer: nat -> nat)
      requires Inv(View())
      modifies this
      ensures Inv(View()) && IsOver(View()) && |ops| == |old(ops)|
    {
      hide Inv, StepsLeft, Enabled, NextOf, IsOver;
      var turn := 0;
      while true
        invariant Inv(View()) && |ops| == |old(ops)|
        decreases StepsLeft(View(), |ops|)
      {
        ghost var before := View();
        var moved := false;
        if prefer(turn) < |ops| { moved := Advance(prefer(turn)); }
        turn := turn + 1;
        var id := 0;
        while !moved && id < |ops|
          invariant Inv(View()) && |ops| == |old(ops)| && id <= |ops|
          invariant !moved ==> View() == before && forall k: nat :: k < id ==> !Enabled(before, NextOf(before, k))
          invariant moved ==> StepsLeft(View(), |ops|) < StepsLeft(before, |ops|)
          decreases !moved, |ops| - id
        {
          moved := Advance(id);
          id := id + 1;
        }
        if !moved { break; }
      }
      StuckIsDone(View());
      NothingLeftIsOver(View());
    }
  }
}
