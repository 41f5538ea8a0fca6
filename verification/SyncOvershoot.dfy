/** The progress figure when jobs are added while a run goes on: it stays within 100 exactly when no job
that weighs anything is added after a job that weighs something has last told its progress, which it does
when it ends; and it never goes down when none is added between two tellings of such a job. */
module SyncOvershoot {
  import opened Wrappers
  import opened SyncJobs
  import opened SyncProgress

  /** A queue of one owner with at most ten jobs. */
  predicate IsSmall(plan: seq<Job>, owner: Option<int>) { |plan| <= LIMIT && forall j <- plan :: IsOwn(j, owner) }

  /** Jobs are only added: later tellings find no fewer jobs in the queue. */
  predicate IsGrowing(told: seq<seq<Telling>>)
  {
    forall i, j, a, b :: 0 <= i <= j < |told| && 0 <= a < |told[i]| && 0 <= b < |told[j]| && (i < j || a <= b)
                         ==> told[i][a].size <= told[j][b].size
  }

  predicate IsFreeFrom(c: Colls, plan: seq<Job>, n: nat) { forall k :: n <= k < |plan| ==> Weight(c, plan[k]) == 0.0 }

  /** No job that weighs anything is added after a job that weighs something has last told its progress. */
  predicate LateJobsAreFree(c: Colls, plan: seq<Job>, told: seq<seq<Telling>>)
    requires IsTold(plan, told)
  {
    forall i :: 0 <= i < |told| && told[i] != [] && Weight(c, plan[i]) > 0.0
                ==> IsFreeFrom(c, plan, told[i][|told[i]| - 1].size)
  }

  // ----- One share

  /** Every product with the weight of all jobs; the proofs hide it and use its laws. */
  function Against(x: real, all: real): real { x * all }

  lemma AgainstAdds(x: real, y: real, all: real)
    ensures Against(x + y, all) == Against(x, all) + Against(y, all) && Against(0.0, all) == 0.0
  {
  }

  lemma AgainstOne(x: real, all: real)
    requires all > 0.0
    ensures x <= 1.0 <==> Against(x, all) <= all
  {
    assert Against(x, all) - all == (x - 1.0) * all;
  }

  lemma {:induction false} SumOfFree(c: Colls, jobs: seq<Job>)
    ensures Sum(c, jobs) == 0.0 <==> forall j <- jobs :: Weight(c, j) == 0.0
  {
    hide Weight;
    if jobs != [] {
      assert jobs == [jobs[0]] + jobs[1..];
      SumOfFree(c, jobs[1..]);
    }
  }

  /** Jobs from a place on weigh nothing exactly when the jobs before it weigh as much as all. */
  lemma FreeIsAll(c: Colls, plan: seq<Job>, n: nat)
    requires n <= |plan|
    ensures Sum(c, plan[..n]) <= Sum(c, plan)
    ensures Sum(c, plan[..n]) == Sum(c, plan) <==> IsFreeFrom(c, plan, n)
  {
    hide Weight, Sum;
    assert plan == plan[..n] + plan[n..];
    SumOfBoth(c, plan[..n], plan[n..]);
    SumOfFree(c, plan[n..]);
    if IsFreeFrom(c, plan, n) {
      forall j | j in plan[n..] ensures Weight(c, j) == 0.0 {}
    } else {
      var k :| n <= k < |plan| && Weight(c, plan[k]) != 0.0;
      assert plan[n..][k - n] == plan[k];
    }
  }

  lemma PartAgainstMore(w: real, whole: real, all: real)
    requires 0.0 < w <= whole <= all
    ensures 0.0 < Part(w, whole) <= 1.0
    ensures w <= Against(Part(w, whole), all)
    ensures Against(Part(w, whole), all) == w <==> whole == all
  {
    PartTimes(w, whole);
    PartIsPositive(w, whole);
    hide Part;
    MoreTimes(Part(w, whole), whole, all);
    AgainstOne(Part(w, whole), whole);
  }

  lemma PartIsPositive(w: real, whole: real)
    requires 0.0 < w && 0.0 < whole
    ensures 0.0 < Part(w, whole)
  {
    assert 0.0 < 1.0 / whole;
  }

  lemma MoreTimes(p: real, x: real, y: real)
    requires 0.0 < p && x <= y
    ensures p * x <= Against(p, y) && (p * x == Against(p, y) <==> x == y)
  {
    assert p * y - p * x == p * (y - x);
  }

  /** Measured against all jobs a share is at least the weight of its job, and more than that exactly
      when a job that weighs something was not in the queue. */
  lemma ShareAgainstAll(c: Colls, owner: Option<int>, plan: seq<Job>, i: nat, size: nat)
    requires IsSmall(plan, owner) && i < size <= |plan|
    ensures var share, w, all := ShareIn(c, owner, plan, i, size), Weight(c, plan[i]), Sum(c, plan);
            && 0.0 <= share <= 1.0 && (w == 0.0 ==> share == 0.0)
            && w <= Against(share, all)
            && (Against(share, all) == w <==> w == 0.0 || IsFreeFrom(c, plan, size))
  {
    hide Weight, Sum, ShareIn, IsFreeFrom, Part;
    ShareOfOwn(c, owner, plan, i, size);
    FreeIsAll(c, plan, size);
    var w := Weight(c, plan[i]);
    AgainstAdds(0.0, 0.0, Sum(c, plan));
    hide Against;
    if w != 0.0 { PartAgainstMore(w, Sum(c, plan[..size]), Sum(c, plan)); }
  }

  // ----- All shares of a run that goes to its end

  /** Up to job `i`: the shares measured against all jobs, and when they are no more than the weights. */
  lemma {:induction false} BeforeAgainstAll(c: Colls, owner: Option<int>, plan: seq<Job>, told: seq<seq<Telling>>,
                                            i: nat)
    requires IsTold(plan, told) && IsSmall(plan, owner) && TellAll(told) && i <= |told|
    ensures var before, done := Against(Before(c, owner, plan, told, i), Sum(c, plan)), Sum(c, plan[..i]);
            && done <= before
            && (before == done <==> LateJobsAreFree(c, plan, told[..i]))
    decreases i
  {
    hide ShareIn, Sum, Weight, IsFreeFrom, Against, LateJobsAreFree;
    if i == 0 {
      SumOfNone(c);
      AgainstAdds(0.0, 0.0, Sum(c, plan));
      NoneIsFree(c, plan);
      assert told[..0] == [] && plan[..0] == [];
    } else {
      var k := i - 1;
      BeforeAgainstAll(c, owner, plan, told, k);
      var size := told[k][|told[k]| - 1].size;
      ShareAgainstAll(c, owner, plan, k, size);
      assert plan[..i] == plan[..k] + [plan[k]];
      SumOfBoth(c, plan[..k], [plan[k]]);
      SumOfOne(c, plan[k]);
      AgainstAdds(Before(c, owner, plan, told, k), ShareIn(c, owner, plan, k, size), Sum(c, plan));
      OneMoreIsFree(c, plan, told, i);
    }
  }

  lemma NoneIsFree(c: Colls, plan: seq<Job>)
    ensures LateJobsAreFree(c, plan, [])
  {
  }

  lemma OneMoreIsFree(c: Colls, plan: seq<Job>, told: seq<seq<Telling>>, i: nat)
    requires IsTold(plan, told) && 0 < i <= |told| && told[i - 1] != []
    ensures LateJobsAreFree(c, plan, told[..i])
            <==> LateJobsAreFree(c, plan, told[..i - 1])
                 && (Weight(c, plan[i - 1]) > 0.0 ==> IsFreeFrom(c, plan, told[i - 1][|told[i - 1]| - 1].size))
  {
    hide Weight, IsFreeFrom;
    assert forall k :: 0 <= k < i - 1 ==> told[..i - 1][k] == told[..i][k];
    assert told[..i][i - 1] == told[i - 1];
  }

  /** The exact condition: a run of at most ten jobs of one owner, each of which tells its progress, ends
      with a progress of no more than 100 if and only if no job that weighs anything is added after a
      job that weighs something has last told its progress. */
  lemma WithinExactlyIfLateJobsAreFree(c: Colls, owner: Option<int>, plan: seq<Job>, told: seq<seq<Telling>>)
    requires IsTold(plan, told) && IsSmall(plan, owner) && TellAll(told) && |told| == |plan|
    ensures Before(c, owner, plan, told, |plan|) <= 1.0 <==> LateJobsAreFree(c, plan, told)
  {
    hide Before, Sum, Weight, LateJobsAreFree;
    BeforeAgainstAll(c, owner, plan, told, |plan|);
    hide Against;
    assert plan[..|plan|] == plan && told[..|plan|] == told;
    assert Sum(c, plan[..|plan|]) == Sum(c, plan);
    var before, all := Before(c, owner, plan, told, |plan|), Sum(c, plan);
    if all == 0.0 {
      NothingWeighs(c, owner, plan, told, |plan|);
    } else {
      AgainstOne(before, all);
    }
  }

  lemma {:induction false} NothingWeighs(c: Colls, owner: Option<int>, plan: seq<Job>, told: seq<seq<Telling>>, i: nat)
    requires IsTold(plan, told) && IsSmall(plan, owner) && i <= |told|
    requires forall k :: 0 <= k < i && told[k] != [] ==> Weight(c, plan[k]) == 0.0 || Sum(c, plan) == 0.0
    ensures Before(c, owner, plan, told, i) == 0.0
    ensures Sum(c, plan) == 0.0 ==> LateJobsAreFree(c, plan, told)
    decreases i
  {
    hide ShareIn, Weight, Sum;
    SumOfFree(c, plan);
    if i > 0 {
      NothingWeighs(c, owner, plan, told, i - 1);
      if told[i - 1] != [] { ShareAgainstAll(c, owner, plan, i - 1, told[i - 1][|told[i - 1]| - 1].size); }
    }
  }

  // ----- What is reported on the way

  lemma {:induction false} BeforeFits(c: Colls, owner: Option<int>, plan: seq<Job>, told: seq<seq<Telling>>, i: nat)
    requires IsTold(plan, told) && IsSmall(plan, owner) && LateJobsAreFree(c, plan, told) && i <= |told|
    ensures 0.0 <= Before(c, owner, plan, told, i)
    ensures Against(Before(c, owner, plan, told, i), Sum(c, plan)) <= Sum(c, plan[..i])
    decreases i
  {
    hide ShareIn, Sum, Weight, IsFreeFrom, Against;
    AgainstAdds(0.0, 0.0, Sum(c, plan));
    if i == 0 {
      SumOfNone(c);
      assert plan[..0] == [];
    } else {
      var k := i - 1;
      BeforeFits(c, owner, plan, told, k);
      assert plan[..i] == plan[..k] + [plan[k]];
      SumOfBoth(c, plan[..k], [plan[k]]);
      SumOfOne(c, plan[k]);
      AgainstAdds(Before(c, owner, plan, told, k), LastShare(c, owner, plan, k, told[k]), Sum(c, plan));
      if told[k] != [] { ShareAgainstAll(c, owner, plan, k, told[k][|told[k]| - 1].size); }
    }
  }

  predicate HasWeightBefore(c: Colls, plan: seq<Job>, told: seq<seq<Telling>>, i: nat)
    requires IsTold(plan, told) && i <= |told|
  {
    exists j :: 0 <= j < i && told[j] != [] && Weight(c, plan[j]) > 0.0
  }

  predicate Fits(before: real, share: real) { 0.0 <= before && 0.0 <= share && before + share <= 1.0 }

  /** Whenever a job tells its progress, its share then and what was before make no more than the whole. */
  lemma TellingFits(c: Colls, owner: Option<int>, plan: seq<Job>, told: seq<seq<Telling>>, i: nat, k: nat)
    requires IsTold(plan, told) && IsSmall(plan, owner) && IsGrowing(told) && LateJobsAreFree(c, plan, told)
    requires i < |told| && k < |told[i]|
    ensures Fits(Before(c, owner, plan, told, i), ShareIn(c, owner, plan, i, told[i][k].size))
  {
    hide ShareIn, Sum, Weight, IsFreeFrom, Before, Against;
    var before, size := Before(c, owner, plan, told, i), told[i][k].size;
    BeforeFits(c, owner, plan, told, i);
    ShareAgainstAll(c, owner, plan, i, size);
    if HasWeightBefore(c, plan, told, i) {
      var j :| 0 <= j < i && told[j] != [] && Weight(c, plan[j]) > 0.0;
      MoreIsFree(c, plan, told[j][|told[j]| - 1].size, size);
      WeightIsLess(c, plan, j);
      FitsWithAll(c, owner, plan, before, i, size);
    } else {
      NothingWeighs(c, owner, plan, told, i);
    }
  }

  lemma FitsWithAll(c: Colls, owner: Option<int>, plan: seq<Job>, before: real, i: nat, size: nat)
    requires IsSmall(plan, owner) && i < size <= |plan| && IsFreeFrom(c, plan, size)
    requires 0.0 < Sum(c, plan) && 0.0 <= before && Against(before, Sum(c, plan)) <= Sum(c, plan[..i])
    ensures Fits(before, ShareIn(c, owner, plan, i, size))
  {
    hide ShareIn, Sum, Weight, IsFreeFrom, Against;
    ShareAgainstAll(c, owner, plan, i, size);
    assert plan[..i + 1] == plan[..i] + [plan[i]];
    SumOfBoth(c, plan[..i], [plan[i]]);
    SumOfOne(c, plan[i]);
    FreeIsAll(c, plan, i + 1);
    AgainstAdds(before, ShareIn(c, owner, plan, i, size), Sum(c, plan));
    AgainstOne(before + ShareIn(c, owner, plan, i, size), Sum(c, plan));
  }

  lemma MoreIsFree(c: Colls, plan: seq<Job>, n: nat, m: nat)
    requires n <= m && IsFreeFrom(c, plan, n)
    ensures IsFreeFrom(c, plan, m)
  {
  }

  lemma WeightIsLess(c: Colls, plan: seq<Job>, j: nat)
    requires j < |plan| && Weight(c, plan[j]) > 0.0
    ensures Sum(c, plan) > 0.0
  {
    SumOfFree(c, plan);
    assert plan[j] in plan;
  }

  predicate AreWithin(reports: seq<int>) { forall k :: 0 <= k < |reports| ==> 0 <= reports[k] <= 100 }

  lemma FigureIsWithin(before: real, share: real, progress: real)
    requires Fits(before, share) && 0.0 <= progress <= 100.0
    ensures AreWithin(ReportOf(before, share, progress))
  {
    hide Round, Level;
    ReportIsBetween(before, share, progress, progress);
    PercentOfPart(before);
    PercentOfPart(before + share);
  }

  lemma {:induction false} JobStaysWithin(c: Colls, owner: Option<int>, plan: seq<Job>, i: nat, before: real,
                                          told: seq<Telling>)
    requires IsTelling(plan, i, told) && forall k :: 0 <= k < |told| ==> 0.0 <= told[k].progress <= 100.0
    requires forall k :: 0 <= k < |told| ==> Fits(before, ShareIn(c, owner, plan, i, told[k].size))
    ensures AreWithin(JobReports(c, owner, plan, i, before, told))
    decreases |told|
  {
    hide ShareIn, ReportOf, Fits;
    if told != [] {
      var k := |told| - 1;
      assert forall n :: 0 <= n < k ==> told[..k][n] == told[n];
      JobStaysWithin(c, owner, plan, i, before, told[..k]);
      FigureIsWithin(before, ShareIn(c, owner, plan, i, told[k].size), told[k].progress);
    }
  }

  /** Then every figure of the run, also of one that is interrupted, is between 0 and 100. */
  lemma {:induction false} ReportsStayWithin(c: Colls, owner: Option<int>, plan: seq<Job>, told: seq<seq<Telling>>,
                                             n: nat)
    requires IsTold(plan, told) && IsSmall(plan, owner) && IsGrowing(told) && LateJobsAreFree(c, plan, told)
    requires AreClimbing(told) && n <= |told|
    ensures AreWithin(Reports(c, owner, plan, told, n))
    decreases n
  {
    hide ShareIn, Before, JobReports, IsSmall, IsGrowing, LateJobsAreFree, Fits;
    if n > 0 {
      ReportsStayWithin(c, owner, plan, told, n - 1);
      var tells, before := told[n - 1], Before(c, owner, plan, told, n - 1);
      forall k | 0 <= k < |tells| ensures Fits(before, ShareIn(c, owner, plan, n - 1, tells[k].size)) {
        TellingFits(c, owner, plan, told, n - 1, k);
      }
      JobStaysWithin(c, owner, plan, n - 1, Before(c, owner, plan, told, n - 1), told[n - 1]);
    }
  }

  /** The figure for a whole progress. */
  function Reported(before: real, share: real, p: int): int { Round(Level(before, share, p as real)) }

  /** Jobs tell whole figures, and what they tell below 100 is reported rounded: a job can report more than
      100 exactly when it would do so at 99. */
  lemma FigureExceedsExactly(before: real, share: real)
    requires 0.0 <= before && 0.0 < share
    ensures (exists p: int :: 0 < p < 100 && Reported(before, share, p) > 100)
            <==> Level(before, share, 99.0) >= 100.5
  {
    if Level(before, share, 99.0) >= 100.5 {
      assert Reported(before, share, 99) > 100;
    } else {
      forall p: int | 0 < p < 100 ensures Reported(before, share, p) <= 100 { LevelIsAtMost(before, share, p); }
    }
  }

  lemma LevelIsAtMost(before: real, share: real, p: int)
    requires 0.0 < share && p <= 99
    ensures Level(before, share, p as real) <= Level(before, share, 99.0)
  {
    assert (99.0 - p as real) * share >= 0.0;
  }

  // ----- When the figures go down

  /** What a job tells for the second time is reported lower exactly when the job weighs something and
      something that weighs has been added in between. */
  lemma GoesDownExactly(c: Colls, owner: Option<int>, plan: seq<Job>, i: nat, v: nat, w: nat, before: real, p: real)
    requires IsSmall(plan, owner) && i < v <= w <= |plan| && 0.0 < p
    ensures Level(before, ShareIn(c, owner, plan, i, w), p) < Level(before, ShareIn(c, owner, plan, i, v), p)
            <==> Weight(c, plan[i]) > 0.0 && Sum(c, plan[..v]) < Sum(c, plan[..w])
    ensures Sum(c, plan[..v]) <= Sum(c, plan[..w])
  {
    hide Weight, Sum, ShareIn, Part, Level;
    ShareOfOwn(c, owner, plan, i, v);
    ShareOfOwn(c, owner, plan, i, w);
    assert plan[..w][..v] == plan[..v];
    FreeIsAll(c, plan[..w], v);
    var x, y := Sum(c, plan[..v]), Sum(c, plan[..w]);
    var weight := Weight(c, plan[i]);
    if weight > 0.0 { PartOfMoreIsLess(weight, x, y); }
    LevelFollowsShare(before, ShareIn(c, owner, plan, i, w), ShareIn(c, owner, plan, i, v), p);
  }

  lemma PartOfMoreIsLess(weight: real, x: real, y: real)
    requires 0.0 < weight <= x <= y
    ensures Part(weight, y) < Part(weight, x) <==> x < y
  {
    PartTimes(weight, x);
    PartTimes(weight, y);
    PartIsPositive(weight, y);
    hide Part;
    MoreTimes(Part(weight, y), x, y);
    SmallerQuotient(Part(weight, y), Part(weight, x), x, y, weight);
  }

  lemma SmallerQuotient(a: real, b: real, x: real, y: real, weight: real)
    requires 0.0 < x <= y && 0.0 < a && a * y == weight && b * x == weight
    ensures a < b <==> x < y
  {
    assert (b - a) * x == a * (y - x);
    if x < y { assert a * (y - x) > 0.0; }
  }

  lemma LevelFollowsShare(before: real, a: real, b: real, p: real)
    requires 0.0 < p
    ensures Level(before, a, p) < Level(before, b, p) <==> a < b
  {
    assert p * b - p * a == p * (b - a);
  }

  /** Nothing that weighs is added between two tellings of a job that weighs something. */
  predicate IsCalm(c: Colls, plan: seq<Job>, told: seq<seq<Telling>>)
    requires IsTold(plan, told)
  {
    forall i, a, b :: 0 <= i < |told| && 0 <= a < |told[i]| && 0 <= b < |told[i]| && Weight(c, plan[i]) > 0.0
                      ==> Sum(c, plan[..told[i][a].size]) == Sum(c, plan[..told[i][b].size])
  }

  lemma SharesAreCalm(c: Colls, owner: Option<int>, plan: seq<Job>, told: seq<seq<Telling>>, i: nat)
      returns (share: real)
    requires IsTold(plan, told) && IsSmall(plan, owner) && IsCalm(c, plan, told) && i < |told|
    ensures 0.0 <= share
    ensures forall k :: 0 <= k < |told[i]| ==> ShareIn(c, owner, plan, i, told[i][k].size) == share
  {
    hide ShareIn, Sum, Weight, Part;
    var tells := told[i];
    share := if tells == [] then 0.0 else ShareIn(c, owner, plan, i, tells[0].size);
    if tells != [] { ShareAgainstAll(c, owner, plan, i, tells[0].size); }
    forall k | 0 <= k < |tells| ensures ShareIn(c, owner, plan, i, tells[k].size) == share {
      ShareOfOwn(c, owner, plan, i, tells[k].size);
      ShareOfOwn(c, owner, plan, i, tells[0].size);
    }
  }

  /** Then the figures of the run never go down, however far they get. */
  lemma {:induction false} CalmReportsClimb(c: Colls, owner: Option<int>, plan: seq<Job>, told: seq<seq<Telling>>,
                                            n: nat)
    requires IsTold(plan, told) && IsSmall(plan, owner) && IsCalm(c, plan, told) && AreClimbing(told) && n <= |told|
    ensures var high := Round(Before(c, owner, plan, told, n) * 100.0);
            0 <= high && IsOrdered(Reports(c, owner, plan, told, n), 0, high)
    decreases n
  {
    hide Round, ShareIn, IsOrdered, JobReports, LastShare, IsClimbing, IsSmall, IsCalm;
    if n == 0 {
      RoundIsMonotone(0.0, 0.0 * 100.0);
      NothingReported();
      ZeroRounds();
    } else {
      CalmReportsClimb(c, owner, plan, told, n - 1);
      var before := Before(c, owner, plan, told, n - 1);
      var share := SharesAreCalm(c, owner, plan, told, n - 1);
      JobClimbs(c, owner, plan, n - 1, before, share, told[n - 1]);
      OrderedTogether(Reports(c, owner, plan, told, n - 1), JobReports(c, owner, plan, n - 1, before, told[n - 1]), 0,
                      Round(before * 100.0), Round(Before(c, owner, plan, told, n) * 100.0));
    }
  }

  lemma ZeroRounds()
    ensures Round(0.0 * 100.0) == 0
  {
  }

  // ----- Two runs

  /** Jobs that go to their end tell 100 last; that is not reported, but it is when their share is taken. */
  predicate AreClosed(told: seq<seq<Telling>>)
  {
    forall i :: 0 <= i < |told| ==> told[i] != [] && told[i][|told[i]| - 1].progress == 100.0
  }

  const COLLS := Colls({"x", "y", "z"}, 0, 0, 3)
  const A := Job(1, "x", Locked, Some(1), false)
  const B := Job(2, "y", Locked, Some(1), false)
  const C := Job(3, "z", Locked, Some(1), false)
  const PLAN := [A, B, C]

  /** Two jobs wait, and a third one is added while the second one runs, between 50 and 99. */
  const THIRD := [[Telling(99.0, 2), Telling(100.0, 2)],
                  [Telling(50.0, 2), Telling(99.0, 3), Telling(100.0, 3)],
                  [Telling(99.0, 3), Telling(100.0, 3)]]

  /** One job waits, and another one is added while it runs, between 99 and 100. */
  const SECOND := [[Telling(99.0, 1), Telling(100.0, 2)], [Telling(50.0, 2), Telling(100.0, 2)]]

  lemma SumsOfPlan()
    ensures Sum(COLLS, PLAN[..1]) == 1.0 / 3.0 && Sum(COLLS, PLAN[..2]) == 2.0 / 3.0 && Sum(COLLS, PLAN[..3]) == 1.0
    ensures forall j <- PLAN :: Weight(COLLS, j) == 1.0 / 3.0
  {
    assert PLAN[..1] == [A] && PLAN[..2] == [A] + [B] && PLAN[..3] == [A] + [B] + [C];
    SumOfOne(COLLS, A);
    SumOfOne(COLLS, B);
    SumOfOne(COLLS, C);
    SumOfBoth(COLLS, [A], [B]);
    SumOfBoth(COLLS, [A] + [B], [C]);
  }

  lemma SharesOfPlan()
    ensures ShareIn(COLLS, Some(1), PLAN, 0, 2) == 1.0 / 2.0 && ShareIn(COLLS, Some(1), PLAN, 1, 2) == 1.0 / 2.0
    ensures ShareIn(COLLS, Some(1), PLAN, 1, 3) == 1.0 / 3.0 && ShareIn(COLLS, Some(1), PLAN, 2, 3) == 1.0 / 3.0
  {
    hide ShareIn, Sum, Weight;
    SumsOfPlan();
    assert PLAN[0] in PLAN && PLAN[1] in PLAN && PLAN[2] in PLAN;
    ShareOfOwn(COLLS, Some(1), PLAN, 0, 2);
    ShareOfOwn(COLLS, Some(1), PLAN, 1, 2);
    ShareOfOwn(COLLS, Some(1), PLAN, 1, 3);
    ShareOfOwn(COLLS, Some(1), PLAN, 2, 3);
  }

  lemma SharesOfTwo()
    ensures ShareIn(COLLS, Some(1), [A, B], 0, 1) == 1.0 && ShareIn(COLLS, Some(1), [A, B], 0, 2) == 1.0 / 2.0
    ensures ShareIn(COLLS, Some(1), [A, B], 1, 2) == 1.0 / 2.0
  {
    hide ShareIn, Sum, Weight;
    SumsOfPlan();
    var plan := [A, B];
    assert plan[..1] == PLAN[..1] && plan[..2] == PLAN[..2] && PLAN[0] in PLAN && PLAN[1] in PLAN;
    ShareOfOwn(COLLS, Some(1), plan, 0, 1);
    ShareOfOwn(COLLS, Some(1), plan, 0, 2);
    ShareOfOwn(COLLS, Some(1), plan, 1, 2);
  }

  lemma {:induction false} JobReportsOf(c: Colls, owner: Option<int>, plan: seq<Job>, i: nat, before: real, a: Telling,
                                        more: seq<Telling>)
    requires IsTelling(plan, i, more) && i < a.size <= |plan|
    ensures IsTelling(plan, i, more + [a])
    ensures JobReports(c, owner, plan, i, before, more + [a])
            == JobReports(c, owner, plan, i, before, more)
               + ReportOf(before, ShareIn(c, owner, plan, i, a.size), a.progress)
  {
    hide ShareIn;
    var all := more + [a];
    assert all[..|more|] == more && all[|more|] == a;
  }

  lemma JobReportsOfNone(c: Colls, owner: Option<int>, plan: seq<Job>, i: nat, before: real)
    requires i < |plan|
    ensures JobReports(c, owner, plan, i, before, []) == []
  {
  }

  lemma TellingOfThird(i: nat, k: nat)
    requires i < 3 && k < |THIRD[i]|
    ensures THIRD[i][k].size == if i == 0 || (i == 1 && k == 0) then 2 else 3
    ensures k == |THIRD[i]| - 1 <==> THIRD[i][k].progress == 100.0
    ensures THIRD[i][k].progress == if k == |THIRD[i]| - 1 then 100.0 else if i == 1 && k == 0 then 50.0 else 99.0
  {
  }

  predicate IsLikeThird(told: seq<seq<Telling>>)
  {
    && |told| == 3 && |told[0]| == 2 && |told[1]| == 3 && |told[2]| == 2
    && (forall i, k :: 0 <= i < 3 && 0 <= k < |told[i]| ==>
          && told[i][k].size == (if i == 0 || (i == 1 && k == 0) then 2 else 3)
          && told[i][k].progress == if k == |told[i]| - 1 then 100.0 else if i == 1 && k == 0 then 50.0 else 99.0)
  }

  lemma LikeThirdIsTold(told: seq<seq<Telling>>)
    requires IsLikeThird(told)
    ensures IsTold(PLAN, told) && AreClosed(told)
  {
    assert |PLAN| == 3;
    forall i, k | 0 <= i < |told| && 0 <= k < |told[i]| ensures i < told[i][k].size <= 3 {}
  }

  lemma LikeThirdGrows(told: seq<seq<Telling>>)
    requires IsLikeThird(told)
    ensures IsGrowing(told)
  {
    forall i, j, a, b | 0 <= i <= j < |told| && 0 <= a < |told[i]| && 0 <= b < |told[j]| && (i < j || a <= b)
      ensures told[i][a].size <= told[j][b].size
    {
    }
  }

  lemma LikeThirdClimbs(told: seq<seq<Telling>>)
    requires IsLikeThird(told)
    ensures AreClimbing(told)
  {
    forall i | 0 <= i < |told| ensures IsClimbing(told[i]) {
      forall a, b | 0 <= a < b < |told[i]| ensures told[i][a].progress <= told[i][b].progress {}
    }
  }

  lemma ThirdIsRight()
    ensures IsTold(PLAN, THIRD) && IsGrowing(THIRD) && AreClimbing(THIRD) && AreClosed(THIRD)
  {
    hide IsTold, IsGrowing, AreClimbing, AreClosed;
    forall i: nat, k: nat | i < 3 && k < |THIRD[i]| { TellingOfThird(i, k); }
    assert IsLikeThird(THIRD);
    LikeThirdIsTold(THIRD);
    LikeThirdGrows(THIRD);
    LikeThirdClimbs(THIRD);
  }

  lemma TellingOfSecond(i: nat, k: nat)
    requires i < 2 && k < |SECOND[i]|
    ensures SECOND[i][k].size == if i == 0 && k == 0 then 1 else 2
    ensures SECOND[i][k].progress == if k == 1 then 100.0 else if i == 0 then 99.0 else 50.0
  {
  }

  predicate IsLikeSecond(told: seq<seq<Telling>>)
  {
    && |told| == 2 && |told[0]| == 2 && |told[1]| == 2
    && (forall i, k :: 0 <= i < 2 && 0 <= k < 2 ==>
          && told[i][k].size == (if i == 0 && k == 0 then 1 else 2)
          && told[i][k].progress == if k == 1 then 100.0 else if i == 0 then 99.0 else 50.0)
  }

  lemma LikeSecondIsTold(told: seq<seq<Telling>>)
    requires IsLikeSecond(told)
    ensures IsTold([A, B], told) && AreClosed(told)
  {
    assert |[A, B]| == 2;
    forall i, k | 0 <= i < |told| && 0 <= k < |told[i]| ensures i < told[i][k].size <= 2 {}
  }

  lemma LikeSecondGrows(told: seq<seq<Telling>>)
    requires IsLikeSecond(told)
    ensures IsGrowing(told)
  {
    forall i, j, a, b | 0 <= i <= j < |told| && 0 <= a < |told[i]| && 0 <= b < |told[j]| && (i < j || a <= b)
      ensures told[i][a].size <= told[j][b].size
    {
    }
  }

  lemma LikeSecondClimbs(told: seq<seq<Telling>>)
    requires IsLikeSecond(told)
    ensures AreClimbing(told)
  {
    forall i | 0 <= i < |told| ensures IsClimbing(told[i]) {
      forall a, b | 0 <= a < b < |told[i]| ensures told[i][a].progress <= told[i][b].progress {}
    }
  }

  lemma SecondIsRight()
    ensures IsTold([A, B], SECOND) && IsGrowing(SECOND) && AreClimbing(SECOND) && AreClosed(SECOND)
  {
    hide IsTold, IsGrowing, AreClimbing, AreClosed;
    forall i: nat, k: nat | i < 2 && k < |SECOND[i]| { TellingOfSecond(i, k); }
    assert IsLikeSecond(SECOND);
    LikeSecondIsTold(SECOND);
    LikeSecondGrows(SECOND);
    LikeSecondClimbs(SECOND);
  }

  /** The figures of the first run, job by job. */
  lemma ThirdByJob()
    ensures JobReports(COLLS, Some(1), PLAN, 0, 0.0, THIRD[0]) == [50]
    ensures JobReports(COLLS, Some(1), PLAN, 1, 1.0 / 2.0, THIRD[1]) == [75, 83]
    ensures JobReports(COLLS, Some(1), PLAN, 2, 5.0 / 6.0, THIRD[2]) == [116]
  {
    SharesOfPlan();
    hide ShareIn, JobReports;
    JobReportsOfNone(COLLS, Some(1), PLAN, 0, 0.0);
    JobReportsOf(COLLS, Some(1), PLAN, 0, 0.0, Telling(99.0, 2), []);
    JobReportsOf(COLLS, Some(1), PLAN, 0, 0.0, Telling(100.0, 2), [Telling(99.0, 2)]);
    JobReportsOfNone(COLLS, Some(1), PLAN, 1, 1.0 / 2.0);
    JobReportsOf(COLLS, Some(1), PLAN, 1, 1.0 / 2.0, Telling(50.0, 2), []);
    JobReportsOf(COLLS, Some(1), PLAN, 1, 1.0 / 2.0, Telling(99.0, 3), [Telling(50.0, 2)]);
    JobReportsOf(COLLS, Some(1), PLAN, 1, 1.0 / 2.0, Telling(100.0, 3), [Telling(50.0, 2), Telling(99.0, 3)]);
    JobReportsOfNone(COLLS, Some(1), PLAN, 2, 5.0 / 6.0);
    JobReportsOf(COLLS, Some(1), PLAN, 2, 5.0 / 6.0, Telling(99.0, 3), []);
    JobReportsOf(COLLS, Some(1), PLAN, 2, 5.0 / 6.0, Telling(100.0, 3), [Telling(99.0, 3)]);
    assert [] + [Telling(99.0, 2)] == [Telling(99.0, 2)] && [] + [Telling(50.0, 2)] == [Telling(50.0, 2)];
    assert [] + [Telling(99.0, 3)] == [Telling(99.0, 3)];
    assert THIRD[0] == [Telling(99.0, 2)] + [Telling(100.0, 2)];
    assert THIRD[1] == [Telling(50.0, 2), Telling(99.0, 3)] + [Telling(100.0, 3)];
    assert [Telling(50.0, 2)] + [Telling(99.0, 3)] == [Telling(50.0, 2), Telling(99.0, 3)];
    assert THIRD[2] == [Telling(99.0, 3)] + [Telling(100.0, 3)];
    Figures();
  }

  lemma Figures()
    ensures ReportOf(0.0, 1.0 / 2.0, 99.0) == [50] && ReportOf(1.0 / 2.0, 1.0 / 2.0, 50.0) == [75]
    ensures ReportOf(1.0 / 2.0, 1.0 / 3.0, 99.0) == [83] && ReportOf(5.0 / 6.0, 1.0 / 3.0, 99.0) == [116]
    ensures ReportOf(0.0, 1.0, 99.0) == [99]
  {
  }

  lemma ThirdReports()
    ensures IsTold(PLAN, THIRD) && Reports(COLLS, Some(1), PLAN, THIRD, 3) == [50, 75, 83, 116]
  {
    hide ShareIn, JobReports;
    ThirdIsRight();
    ThirdByJob();
    SharesOfPlan();
    assert Before(COLLS, Some(1), PLAN, THIRD, 0) == 0.0;
    assert Before(COLLS, Some(1), PLAN, THIRD, 1) == 1.0 / 2.0;
    assert Before(COLLS, Some(1), PLAN, THIRD, 2) == 5.0 / 6.0;
    assert Reports(COLLS, Some(1), PLAN, THIRD, 1) == [50];
    assert Reports(COLLS, Some(1), PLAN, THIRD, 2) == [50, 75, 83];
  }

  /** A run to its end of a queue to which a job is added while the second one runs: the job that has ended
      was given a half, and so the run gets to 116. */
  method AddingWhileRunningOvershoots() returns (emitted: seq<int>)
    ensures IsGrowing(THIRD) && AreClimbing(THIRD) && AreClosed(THIRD) && emitted == [50, 75, 83, 116, 100]
  {
    hide Reports, IsOrdered, IsSteady, IsTold, IsGrowing, AreClimbing, AreClosed;
    ThirdReports();
    ThirdIsRight();
    var run := new ProgressOfRun();
    run.Process(COLLS, Some(1), PLAN, THIRD, false);
    emitted := run.emitted;
  }

  lemma SecondReports()
    ensures IsTold([A, B], SECOND) && Reports(COLLS, Some(1), [A, B], SECOND, 2) == [99, 75]
  {
    hide ShareIn, JobReports;
    SecondIsRight();
    SharesOfTwo();
    Figures();
    var plan := [A, B];
    JobReportsOfNone(COLLS, Some(1), plan, 0, 0.0);
    JobReportsOf(COLLS, Some(1), plan, 0, 0.0, Telling(99.0, 1), []);
    JobReportsOf(COLLS, Some(1), plan, 0, 0.0, Telling(100.0, 2), [Telling(99.0, 1)]);
    JobReportsOfNone(COLLS, Some(1), plan, 1, 1.0 / 2.0);
    JobReportsOf(COLLS, Some(1), plan, 1, 1.0 / 2.0, Telling(50.0, 2), []);
    JobReportsOf(COLLS, Some(1), plan, 1, 1.0 / 2.0, Telling(100.0, 2), [Telling(50.0, 2)]);
    assert [] + [Telling(99.0, 1)] == [Telling(99.0, 1)] && [] + [Telling(50.0, 2)] == [Telling(50.0, 2)];
    assert SECOND[0] == [Telling(99.0, 1)] + [Telling(100.0, 2)];
    assert SECOND[1] == [Telling(50.0, 2)] + [Telling(100.0, 2)];
    assert Before(COLLS, Some(1), plan, SECOND, 0) == 0.0;
    assert Before(COLLS, Some(1), plan, SECOND, 1) == 1.0 / 2.0;
    assert Reports(COLLS, Some(1), plan, SECOND, 1) == [99];
  }

  /** A run to its end of a queue to which a job is added while its only one runs, after that has reported
      99: the share of that job is halved before it ends, and the run goes back to 75. */
  method AddingWhileRunningGoesBack() returns (emitted: seq<int>)
    ensures IsGrowing(SECOND) && AreClimbing(SECOND) && AreClosed(SECOND) && emitted == [99, 75, 100]
  {
    hide Reports, IsOrdered, IsSteady, IsTold, IsGrowing, AreClimbing, AreClosed;
    SecondReports();
    SecondIsRight();
    var run := new ProgressOfRun();
    run.Process(COLLS, Some(1), [A, B], SECOND, false);
    emitted := run.emitted;
  }
}
