/** The progress figure of a run of the sync queue: every job has a weight, and what is reported while
it runs is its share of the progress on top of the shares of the jobs before it. */
module SyncProgress {
  import opened Wrappers
  import opened SyncJobs

  /** The allowed collections and how many of the synced ones are private and public. */
  datatype Colls = Colls(allowed: set<string>, privateSize: nat, publicSize: nat, size: nat)

  const LIMIT: nat := 10

  /** The weight of a job, none if its collection is not known. */
  function Weight(c: Colls, j: Job): (r: real)
    ensures r >= 0.0
  {
    if j.collName !in c.allowed then 0.0
    else if j.collName == ALL then 1.0
    else if c.size == 0 then 0.0
    else Ratio(if j.collName == PRIVATE then c.privateSize else if j.collName == PUBLIC then c.publicSize else 1,
               c.size)
  }

  function Ratio(a: nat, b: nat): (r: real)
    requires b > 0
    ensures r >= 0.0
  {
    a as real / b as real
  }

  /** A job weighs as many of the synced collections as it stands for, and all of them make one. */
  lemma WeightIsShareOfColls(c: Colls, j: Job)
    requires c.size > 0
    ensures Weight(c, j) * c.size as real
         == if j.collName !in c.allowed then 0.0
            else match j.collName
                 case "_ALL" => c.size as real
                 case "_PRIVATE" => c.privateSize as real
                 case "_PUBLIC" => c.publicSize as real
                 case _ => 1.0
  {
    RatioOfSize(c.privateSize, c.size);
    RatioOfSize(c.publicSize, c.size);
    RatioOfSize(1, c.size);
    hide Ratio;
  }

  lemma RatioOfSize(a: nat, b: nat)
    requires b > 0
    ensures Ratio(a, b) * b as real == a as real
  {
  }

  function Sum(c: Colls, jobs: seq<Job>): (r: real)
    ensures r >= 0.0
  {
    if jobs == [] then 0.0 else Weight(c, jobs[0]) + Sum(c, jobs[1..])
  }

  predicate IsOwn(j: Job, owner: Option<int>) { owner.Some? ==> j.ownerUserId == owner }

  function Own(jobs: seq<Job>, owner: Option<int>): seq<Job>
  {
    if jobs == [] then []
    else (if IsOwn(jobs[0], owner) then [jobs[0]] else []) + Own(jobs[1..], owner)
  }

  function Limited(jobs: seq<Job>): seq<Job> { if |jobs| <= LIMIT then jobs else jobs[..LIMIT] }

  /** What a share is a share of: the jobs done in this run and the first ten pending ones of the owner. */
  function Whole(c: Colls, owner: Option<int>, done: seq<Job>, pending: seq<Job>): (r: real)
    ensures r >= 0.0
  {
    Sum(c, done) + Sum(c, Limited(Own(pending, owner)))
  }

  /** One more pending job counts when it is the owner's, or nobody in particular runs the queue, and it is
      among the first ten such jobs. */
  lemma WholeOfOneMore(c: Colls, owner: Option<int>, done: seq<Job>, pending: seq<Job>, x: Job)
    ensures Whole(c, owner, done, pending + [x])
         == Whole(c, owner, done, pending)
            + (if (owner == None || x.ownerUserId == owner) && |Own(pending, owner)| < 10 then Weight(c, x) else 0.0)
  {
    hide Weight;
    OwnOfBoth(pending, [x], owner);
    var own := Own(pending, owner);
    assert [x][1..] == [] && Own([x], owner) == if owner == None || x.ownerUserId == owner then [x] else [];
    SumOfBoth(c, own, [x]);
    assert Sum(c, [x]) == Weight(c, x) + Sum(c, []);
    assert own + [] == own && own[..|own|] == own;
    assert |own| >= LIMIT ==> (own + [x])[..LIMIT] == own[..LIMIT];
  }

  /** `_getMultiplier` for a job that is among the pending ones. */
  function Share(c: Colls, owner: Option<int>, done: seq<Job>, pending: seq<Job>, j: Job): (r: real)
    requires j in pending
  {
    var listed := Limited(Own(pending, owner));
    var w := if j in listed then Weight(c, j) else 0.0;
    var whole := Whole(c, owner, done, pending);
    if w == 0.0 || whole == 0.0 then 0.0 else Part(w, whole)
  }

  function Part(w: real, whole: real): real
    requires whole != 0.0
  {
    (1.0 / whole) * w
  }

  /** A job tells its progress, 100 when it ends; a text instead of a figure, which is never reported, counts
      as 100. `size` is how many of the jobs of the run are in the queue by then, done, running or
      waiting. */
  datatype Telling = Telling(progress: real, size: nat)

  /** The jobs of a run in the order of their ids, and what the first of them tell. */
  predicate IsTold(plan: seq<Job>, told: seq<seq<Telling>>)
  {
    && |told| <= |plan|
    && forall i, k :: 0 <= i < |told| && 0 <= k < |told[i]| ==> i < told[i][k].size <= |plan|
  }

  predicate IsTelling(plan: seq<Job>, i: nat, told: seq<Telling>)
  {
    i < |plan| && forall k :: 0 <= k < |told| ==> i < told[k].size <= |plan|
  }

  /** The queue stays as it is: all jobs are there from the start. */
  predicate IsSteady(plan: seq<Job>, told: seq<seq<Telling>>)
  {
    forall i, k :: 0 <= i < |told| && 0 <= k < |told[i]| ==> told[i][k].size == |plan|
  }

  /** The share of job `i` while `size` jobs are in the queue: the jobs before it are done. */
  function ShareIn(c: Colls, owner: Option<int>, plan: seq<Job>, i: nat, size: nat): real
    requires i < size <= |plan|
  {
    Share(c, owner, plan[..i], plan[i..size], plan[i])
  }

  /** What a job adds in the end: its share when it last told its progress. */
  function LastShare(c: Colls, owner: Option<int>, plan: seq<Job>, i: nat, told: seq<Telling>): real
    requires IsTelling(plan, i, told)
  {
    if told == [] then 0.0 else ShareIn(c, owner, plan, i, told[|told| - 1].size)
  }

  /** The progress before job `i`; a job that never told its progress has added nothing. */
  function Before(c: Colls, owner: Option<int>, plan: seq<Job>, told: seq<seq<Telling>>, i: nat): real
    requires IsTold(plan, told) && i <= |told|
  {
    if i == 0 then 0.0
    else Before(c, owner, plan, told, i - 1) + LastShare(c, owner, plan, i - 1, told[i - 1])
  }

  function Round(x: real): int { (x + 0.5).Floor }

  function Level(before: real, share: real, progress: real): real { before * 100.0 + progress * share }

  function ReportOf(before: real, share: real, progress: real): seq<int>
  {
    if share == 0.0 || progress == 0.0 || progress >= 100.0 then []
    else [Round(Level(before, share, progress))]
  }

  /** What is reported while one job runs. */
  function JobReports(c: Colls, owner: Option<int>, plan: seq<Job>, i: nat, before: real, told: seq<Telling>): seq<int>
    requires IsTelling(plan, i, told)
  {
    if told == [] then []
    else
      var k := |told| - 1;
      JobReports(c, owner, plan, i, before, told[..k])
      + ReportOf(before, ShareIn(c, owner, plan, i, told[k].size), told[k].progress)
  }

  /** What is reported while the first `n` jobs run. */
  function Reports(c: Colls, owner: Option<int>, plan: seq<Job>, told: seq<seq<Telling>>, n: nat): seq<int>
    requires IsTold(plan, told) && n <= |told|
  {
    if n == 0 then []
    else
      Reports(c, owner, plan, told, n - 1)
      + JobReports(c, owner, plan, n - 1, Before(c, owner, plan, told, n - 1), told[n - 1])
  }

  // ----- Shares

  lemma {:induction false} SumOfBoth(c: Colls, a: seq<Job>, b: seq<Job>)
    ensures Sum(c, a + b) == Sum(c, a) + Sum(c, b)
  {
    if a == [] {
      assert a + b == b;
    } else {
      assert (a + b)[1..] == a[1..] + b;
      SumOfBoth(c, a[1..], b);
    }
  }

  lemma {:induction false} OwnOfBoth(a: seq<Job>, b: seq<Job>, owner: Option<int>)
    ensures Own(a + b, owner) == Own(a, owner) + Own(b, owner)
  {
    if a == [] {
      assert a + b == b;
    } else {
      assert (a + b)[0] == a[0] && (a + b)[1..] == a[1..] + b;
      OwnOfBoth(a[1..], b, owner);
      var head := if IsOwn(a[0], owner) then [a[0]] else [];
      assert head + (Own(a[1..], owner) + Own(b, owner)) == (head + Own(a[1..], owner)) + Own(b, owner);
    }
  }

  lemma {:induction false} OwnIsPart(c: Colls, jobs: seq<Job>, owner: Option<int>)
    ensures |Own(jobs, owner)| <= |jobs| && Sum(c, Own(jobs, owner)) <= Sum(c, jobs)
    ensures forall j :: j in Own(jobs, owner) ==> j in jobs && IsOwn(j, owner)
  {
    if jobs != [] {
      OwnIsPart(c, jobs[1..], owner);
      var rest := Own(jobs[1..], owner);
      assert [] + rest == rest && ([jobs[0]] + rest)[1..] == rest;
    }
  }

  lemma ListedStartsWith(c: Colls, a: seq<Job>, b: seq<Job>)
    requires |a| <= LIMIT
    ensures Sum(c, a) <= Sum(c, Limited(a + b))
  {
    var rest := Limited(a + b)[|a|..];
    assert Limited(a + b) == a + rest;
    SumOfBoth(c, a, rest);
  }

  /** Whichever of the first `m` jobs runs, its share is a share of no less than all of theirs. */
  lemma WholeCoversRun(c: Colls, owner: Option<int>, plan: seq<Job>, m: nat, i: nat)
    requires i < m <= |plan| && m <= LIMIT
    ensures Sum(c, Own(plan[..m], owner)) <= Whole(c, owner, plan[..i], plan[i..])
  {
    hide Sum, Own, Limited;
    assert plan[..m] == plan[..i] + plan[i..m] && plan[i..] == plan[i..m] + plan[m..];
    OwnOfBoth(plan[..i], plan[i..m], owner);
    OwnOfBoth(plan[i..m], plan[m..], owner);
    SumOfBoth(c, Own(plan[..i], owner), Own(plan[i..m], owner));
    OwnIsPart(c, plan[..i], owner);
    OwnIsPart(c, plan[i..m], owner);
    ListedStartsWith(c, Own(plan[i..m], owner), Own(plan[m..], owner));
  }

  lemma PartOfMore(w: real, whole: real, less: real)
    requires 0.0 <= w <= less <= whole && 0.0 < whole
    ensures 0.0 <= Part(w, whole) && Part(w, whole) * less <= w
  {
    var p := 1.0 / whole;
    assert p * whole == 1.0;
    assert p * w >= 0.0;
    assert p * w * less <= p * w * whole;
  }

  /** A share is none for a job of someone else, and at most its weight over `own` otherwise. */
  lemma ShareIsAtMost(c: Colls, owner: Option<int>, plan: seq<Job>, m: nat, i: nat)
    requires i < m <= |plan| && m <= LIMIT
    ensures var own := Sum(c, Own(plan[..m], owner));
            && 0.0 <= ShareIn(c, owner, plan, i, |plan|)
            && ShareIn(c, owner, plan, i, |plan|) * own <= (if IsOwn(plan[i], owner) then Weight(c, plan[i]) else 0.0)
            && (own == 0.0 ==> ShareIn(c, owner, plan, i, |plan|) == 0.0)
  {
    hide Sum, Own, Limited, Weight, Part, Whole;
    assert plan[i..|plan|] == plan[i..];
    var own := Sum(c, Own(plan[..m], owner));
    var whole := Whole(c, owner, plan[..i], plan[i..]);
    var w := if IsOwn(plan[i], owner) then Weight(c, plan[i]) else 0.0;
    WholeCoversRun(c, owner, plan, m, i);
    ListedAreOwn(plan[i..], owner);
    WeightIsCounted(c, owner, plan, m, i);
    if whole > 0.0 {
      PartOfMore(w, whole, own);
      if w == 0.0 { NoPart(whole); }
    }
  }

  lemma NoPart(whole: real)
    requires whole > 0.0
    ensures Part(0.0, whole) == 0.0
  {
  }

  lemma ListedAreOwn(pending: seq<Job>, owner: Option<int>)
    requires pending != []
    ensures forall j :: j in Limited(Own(pending, owner)) ==> IsOwn(j, owner)
    ensures IsOwn(pending[0], owner) ==> pending[0] in Limited(Own(pending, owner))
  {
    OwnIsPart(Colls({}, 0, 0, 0), pending, owner);
    assert IsOwn(pending[0], owner) ==> Limited(Own(pending, owner))[0] == pending[0];
  }

  lemma WeightIsCounted(c: Colls, owner: Option<int>, plan: seq<Job>, m: nat, i: nat)
    requires i < m <= |plan|
    ensures IsOwn(plan[i], owner) ==> Weight(c, plan[i]) <= Sum(c, Own(plan[..m], owner))
  {
    hide Weight;
    assert plan[..m] == plan[..i] + plan[i..m];
    OwnOfBoth(plan[..i], plan[i..m], owner);
    SumOfBoth(c, Own(plan[..i], owner), Own(plan[i..m], owner));
    if IsOwn(plan[i], owner) {
      var rest := Own(plan[i..m][1..], owner);
      assert Own(plan[i..m], owner) == [plan[i]] + rest;
      SumOfBoth(c, [plan[i]], rest);
    }
  }

  lemma {:induction false} BeforeIsAtMost(c: Colls, owner: Option<int>, plan: seq<Job>, told: seq<seq<Telling>>, i: nat)
    requires IsTold(plan, told) && IsSteady(plan, told) && i <= |told| <= LIMIT
    ensures var own := Sum(c, Own(plan[..|told|], owner));
            && 0.0 <= Before(c, owner, plan, told, i)
            && Before(c, owner, plan, told, i) * own <= Sum(c, Own(plan[..i], owner))
            && (own == 0.0 ==> Before(c, owner, plan, told, i) == 0.0)
    decreases i
  {
    hide ShareIn, Sum, Own, Weight;
    var own := Sum(c, Own(plan[..|told|], owner));
    if i > 0 {
      BeforeIsAtMost(c, owner, plan, told, i - 1);
      ShareIsAtMost(c, owner, plan, |told|, i - 1);
      OwnGrows(c, owner, plan, i - 1);
      AddedTimes(Before(c, owner, plan, told, i - 1), ShareIn(c, owner, plan, i - 1, |plan|), own);
    }
  }

  lemma AddedTimes(a: real, b: real, x: real)
    ensures (a + b) * x == a * x + b * x && (a + 0.0) * x == a * x
  {
  }

  lemma OwnGrows(c: Colls, owner: Option<int>, plan: seq<Job>, i: nat)
    requires i < |plan|
    ensures Sum(c, Own(plan[..i + 1], owner))
            == Sum(c, Own(plan[..i], owner)) + (if IsOwn(plan[i], owner) then Weight(c, plan[i]) else 0.0)
  {
    hide Weight;
    assert plan[..i + 1] == plan[..i] + [plan[i]];
    OwnOfBoth(plan[..i], [plan[i]], owner);
    assert Own([plan[i]], owner) == if IsOwn(plan[i], owner) then [plan[i]] else [];
    SumOfBoth(c, Own(plan[..i], owner), Own([plan[i]], owner));
  }

  /** The shares of a run never make more than the whole. */
  lemma SharesAreAtMostOne(c: Colls, owner: Option<int>, plan: seq<Job>, told: seq<seq<Telling>>, i: nat)
    requires IsTold(plan, told) && IsSteady(plan, told) && i <= |told| <= LIMIT
    ensures 0.0 <= Before(c, owner, plan, told, i) <= 1.0
  {
    hide Before, Own, Sum;
    BeforeIsAtMost(c, owner, plan, told, i);
    var own := Sum(c, Own(plan[..|told|], owner));
    OwnPrefix(c, owner, plan, i, |told|);
    if own > 0.0 && Before(c, owner, plan, told, i) > 1.0 { MoreThanOne(Before(c, owner, plan, told, i), own); }
  }

  lemma MoreThanOne(b: real, own: real)
    requires b > 1.0 && own > 0.0
    ensures b * own > own
  {
  }

  lemma OwnPrefix(c: Colls, owner: Option<int>, plan: seq<Job>, i: nat, m: nat)
    requires i <= m <= |plan|
    ensures Sum(c, Own(plan[..i], owner)) <= Sum(c, Own(plan[..m], owner))
  {
    assert plan[..m] == plan[..i] + plan[i..m];
    OwnOfBoth(plan[..i], plan[i..m], owner);
    SumOfBoth(c, Own(plan[..i], owner), Own(plan[i..m], owner));
  }

  predicate TellAll(told: seq<seq<Telling>>) { forall k :: 0 <= k < |told| ==> told[k] != [] }

  lemma {:induction false} SharesAddUp(c: Colls, owner: Option<int>, plan: seq<Job>, told: seq<seq<Telling>>, i: nat)
    requires IsTold(plan, told) && IsSteady(plan, told) && i <= |told| == |plan| <= LIMIT && TellAll(told)
    requires forall j <- plan :: IsOwn(j, owner)
    ensures Before(c, owner, plan, told, i) * Sum(c, plan) == if Sum(c, plan) == 0.0 then 0.0 else Sum(c, plan[..i])
    decreases i
  {
    hide ShareIn, Sum, Own, Weight;
    if i > 0 {
      SharesAddUp(c, owner, plan, told, i - 1);
      ShareOfPlan(c, owner, plan, i - 1);
      assert plan[..i] == plan[..i - 1] + [plan[i - 1]];
      SumOfBoth(c, plan[..i - 1], [plan[i - 1]]);
      SumOfOne(c, plan[i - 1]);
      AddedTimes(Before(c, owner, plan, told, i - 1), ShareIn(c, owner, plan, i - 1, |plan|), Sum(c, plan));
    } else {
      SumOfNone(c);
    }
  }

  /** A queue of one owner with at most ten jobs: once every job has told its progress, the shares make
      exactly the whole. */
  lemma SharesMakeOne(c: Colls, owner: Option<int>, plan: seq<Job>, told: seq<seq<Telling>>)
    requires IsTold(plan, told) && IsSteady(plan, told) && |told| == |plan| <= LIMIT && TellAll(told)
    requires Sum(c, plan) > 0.0 && forall j <- plan :: IsOwn(j, owner)
    ensures Before(c, owner, plan, told, |plan|) == 1.0
  {
    hide Sum, Before;
    assert plan[..|plan|] == plan;
    SharesAddUp(c, owner, plan, told, |plan|);
    assert Sum(c, plan[..|plan|]) == Sum(c, plan);
    TimesIsOne(Before(c, owner, plan, told, |plan|), Sum(c, plan));
  }

  lemma SumOfNone(c: Colls)
    ensures Sum(c, []) == 0.0
  {
  }

  lemma SumOfOne(c: Colls, j: Job)
    ensures Sum(c, [j]) == Weight(c, j)
  {
  }

  lemma TimesIsOne(b: real, own: real)
    requires own > 0.0 && b * own == own
    ensures b == 1.0
  {
    assert (b - 1.0) * own == 0.0;
  }

  lemma ShareOfPlan(c: Colls, owner: Option<int>, plan: seq<Job>, i: nat)
    requires i < |plan| <= LIMIT && forall j <- plan :: IsOwn(j, owner)
    ensures ShareIn(c, owner, plan, i, |plan|) * Sum(c, plan) == if Sum(c, plan) == 0.0 then 0.0 else Weight(c, plan[i])
  {
    hide Sum, Weight, Part, ShareIn;
    ShareOfOwn(c, owner, plan, i, |plan|);
    assert plan[..|plan|] == plan;
    var w, whole := Weight(c, plan[i]), Sum(c, plan);
    if w != 0.0 { PartTimes(w, whole); }
  }

  /** Among at most ten jobs of one owner the share is the weight over all weights in the queue. */
  lemma ShareOfOwn(c: Colls, owner: Option<int>, plan: seq<Job>, i: nat, size: nat)
    requires i < size <= |plan| <= LIMIT && forall j <- plan :: IsOwn(j, owner)
    ensures var w, whole := Weight(c, plan[i]), Sum(c, plan[..size]);
            w <= whole && ShareIn(c, owner, plan, i, size) == if w == 0.0 then 0.0 else Part(w, whole)
  {
    hide Sum, Own, Weight, Part, IsOwn;
    var pending := plan[i..size];
    AllOwn(pending, owner);
    assert plan[..size] == plan[..i] + pending && pending == [plan[i]] + pending[1..];
    SumOfBoth(c, plan[..i], pending);
    SumOfBoth(c, [plan[i]], pending[1..]);
    SumOfOne(c, plan[i]);
  }

  lemma PartTimes(w: real, whole: real)
    requires whole != 0.0
    ensures Part(w, whole) * whole == w
  {
    var p := 1.0 / whole;
    assert p * whole == 1.0;
    assert (p * w) * whole == (p * whole) * w;
  }

  lemma {:induction false} AllOwn(jobs: seq<Job>, owner: Option<int>)
    requires forall j <- jobs :: IsOwn(j, owner)
    ensures Own(jobs, owner) == jobs
  {
    if jobs != [] { AllOwn(jobs[1..], owner); }
  }

  // ----- What is reported

  predicate IsClimbing(told: seq<Telling>)
  {
    && (forall j, k :: 0 <= j < k < |told| ==> told[j].progress <= told[k].progress)
    && (forall k :: 0 <= k < |told| ==> 0.0 <= told[k].progress <= 100.0)
  }

  predicate AreClimbing(told: seq<seq<Telling>>) { forall k :: 0 <= k < |told| ==> IsClimbing(told[k]) }

  /** The figures never go down and lie between the two. */
  predicate IsOrdered(reports: seq<int>, low: int, high: int)
  {
    && (forall j, k :: 0 <= j < k < |reports| ==> reports[j] <= reports[k])
    && (forall k :: 0 <= k < |reports| ==> low <= reports[k] <= high)
  }

  lemma RoundIsMonotone(x: real, y: real)
    requires x <= y
    ensures Round(x) <= Round(y)
  {
  }

  lemma OrderedTogether(a: seq<int>, b: seq<int>, low: int, middle: int, high: int)
    requires IsOrdered(a, low, middle) && IsOrdered(b, middle, high) && low <= middle <= high
    ensures IsOrdered(a + b, low, high)
  {
  }

  lemma ReportIsBetween(before: real, share: real, p: real, q: real)
    requires 0.0 <= share && 0.0 <= p <= q <= 100.0
    ensures Round(before * 100.0) <= Round(Level(before, share, p)) <= Round(Level(before, share, q))
            <= Round((before + share) * 100.0)
  {
    assert 0.0 <= p * share <= q * share <= 100.0 * share;
    RoundIsMonotone(before * 100.0, Level(before, share, p));
    RoundIsMonotone(Level(before, share, p), Level(before, share, q));
    RoundIsMonotone(Level(before, share, q), (before + share) * 100.0);
  }

  lemma {:induction false} JobReportsAreOrdered(c: Colls, owner: Option<int>, plan: seq<Job>, i: nat, before: real,
                                                share: real, told: seq<Telling>)
    requires IsTelling(plan, i, told) && IsClimbing(told) && 0.0 <= share
    requires forall k :: 0 <= k < |told| ==> ShareIn(c, owner, plan, i, told[k].size) == share
    ensures IsOrdered(JobReports(c, owner, plan, i, before, told), Round(before * 100.0),
                      if told == [] then Round(before * 100.0)
                      else Round(Level(before, share, told[|told| - 1].progress)))
    decreases |told|
  {
    hide Round, Level, ShareIn;
    if told != [] {
      var k := |told| - 1;
      JobReportsAreOrdered(c, owner, plan, i, before, share, told[..k]);
      var last := told[k].progress;
      ReportIsBetween(before, share, if k == 0 then 0.0 else told[k - 1].progress, last);
      var middle := if k == 0 then Round(before * 100.0) else Round(Level(before, share, told[k - 1].progress));
      OrderedTogether(JobReports(c, owner, plan, i, before, told[..k]), ReportOf(before, share, last),
                      Round(before * 100.0), middle, Round(Level(before, share, last)));
    }
  }

  /** Up to the end of any job of a run over a queue that stays as it is, the reported progress never
      goes down and stays between 0 and 100. */
  lemma {:induction false} ReportsClimb(c: Colls, owner: Option<int>, plan: seq<Job>, told: seq<seq<Telling>>, n: nat)
    requires IsTold(plan, told) && IsSteady(plan, told) && n <= |told| <= LIMIT && AreClimbing(told)
    ensures var high := Round(Before(c, owner, plan, told, n) * 100.0);
            0 <= high <= 100 && IsOrdered(Reports(c, owner, plan, told, n), 0, high)
    decreases n
  {
    hide Round, ShareIn, IsOrdered, JobReports, LastShare, IsClimbing;
    SharesAreAtMostOne(c, owner, plan, told, n);
    PercentOfPart(Before(c, owner, plan, told, n));
    if n == 0 {
      NothingReported();
    } else {
      ReportsClimb(c, owner, plan, told, n - 1);
      var before, share := Before(c, owner, plan, told, n - 1), ShareIn(c, owner, plan, n - 1, |plan|);
      ShareIsAtMost(c, owner, plan, |told|, n - 1);
      JobClimbs(c, owner, plan, n - 1, before, share, told[n - 1]);
      OrderedTogether(Reports(c, owner, plan, told, n - 1), JobReports(c, owner, plan, n - 1, before, told[n - 1]), 0,
                      Round(before * 100.0), Round(Before(c, owner, plan, told, n) * 100.0));
    }
  }

  lemma NothingReported()
    ensures forall high :: IsOrdered([], 0, high)
  {
  }

  lemma PercentOfPart(b: real)
    requires 0.0 <= b <= 1.0
    ensures 0 <= Round(b * 100.0) <= 100
  {
    RoundIsMonotone(0.0, b * 100.0);
    RoundIsMonotone(b * 100.0, 100.0);
  }

  lemma JobClimbs(c: Colls, owner: Option<int>, plan: seq<Job>, i: nat, before: real, share: real, told: seq<Telling>)
    requires IsTelling(plan, i, told) && IsClimbing(told) && 0.0 <= share
    requires forall k :: 0 <= k < |told| ==> ShareIn(c, owner, plan, i, told[k].size) == share
    ensures var after := before + LastShare(c, owner, plan, i, told);
            && Round(before * 100.0) <= Round(after * 100.0)
            && IsOrdered(JobReports(c, owner, plan, i, before, told), Round(before * 100.0), Round(after * 100.0))
  {
    hide JobReports, Round, Level, ShareIn;
    JobReportsAreOrdered(c, owner, plan, i, before, share, told);
    if told != [] { ReportIsBetween(before, share, told[|told| - 1].progress, told[|told| - 1].progress); }
  }

  // ----- The run

  class ProgressOfRun {
    /** None stands for the text that is shown before the first figure. */
    var progress: Option<int>
    /** The figures sent out, in their order. */
    var emitted: seq<int>

    constructor ()
      ensures progress == None && emitted == []
    {
      progress, emitted := None, [];
    }

    method SetProgress(value: int)
      modifies this
      ensures progress == Some(value) && emitted == old(emitted) + [value]
    {
      progress, emitted := Some(value), emitted + [value];
    }

    method AsyncProgressHandler(currMultiplier: real, multiplier: real, told: real)
      modifies this
      ensures emitted == old(emitted) + ReportOf(multiplier, currMultiplier, told)
      ensures progress == if ReportOf(multiplier, currMultiplier, told) == [] then old(progress) else LastOf(emitted)
    {
      if currMultiplier == 0.0 || told == 0.0 { return; }
      var prevProgress := multiplier * 100.0;
      var currProgress := Round(prevProgress + told * currMultiplier);
      assert prevProgress + told * currMultiplier == Level(multiplier, currMultiplier, told);
      if told < 100.0 { SetProgress(currProgress); }
    }

    /** The progress of one job; it returns the progress after it. */
    method SubProcess(c: Colls, owner: Option<int>, plan: seq<Job>, i: nat, told: seq<Telling>, multiplier: real)
      returns (r: real)
      requires IsTelling(plan, i, told)
      modifies this
      ensures emitted == old(emitted) + JobReports(c, owner, plan, i, multiplier, told)
      ensures r == multiplier + LastShare(c, owner, plan, i, told)
      ensures progress == if emitted == old(emitted) then old(progress) else LastOf(emitted)
    {
      hide ShareIn, Round, ReportOf;
      var currMultiplier := 0.0;
      for k := 0 to |told|
        invariant currMultiplier == LastShare(c, owner, plan, i, told[..k])
        invariant emitted == old(emitted) + JobReports(c, owner, plan, i, multiplier, told[..k])
        invariant progress == if emitted == old(emitted) then old(progress) else LastOf(emitted)
      {
        assert told[..k + 1][..k] == told[..k] && told[..k + 1][k] == told[k];
        currMultiplier := ShareIn(c, owner, plan, i, told[k].size);
        AsyncProgressHandler(currMultiplier, multiplier, told[k].progress);
      }
      assert told[..|told|] == told;
      r := multiplier + currMultiplier;
    }

    /** A run, whatever is added meanwhile, sends out the reports of its jobs and ends with 100 unless it
        is interrupted. Over a queue that stays as it is they never go down and never exceed 100. */
    method Process(c: Colls, owner: Option<int>, plan: seq<Job>, told: seq<seq<Telling>>, isInterrupted: bool)
      requires IsTold(plan, told) && |told| <= LIMIT
      modifies this
      ensures emitted == old(emitted) + Reports(c, owner, plan, told, |told|) + (if isInterrupted then [] else [100])
      ensures IsSteady(plan, told) && AreClimbing(told) ==> IsOrdered(emitted[|old(emitted)|..], 0, 100)
      ensures !isInterrupted ==> progress == Some(100)
    {
      hide LastShare, Round, JobReports, IsOrdered, ReportOf, Before, Reports, IsClimbing, IsSteady;
      progress := None;
      NothingBefore(c, owner, plan, told);
      var multiplier := 0.0;
      for i := 0 to |told|
        invariant multiplier == Before(c, owner, plan, told, i)
        invariant emitted == old(emitted) + Reports(c, owner, plan, told, i)
      {
        JobAdds(c, owner, plan, told, i);
        multiplier := SubProcess(c, owner, plan, i, told[i], multiplier);
      }
      if !isInterrupted { SetProgress(100); }
      if IsSteady(plan, told) && AreClimbing(told) { RunClimbs(c, owner, plan, told); }
      assert emitted[|old(emitted)|..]
        == Reports(c, owner, plan, told, |told|) + (if isInterrupted then [] else [100]);
    }
  }

  function LastOf(emitted: seq<int>): Option<int> { if emitted == [] then None else Some(emitted[|emitted| - 1]) }

  lemma NothingBefore(c: Colls, owner: Option<int>, plan: seq<Job>, told: seq<seq<Telling>>)
    requires IsTold(plan, told)
    ensures Before(c, owner, plan, told, 0) == 0.0 && Reports(c, owner, plan, told, 0) == []
  {
  }

  lemma JobAdds(c: Colls, owner: Option<int>, plan: seq<Job>, told: seq<seq<Telling>>, i: nat)
    requires IsTold(plan, told) && i < |told|
    ensures IsTelling(plan, i, told[i])
    ensures var before := Before(c, owner, plan, told, i);
            && Before(c, owner, plan, told, i + 1) == before + LastShare(c, owner, plan, i, told[i])
            && Reports(c, owner, plan, told, i + 1)
               == Reports(c, owner, plan, told, i) + JobReports(c, owner, plan, i, before, told[i])
  {
  }

  lemma RunClimbs(c: Colls, owner: Option<int>, plan: seq<Job>, told: seq<seq<Telling>>)
    requires IsTold(plan, told) && IsSteady(plan, told) && |told| <= LIMIT && AreClimbing(told)
    ensures IsOrdered(Reports(c, owner, plan, told, |told|) + [], 0, 100)
    ensures IsOrdered(Reports(c, owner, plan, told, |told|) + [100], 0, 100)
  {
    hide Round, Reports;
    ReportsClimb(c, owner, plan, told, |told|);
  }
}
