/**
  The job-run-order scenario: a successful tree whose head has three child chains
  and a finished-job chain, and a tree whose Ruby job fails halfway down its only
  chain and so blocks the rest of that chain and the finished jobs.

  Ids follow dependency order, so each head is created before the jobs below it.
*/
module JobRunOrderScenario {
  import opened Common
  import opened JobTree
  import opened RunManagerModel

  const Head: nat := 0
  const S11: nat := 1
  const S12: nat := 2
  const S13: nat := 3
  const S14: nat := 4
  const S15: nat := 5
  const S21: nat := 6
  const S22: nat := 7
  const S23: nat := 8
  const S24: nat := 9
  const S25: nat := 10
  const S31: nat := 11
  const S32: nat := 12
  const S33: nat := 13
  const S34: nat := 14
  const S35: nat := 15
  const F1: nat := 16
  const F2: nat := 17
  const F3: nat := 18
  const F4: nat := 19
  const F5: nat := 20
  const HeadFailed: nat := 21
  const Failed1: nat := 22
  const Failed2: nat := 23
  const Failed3: nat := 24
  const Failed4: nat := 25
  const Failed5: nat := 26
  const FailedFinished1: nat := 27
  const FailedFinished2: nat := 28

  /** The links and kinds the scenario builds: three child chains of five below the head, a
      finished chain of five; a chain of five below the failing head whose fourth job is a Ruby
      job without a Ruby tool, and a finished chain of two. */
  ghost predicate ScenarioShape(jobs: seq<Job>) {
    |jobs| == 29 && SuccessfulShape(jobs) && FailingShape(jobs)
  }

  ghost predicate SuccessfulShape(jobs: seq<Job>)
    requires |jobs| == 29
  {
    jobs[Head].link.Root?
    && (forall x :: Head < x < F1 ==> jobs[x].link == ChildOf(if x == S11 || x == S21 || x == S31 then Head else x - 1))
    && jobs[F1].link == FinishedOf(Head)
    && (forall x :: F1 < x <= F5 ==> jobs[x].link == ChildOf(x - 1))
    && (forall x :: 0 <= x < HeadFailed ==> jobs[x].kind == NullJob)
  }

  ghost predicate FailingShape(jobs: seq<Job>)
    requires |jobs| == 29
  {
    jobs[HeadFailed].link.Root?
    && jobs[Failed1].link == ChildOf(HeadFailed)
    && (forall x :: Failed1 < x <= Failed5 ==> jobs[x].link == ChildOf(x - 1))
    && jobs[FailedFinished1].link == FinishedOf(HeadFailed)
    && jobs[FailedFinished2].link == ChildOf(FailedFinished1)
    && (forall x :: HeadFailed <= x < 29 && x != Failed4 ==> jobs[x].kind == NullJob)
    && jobs[Failed4].kind == RubyJob(false, true)
  }

  lemma ShapeIsTopological(jobs: seq<Job>)
    requires ScenarioShape(jobs)
    ensures Topological(jobs)
  {
  }

  /** The jobs of the failing tree have their own root, so none of them is in the successful
      tree. */
  lemma TreesAreApart(jobs: seq<Job>)
    requires ScenarioShape(jobs)
    ensures Topological(jobs)
    ensures forall d :: HeadFailed <= d < |jobs| ==> RootOf(jobs, d) == HeadFailed && !InTree(jobs, Head, d)
  {
    forall d | HeadFailed <= d < |jobs|
      ensures RootOf(jobs, d) == HeadFailed && !InTree(jobs, Head, d)
    {
      ContiguousTree(jobs, HeadFailed, |jobs|, d);
      if InTree(jobs, Head, d) {
        RootOfTree(jobs, Head, d);
      }
    }
  }

  /** Once nothing more can run, every job of the successful tree succeeded. */
  lemma SuccessfulTreeSucceeded(jobs: seq<Job>, queue: set<nat>, clock: nat)
    requires ScenarioShape(jobs) && RunInvariant(jobs, queue, clock) && Quiescent(jobs, queue)
    requires queue == {Head, HeadFailed}
    ensures forall d :: Head <= d <= F5 ==>
              InTree(jobs, Head, d) && jobs[d].status == Succeeded && jobs[d].lastRun.Some?
    ensures TreeStatusOf(jobs, Head) == TreeFinished
  {
    TreesAreApart(jobs);
    forall x | 0 <= x < |jobs| && InTree(jobs, Head, x)
      ensures Succeeds(jobs[x].kind)
    {
    }
    forall d | Head <= d <= F5
      ensures InTree(jobs, Head, d) && jobs[d].status == Succeeded && jobs[d].lastRun.Some?
    {
      ContiguousTree(jobs, Head, F5 + 1, d);
      SuccessfulTreeSucceeds(jobs, queue, clock, Head, d);
    }
  }

  /** Once the successful tree has run, every pair the test checks ran in order: each child
      after its parent, the finished chain after the head and after the last job of each child
      chain. */
  lemma SuccessfulTreeRunOrder(jobs: seq<Job>, queue: set<nat>, clock: nat)
    requires ScenarioShape(jobs) && RunInvariant(jobs, queue, clock)
    requires forall d :: Head <= d <= F5 ==> jobs[d].lastRun.Some?
    ensures FinishedAfter(jobs, Head, S11) && FinishedAfter(jobs, Head, S21)
            && FinishedAfter(jobs, Head, S31) && FinishedAfter(jobs, Head, F1)
    ensures FinishedAfter(jobs, S11, S12) && FinishedAfter(jobs, S12, S13)
            && FinishedAfter(jobs, S13, S14) && FinishedAfter(jobs, S14, S15)
    ensures FinishedAfter(jobs, S21, S22) && FinishedAfter(jobs, S22, S23)
            && FinishedAfter(jobs, S23, S24) && FinishedAfter(jobs, S24, S25)
    ensures FinishedAfter(jobs, S31, S32) && FinishedAfter(jobs, S32, S33)
            && FinishedAfter(jobs, S33, S34) && FinishedAfter(jobs, S34, S35)
    ensures FinishedAfter(jobs, F1, F2) && FinishedAfter(jobs, F2, F3)
            && FinishedAfter(jobs, F3, F4) && FinishedAfter(jobs, F4, F5)
    ensures FinishedAfter(jobs, S15, F1) && FinishedAfter(jobs, S25, F1)
            && FinishedAfter(jobs, S35, F1)
  {
    ChildChainRunOrder(jobs, queue, clock, S11);
    ChildChainRunOrder(jobs, queue, clock, S21);
    ChildChainRunOrder(jobs, queue, clock, S31);
    FinishedChainRunOrder(jobs, queue, clock);
  }

  /** One child chain of the head ran in order below the head, and the finished chain's first
      job ran after the chain's last job. */
  lemma ChildChainRunOrder(jobs: seq<Job>, queue: set<nat>, clock: nat, first: nat)
    requires ScenarioShape(jobs) && RunInvariant(jobs, queue, clock)
    requires forall d :: Head <= d <= F5 ==> jobs[d].lastRun.Some?
    requires first == S11 || first == S21 || first == S31
    ensures FinishedAfter(jobs, Head, first) && FinishedAfter(jobs, first, first + 1)
            && FinishedAfter(jobs, first + 1, first + 2) && FinishedAfter(jobs, first + 2, first + 3)
            && FinishedAfter(jobs, first + 3, first + 4) && FinishedAfter(jobs, first + 4, F1)
  {
    RanAfterDependency(jobs, queue, clock, first, Head);
    RanAfterDependency(jobs, queue, clock, first + 1, first);
    RanAfterDependency(jobs, queue, clock, first + 2, first + 1);
    RanAfterDependency(jobs, queue, clock, first + 3, first + 2);
    RanAfterDependency(jobs, queue, clock, first + 4, first + 3);
    ContiguousChildTree(jobs, Head, F1, first + 4);
    RanAfterDependency(jobs, queue, clock, F1, first + 4);
  }

  /** The finished chain ran in order after the head. */
  lemma FinishedChainRunOrder(jobs: seq<Job>, queue: set<nat>, clock: nat)
    requires ScenarioShape(jobs) && RunInvariant(jobs, queue, clock)
    requires forall d :: Head <= d <= F5 ==> jobs[d].lastRun.Some?
    ensures FinishedAfter(jobs, Head, F1) && FinishedAfter(jobs, F1, F2) && FinishedAfter(jobs, F2, F3)
            && FinishedAfter(jobs, F3, F4) && FinishedAfter(jobs, F4, F5)
  {
    RanAfterDependency(jobs, queue, clock, F1, Head);
    RanAfterDependency(jobs, queue, clock, F2, F1);
    RanAfterDependency(jobs, queue, clock, F3, F2);
    RanAfterDependency(jobs, queue, clock, F4, F3);
    RanAfterDependency(jobs, queue, clock, F5, F4);
  }

  /** The successful tree's last run is that of the last job of its finished chain. */
  lemma SuccessfulTreeLastRun(jobs: seq<Job>, queue: set<nat>, clock: nat)
    requires ScenarioShape(jobs) && RunInvariant(jobs, queue, clock) && Quiescent(jobs, queue)
    requires queue == {Head, HeadFailed}
    ensures TreeLastRun(jobs, Head) == jobs[F5].lastRun
  {
    SuccessfulTreeSucceeded(jobs, queue, clock);
    TreesAreApart(jobs);
    DependencyRanFirst(jobs, queue, clock, F2, F1);
    DependencyRanFirst(jobs, queue, clock, F3, F2);
    DependencyRanFirst(jobs, queue, clock, F4, F3);
    DependencyRanFirst(jobs, queue, clock, F5, F4);
    forall d | 0 <= d < |jobs| && InTree(jobs, Head, d) && jobs[d].lastRun.Some?
      ensures jobs[d].lastRun.value <= jobs[F5].lastRun.value
    {
      if d < F1 {
        if d != Head {
          ContiguousChildTree(jobs, Head, F1, d);
        }
        DependencyRanFirst(jobs, queue, clock, F1, d);
      }
    }
    TreeLastRunIsLatest(jobs, Head, F5);
  }

  /** Once nothing more can run, the failing tree ran down to its Ruby job, which failed; the job
      below it and the finished jobs never ran, and the tree failed with no last run. */
  lemma FailingTreeOutcome(jobs: seq<Job>, queue: set<nat>, clock: nat)
    requires ScenarioShape(jobs) && RunInvariant(jobs, queue, clock) && Quiescent(jobs, queue)
    requires queue == {Head, HeadFailed}
    ensures FinishedAfter(jobs, Failed1, Failed2) && FinishedAfter(jobs, Failed2, Failed3)
            && FinishedAfter(jobs, Failed3, Failed4)
    ensures jobs[Failed1].status == Succeeded && jobs[Failed2].status == Succeeded
            && jobs[Failed3].status == Succeeded
    ensures jobs[Failed4].status == Failed && jobs[Failed5].status != Succeeded
    ensures jobs[Failed5].lastRun.None?
    ensures jobs[FailedFinished1].lastRun.None? && jobs[FailedFinished2].lastRun.None?
    ensures jobs[FailedFinished1].status != Succeeded && jobs[FailedFinished2].status != Succeeded
    ensures jobs[HeadFailed].status == Succeeded
    ensures TreeLastRun(jobs, HeadFailed).None? && TreeStatusOf(jobs, HeadFailed) == TreeFailed
  {
    forall d | HeadFailed <= d < |jobs|
      ensures InTree(jobs, HeadFailed, d) && RootOf(jobs, d) == HeadFailed
    {
      ContiguousTree(jobs, HeadFailed, |jobs|, d);
    }
    ReadyJobHasRun(jobs, queue, clock, HeadFailed);
    ReadyJobHasRun(jobs, queue, clock, Failed1);
    ReadyJobHasRun(jobs, queue, clock, Failed2);
    ReadyJobHasRun(jobs, queue, clock, Failed3);
    ReadyJobHasRun(jobs, queue, clock, Failed4);
    RanAfterDependency(jobs, queue, clock, Failed2, Failed1);
    RanAfterDependency(jobs, queue, clock, Failed3, Failed2);
    RanAfterDependency(jobs, queue, clock, Failed4, Failed3);
    BlockedBelow(jobs, queue, clock, Failed4, Failed5);
    ContiguousChildTree(jobs, HeadFailed, FailedFinished1, Failed4);
    FailureBlocksFinishedJob(jobs, queue, clock, FailedFinished1, Failed4, FailedFinished1);
    FailureBlocksFinishedJob(jobs, queue, clock, FailedFinished1, Failed4, FailedFinished2);
    FailedTreeHasNoLastRun(jobs, HeadFailed, Failed4);
  }

  /** Five jobs that have not run, from id `first` on: the first hangs by `top`, each of the
      others is the child of the one before; the fourth has the given kind and the others are
      null jobs. */
  function ChainBelow(first: nat, fourth: JobKind, top: Link): (chain: seq<Job>)
    ensures |chain| == 5
  {
    [Job(NullJob, top, NotRun, None),
     Job(NullJob, ChildOf(first), NotRun, None),
     Job(NullJob, ChildOf(first + 1), NotRun, None),
     Job(fourth, ChildOf(first + 2), NotRun, None),
     Job(NullJob, ChildOf(first + 3), NotRun, None)]
  }

  /** Five new root jobs linked from the bottom up form a chain. */
  lemma LinkedRootsFormChain(jobs: seq<Job>, fourth: JobKind)
    ensures var first := |jobs|;
            var roots := jobs + FiveRoots(fourth);
            var linked := roots[first + 4 := roots[first + 4].(link := ChildOf(first + 3))]
                               [first + 3 := roots[first + 3].(link := ChildOf(first + 2))]
                               [first + 2 := roots[first + 2].(link := ChildOf(first + 1))]
                               [first + 1 := roots[first + 1].(link := ChildOf(first))];
            linked == jobs + ChainBelow(first, fourth, Root)
  {
  }

  /** Hanging the head of a new chain by `top` gives the chain that hangs by `top`. */
  lemma AttachChain(jobs: seq<Job>, fourth: JobKind, top: Link)
    ensures var chain := jobs + ChainBelow(|jobs|, fourth, Root);
            chain[|jobs| := chain[|jobs|].(link := top)] == jobs + ChainBelow(|jobs|, fourth, top)
  {
  }

  /** Five new root jobs that have not run; the fourth has the given kind. */
  function FiveRoots(fourth: JobKind): (roots: seq<Job>)
    ensures |roots| == 5 && forall i :: 0 <= i < 5 ==> roots[i].link.Root? && HasNotRun(roots[i])
  {
    [RootJob(), RootJob(), RootJob(), Job(fourth, Root, NotRun, None), RootJob()]
  }

  /** Creates five jobs, the fourth of the given kind and the others null jobs. */
  method NewFiveJobs(m: RunManager, fourth: JobKind) returns (first: nat)
    requires m.Valid() && NothingRan(m.jobs)
    modifies m
    ensures m.Valid() && NothingRan(m.jobs)
    ensures first == |old(m.jobs)| && m.jobs == old(m.jobs) + FiveRoots(fourth)
    ensures m.queue == old(m.queue) && m.clock == old(m.clock) && m.paused == old(m.paused)
    ensures m.finishedJobs == old(m.finishedJobs)
  {
    first := m.NewJob(NullJob);
    var second := m.NewJob(NullJob);
    var third := m.NewJob(NullJob);
    var fourthJob := m.NewJob(fourth);
    var fifth := m.NewJob(NullJob);
  }

  /** Creates five jobs, the fourth of the given kind and the others null jobs, and links each
      as the child of the one before. The links are made from the bottom up, so each new
      parent is still a root when it gains its child. */
  method NewChainOfFive(m: RunManager, fourth: JobKind) returns (first: nat)
    requires m.Valid() && NothingRan(m.jobs)
    requires forall g :: g in m.finishedJobs ==> g < |m.jobs|
    modifies m
    ensures m.Valid() && NothingRan(m.jobs)
    ensures first == |old(m.jobs)| && m.jobs == old(m.jobs) + ChainBelow(first, fourth, Root)
    ensures m.queue == old(m.queue) && m.clock == old(m.clock) && m.paused == old(m.paused)
    ensures m.finishedJobs == old(m.finishedJobs)
  {
    first := NewFiveJobs(m, fourth);
    LinkedRootsFormChain(old(m.jobs), fourth);
    m.NewerRootIsUnwaited(first + 3);
    m.AddChild(first + 3, first + 4);
    m.NewerRootIsUnwaited(first + 2);
    m.AddChild(first + 2, first + 3);
    m.NewerRootIsUnwaited(first + 1);
    m.AddChild(first + 1, first + 2);
    m.NewerRootIsUnwaited(first);
    m.AddChild(first, first + 1);
  }

  /** Creates a chain of five null jobs and hangs it below the root `p`, before any finished
      job exists. */
  method NewChildChain(m: RunManager, p: nat) returns (first: nat)
    requires m.Valid() && NothingRan(m.jobs) && m.finishedJobs == {}
    requires p < |m.jobs| && m.jobs[p].link.Root?
    modifies m
    ensures m.Valid() && NothingRan(m.jobs)
    ensures first == |old(m.jobs)| && m.jobs == old(m.jobs) + ChainBelow(first, NullJob, ChildOf(p))
    ensures m.queue == old(m.queue) && m.clock == old(m.clock) && m.paused == old(m.paused)
    ensures m.finishedJobs == {}
  {
    first := NewChainOfFive(m, NullJob);
    AttachChain(old(m.jobs), NullJob, ChildOf(p));
    m.NewerRootIsUnwaited(p);
    m.AddChild(p, first);
  }

  function RootJob(): Job {
    Job(NullJob, Root, NotRun, None)
  }

  /** The successful tree as built: the head, three child chains and the finished chain. */
  function SuccessfulArena(): (jobs: seq<Job>)
    ensures |jobs| == HeadFailed
  {
    [RootJob()]
    + ChainBelow(S11, NullJob, ChildOf(Head)) + ChainBelow(S21, NullJob, ChildOf(Head))
    + ChainBelow(S31, NullJob, ChildOf(Head)) + ChainBelow(F1, NullJob, FinishedOf(Head))
  }

  /** The failing tree as built: its head, the chain holding the Ruby job, the finished chain. */
  function FailingArena(): seq<Job> {
    [RootJob()] + ChainBelow(Failed1, RubyJob(false, true), ChildOf(HeadFailed))
    + [Job(NullJob, FinishedOf(HeadFailed), NotRun, None), Job(NullJob, ChildOf(FailedFinished1), NotRun, None)]
  }

  lemma BuiltArenaHasShape()
    ensures ScenarioShape(SuccessfulArena() + FailingArena())
  {
    SuccessfulArenaHasShape();
    FailingArenaHasShape();
  }

  lemma SuccessfulArenaHasShape()
    ensures SuccessfulShape(SuccessfulArena() + FailingArena())
  {
    var a := SuccessfulArena() + FailingArena();
    forall x | Head < x <= F5
      ensures a[x] == SuccessfulArena()[x]
    {
    }
  }

  lemma FailingArenaHasShape()
    ensures FailingShape(SuccessfulArena() + FailingArena())
  {
  }

  /** The run keeps links and kinds, and the shape depends on nothing else. */
  lemma ShapeKeptByRun(a: seq<Job>, b: seq<Job>)
    requires ScenarioShape(a) && |a| == |b|
    requires forall i :: 0 <= i < |b| ==> b[i].kind == a[i].kind && b[i].link == a[i].link
    ensures ScenarioShape(b)
  {
  }

  /** Builds the successful tree in an empty run manager and enqueues it. Each chain is hung
      below the head as soon as it is built; nothing runs before a tree is enqueued, so the
      order of these links does not matter. */
  method BuildSuccessfulTree(m: RunManager)
    requires m.Valid() && m.jobs == [] && m.queue == {}
    modifies m
    ensures m.Valid() && m.jobs == SuccessfulArena() && m.queue == {Head}
    ensures m.finishedJobs == {F1} && m.paused == old(m.paused)
  {
    var head := m.NewJob(NullJob);
    var s11 := NewChildChain(m, head);
    var s21 := NewChildChain(m, head);
    var s31 := NewChildChain(m, head);
    var f1 := NewChainOfFive(m, NullJob);
    forall x | f1 < x < |m.jobs|
      ensures !InChildTree(m.jobs, head, x)
    {
      ContiguousTree(m.jobs, f1, |m.jobs|, x);
      OtherTreeNotBelow(m.jobs, head, x);
    }
    AttachChain(m.jobs[..f1], NullJob, FinishedOf(head));
    m.NewerRootIsUnwaited(head);
    m.SetFinishedJob(head, f1);
    m.Enqueue(head);
  }

  /** Builds the failing tree after the successful one and enqueues it. */
  method BuildFailingTree(m: RunManager)
    requires m.Valid() && m.jobs == SuccessfulArena() && m.queue == {Head} && m.finishedJobs == {F1}
    modifies m
    ensures m.Valid() && m.jobs == SuccessfulArena() + FailingArena() && m.queue == {Head, HeadFailed}
    ensures m.paused == old(m.paused)
  {
    var headFailed := m.NewJob(NullJob);
    var failed1 := NewChainOfFive(m, RubyJob(false, true));
    AttachChain(m.jobs[..failed1], RubyJob(false, true), ChildOf(headFailed));
    m.NewerRootIsUnwaited(headFailed);
    m.AddChild(headFailed, failed1);
    var failedFinished1 := m.NewJob(NullJob);
    m.NewerRootIsUnwaited(headFailed);
    m.SetFinishedJob(headFailed, failedFinished1);
    var failedFinished2 := m.NewJob(NullJob);
    m.AddChild(failedFinished1, failedFinished2);
    m.Enqueue(headFailed);
    assert m.jobs == SuccessfulArena() + FailingArena();
  }

  /** Builds both trees as the test does, enqueues them, unpauses and waits. The arena that
      results has the scenario's shape and is quiescent, so the outcome lemmas above apply to
      it. */
  method JobRunOrder() returns (m: RunManager)
    ensures m.Valid() && ScenarioShape(m.jobs) && Quiescent(m.jobs, m.queue)
    ensures m.queue == {Head, HeadFailed} && !m.paused
    ensures TreeStatusOf(m.jobs, Head) == TreeFinished && TreeLastRun(m.jobs, Head) == m.jobs[F5].lastRun
    ensures TreeStatusOf(m.jobs, HeadFailed) == TreeFailed && TreeLastRun(m.jobs, HeadFailed).None?
    ensures forall d :: Head <= d <= F5 ==> m.jobs[d].status == Succeeded
    ensures FinishedAfter(m.jobs, Head, S11) && FinishedAfter(m.jobs, S35, F1) && FinishedAfter(m.jobs, F4, F5)
    ensures FinishedAfter(m.jobs, Failed3, Failed4) && m.jobs[Failed4].status == Failed
    ensures m.jobs[Failed5].lastRun.None? && m.jobs[FailedFinished1].lastRun.None?
            && m.jobs[FailedFinished2].lastRun.None?
  {
    m := new RunManager();
    m.SetPaused(true);
    BuildSuccessfulTree(m);
    BuildFailingTree(m);
    m.SetPaused(false);
    ghost var built := m.jobs;
    BuiltArenaHasShape();
    m.WaitForFinished();
    ShapeKeptByRun(built, m.jobs);
    SuccessfulTreeSucceeded(m.jobs, m.queue, m.clock);
    SuccessfulTreeRunOrder(m.jobs, m.queue, m.clock);
    SuccessfulTreeLastRun(m.jobs, m.queue, m.clock);
    FailingTreeOutcome(m.jobs, m.queue, m.clock);
  }
}
