/**
  Job trees of the run manager and the rules that decide when a job may run.

  Jobs live in an arena indexed by id. A job is the root of a tree, a child of
  another job, or the "finished job" of another job: a continuation that runs
  once that job and every job below it through child links has succeeded. A
  child runs once its parent has succeeded. The ids are a dependency order:
  everything a job waits for has a smaller id.
*/
module JobTree {
  import opened Common

  /** A null job always succeeds; a Ruby job needs a Ruby tool and a script that succeeds. */
  datatype JobKind = NullJob | RubyJob(hasRubyTool: bool, scriptSucceeds: bool)

  /** Where a job hangs: nowhere, below a parent, or as the finished job of a node. */
  datatype Link = Root | ChildOf(parent: nat) | FinishedOf(node: nat)

  datatype Status = NotRun | Succeeded | Failed

  /** `lastRun` is the time of the job's run, if it ran. */
  datatype Job = Job(kind: JobKind, link: Link, status: Status, lastRun: Option<nat>)

  predicate Succeeds(kind: JobKind) {
    kind.NullJob? || (kind.hasRubyTool && kind.scriptSucceeds)
  }

  function Outcome(kind: JobKind): (s: Status)
    ensures s == Succeeded <==> Succeeds(kind)
    ensures s != NotRun
  {
    if Succeeds(kind) then Succeeded else Failed
  }

  /** The job a link points at. */
  function Above(link: Link): nat
    requires !link.Root?
  {
    if link.ChildOf? then link.parent else link.node
  }

  /** Every link points at an older job. */
  ghost predicate Topological(jobs: seq<Job>) {
    forall j :: 0 <= j < |jobs| && !jobs[j].link.Root? ==> Above(jobs[j].link) < j
  }

  // ---------------------------------------------------------------------------
  // Shape of the trees
  // ---------------------------------------------------------------------------

  /** `d` lies strictly below `n`, through any kind of link. */
  predicate Descends(jobs: seq<Job>, n: nat, d: nat)
    requires Topological(jobs) && d < |jobs|
    decreases d
  {
    !jobs[d].link.Root? && (Above(jobs[d].link) == n || Descends(jobs, n, Above(jobs[d].link)))
  }

  /** `d` is `r` or lies below it. */
  predicate InTree(jobs: seq<Job>, r: nat, d: nat)
    requires Topological(jobs) && d < |jobs|
  {
    d == r || Descends(jobs, r, d)
  }

  /** `d` lies below `n` through a child link of `n` (not through `n`'s own finished job). */
  predicate InChildTree(jobs: seq<Job>, n: nat, d: nat)
    requires Topological(jobs) && d < |jobs|
    decreases d
  {
    match jobs[d].link
    case Root => false
    case ChildOf(p) => p == n || InChildTree(jobs, n, p)
    case FinishedOf(m) => m != n && InChildTree(jobs, n, m)
  }

  /** The root of the tree that holds `d`. */
  function RootOf(jobs: seq<Job>, d: nat): (r: nat)
    requires Topological(jobs) && d < |jobs|
    ensures r <= d && jobs[r].link.Root?
    decreases d
  {
    if jobs[d].link.Root? then d else RootOf(jobs, Above(jobs[d].link))
  }

  /** `j` waits for `e`: its parent, or the node it finishes and every job in that node's
      child tree. */
  predicate DependsOn(jobs: seq<Job>, j: nat, e: nat)
    requires Topological(jobs) && j < |jobs| && e < |jobs|
  {
    match jobs[j].link
    case Root => false
    case ChildOf(p) => e == p
    case FinishedOf(n) => e == n || InChildTree(jobs, n, e)
  }

  /** Every job waits only for older jobs. */
  ghost predicate DependencyOrdered(jobs: seq<Job>) {
    Topological(jobs)
    && forall j, e :: 0 <= j < |jobs| && 0 <= e < |jobs| && DependsOn(jobs, j, e) ==> e < j
  }

  // ---------------------------------------------------------------------------
  // When a job may run
  // ---------------------------------------------------------------------------

  predicate DependenciesMet(jobs: seq<Job>, j: nat)
    requires Topological(jobs) && j < |jobs|
  {
    forall e :: 0 <= e < |jobs| && DependsOn(jobs, j, e) ==> jobs[e].status == Succeeded
  }

  /** A job needs (re)running when it never ran, or when something it waits for has not run
      or ran no earlier than it did. */
  predicate OutOfDate(jobs: seq<Job>, j: nat)
    requires Topological(jobs) && j < |jobs|
  {
    jobs[j].lastRun.None?
    || exists e :: 0 <= e < |jobs| && DependsOn(jobs, j, e)
                   && (jobs[e].lastRun.None? || jobs[e].lastRun.value >= jobs[j].lastRun.value)
  }

  /** A job may run when it has not run, its tree is enqueued and everything it waits for succeeded. */
  predicate Eligible(jobs: seq<Job>, queue: set<nat>, j: nat)
    requires Topological(jobs) && j < |jobs|
  {
    jobs[j].status == NotRun && RootOf(jobs, j) in queue && DependenciesMet(jobs, j)
  }

  /** No job may run. */
  predicate Quiescent(jobs: seq<Job>, queue: set<nat>)
    requires Topological(jobs)
  {
    forall j :: 0 <= j < |jobs| ==> !Eligible(jobs, queue, j)
  }

  /** What holds of one job at time `clock`: it has a time exactly when it ran; a job that ran
      did so earlier, in an enqueued tree, after everything it waits for had succeeded, and its
      status is its kind's outcome. */
  ghost predicate JobConsistent(jobs: seq<Job>, queue: set<nat>, clock: nat, j: nat)
    requires Topological(jobs) && j < |jobs|
  {
    (jobs[j].status == NotRun <==> jobs[j].lastRun.None?)
    && (jobs[j].lastRun.Some? ==>
          jobs[j].lastRun.value < clock
          && jobs[j].status == Outcome(jobs[j].kind)
          && RootOf(jobs, j) in queue
          && DependenciesMet(jobs, j)
          && !OutOfDate(jobs, j))
  }

  ghost predicate RunInvariant(jobs: seq<Job>, queue: set<nat>, clock: nat) {
    DependencyOrdered(jobs)
    && forall j :: 0 <= j < |jobs| ==> JobConsistent(jobs, queue, clock, j)
  }

  /** The arena after running job `j` at time `clock`. */
  function RunStep(jobs: seq<Job>, j: nat, clock: nat): (next: seq<Job>)
    requires j < |jobs|
    ensures |next| == |jobs|
  {
    jobs[j := jobs[j].(status := Outcome(jobs[j].kind), lastRun := Some(clock))]
  }

  predicate HasNotRun(job: Job) {
    job.status == NotRun && job.lastRun.None?
  }

  predicate NothingRan(jobs: seq<Job>) {
    forall j :: 0 <= j < |jobs| ==> HasNotRun(jobs[j])
  }

  /** The number of jobs that have not run. */
  function NotRunCount(jobs: seq<Job>): nat {
    if jobs == [] then 0
    else NotRunCount(jobs[..|jobs| - 1]) + if jobs[|jobs| - 1].status == NotRun then 1 else 0
  }

  // ---------------------------------------------------------------------------
  // Tree status and the tree's last run
  // ---------------------------------------------------------------------------

  datatype TreeStatus = TreeWaiting | TreeRunning | TreeFinished | TreeFailed

  /** Failed when a job of the tree failed; finished when every job succeeded; running when
      some job ran; waiting otherwise. */
  function TreeStatusOf(jobs: seq<Job>, r: nat): (s: TreeStatus)
    requires Topological(jobs)
    ensures s == TreeFailed <==> exists d :: 0 <= d < |jobs| && InTree(jobs, r, d) && jobs[d].status == Failed
    ensures s == TreeFinished ==> forall d :: 0 <= d < |jobs| && InTree(jobs, r, d) ==> jobs[d].status == Succeeded
  {
    if exists d :: 0 <= d < |jobs| && InTree(jobs, r, d) && jobs[d].status == Failed then TreeFailed
    else if forall d :: 0 <= d < |jobs| && InTree(jobs, r, d) ==> jobs[d].status == Succeeded then TreeFinished
    else if exists d :: 0 <= d < |jobs| && InTree(jobs, r, d) && jobs[d].status != NotRun then TreeRunning
    else TreeWaiting
  }

  /** The latest run time among the jobs of the tree with ids below `k` (0 when none ran). */
  function LatestRun(jobs: seq<Job>, r: nat, k: nat): (m: nat)
    requires Topological(jobs) && k <= |jobs|
    ensures forall d :: 0 <= d < k && InTree(jobs, r, d) && jobs[d].lastRun.Some? ==> jobs[d].lastRun.value <= m
    ensures m == 0 || exists d :: 0 <= d < k && InTree(jobs, r, d) && jobs[d].lastRun == Some(m)
  {
    if k == 0 then 0
    else
      var m := LatestRun(jobs, r, k - 1);
      var d := k - 1;
      if InTree(jobs, r, d) && jobs[d].lastRun.Some? && jobs[d].lastRun.value > m then jobs[d].lastRun.value
      else m
  }

  /** The time of the tree's last run, present only when the whole tree finished. */
  function TreeLastRun(jobs: seq<Job>, r: nat): Option<nat>
    requires Topological(jobs)
  {
    if TreeStatusOf(jobs, r) == TreeFinished then Some(LatestRun(jobs, r, |jobs|)) else None
  }

  // ---------------------------------------------------------------------------
  // Links decide the shape: arenas that agree on the links below k agree on it
  // ---------------------------------------------------------------------------

  ghost predicate LinksAgree(a: seq<Job>, b: seq<Job>, k: nat) {
    k <= |a| && k <= |b| && forall i :: 0 <= i < k ==> a[i].link == b[i].link
  }

  lemma {:induction false} AgreeDescends(a: seq<Job>, b: seq<Job>, k: nat, n: nat, d: nat)
    requires Topological(a) && Topological(b) && LinksAgree(a, b, k) && d < k
    ensures Descends(a, n, d) == Descends(b, n, d)
    decreases d
  {
    if !a[d].link.Root? {
      AgreeDescends(a, b, k, n, Above(a[d].link));
    }
  }

  lemma {:induction false} AgreeInChildTree(a: seq<Job>, b: seq<Job>, k: nat, n: nat, d: nat)
    requires Topological(a) && Topological(b) && LinksAgree(a, b, k) && d < k
    ensures InChildTree(a, n, d) == InChildTree(b, n, d)
    decreases d
  {
    if !a[d].link.Root? {
      AgreeInChildTree(a, b, k, n, Above(a[d].link));
    }
  }

  lemma {:induction false} AgreeRootOf(a: seq<Job>, b: seq<Job>, k: nat, d: nat)
    requires Topological(a) && Topological(b) && LinksAgree(a, b, k) && d < k
    ensures RootOf(a, d) == RootOf(b, d)
    decreases d
  {
    if !a[d].link.Root? {
      AgreeRootOf(a, b, k, Above(a[d].link));
    }
  }

  lemma AgreeDependsOn(a: seq<Job>, b: seq<Job>, k: nat, j: nat, e: nat)
    requires Topological(a) && Topological(b) && LinksAgree(a, b, k) && j < k && e < k
    ensures DependsOn(a, j, e) == DependsOn(b, j, e)
  {
    if a[j].link.FinishedOf? {
      AgreeInChildTree(a, b, k, a[j].link.node, e);
    }
  }

  // ---------------------------------------------------------------------------
  // Running a job keeps the invariant
  // ---------------------------------------------------------------------------

  lemma RunStepKeepsShape(jobs: seq<Job>, j: nat, clock: nat)
    requires DependencyOrdered(jobs) && j < |jobs|
    ensures LinksAgree(jobs, RunStep(jobs, j, clock), |jobs|)
    ensures DependencyOrdered(RunStep(jobs, j, clock))
    ensures forall x, e :: 0 <= x < |jobs| && 0 <= e < |jobs| ==>
              DependsOn(RunStep(jobs, j, clock), x, e) == DependsOn(jobs, x, e)
    ensures forall x :: 0 <= x < |jobs| ==> RootOf(RunStep(jobs, j, clock), x) == RootOf(jobs, x)
  {
    var next := RunStep(jobs, j, clock);
    assert Topological(next) by {
      forall x | 0 <= x < |next| && !next[x].link.Root?
        ensures Above(next[x].link) < x
      {
        assert next[x].link == jobs[x].link;
      }
    }
    forall x, e | 0 <= x < |jobs| && 0 <= e < |jobs|
      ensures DependsOn(next, x, e) == DependsOn(jobs, x, e)
    {
      AgreeDependsOn(jobs, next, |jobs|, x, e);
    }
    forall x | 0 <= x < |jobs|
      ensures RootOf(next, x) == RootOf(jobs, x)
    {
      AgreeRootOf(jobs, next, |jobs|, x);
    }
  }

  /** Running an eligible job at the current time keeps every job consistent at the next time. */
  lemma RunStepKeepsInvariant(jobs: seq<Job>, queue: set<nat>, clock: nat, j: nat)
    requires RunInvariant(jobs, queue, clock) && j < |jobs| && Eligible(jobs, queue, j)
    ensures RunInvariant(RunStep(jobs, j, clock), queue, clock + 1)
  {
    var next := RunStep(jobs, j, clock);
    var later := clock + 1;
    RunStepKeepsShape(jobs, j, clock);
    forall k | 0 <= k < |next|
      ensures JobConsistent(next, queue, later, k)
    {
      assert JobConsistent(jobs, queue, clock, k);
      if k == j {
        forall e | 0 <= e < |next| && DependsOn(next, k, e)
          ensures next[e].status == Succeeded
          ensures next[e].lastRun.Some? && next[e].lastRun.value < clock
        {
          assert DependsOn(jobs, k, e) && e < k;
          assert JobConsistent(jobs, queue, clock, e);
        }
      } else if next[k].lastRun.Some? {
        forall e | 0 <= e < |next| && DependsOn(next, k, e)
          ensures next[e] == jobs[e]
        {
          assert DependsOn(jobs, k, e);
          assert jobs[e].status == Succeeded;
        }
        assert DependenciesMet(next, k);
        assert !OutOfDate(next, k);
      }
    }
  }

  lemma {:induction false} NotRunCountDrops(jobs: seq<Job>, j: nat, job: Job)
    requires j < |jobs| && jobs[j].status == NotRun && job.status != NotRun
    ensures NotRunCount(jobs[j := job]) == NotRunCount(jobs) - 1
    decreases |jobs|
  {
    var next := jobs[j := job];
    if j < |jobs| - 1 {
      assert next[..|next| - 1] == jobs[..|jobs| - 1][j := job];
      NotRunCountDrops(jobs[..|jobs| - 1], j, job);
    } else {
      assert next[..|next| - 1] == jobs[..|jobs| - 1];
    }
  }

  // ---------------------------------------------------------------------------
  // Facts about trees
  // ---------------------------------------------------------------------------

  lemma {:induction false} ChildTreeIsBelow(jobs: seq<Job>, n: nat, d: nat)
    requires Topological(jobs) && d < |jobs| && InChildTree(jobs, n, d)
    ensures Descends(jobs, n, d)
    decreases d
  {
    var p := Above(jobs[d].link);
    if p != n {
      ChildTreeIsBelow(jobs, n, p);
    }
  }

  lemma {:induction false} DescendsTransitive(jobs: seq<Job>, r: nat, n: nat, d: nat)
    requires Topological(jobs) && n < |jobs| && d < |jobs|
    requires InTree(jobs, r, n) && Descends(jobs, n, d)
    ensures Descends(jobs, r, d)
    decreases d
  {
    var p := Above(jobs[d].link);
    if p != n {
      DescendsTransitive(jobs, r, n, p);
    }
  }

  lemma {:induction false} RootOfTree(jobs: seq<Job>, r: nat, d: nat)
    requires Topological(jobs) && r < |jobs| && d < |jobs| && InTree(jobs, r, d)
    ensures RootOf(jobs, d) == RootOf(jobs, r)
    decreases d
  {
    if d != r {
      RootOfTree(jobs, r, Above(jobs[d].link));
    }
  }

  /** What a job of a tree waits for lies in the same tree. */
  lemma DependencyInTree(jobs: seq<Job>, r: nat, d: nat, e: nat)
    requires Topological(jobs) && r < |jobs| && d < |jobs| && e < |jobs| && jobs[r].link.Root?
    requires InTree(jobs, r, d) && DependsOn(jobs, d, e)
    ensures InTree(jobs, r, e)
  {
    var p := Above(jobs[d].link);
    assert InTree(jobs, r, p);
    if e != p {
      ChildTreeIsBelow(jobs, p, e);
      DescendsTransitive(jobs, r, p, e);
    }
  }

  /** The run-order assertion of the test for one dependency: the job waited for ran strictly
      before the job, and neither is out of date. */
  lemma DependencyRanFirst(jobs: seq<Job>, queue: set<nat>, clock: nat, j: nat, e: nat)
    requires RunInvariant(jobs, queue, clock) && j < |jobs| && e < |jobs|
    requires DependsOn(jobs, j, e) && jobs[j].lastRun.Some?
    ensures jobs[e].lastRun.Some? && jobs[e].lastRun.value < jobs[j].lastRun.value
    ensures jobs[e].status == Succeeded
    ensures !OutOfDate(jobs, j) && !OutOfDate(jobs, e)
  {
    assert JobConsistent(jobs, queue, clock, j);
    assert JobConsistent(jobs, queue, clock, e);
  }

  /** A parent runs strictly before each child that runs. */
  lemma ParentRunsBeforeChild(jobs: seq<Job>, queue: set<nat>, clock: nat, p: nat, c: nat)
    requires RunInvariant(jobs, queue, clock) && c < |jobs|
    requires jobs[c].link == ChildOf(p) && jobs[c].lastRun.Some?
    ensures p < |jobs| && jobs[p].lastRun.Some? && jobs[p].lastRun.value < jobs[c].lastRun.value
    ensures !OutOfDate(jobs, p) && !OutOfDate(jobs, c)
  {
    DependencyRanFirst(jobs, queue, clock, c, p);
  }

  /** A finished job runs strictly after its node and after every job of the node's child tree. */
  lemma FinishedJobRunsLast(jobs: seq<Job>, queue: set<nat>, clock: nat, f: nat, x: nat)
    requires RunInvariant(jobs, queue, clock) && f < |jobs| && x < |jobs|
    requires jobs[f].link.FinishedOf? && jobs[f].lastRun.Some?
    requires x == jobs[f].link.node || InChildTree(jobs, jobs[f].link.node, x)
    ensures jobs[x].lastRun.Some? && jobs[x].lastRun.value < jobs[f].lastRun.value
    ensures !OutOfDate(jobs, x) && !OutOfDate(jobs, f)
  {
    DependencyRanFirst(jobs, queue, clock, f, x);
  }

  /** Nothing below a job that did not succeed ever runs. */
  lemma {:induction false} BlockedBelow(jobs: seq<Job>, queue: set<nat>, clock: nat, p: nat, d: nat)
    requires RunInvariant(jobs, queue, clock) && p < |jobs| && d < |jobs|
    requires jobs[p].status != Succeeded && Descends(jobs, p, d)
    ensures jobs[d].status == NotRun && jobs[d].lastRun.None?
    decreases d
  {
    var q := Above(jobs[d].link);
    assert JobConsistent(jobs, queue, clock, d);
    assert DependsOn(jobs, d, q);
    if q != p {
      BlockedBelow(jobs, queue, clock, p, q);
    }
  }

  /** A failure in a node's child tree keeps the node's finished job, and everything below it,
      from ever running. */
  lemma FailureBlocksFinishedJob(jobs: seq<Job>, queue: set<nat>, clock: nat, f: nat, x: nat, d: nat)
    requires RunInvariant(jobs, queue, clock) && f < |jobs| && x < |jobs| && d < |jobs|
    requires jobs[f].link.FinishedOf? && InChildTree(jobs, jobs[f].link.node, x)
    requires jobs[x].status != Succeeded
    requires InTree(jobs, f, d)
    ensures jobs[d].status == NotRun && jobs[d].lastRun.None?
  {
    assert JobConsistent(jobs, queue, clock, f);
    assert DependsOn(jobs, f, x);
    if d != f {
      BlockedBelow(jobs, queue, clock, f, d);
    }
  }

  /** Once no job may run, a job whose dependencies all succeeded in an enqueued tree has run,
      with its kind's outcome. */
  lemma ReadyJobHasRun(jobs: seq<Job>, queue: set<nat>, clock: nat, j: nat)
    requires RunInvariant(jobs, queue, clock) && Quiescent(jobs, queue) && j < |jobs|
    requires RootOf(jobs, j) in queue && DependenciesMet(jobs, j)
    ensures jobs[j].lastRun.Some? && jobs[j].status == Outcome(jobs[j].kind)
  {
    assert !Eligible(jobs, queue, j);
    assert JobConsistent(jobs, queue, clock, j);
  }

  /** Once no job may run, every job of an enqueued tree whose jobs all succeed has succeeded;
      this includes its finished jobs. */
  lemma {:induction false} SuccessfulTreeSucceeds(jobs: seq<Job>, queue: set<nat>, clock: nat, r: nat, d: nat)
    requires RunInvariant(jobs, queue, clock) && Quiescent(jobs, queue)
    requires r < |jobs| && jobs[r].link.Root? && r in queue
    requires forall x :: 0 <= x < |jobs| && InTree(jobs, r, x) ==> Succeeds(jobs[x].kind)
    requires d < |jobs| && InTree(jobs, r, d)
    ensures jobs[d].status == Succeeded && jobs[d].lastRun.Some?
    decreases d
  {
    forall e | 0 <= e < |jobs| && DependsOn(jobs, d, e)
      ensures jobs[e].status == Succeeded
    {
      DependencyInTree(jobs, r, d, e);
      SuccessfulTreeSucceeds(jobs, queue, clock, r, e);
    }
    RootOfTree(jobs, r, d);
    ReadyJobHasRun(jobs, queue, clock, d);
  }

  /** A finished tree reports the latest run of its jobs, which is the run time of any job of
      the tree that ran no earlier than every other. */
  lemma TreeLastRunIsLatest(jobs: seq<Job>, r: nat, e: nat)
    requires Topological(jobs) && e < |jobs| && InTree(jobs, r, e)
    requires TreeStatusOf(jobs, r) == TreeFinished && jobs[e].lastRun.Some?
    requires forall d :: 0 <= d < |jobs| && InTree(jobs, r, d) && jobs[d].lastRun.Some? ==>
               jobs[d].lastRun.value <= jobs[e].lastRun.value
    ensures TreeLastRun(jobs, r) == jobs[e].lastRun
  {
  }

  /** A tree with a failed job has no last run. */
  lemma FailedTreeHasNoLastRun(jobs: seq<Job>, r: nat, d: nat)
    requires Topological(jobs) && d < |jobs| && InTree(jobs, r, d) && jobs[d].status == Failed
    ensures TreeStatusOf(jobs, r) == TreeFailed && TreeLastRun(jobs, r) == None
  {
  }

  // ---------------------------------------------------------------------------
  // Building trees keeps the dependency order
  // ---------------------------------------------------------------------------

  /** No finished job waits on `q`: `q` is neither the node of a finished job nor in the child
      tree of one. */
  ghost predicate NoFinishedAbove(jobs: seq<Job>, q: nat)
    requires Topological(jobs)
  {
    forall g :: 0 <= g < |jobs| && jobs[g].link.FinishedOf? ==>
      jobs[g].link.node != q && (q < |jobs| ==> !InChildTree(jobs, jobs[g].link.node, q))
  }

  /** Before anything ran, an arena in dependency order satisfies the run invariant. */
  lemma FreshArenaInvariant(jobs: seq<Job>, queue: set<nat>, clock: nat)
    requires DependencyOrdered(jobs) && NothingRan(jobs)
    ensures RunInvariant(jobs, queue, clock)
  {
    forall j | 0 <= j < |jobs|
      ensures JobConsistent(jobs, queue, clock, j)
    {
      assert HasNotRun(jobs[j]);
    }
  }

  /** A new root job keeps the run invariant: it waits for nothing and nothing waits for it. */
  lemma AppendKeepsInvariant(jobs: seq<Job>, queue: set<nat>, clock: nat, kind: JobKind)
    requires RunInvariant(jobs, queue, clock)
    ensures RunInvariant(jobs + [Job(kind, Root, NotRun, None)], queue, clock)
  {
    var next := jobs + [Job(kind, Root, NotRun, None)];
    var k := |jobs|;
    assert LinksAgree(jobs, next, k);
    assert Topological(next);
    forall j, e | 0 <= j < |next| && 0 <= e < |next|
      ensures DependsOn(next, j, e) == (j < k && e < k && DependsOn(jobs, j, e))
    {
      if j < k && e < k {
        AgreeDependsOn(jobs, next, k, j, e);
      } else if j < k && next[j].link.FinishedOf? {
        assert !InChildTree(next, next[j].link.node, e);
      }
    }
    forall j | 0 <= j < k
      ensures RootOf(next, j) == RootOf(jobs, j)
    {
      AgreeRootOf(jobs, next, k, j);
    }
    forall j | 0 <= j < |next|
      ensures JobConsistent(next, queue, clock, j)
    {
      if j < k {
        assert JobConsistent(jobs, queue, clock, j);
        if jobs[j].lastRun.Some? {
          assert DependenciesMet(next, j);
          assert !OutOfDate(next, j);
        }
      }
    }
  }

  /** After `c` is re-linked, a job in some child tree is either in that tree already or lies
      below `c`, which is itself in it. */
  lemma {:induction false} RelinkChildTree(jobs: seq<Job>, c: nat, link: Link, n: nat, e: nat)
    requires Topological(jobs) && c < |jobs| && !link.Root? && Above(link) < c
    requires Topological(jobs[c := jobs[c].(link := link)]) && e < |jobs|
    requires InChildTree(jobs[c := jobs[c].(link := link)], n, e)
    ensures InChildTree(jobs, n, e) || InChildTree(jobs[c := jobs[c].(link := link)], n, c)
    decreases e
  {
    var next := jobs[c := jobs[c].(link := link)];
    if e != c {
      assert next[e] == jobs[e];
      var q := Above(jobs[e].link);
      if q != n {
        RelinkChildTree(jobs, c, link, n, q);
      }
    }
  }

  /** Hanging a root job `c` below an older job keeps the dependency order, provided no finished
      job waits on the job it hangs below and, for a finished job, nothing newer than `c` is in
      the child tree it waits for. */
  lemma RelinkKeepsOrder(jobs: seq<Job>, c: nat, link: Link)
    requires DependencyOrdered(jobs) && c < |jobs| && jobs[c].link.Root?
    requires !link.Root? && Above(link) < c && NoFinishedAbove(jobs, Above(link))
    requires link.FinishedOf? ==> forall x :: c < x < |jobs| ==> !InChildTree(jobs, link.node, x)
    ensures DependencyOrdered(jobs[c := jobs[c].(link := link)])
  {
    var next := jobs[c := jobs[c].(link := link)];
    var q := Above(link);
    assert LinksAgree(jobs, next, c);
    assert Topological(next) by {
      forall x | 0 <= x < |next| && !next[x].link.Root?
        ensures Above(next[x].link) < x
      {
        if x != c {
          assert next[x] == jobs[x];
        }
      }
    }
    forall j, e | 0 <= j < |next| && 0 <= e < |next| && DependsOn(next, j, e)
      ensures e < j
    {
      if j == c {
        if link.FinishedOf? && e != q {
          RelinkChildTree(jobs, c, link, q, e);
          AgreeInChildTree(jobs, next, c, q, q);
          if InChildTree(jobs, q, e) {
            assert e != c;
          }
        }
      } else {
        assert next[j] == jobs[j];
        if next[j].link.FinishedOf? && e != next[j].link.node {
          var n := next[j].link.node;
          RelinkChildTree(jobs, c, link, n, e);
          if !InChildTree(jobs, n, e) {
            AgreeInChildTree(jobs, next, c, n, q);
            assert InChildTree(next, n, c);
            assert n == q || InChildTree(jobs, n, q);
            assert false;
          }
          assert DependsOn(jobs, j, e);
        }
      }
    }
  }

  /** Enqueueing more trees keeps the run invariant. */
  lemma EnqueueKeepsInvariant(jobs: seq<Job>, queue: set<nat>, clock: nat, more: set<nat>)
    requires RunInvariant(jobs, queue, clock)
    ensures RunInvariant(jobs, queue + more, clock)
  {
    forall j | 0 <= j < |jobs|
      ensures JobConsistent(jobs, queue + more, clock, j)
    {
      assert JobConsistent(jobs, queue, clock, j);
    }
  }

  /** Both jobs ran, `a` strictly before `b`, and neither needs running again. */
  predicate FinishedAfter(jobs: seq<Job>, a: nat, b: nat)
    requires Topological(jobs) && a < |jobs| && b < |jobs|
  {
    jobs[a].lastRun.Some? && jobs[b].lastRun.Some? && jobs[a].lastRun.value < jobs[b].lastRun.value
    && !OutOfDate(jobs, a) && !OutOfDate(jobs, b)
  }

  /** A job that ran finished after everything it waits for. */
  lemma RanAfterDependency(jobs: seq<Job>, queue: set<nat>, clock: nat, j: nat, e: nat)
    requires RunInvariant(jobs, queue, clock) && j < |jobs| && e < |jobs|
    requires DependsOn(jobs, j, e) && jobs[j].lastRun.Some?
    ensures FinishedAfter(jobs, e, j)
  {
    DependencyRanFirst(jobs, queue, clock, j, e);
  }

  /** Jobs `r+1 .. k-1` that each hang below an earlier job of that block, or below `r`, all
      lie in the tree of `r` and share its root. */
  lemma {:induction false} ContiguousTree(jobs: seq<Job>, r: nat, k: nat, d: nat)
    requires Topological(jobs) && k <= |jobs| && r <= d < k
    requires forall x :: r < x < k ==> !jobs[x].link.Root? && r <= Above(jobs[x].link)
    ensures InTree(jobs, r, d) && RootOf(jobs, d) == RootOf(jobs, r)
    decreases d
  {
    if d != r {
      ContiguousTree(jobs, r, k, Above(jobs[d].link));
    }
  }

  /** Jobs `r+1 .. k-1` that are each a child of `r` or of an earlier job of that block all lie
      in the child tree of `r`. */
  lemma {:induction false} ContiguousChildTree(jobs: seq<Job>, r: nat, k: nat, d: nat)
    requires Topological(jobs) && k <= |jobs| && r < d < k
    requires forall x :: r < x < k ==> jobs[x].link.ChildOf? && r <= jobs[x].link.parent
    ensures InChildTree(jobs, r, d)
    decreases d
  {
    if jobs[d].link.parent != r {
      ContiguousChildTree(jobs, r, k, jobs[d].link.parent);
    }
  }

  /** A job outside the tree of `n`'s root is in no child tree of `n`. */
  lemma OtherTreeNotBelow(jobs: seq<Job>, n: nat, x: nat)
    requires Topological(jobs) && n < |jobs| && x < |jobs| && RootOf(jobs, x) != RootOf(jobs, n)
    ensures !InChildTree(jobs, n, x)
  {
    if InChildTree(jobs, n, x) {
      ChildTreeIsBelow(jobs, n, x);
      RootOfTree(jobs, n, x);
    }
  }
}
