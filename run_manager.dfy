/**
  The run manager as the job-run-order test drives it: jobs are created, linked
  into trees with `addChild` and `setFinishedJob`, their roots are enqueued, and
  `waitForFinished` runs eligible jobs one at a time until none is left.
*/
module RunManagerModel {
  import opened Common
  import opened JobTree

  /** The ids of the jobs that are the finished job of some node. */
  ghost function FinishedJobs(jobs: seq<Job>): set<nat> {
    set g: nat | g < |jobs| && jobs[g].link.FinishedOf?
  }

  class RunManager {
    /** The job arena; a job's id is its index. */
    var jobs: seq<Job>
    /** The roots of the enqueued trees. */
    var queue: set<nat>
    /** The time the next run gets. */
    var clock: nat
    var paused: bool
    /** The jobs that are the finished job of some node. */
    ghost var finishedJobs: set<nat>

    ghost predicate Valid()
      reads this
    {
      RunInvariant(jobs, queue, clock) && finishedJobs == FinishedJobs(jobs)
    }

    /** A root newer than every finished job is in no finished job's way. */
    lemma NewerRootIsUnwaited(p: nat)
      requires Valid() && p < |jobs| && jobs[p].link.Root?
      requires forall g :: g in finishedJobs ==> g < p
      ensures NoFinishedAbove(jobs, p)
    {
      forall g | 0 <= g < |jobs| && jobs[g].link.FinishedOf?
        ensures jobs[g].link.node != p && !InChildTree(jobs, jobs[g].link.node, p)
      {
        assert g in finishedJobs;
      }
    }

    constructor()
      ensures Valid() && !paused
      ensures jobs == [] && queue == {} && clock == 0 && finishedJobs == {}
    {
      jobs := [];
      queue := {};
      clock := 0;
      paused := false;
      finishedJobs := {};
    }

    /** A new job starts as the root of its own tree and has not run. */
    method NewJob(kind: JobKind) returns (id: nat)
      requires Valid()
      modifies this
      ensures Valid()
      ensures id == |old(jobs)| && jobs == old(jobs) + [Job(kind, Root, NotRun, None)]
      ensures NothingRan(old(jobs)) ==> NothingRan(jobs)
      ensures queue == old(queue) && clock == old(clock) && paused == old(paused)
      ensures finishedJobs == old(finishedJobs)
    {
      AppendKeepsInvariant(jobs, queue, clock, kind);
      id := |jobs|;
      jobs := jobs + [Job(kind, Root, NotRun, None)];
    }

    /** `c` becomes a child of `p`: it runs once `p` has succeeded. */
    method AddChild(p: nat, c: nat)
      requires Valid() && NothingRan(jobs)
      requires p < c < |jobs| && jobs[c].link.Root? && NoFinishedAbove(jobs, p)
      modifies this
      ensures Valid() && NothingRan(jobs)
      ensures jobs == old(jobs)[c := old(jobs)[c].(link := ChildOf(p))]
      ensures queue == old(queue) && clock == old(clock) && paused == old(paused)
      ensures finishedJobs == old(finishedJobs)
    {
      RelinkKeepsOrder(jobs, c, ChildOf(p));
      jobs := jobs[c := jobs[c].(link := ChildOf(p))];
      FreshArenaInvariant(jobs, queue, clock);
    }

    /** `f` becomes the finished job of `n`: it runs once `n` and its whole child tree have
        succeeded. */
    method SetFinishedJob(n: nat, f: nat)
      requires Valid() && NothingRan(jobs)
      requires n < f < |jobs| && jobs[f].link.Root? && NoFinishedAbove(jobs, n)
      requires forall x :: f < x < |jobs| ==> !InChildTree(jobs, n, x)
      modifies this
      ensures Valid() && NothingRan(jobs)
      ensures jobs == old(jobs)[f := old(jobs)[f].(link := FinishedOf(n))]
      ensures queue == old(queue) && clock == old(clock) && paused == old(paused)
      ensures finishedJobs == old(finishedJobs) + {f}
    {
      RelinkKeepsOrder(jobs, f, FinishedOf(n));
      jobs := jobs[f := jobs[f].(link := FinishedOf(n))];
      finishedJobs := finishedJobs + {f};
      FreshArenaInvariant(jobs, queue, clock);
    }

    /** The tree rooted at `r` may run. */
    method Enqueue(r: nat)
      requires Valid() && r < |jobs| && jobs[r].link.Root?
      modifies this
      ensures Valid()
      ensures queue == old(queue) + {r}
      ensures jobs == old(jobs) && clock == old(clock) && paused == old(paused)
      ensures finishedJobs == old(finishedJobs)
    {
      EnqueueKeepsInvariant(jobs, queue, clock, {r});
      queue := queue + {r};
    }

    method SetPaused(p: bool)
      modifies this
      ensures paused == p
      ensures jobs == old(jobs) && queue == old(queue) && clock == old(clock)
      ensures finishedJobs == old(finishedJobs)
    {
      paused := p;
    }

    /** The smallest eligible job, or None when no job may run. */
    method FindEligible() returns (r: Option<nat>)
      requires Valid()
      ensures r.Some? ==> r.value < |jobs| && Eligible(jobs, queue, r.value)
      ensures r.Some? ==> forall j :: 0 <= j < r.value ==> !Eligible(jobs, queue, j)
      ensures r.None? <==> Quiescent(jobs, queue)
    {
      var j := 0;
      while j < |jobs|
        invariant 0 <= j <= |jobs|
        invariant forall i :: 0 <= i < j ==> !Eligible(jobs, queue, i)
      {
        if Eligible(jobs, queue, j) {
          return Some(j);
        }
        j := j + 1;
      }
      return None;
    }

    /** Runs the eligible job `j` at the current time. */
    method RunOne(j: nat)
      requires Valid() && j < |jobs| && Eligible(jobs, queue, j)
      modifies this
      ensures Valid()
      ensures jobs == RunStep(old(jobs), j, old(clock)) && clock == old(clock) + 1
      ensures queue == old(queue) && paused == old(paused) && finishedJobs == old(finishedJobs)
    {
      RunStepKeepsInvariant(jobs, queue, clock, j);
      RunStepKeepsShape(jobs, j, clock);
      jobs := RunStep(jobs, j, clock);
      clock := clock + 1;
    }

    /** Runs jobs until none may run; the trees keep their shape and a job that ran before is
        left alone. */
    method WaitForFinished()
      requires Valid() && !paused
      modifies this
      ensures Valid() && Quiescent(jobs, queue)
      ensures |jobs| == |old(jobs)|
      ensures forall i :: 0 <= i < |jobs| ==>
                jobs[i].kind == old(jobs)[i].kind && jobs[i].link == old(jobs)[i].link
      ensures forall i :: 0 <= i < |jobs| && old(jobs)[i].lastRun.Some? ==> jobs[i] == old(jobs)[i]
      ensures queue == old(queue) && paused == old(paused) && finishedJobs == old(finishedJobs)
    {
      var next: Option<nat> := FindEligible();
      while next.Some?
        invariant Valid() && |jobs| == |old(jobs)|
        invariant forall i :: 0 <= i < |jobs| ==>
                    jobs[i].kind == old(jobs)[i].kind && jobs[i].link == old(jobs)[i].link
        invariant forall i :: 0 <= i < |jobs| && old(jobs)[i].lastRun.Some? ==> jobs[i] == old(jobs)[i]
        invariant queue == old(queue) && paused == old(paused) && finishedJobs == old(finishedJobs)
        invariant next.Some? ==> next.value < |jobs| && Eligible(jobs, queue, next.value)
        invariant next.None? ==> Quiescent(jobs, queue)
        decreases NotRunCount(jobs)
      {
        var j := next.value;
        var before := jobs;
        assert JobConsistent(jobs, queue, clock, j);
        RunOne(j);
        NotRunCountDrops(before, j, jobs[j]);
        next := FindEligible();
      }
    }
  }
}
