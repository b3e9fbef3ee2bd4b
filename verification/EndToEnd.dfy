/** The copier behind the pipeline: what a whole run that was not cancelled
    makes of the destination. */
module EndToEnd {
  import opened Tree
  import opened Mirror
  import opened Idempotence
  import opened Convergence
  import opened Retries
  import opened Sequences
  import Pipeline = ChunkPipeline

  lemma {:induction false} FlatHas(chunks: seq<seq<Entry>>, e: Entry)
    ensures e in Flat(chunks) <==> InSome(chunks, e)
  {
    if chunks != [] {
      var k := |chunks| - 1;
      FlatHas(chunks[..k], e);
      if InSome(chunks[..k], e) {
        var j :| 0 <= j < k && e in chunks[..k][j];
        assert e in chunks[j];
      }
      if e in chunks[k] { assert InSome(chunks, e); }
      if j :| 0 <= j < |chunks| && e in chunks[j] && j != k { assert e in chunks[..k][j]; }
    }
  }

  /** The scan found exactly the entries of the plan. */
  ghost predicate Scanned(input: seq<Entry>, plan: Plan) {
    forall e :: e in input <==> InPlan(plan, e)
  }

  /** What the workers' copy methods read, chunk by chunk. */
  function ChunksRead(workers: seq<Pipeline.Worker>): (chunks: seq<seq<Entry>>)
    ensures |chunks| == |workers| && forall i | 0 <= i < |workers| :: chunks[i] == workers[i].read
  {
    seq(|workers|, i requires 0 <= i < |workers| => workers[i].read)
  }

  /** The chunks the workers of a finished run have read cut up the plan. */
  lemma RunCutsThePlan(k: Pipeline.Setup, trace: seq<Pipeline.State>, n: nat, plan: Plan)
    requires k.Valid() && Pipeline.Schedule(k, trace) && n < |trace|
    requires Pipeline.Final(trace[n]) && !trace[n].cancelled && Scanned(k.input, plan)
    ensures Cuts(ChunksRead(trace[n].shop.workers), plan)
  {
    var s := trace[n];
    Pipeline.CompletionIsExact(k, trace, n);
    assert ChunksRead(s.shop.workers) == s.join.submitted;
    forall e ensures InSome(s.join.submitted, e) <==> InPlan(plan, e) {
      FlatHas(s.join.submitted, e);
    }
  }

  /** What the copy methods of a run are given to do. */
  function JobOf(c: Config, src: Source, s: Pipeline.State, attempts: int): Job {
    Job(c, src, ChunksRead(s.shop.workers), attempts)
  }

  /** However scanner, dispatcher and workers were scheduled, and however the
      workers handled their chunks side by side, entry by entry, each repeating
      its own chunk after an error: once a run that was not cancelled has
      finished, no chunk has an error, no chunk took a third pass, and every path
      is as expected from the start, provided each chunk by itself could be
      finished from there. */
  lemma FinishedRunReachesGoal(k: Pipeline.Setup, trace: seq<Pipeline.State>, n: nat, t: Tree, c: Config, src: Source,
                               plan: Plan, attempts: int, copying: seq<Retries.State>, m: nat)
    requires k.Valid() && Pipeline.Schedule(k, trace) && n < |trace|
    requires Pipeline.Final(trace[n]) && !trace[n].cancelled && Scanned(k.input, plan)
    requires ValidConfig(c) && RootReady(t, c) && ValidPlan(plan) && attempts >= 2
    requires AllFinishable(JobOf(c, src, trace[n], attempts), t, plan)
    requires Retries.Schedule(JobOf(c, src, trace[n], attempts), t, copying) && m < |copying| && Ended(copying[m])
    ensures forall i | 0 <= i < |copying[m].copies| :: !copying[m].copies[i].failed && copying[m].copies[i].passes <= 1
    ensures forall q :: Look(copying[m].tree, q) == Expected(t, c, src, plan, q)
  {
    RunCutsThePlan(k, trace, n, plan);
    RetriesReachGoal(JobOf(c, src, trace[n], attempts), t, plan, copying, m);
  }

  /** From a tree without hindrances any job is of that kind, and one pass of
      all chunks in any interleaving is enough. */
  lemma FitRunReachesGoal(k: Pipeline.Setup, trace: seq<Pipeline.State>, n: nat,
                          t: Tree, c: Config, src: Source, plan: Plan, attempts: int, list: seq<Entry>)
    requires k.Valid() && Pipeline.Schedule(k, trace) && n < |trace|
    requires Pipeline.Final(trace[n]) && !trace[n].cancelled && Scanned(k.input, plan)
    requires Interleaves(list, ChunksRead(trace[n].shop.workers))
    requires ValidConfig(c) && RootReady(t, c) && ValidPlan(plan) && SourceStable(src, plan) && Fit(t, c, src, plan)
    ensures AllFinishable(JobOf(c, src, trace[n], attempts), t, plan)
    ensures ErrorFree(Run(t, c, src, list).outs)
    ensures forall q :: Look(Run(t, c, src, list).tree, q) == Expected(t, c, src, plan, q)
  {
    RunCutsThePlan(k, trace, n, plan);
    FitIsFinishable(JobOf(c, src, trace[n], attempts), t, plan);
    InterleavingCovers(list, ChunksRead(trace[n].shop.workers), plan);
    FitPassReachesGoal(t, c, src, plan, list);
  }
}
