/**
 * The CircleCI job-environment dump: for one project, walk pipelines and
 * their workflows, skip a workflow whose name has been seen in the progress
 * file, otherwise take the workflow's job with the largest `job_number`,
 * fetch its raw output unless that number is already recorded, and record
 * it under the key `{slug}-{workflow name}-{workflow id}`.
 *
 * Every list response is data (a missing `items` field is an empty list).
 * The raw-output request is an event; its text and the session it uses
 * are not modelled.
 */
module CircleJobsEnv {
  import opened Wrappers
  import opened Text
  import opened ProgressStore
  import PageNumberPaging

  datatype EnvJob = EnvJob(jobNumber: Option<int>)

  /** A workflow record and the items of its jobs response. */
  datatype EnvWorkflow = EnvWorkflow(id: string, name: string, jobs: seq<EnvJob>)

  /** A pipeline record and the items of its workflows response. */
  datatype EnvPipeline = EnvPipeline(id: string, workflows: seq<EnvWorkflow>)

  /** The project's pipelines response: `pipelines_resp.ok` and its items. */
  datatype PipelinesResponse = PipelinesResponse(ok: bool, items: seq<EnvPipeline>)

  /** What the walk does, in order. */
  datatype Event =
    | ListWorkflows(pipelineId: string)
    | ListJobs(workflowId: string)
    | FetchOutput(workflowName: string, jobNumber: int)
    | WriteProgress(key: string, jobNumber: int)

  /** The trace so far, the progress map, and whether `max` has raised on an empty job list (which ends the script). */
  datatype State = State(trace: seq<Event>, progress: Progress, crashed: bool)

  // ---------------------------------------------------------------------
  // Progress rules of this script

  function EnvKey(slug: string, workflowName: string, workflowId: string): string {
    CompositeKey(slug, workflowName, workflowId)
  }

  /** `seen_workflow` on a progress map: some key starts with `{slug}-{name}`. */
  predicate Seen(p: Progress, slug: string, workflowName: string) {
    AnyKeyStartsWith(p, slug + "-" + workflowName)
  }

  /** `seen_workflow(project_slug, workflow_name)` on the progress file. */
  function SeenWorkflow(store: ProgressFile, slug: string, workflowName: string): (r: bool)
    reads store
    ensures r <==> exists k :: k in store.Load() && StartsWith(k, slug + "-" + workflowName)
    ensures !store.present ==> !r
  {
    Seen(store.Load(), slug, workflowName)
  }

  /** After `write_progress(slug, name, id, n)` the workflow name is seen. */
  lemma RecordedNameIsSeen(p: Progress, slug: string, workflowName: string, workflowId: string, n: int)
    ensures Seen(p[EnvKey(slug, workflowName, workflowId) := n], slug, workflowName)
  {
    var key := EnvKey(slug, workflowName, workflowId);
    assert key in p[key := n] && StartsWith(key, slug + "-" + workflowName);
  }

  /** The prefix test is not an exact match: a recorded `build-test` workflow makes `build` look seen. */
  lemma SeenIsAPrefixTest()
    ensures Seen(map[EnvKey("org/repo", "build-test", "w9") := 3], "org/repo", "build")
  {
    RecordedNameIsSeen(map[], "org/repo", "build-test", "w9", 3);
    var key := EnvKey("org/repo", "build-test", "w9");
    assert StartsWith(key, "org/repo-build");
  }

  /**
   * For a workflow that has not been seen, `has_completed` is false for
   * every non-negative job number: its key starts with the seen-prefix, so
   * it cannot be stored.
   */
  lemma UnseenIsNotCompleted(p: Progress, slug: string, workflowName: string, workflowId: string, n: int)
    requires !Seen(p, slug, workflowName)
    requires n >= 0
    ensures !Completed(p, EnvKey(slug, workflowName, workflowId), n)
  {
    var key := EnvKey(slug, workflowName, workflowId);
    assert StartsWith(key, slug + "-" + workflowName);
  }

  // ---------------------------------------------------------------------
  // Latest job

  /** `j.get('job_number', 0)` */
  function Number(j: EnvJob): int {
    j.jobNumber.GetOr(0)
  }

  /**
   * `max(jobs, key=lambda j: j.get('job_number', 0))`: the index of the
   * first job with the largest number, or None (`max` raises) when there
   * is no job.
   */
  function LatestJob(jobs: seq<EnvJob>): (r: Option<nat>)
    ensures r.None? <==> jobs == []
    ensures r.Some? ==> r.value < |jobs|
    ensures r.Some? ==> forall i :: 0 <= i < |jobs| ==> Number(jobs[i]) <= Number(jobs[r.value])
    ensures r.Some? ==> forall i :: 0 <= i < r.value ==> Number(jobs[i]) < Number(jobs[r.value])
  {
    if jobs == [] then None
    else
      var last := |jobs| - 1;
      match LatestJob(jobs[..last])
      case None => Some(0)
      case Some(best) =>
        assert jobs[..last][best] == jobs[best];
        if Number(jobs[last]) > Number(jobs[best]) then Some(last) else Some(best)
  }

  // ---------------------------------------------------------------------
  // The walk as a function of the responses and the initial progress

  /** One workflow: skipped when seen; else list its jobs, raise if there are none, and process the latest unless completed. */
  function WorkflowStep(slug: string, w: EnvWorkflow, st: State): State {
    if st.crashed || Seen(st.progress, slug, w.name) then st
    else
      var listed := st.trace + [ListJobs(w.id)];
      match LatestJob(w.jobs)
      case None => State(listed, st.progress, true)
      case Some(k) =>
        var n := Number(w.jobs[k]);
        var key := EnvKey(slug, w.name, w.id);
        if Completed(st.progress, key, n) then State(listed, st.progress, false)
        else State(listed + [FetchOutput(w.name, n), WriteProgress(key, n)], st.progress[key := n], false)
  }

  function WorkflowsRun(slug: string, ws: seq<EnvWorkflow>, st: State): State {
    if ws == [] then st
    else WorkflowStep(slug, ws[|ws| - 1], WorkflowsRun(slug, ws[..|ws| - 1], st))
  }

  function PipelineStep(slug: string, p: EnvPipeline, st: State): State {
    if st.crashed then st
    else WorkflowsRun(slug, p.workflows, State(st.trace + [ListWorkflows(p.id)], st.progress, false))
  }

  function PipelinesRun(slug: string, ps: seq<EnvPipeline>, st: State): State {
    if ps == [] then st
    else PipelineStep(slug, ps[|ps| - 1], PipelinesRun(slug, ps[..|ps| - 1], st))
  }

  /** `get_workflow_job_vars` for one project, from the progress file's contents `p0`. */
  function ProjectRun(slug: string, resp: PipelinesResponse, p0: Progress): State {
    if !resp.ok then State([], p0, false) else PipelinesRun(slug, resp.items, State([], p0, false))
  }

  /** Once `max` has raised, the rest of the walk does nothing. */
  lemma {:induction false} WorkflowsCrashStays(slug: string, ws: seq<EnvWorkflow>, k: nat, st: State)
    requires k <= |ws|
    requires WorkflowsRun(slug, ws[..k], st).crashed
    ensures WorkflowsRun(slug, ws, st) == WorkflowsRun(slug, ws[..k], st)
    decreases |ws| - k
  {
    if k < |ws| {
      var init := ws[..|ws| - 1];
      assert init[..k] == ws[..k];
      WorkflowsCrashStays(slug, init, k, st);
    } else {
      assert ws[..k] == ws;
    }
  }

  lemma {:induction false} PipelinesCrashStays(slug: string, ps: seq<EnvPipeline>, k: nat, st: State)
    requires k <= |ps|
    requires PipelinesRun(slug, ps[..k], st).crashed
    ensures PipelinesRun(slug, ps, st) == PipelinesRun(slug, ps[..k], st)
    decreases |ps| - k
  {
    if k < |ps| {
      var init := ps[..|ps| - 1];
      assert init[..k] == ps[..k];
      PipelinesCrashStays(slug, init, k, st);
    } else {
      assert ps[..k] == ps;
    }
  }

  // ---------------------------------------------------------------------
  // The walk as the script performs it

  /**
   * `get_workflow_job_vars`: return at once when the pipelines response is
   * not ok; for each workflow of each pipeline, skip it when its name is
   * seen, otherwise list its jobs, take the latest (raising on none), skip
   * it when completed, else fetch its output and write its progress.
   */
  method GetWorkflowJobVars(store: ProgressFile, slug: string, pipelinesResp: PipelinesResponse)
    returns (trace: seq<Event>, crashed: bool)
    modifies store
    ensures State(trace, store.Load(), crashed) == ProjectRun(slug, pipelinesResp, old(store.Load()))
  {
    trace, crashed := [], false;
    if !pipelinesResp.ok {
      return;
    }
    var pipelines := pipelinesResp.items;
    ghost var start := State([], store.Load(), false);
    for i := 0 to |pipelines|
      invariant State(trace, store.Load(), false) == PipelinesRun(slug, pipelines[..i], start)
    {
      assert pipelines[..i + 1][..i] == pipelines[..i];
      var pipeline := pipelines[i];
      trace, crashed := VisitWorkflows(store, slug, pipeline.workflows, trace + [ListWorkflows(pipeline.id)]);
      if crashed {
        PipelinesCrashStays(slug, pipelines, i + 1, start);
        assert pipelines[..|pipelines|] == pipelines;
        return;
      }
    }
    assert pipelines[..|pipelines|] == pipelines;
  }

  /** The workflow loop of one pipeline, continuing the trace `before`. */
  method VisitWorkflows(store: ProgressFile, slug: string, workflows: seq<EnvWorkflow>, before: seq<Event>)
    returns (trace: seq<Event>, crashed: bool)
    modifies store
    ensures State(trace, store.Load(), crashed) == WorkflowsRun(slug, workflows, State(before, old(store.Load()), false))
  {
    trace, crashed := before, false;
    ghost var start := State(before, store.Load(), false);
    for j := 0 to |workflows|
      invariant State(trace, store.Load(), false) == WorkflowsRun(slug, workflows[..j], start)
    {
      assert workflows[..j + 1][..j] == workflows[..j];
      trace, crashed := VisitWorkflow(store, slug, workflows[j], trace);
      if crashed {
        WorkflowsCrashStays(slug, workflows, j + 1, start);
        return;
      }
    }
    assert workflows[..|workflows|] == workflows;
  }

  /** The body of the workflow loop, continuing the trace `before`. */
  method VisitWorkflow(store: ProgressFile, slug: string, workflow: EnvWorkflow, before: seq<Event>)
    returns (trace: seq<Event>, crashed: bool)
    modifies store
    ensures State(trace, store.Load(), crashed) == WorkflowStep(slug, workflow, State(before, old(store.Load()), false))
  {
    trace, crashed := before, false;
    if SeenWorkflow(store, slug, workflow.name) {
      return;
    }
    trace := trace + [ListJobs(workflow.id)];
    var jobs := workflow.jobs;
    var latest := LatestJob(jobs);
    if latest.None? {
      crashed := true;
      return;
    }
    var jobNumber := Number(jobs[latest.value]);
    var key := EnvKey(slug, workflow.name, workflow.id);
    if store.HasCompleted(key, jobNumber) {
      return;
    }
    trace := trace + [FetchOutput(workflow.name, jobNumber)];
    store.Write(key, jobNumber);
    trace := trace + [WriteProgress(key, jobNumber)];
  }

  // ---------------------------------------------------------------------
  // One workflow

  /**
   * The outcomes of one workflow visit: skipped when seen; a crash when it
   * has no jobs; only the jobs listing when its latest job is completed;
   * otherwise the output fetch and the progress write. The completed case
   * needs a negative job number, since the workflow is unseen.
   */
  lemma WorkflowStepRules(slug: string, w: EnvWorkflow, st: State)
    requires !st.crashed
    ensures Seen(st.progress, slug, w.name) ==> WorkflowStep(slug, w, st) == st
    ensures !Seen(st.progress, slug, w.name) && w.jobs == [] ==>
      WorkflowStep(slug, w, st) == State(st.trace + [ListJobs(w.id)], st.progress, true)
    ensures !Seen(st.progress, slug, w.name) && w.jobs != [] ==>
      var n := Number(w.jobs[LatestJob(w.jobs).value]);
      var key := EnvKey(slug, w.name, w.id);
      WorkflowStep(slug, w, st) ==
        if Completed(st.progress, key, n) then State(st.trace + [ListJobs(w.id)], st.progress, false)
        else State(st.trace + [ListJobs(w.id), FetchOutput(w.name, n), WriteProgress(key, n)], st.progress[key := n], false)
    ensures !Seen(st.progress, slug, w.name) && w.jobs != [] && Number(w.jobs[LatestJob(w.jobs).value]) >= 0 ==>
      !Completed(st.progress, EnvKey(slug, w.name, w.id), Number(w.jobs[LatestJob(w.jobs).value]))
  {
    if !Seen(st.progress, slug, w.name) && w.jobs != [] {
      var n := Number(w.jobs[LatestJob(w.jobs).value]);
      if n >= 0 {
        UnseenIsNotCompleted(st.progress, slug, w.name, w.id, n);
      }
      assert st.trace + [ListJobs(w.id)] + [FetchOutput(w.name, n), WriteProgress(EnvKey(slug, w.name, w.id), n)]
        == st.trace + [ListJobs(w.id), FetchOutput(w.name, n), WriteProgress(EnvKey(slug, w.name, w.id), n)];
    }
  }

  // ---------------------------------------------------------------------
  // Within one run, each workflow name is processed at most once

  /** The workflow names whose job output a trace fetches, in order. */
  function FetchedNames(trace: seq<Event>): seq<string> {
    if trace == [] then []
    else
      var e := trace[|trace| - 1];
      FetchedNames(trace[..|trace| - 1]) + if e.FetchOutput? then [e.workflowName] else []
  }

  lemma {:induction false} FetchedNamesAppend(a: seq<Event>, b: seq<Event>)
    ensures FetchedNames(a + b) == FetchedNames(a) + FetchedNames(b)
    decreases |b|
  {
    if b == [] {
      assert a + b == a;
    } else {
      var init := b[..|b| - 1];
      assert (a + b)[..|a + b| - 1] == a + init;
      FetchedNamesAppend(a, init);
    }
  }

  lemma SeenGrows(p: Progress, q: Progress, slug: string, workflowName: string)
    requires p.Keys <= q.Keys
    requires Seen(p, slug, workflowName)
    ensures Seen(q, slug, workflowName)
  {
    var k :| k in p && StartsWith(k, slug + "-" + workflowName);
    assert k in q;
  }

  /**
   * The run so far has only added keys to `p0`, and the names it fetched are
   * pairwise distinct, seen now, and not seen in `p0`.
   */
  ghost predicate FreshNames(slug: string, p0: Progress, st: State) {
    var names := FetchedNames(st.trace);
    && p0.Keys <= st.progress.Keys
    && (forall i, j :: 0 <= i < j < |names| ==> names[i] != names[j])
    && (forall i :: 0 <= i < |names| ==> Seen(st.progress, slug, names[i]) && !Seen(p0, slug, names[i]))
  }

  lemma ListingKeepsFreshNames(slug: string, p0: Progress, st: State, e: Event, crashed: bool)
    requires FreshNames(slug, p0, st)
    requires e.ListWorkflows? || e.ListJobs?
    ensures FreshNames(slug, p0, State(st.trace + [e], st.progress, crashed))
  {
    assert (st.trace + [e])[..|st.trace|] == st.trace;
  }

  lemma ProcessingKeepsFreshNames(slug: string, p0: Progress, st: State, w: EnvWorkflow, n: int)
    requires FreshNames(slug, p0, st)
    requires !Seen(st.progress, slug, w.name)
    ensures var key := EnvKey(slug, w.name, w.id);
      FreshNames(slug, p0, State(st.trace + [ListJobs(w.id)] + [FetchOutput(w.name, n), WriteProgress(key, n)], st.progress[key := n], false))
  {
    var key := EnvKey(slug, w.name, w.id);
    var steps := [ListJobs(w.id)] + [FetchOutput(w.name, n), WriteProgress(key, n)];
    assert st.trace + [ListJobs(w.id)] + [FetchOutput(w.name, n), WriteProgress(key, n)] == st.trace + steps;
    assert steps[..2][..1][..0] == [];
    assert FetchedNames(steps[..2][..1]) == [];
    assert FetchedNames(steps[..2]) == [w.name];
    assert FetchedNames(steps) == [w.name];
    FetchedNamesAppend(st.trace, steps);
    var names := FetchedNames(st.trace);
    var q := st.progress[key := n];
    var names' := names + [w.name];
    RecordedNameIsSeen(st.progress, slug, w.name, w.id, n);
    if Seen(p0, slug, w.name) {
      SeenGrows(p0, st.progress, slug, w.name);
    }
    forall i | 0 <= i < |names'|
      ensures Seen(q, slug, names'[i]) && !Seen(p0, slug, names'[i])
    {
      if i < |names| {
        SeenGrows(st.progress, q, slug, names[i]);
      }
    }
    forall i, j | 0 <= i < j < |names'|
      ensures names'[i] != names'[j]
    {
      if j == |names| {
        assert Seen(st.progress, slug, names[i]);
      }
    }
  }

  lemma WorkflowStepKeepsFreshNames(slug: string, w: EnvWorkflow, p0: Progress, st: State)
    requires FreshNames(slug, p0, st)
    ensures FreshNames(slug, p0, WorkflowStep(slug, w, st))
  {
    if !st.crashed && !Seen(st.progress, slug, w.name) {
      ListingKeepsFreshNames(slug, p0, st, ListJobs(w.id), w.jobs == []);
      if w.jobs != [] {
        var n := Number(w.jobs[LatestJob(w.jobs).value]);
        ListingKeepsFreshNames(slug, p0, st, ListJobs(w.id), false);
        ProcessingKeepsFreshNames(slug, p0, st, w, n);
      }
    }
  }

  lemma {:induction false} WorkflowsRunKeepsFreshNames(slug: string, ws: seq<EnvWorkflow>, p0: Progress, st: State)
    requires FreshNames(slug, p0, st)
    ensures FreshNames(slug, p0, WorkflowsRun(slug, ws, st))
  {
    if ws != [] {
      WorkflowsRunKeepsFreshNames(slug, ws[..|ws| - 1], p0, st);
      WorkflowStepKeepsFreshNames(slug, ws[|ws| - 1], p0, WorkflowsRun(slug, ws[..|ws| - 1], st));
    }
  }

  lemma {:induction false} PipelinesRunKeepsFreshNames(slug: string, ps: seq<EnvPipeline>, p0: Progress, st: State)
    requires FreshNames(slug, p0, st)
    ensures FreshNames(slug, p0, PipelinesRun(slug, ps, st))
  {
    if ps != [] {
      PipelinesRunKeepsFreshNames(slug, ps[..|ps| - 1], p0, st);
      var mid := PipelinesRun(slug, ps[..|ps| - 1], st);
      if !mid.crashed {
        var last := ps[|ps| - 1];
        ListingKeepsFreshNames(slug, p0, mid, ListWorkflows(last.id), false);
        WorkflowsRunKeepsFreshNames(slug, last.workflows, p0, State(mid.trace + [ListWorkflows(last.id)], mid.progress, false));
      }
    }
  }

  /**
   * In one run of `get_workflow_job_vars`, no workflow name has its output
   * fetched twice, and none that the progress file already showed as seen
   * is fetched at all: each processed workflow records a key that makes its
   * name seen for the rest of the run.
   */
  lemma ProjectRunFetchesEachNameOnce(slug: string, resp: PipelinesResponse, p0: Progress)
    ensures var names := FetchedNames(ProjectRun(slug, resp, p0).trace);
      && (forall i, j :: 0 <= i < j < |names| ==> names[i] != names[j])
      && (forall i :: 0 <= i < |names| ==> !Seen(p0, slug, names[i]))
  {
    assert FreshNames(slug, p0, State([], p0, false));
    if resp.ok {
      PipelinesRunKeepsFreshNames(slug, resp.items, p0, State([], p0, false));
    }
  }

  // ---------------------------------------------------------------------
  // Resuming: a second run over the same responses does no work

  /** A visit to `w` under `p` neither fetches nor writes: the name is seen, or the latest job is completed. */
  ghost predicate Done(p: Progress, slug: string, w: EnvWorkflow) {
    || Seen(p, slug, w.name)
    || (w.jobs != [] && Completed(p, EnvKey(slug, w.name, w.id), Number(w.jobs[LatestJob(w.jobs).value])))
  }

  ghost predicate WorkflowsDone(p: Progress, slug: string, ws: seq<EnvWorkflow>) {
    forall i :: 0 <= i < |ws| ==> Done(p, slug, ws[i])
  }

  ghost predicate PipelinesDone(p: Progress, slug: string, ps: seq<EnvPipeline>) {
    forall i :: 0 <= i < |ps| ==> WorkflowsDone(p, slug, ps[i].workflows)
  }

  /** A trace with listing requests only. */
  predicate Quiet(trace: seq<Event>) {
    forall i :: 0 <= i < |trace| ==> trace[i].ListWorkflows? || trace[i].ListJobs?
  }

  lemma DoneGrows(p: Progress, q: Progress, slug: string, w: EnvWorkflow)
    requires p.Keys <= q.Keys
    requires Done(p, slug, w)
    ensures Done(q, slug, w)
  {
    var key := EnvKey(slug, w.name, w.id);
    if key in q {
      assert StartsWith(key, slug + "-" + w.name);
    } else if Seen(p, slug, w.name) {
      SeenGrows(p, q, slug, w.name);
    }
  }

  lemma WorkflowStepDone(slug: string, w: EnvWorkflow, st: State)
    requires !WorkflowStep(slug, w, st).crashed
    ensures !st.crashed
    ensures st.progress.Keys <= WorkflowStep(slug, w, st).progress.Keys
    ensures Done(WorkflowStep(slug, w, st).progress, slug, w)
  {
    if !Seen(st.progress, slug, w.name) {
      var n := Number(w.jobs[LatestJob(w.jobs).value]);
      var key := EnvKey(slug, w.name, w.id);
      if !Completed(st.progress, key, n) {
        RecordedNameIsSeen(st.progress, slug, w.name, w.id, n);
      }
    }
  }

  lemma {:induction false} WorkflowsRunDone(slug: string, ws: seq<EnvWorkflow>, st: State)
    requires !WorkflowsRun(slug, ws, st).crashed
    ensures !st.crashed
    ensures st.progress.Keys <= WorkflowsRun(slug, ws, st).progress.Keys
    ensures WorkflowsDone(WorkflowsRun(slug, ws, st).progress, slug, ws)
  {
    if ws != [] {
      var init, last := ws[..|ws| - 1], ws[|ws| - 1];
      var mid := WorkflowsRun(slug, init, st);
      var fin := WorkflowStep(slug, last, mid);
      WorkflowStepDone(slug, last, mid);
      WorkflowsRunDone(slug, init, st);
      forall i | 0 <= i < |ws|
        ensures Done(fin.progress, slug, ws[i])
      {
        if i < |init| {
          assert ws[i] == init[i];
          DoneGrows(mid.progress, fin.progress, slug, ws[i]);
        }
      }
    }
  }

  lemma {:induction false} PipelinesRunDone(slug: string, ps: seq<EnvPipeline>, st: State)
    requires !PipelinesRun(slug, ps, st).crashed
    ensures !st.crashed
    ensures st.progress.Keys <= PipelinesRun(slug, ps, st).progress.Keys
    ensures PipelinesDone(PipelinesRun(slug, ps, st).progress, slug, ps)
  {
    if ps != [] {
      var init, last := ps[..|ps| - 1], ps[|ps| - 1];
      var mid := PipelinesRun(slug, init, st);
      assert !mid.crashed;
      var entry := State(mid.trace + [ListWorkflows(last.id)], mid.progress, false);
      var fin := WorkflowsRun(slug, last.workflows, entry);
      WorkflowsRunDone(slug, last.workflows, entry);
      PipelinesRunDone(slug, init, st);
      forall i | 0 <= i < |ps|
        ensures WorkflowsDone(fin.progress, slug, ps[i].workflows)
      {
        if i < |init| {
          assert ps[i] == init[i];
          forall j | 0 <= j < |init[i].workflows|
            ensures Done(fin.progress, slug, init[i].workflows[j])
          {
            DoneGrows(mid.progress, fin.progress, slug, init[i].workflows[j]);
          }
        }
      }
    }
  }

  lemma QuietSnoc(trace: seq<Event>, e: Event)
    requires Quiet(trace)
    requires e.ListWorkflows? || e.ListJobs?
    ensures Quiet(trace + [e])
  {
    forall i | 0 <= i < |trace| + 1
      ensures (trace + [e])[i].ListWorkflows? || (trace + [e])[i].ListJobs?
    {
      if i < |trace| {
        assert (trace + [e])[i] == trace[i];
      }
    }
  }

  lemma {:induction false} DoneWorkflowsOnlyList(slug: string, ws: seq<EnvWorkflow>, st: State)
    requires !st.crashed && Quiet(st.trace)
    requires WorkflowsDone(st.progress, slug, ws)
    ensures var r := WorkflowsRun(slug, ws, st);
      !r.crashed && r.progress == st.progress && Quiet(r.trace)
  {
    if ws != [] {
      var init, last := ws[..|ws| - 1], ws[|ws| - 1];
      assert forall i :: 0 <= i < |init| ==> init[i] == ws[i];
      DoneWorkflowsOnlyList(slug, init, st);
      var mid := WorkflowsRun(slug, init, st);
      assert Done(mid.progress, slug, last);
      if !Seen(mid.progress, slug, last.name) {
        QuietSnoc(mid.trace, ListJobs(last.id));
      }
    }
  }

  lemma {:induction false} DonePipelinesOnlyList(slug: string, ps: seq<EnvPipeline>, st: State)
    requires !st.crashed && Quiet(st.trace)
    requires PipelinesDone(st.progress, slug, ps)
    ensures var r := PipelinesRun(slug, ps, st);
      !r.crashed && r.progress == st.progress && Quiet(r.trace)
  {
    if ps != [] {
      var init, last := ps[..|ps| - 1], ps[|ps| - 1];
      assert forall i :: 0 <= i < |init| ==> init[i] == ps[i];
      DonePipelinesOnlyList(slug, init, st);
      var mid := PipelinesRun(slug, init, st);
      QuietSnoc(mid.trace, ListWorkflows(last.id));
      DoneWorkflowsOnlyList(slug, last.workflows, State(mid.trace + [ListWorkflows(last.id)], mid.progress, false));
    }
  }

  /**
   * After a run that did not crash, running the project again over the same
   * responses from the progress it left fetches no output and writes no
   * progress: it only lists, and the progress stays as it was.
   */
  lemma RerunDoesNoWork(slug: string, resp: PipelinesResponse, p0: Progress)
    requires !ProjectRun(slug, resp, p0).crashed
    ensures var first := ProjectRun(slug, resp, p0);
      var second := ProjectRun(slug, resp, first.progress);
      && !second.crashed
      && second.progress == first.progress
      && Quiet(second.trace)
  {
    if resp.ok {
      var first := ProjectRun(slug, resp, p0);
      PipelinesRunDone(slug, resp.items, State([], p0, false));
      DonePipelinesOnlyList(slug, resp.items, State([], first.progress, false));
    }
  }
}
