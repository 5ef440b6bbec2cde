/**
 * The CircleCI artifacts downloader: for one project, walk pipelines,
 * their workflows, their jobs and each job's artifacts, skipping a job whose
 * number is already recorded for its (pipeline, workflow), and recording the
 * job number after all its artifacts are saved.
 *
 * Every list response is data (a missing `items` field is an empty list).
 * The MD5 digest of `hashlib` is the parameter `digest`. The walk emits a
 * trace of its requests, saved files and progress writes.
 */
module CircleArtifacts {
  import opened Wrappers
  import opened Text
  import opened ProgressStore

  datatype Artifact = Artifact(path: string, url: string)

  /** A job record (its `job_number` may be missing) and the items of its artifacts response. */
  datatype Job = Job(jobNumber: Option<int>, artifacts: seq<Artifact>)

  /** A workflow record and the items of its jobs response. */
  datatype Workflow = Workflow(id: string, jobs: seq<Job>)

  /** A pipeline record and the items of its workflows response. */
  datatype Pipeline = Pipeline(id: string, workflows: seq<Workflow>)

  /** The project's pipelines response: `pipelines_resp.ok` and its items. */
  datatype PipelinesResponse = PipelinesResponse(ok: bool, items: seq<Pipeline>)

  /** What the walk does, in order. */
  datatype Event =
    | ListWorkflows(pipelineId: string)
    | ListJobs(workflowId: string)
    | ListArtifacts(jobNumber: int)
    | Save(url: string, filePath: string)
    | WriteProgress(key: string, jobNumber: int)

  /** The walk's trace so far and the progress map as the file now holds it. */
  datatype State = State(trace: seq<Event>, progress: Progress)

  const DownloadDir := "CircleArtifacts"

  // ---------------------------------------------------------------------
  // os.path.splitext and hash_filename

  /** `p.rfind(c)`: the last index of `c`, or -1. */
  function RFind(p: string, c: char): (r: int)
    ensures -1 <= r < |p|
    ensures r >= 0 ==> p[r] == c
    ensures forall j :: r < j < |p| ==> p[j] != c
  {
    if p == [] then -1
    else if p[|p| - 1] == c then |p| - 1
    else RFind(p[..|p| - 1], c)
  }

  lemma {:induction false} RFindAt(p: string, c: char, r: int)
    requires -1 <= r < |p|
    requires r >= 0 ==> p[r] == c
    requires forall j :: r < j < |p| ==> p[j] != c
    ensures RFind(p, c) == r
  {
    if p != [] && p[|p| - 1] != c {
      RFindAt(p[..|p| - 1], c, r);
    }
  }

  /**
   * `os.path.splitext` on POSIX: the extension runs from the last `.` that
   * follows the last `/` and is preceded in the base name by something other
   * than dots; otherwise it is empty.
   */
  function SplitExt(p: string): (r: (string, string))
    ensures r.0 + r.1 == p
    ensures r.1 == [] || (r.1[0] == '.' && NoChar(r.1[1..], '.') && NoChar(r.1, '/'))
  {
    var sep := RFind(p, '/');
    var dot := RFind(p, '.');
    if dot > sep && exists i | sep + 1 <= i < dot :: p[i] != '.' then
      assert p[..dot] + p[dot..] == p;
      (p[..dot], p[dot..])
    else
      (p, "")
  }

  /**
   * When `splitext` finds an extension: exactly when the last path component
   * has a `.` after some character other than `.`, so a name made of leading
   * dots and a word (`.cshrc`) keeps its dots in the root.
   */
  lemma SplitExtFindsExtensionIff(p: string)
    ensures SplitExt(p).1 != [] <==>
      exists i, j :: 0 <= i < j < |p| && p[i] != '.' && p[j] == '.' && NoChar(p[i..], '/')
  {
    var sep := RFind(p, '/');
    var dot := RFind(p, '.');
    if SplitExt(p).1 != [] {
      var i :| sep + 1 <= i < dot && p[i] != '.';
      forall m | 0 <= m < |p[i..]|
        ensures p[i..][m] != '/'
      {
        assert p[i..][m] == p[i + m];
      }
      assert 0 <= i < dot < |p| && p[i] != '.' && p[dot] == '.' && NoChar(p[i..], '/');
    }
    if exists i, j :: 0 <= i < j < |p| && p[i] != '.' && p[j] == '.' && NoChar(p[i..], '/') {
      var i, j :| 0 <= i < j < |p| && p[i] != '.' && p[j] == '.' && NoChar(p[i..], '/');
      assert j <= dot;
      assert sep < i;
      assert sep + 1 <= i < dot && p[i] != '.';
    }
  }

  /** The artifact paths the script hashes keep their extension; a dot file has none. */
  lemma SplitExtExamples()
    ensures SplitExt("org/repo-7-out/report.txt") == ("org/repo-7-out/report", ".txt")
    ensures SplitExt(".cshrc") == (".cshrc", "")
  {
    var p := "org/repo-7-out/report.txt";
    RFindAt(p, '/', 14);
    RFindAt(p, '.', 21);
    assert p[15] != '.';
    assert p[..21] == "org/repo-7-out/report" && p[21..] == ".txt";
    var q := ".cshrc";
    RFindAt(q, '/', -1);
    RFindAt(q, '.', 0);
  }

  /** `hash_filename`: the digest of the name part, followed by the extension. */
  function HashFilename(digest: string -> string, filename: string): (h: string)
    ensures h == digest(SplitExt(filename).0) + SplitExt(filename).1
  {
    var (name, extension) := SplitExt(filename);
    digest(name) + extension
  }

  /**
   * The extension survives hashing: when the digest is a non-empty string
   * without `.` or `/` (as a hex digest is), splitting the hashed name gives
   * back the digest and exactly the original extension.
   */
  lemma HashFilenameKeepsExtension(digest: string -> string, filename: string)
    requires var d := digest(SplitExt(filename).0); d != [] && NoChar(d, '.') && NoChar(d, '/')
    ensures SplitExt(HashFilename(digest, filename)) == (digest(SplitExt(filename).0), SplitExt(filename).1)
  {
    var d := digest(SplitExt(filename).0);
    var ext := SplitExt(filename).1;
    var h := d + ext;
    RFindAt(h, '/', -1);
    if ext == [] {
      assert h == d;
      RFindAt(h, '.', -1);
    } else {
      RFindAt(h, '.', |d|);
      assert h[0] != '.';
      assert h[..|d|] == d;
    }
  }

  /** The file an artifact is saved to: `hash_filename(f"{project_slug}-{job_number}-{path}")` under the download directory. */
  function ArtifactFile(digest: string -> string, slug: string, jobNumber: int, path: string): string {
    PathJoin(DownloadDir, HashFilename(digest, slug + "-" + IntToDecimal(jobNumber) + "-" + path))
  }

  // ---------------------------------------------------------------------
  // The walk as a function of the responses and the initial progress

  function ArtifactsKey(slug: string, pipelineId: string, workflowId: string): string {
    CompositeKey(slug, pipelineId, workflowId)
  }

  /** One save per artifact, in order, each to the file that `file` names for the artifact's path. */
  function SavesTo(file: string -> string, artifacts: seq<Artifact>): seq<Event> {
    if artifacts == [] then []
    else
      var a := artifacts[|artifacts| - 1];
      SavesTo(file, artifacts[..|artifacts| - 1]) + [Save(a.url, file(a.path))]
  }

  /** The file names of job `jobNumber`'s artifacts. */
  function FileNamer(digest: string -> string, slug: string, jobNumber: int): string -> string {
    path => ArtifactFile(digest, slug, jobNumber, path)
  }

  /** The saves for a job's artifacts. */
  function Saves(digest: string -> string, slug: string, jobNumber: int, artifacts: seq<Artifact>): seq<Event> {
    SavesTo(FileNamer(digest, slug, jobNumber), artifacts)
  }

  /** A job: ignored without a number, skipped when completed, otherwise its artifacts then one progress write. */
  function JobStep(digest: string -> string, slug: string, pipelineId: string, workflowId: string, job: Job, st: State): State {
    match job.jobNumber
    case None => st
    case Some(n) =>
      var key := ArtifactsKey(slug, pipelineId, workflowId);
      if Completed(st.progress, key, n) then st
      else State(st.trace + ProcessedJob(digest, slug, key, n, job.artifacts), st.progress[key := n])
  }

  /** What processing job `n` adds: its artifacts request, its saves, then its progress write. */
  function ProcessedJob(digest: string -> string, slug: string, key: string, n: int, artifacts: seq<Artifact>): seq<Event> {
    [ListArtifacts(n)] + Saves(digest, slug, n, artifacts) + [WriteProgress(key, n)]
  }

  function JobsRun(digest: string -> string, slug: string, pipelineId: string, workflowId: string, jobs: seq<Job>, st: State): State {
    if jobs == [] then st
    else JobStep(digest, slug, pipelineId, workflowId, jobs[|jobs| - 1],
                 JobsRun(digest, slug, pipelineId, workflowId, jobs[..|jobs| - 1], st))
  }

  function WorkflowStep(digest: string -> string, slug: string, pipelineId: string, w: Workflow, st: State): State {
    JobsRun(digest, slug, pipelineId, w.id, w.jobs, State(st.trace + [ListJobs(w.id)], st.progress))
  }

  function WorkflowsRun(digest: string -> string, slug: string, pipelineId: string, ws: seq<Workflow>, st: State): State {
    if ws == [] then st
    else WorkflowStep(digest, slug, pipelineId, ws[|ws| - 1], WorkflowsRun(digest, slug, pipelineId, ws[..|ws| - 1], st))
  }

  function PipelineStep(digest: string -> string, slug: string, p: Pipeline, st: State): State {
    WorkflowsRun(digest, slug, p.id, p.workflows, State(st.trace + [ListWorkflows(p.id)], st.progress))
  }

  function PipelinesRun(digest: string -> string, slug: string, ps: seq<Pipeline>, st: State): State {
    if ps == [] then st
    else PipelineStep(digest, slug, ps[|ps| - 1], PipelinesRun(digest, slug, ps[..|ps| - 1], st))
  }

  /** `download_artifacts_for_project`, starting from the progress file's contents `p0`. */
  function ProjectRun(digest: string -> string, slug: string, resp: PipelinesResponse, p0: Progress): State {
    if !resp.ok then State([], p0) else PipelinesRun(digest, slug, resp.items, State([], p0))
  }

  // ---------------------------------------------------------------------
  // The walk as the script performs it

  /** The inner loop over one job's artifacts: save each to its hashed file name, in order. */
  method SaveArtifacts(digest: string -> string, slug: string, n: int, artifacts: seq<Artifact>) returns (saves: seq<Event>)
    ensures saves == Saves(digest, slug, n, artifacts)
  {
    saves := [];
    for a := 0 to |artifacts|
      invariant saves == Saves(digest, slug, n, artifacts[..a])
    {
      assert artifacts[..a + 1][..a] == artifacts[..a];
      var artifact := artifacts[a];
      var filePath := ArtifactFile(digest, slug, n, artifact.path);
      saves := saves + [Save(artifact.url, filePath)];
    }
    assert artifacts[..|artifacts|] == artifacts;
  }

  /**
   * `download_artifacts_for_project`: return at once when the pipelines
   * response is not ok; otherwise, for each job that has a `job_number` and
   * is not completed, request its artifacts, save each one, and then write
   * its number as the progress of its (pipeline, workflow).
   */
  method DownloadArtifactsForProject(store: ProgressFile, slug: string, pipelinesResp: PipelinesResponse, digest: string -> string)
    returns (trace: seq<Event>)
    modifies store
    ensures State(trace, store.Load()) == ProjectRun(digest, slug, pipelinesResp, old(store.Load()))
    ensures !pipelinesResp.ok ==> trace == [] && unchanged(store)
  {
    if !pipelinesResp.ok {
      return [];
    }
    trace := [];
    var pipelines := pipelinesResp.items;
    ghost var start := State([], store.Load());
    for i := 0 to |pipelines|
      invariant State(trace, store.Load()) == PipelinesRun(digest, slug, pipelines[..i], start)
    {
      assert pipelines[..i + 1][..i] == pipelines[..i];
      var pipeline := pipelines[i];
      trace := VisitWorkflows(store, slug, pipeline.id, pipeline.workflows, digest, trace + [ListWorkflows(pipeline.id)]);
    }
    assert pipelines[..|pipelines|] == pipelines;
  }

  /** The workflow loop of one pipeline, continuing the trace `before`. */
  method VisitWorkflows(store: ProgressFile, slug: string, pipelineId: string, workflows: seq<Workflow>, digest: string -> string, before: seq<Event>)
    returns (trace: seq<Event>)
    modifies store
    ensures State(trace, store.Load()) == WorkflowsRun(digest, slug, pipelineId, workflows, State(before, old(store.Load())))
  {
    trace := before;
    ghost var start := State(before, store.Load());
    for j := 0 to |workflows|
      invariant State(trace, store.Load()) == WorkflowsRun(digest, slug, pipelineId, workflows[..j], start)
    {
      assert workflows[..j + 1][..j] == workflows[..j];
      var workflow := workflows[j];
      trace := VisitJobs(store, slug, pipelineId, workflow.id, workflow.jobs, digest, trace + [ListJobs(workflow.id)]);
    }
    assert workflows[..|workflows|] == workflows;
  }

  /** The job loop of one workflow, continuing the trace `before`. */
  method VisitJobs(store: ProgressFile, slug: string, pipelineId: string, workflowId: string, jobs: seq<Job>, digest: string -> string, before: seq<Event>)
    returns (trace: seq<Event>)
    modifies store
    ensures State(trace, store.Load()) == JobsRun(digest, slug, pipelineId, workflowId, jobs, State(before, old(store.Load())))
  {
    trace := before;
    ghost var start := State(before, store.Load());
    for k := 0 to |jobs|
      invariant State(trace, store.Load()) == JobsRun(digest, slug, pipelineId, workflowId, jobs[..k], start)
    {
      assert jobs[..k + 1][..k] == jobs[..k];
      var job := jobs[k];
      if job.jobNumber.Some? {
        var n := job.jobNumber.value;
        var key := ArtifactsKey(slug, pipelineId, workflowId);
        if store.HasCompleted(key, n) {
          continue;
        }
        ghost var beforeJob := trace;
        trace := trace + [ListArtifacts(n)];
        var saves := SaveArtifacts(digest, slug, n, job.artifacts);
        trace := trace + saves;
        store.Write(key, n);
        trace := trace + [WriteProgress(key, n)];
        assert trace == beforeJob + ProcessedJob(digest, slug, key, n, job.artifacts);
      }
    }
    assert jobs[..|jobs|] == jobs;
  }

  // ---------------------------------------------------------------------
  // Each processed job: one artifacts request, its saves, then one write

  function WriteCount(events: seq<Event>): nat {
    if events == [] then 0
    else WriteCount(events[..|events| - 1]) + (if events[|events| - 1].WriteProgress? then 1 else 0)
  }

  lemma {:induction false} WriteCountAppend(a: seq<Event>, b: seq<Event>)
    ensures WriteCount(a + b) == WriteCount(a) + WriteCount(b)
    decreases |b|
  {
    if b == [] {
      assert a + b == a;
    } else {
      assert (a + b)[..|a + b| - 1] == a + b[..|b| - 1];
      WriteCountAppend(a, b[..|b| - 1]);
    }
  }

  /** A job's saves, whatever the file naming (the hashed one is `FileNamer`): one Save per artifact, of that artifact's URL, in order, and no progress write. */
  lemma {:induction false} SavesToOnePerArtifact(file: string -> string, artifacts: seq<Artifact>)
    ensures |SavesTo(file, artifacts)| == |artifacts|
    ensures forall i :: 0 <= i < |artifacts| ==> SavesTo(file, artifacts)[i] == Save(artifacts[i].url, file(artifacts[i].path))
    ensures WriteCount(SavesTo(file, artifacts)) == 0
  {
    if artifacts != [] {
      var init, a := artifacts[..|artifacts| - 1], artifacts[|artifacts| - 1];
      SavesToOnePerArtifact(file, init);
      var before, last := SavesTo(file, init), Save(a.url, file(a.path));
      assert SavesTo(file, artifacts) == before + [last];
      forall i | 0 <= i < |artifacts|
        ensures SavesTo(file, artifacts)[i] == Save(artifacts[i].url, file(artifacts[i].path))
      {
        if i < |init| {
          assert artifacts[i] == init[i];
        }
      }
      WriteCountAppend(before, [last]);
    }
  }

  /**
   * Processing a job adds its artifacts request, one save per artifact (of
   * that artifact's URL, in order) and exactly one progress write, last, of
   * its own number under its key.
   */
  lemma ProcessedJobShape(digest: string -> string, slug: string, key: string, n: int, artifacts: seq<Artifact>)
    ensures var added := ProcessedJob(digest, slug, key, n, artifacts);
      && |added| == |artifacts| + 2
      && added[0] == ListArtifacts(n)
      && (forall i :: 1 <= i <= |artifacts| ==> added[i].Save? && added[i].url == artifacts[i - 1].url)
      && added[|added| - 1] == WriteProgress(key, n)
      && WriteCount(added) == 1
  {
    var saves := Saves(digest, slug, n, artifacts);
    SavesToOnePerArtifact(FileNamer(digest, slug, n), artifacts);
    WriteCountAppend([ListArtifacts(n)] + saves, [WriteProgress(key, n)]);
    WriteCountAppend([ListArtifacts(n)], saves);
    assert WriteCount([ListArtifacts(n)]) == 0 by {
      assert [ListArtifacts(n)][..0] == [];
    }
    assert WriteCount([WriteProgress(key, n)]) == 1 by {
      assert [WriteProgress(key, n)][..0] == [];
    }
  }

  /**
   * A job without a number, or one already completed for its (pipeline,
   * workflow), adds nothing and changes no progress; any other job adds the
   * events of ProcessedJob and records its number under its key.
   */
  lemma JobStepRules(digest: string -> string, slug: string, pipelineId: string, workflowId: string, job: Job, st: State)
    ensures var key := ArtifactsKey(slug, pipelineId, workflowId);
      var next := JobStep(digest, slug, pipelineId, workflowId, job, st);
      && (job.jobNumber.None? ==> next == st)
      && (job.jobNumber.Some? && Completed(st.progress, key, job.jobNumber.value) ==> next == st)
      && (job.jobNumber.Some? && !Completed(st.progress, key, job.jobNumber.value) ==>
            && next.trace == st.trace + ProcessedJob(digest, slug, key, job.jobNumber.value, job.artifacts)
            && next.progress == st.progress[key := job.jobNumber.value])
  {
  }

  // ---------------------------------------------------------------------
  // The watermark of every key only rises

  /** The numbers written under `key`, in trace order. */
  function WriteValues(events: seq<Event>, key: string): seq<int> {
    if events == [] then []
    else
      var e := events[|events| - 1];
      WriteValues(events[..|events| - 1], key) + (if e.WriteProgress? && e.key == key then [e.jobNumber] else [])
  }

  lemma {:induction false} WriteValuesAppend(a: seq<Event>, b: seq<Event>, key: string)
    ensures WriteValues(a + b, key) == WriteValues(a, key) + WriteValues(b, key)
    decreases |b|
  {
    if b == [] {
      assert a + b == a;
    } else {
      assert (a + b)[..|a + b| - 1] == a + b[..|b| - 1];
      WriteValuesAppend(a, b[..|b| - 1], key);
    }
  }

  lemma {:induction false} SavesWriteNothing(file: string -> string, artifacts: seq<Artifact>, key: string)
    ensures WriteValues(SavesTo(file, artifacts), key) == []
  {
    if artifacts != [] {
      var init := artifacts[..|artifacts| - 1];
      var a := artifacts[|artifacts| - 1];
      SavesWriteNothing(file, init, key);
      WriteValuesAppend(SavesTo(file, init), [Save(a.url, file(a.path))], key);
      assert [Save(a.url, file(a.path))][..0] == [];
    }
  }


  lemma ListingWritesNothing(st: State, e: Event, key: string)
    requires !e.WriteProgress?
    ensures WriteValues(st.trace + [e], key) == WriteValues(st.trace, key)
  {
    assert (st.trace + [e])[..|st.trace|] == st.trace;
  }

  predicate Increasing(s: seq<int>) {
    forall i, j :: 0 <= i < j < |s| ==> s[i] < s[j]
  }

  /** The value `key` holds after `events`, starting from `p0`: the last number written, or the initial lookup. */
  function Watermark(p0: Progress, events: seq<Event>, key: string): int {
    var w := WriteValues(events, key);
    if w == [] then Lookup(p0, key) else w[|w| - 1]
  }

  /**
   * Relative to the initial progress `p0`: every key holds the last number
   * written to it (or its initial value), and the initial value followed by
   * the numbers written to the key is strictly increasing.
   */
  ghost predicate WatermarkRises(p0: Progress, st: State) {
    forall key :: KeyRises(p0, st, key)
  }

  ghost predicate KeyRises(p0: Progress, st: State, key: string) {
    && Lookup(st.progress, key) == Watermark(p0, st.trace, key)
    && Increasing([Lookup(p0, key)] + WriteValues(st.trace, key))
  }

  lemma ProcessedJobWrites(digest: string -> string, slug: string, key: string, n: int, artifacts: seq<Artifact>, k: string)
    ensures WriteValues(ProcessedJob(digest, slug, key, n, artifacts), k) == if k == key then [n] else []
  {
    var saves := Saves(digest, slug, n, artifacts);
    WriteValuesAppend([ListArtifacts(n)] + saves, [WriteProgress(key, n)], k);
    WriteValuesAppend([ListArtifacts(n)], saves, k);
    SavesWriteNothing(FileNamer(digest, slug, n), artifacts, k);
    assert [WriteProgress(key, n)][..0] == [];
    assert [ListArtifacts(n)][..0] == [];
  }

  lemma ProcessedJobKeyRises(digest: string -> string, slug: string, key: string, n: int, artifacts: seq<Artifact>, p0: Progress, st: State, k: string)
    requires KeyRises(p0, st, k)
    requires !Completed(st.progress, key, n)
    ensures KeyRises(p0, State(st.trace + ProcessedJob(digest, slug, key, n, artifacts), st.progress[key := n]), k)
  {
    ProcessedJobWrites(digest, slug, key, n, artifacts, k);
    WritingKeyRises(p0, st, key, n, ProcessedJob(digest, slug, key, n, artifacts), k);
  }

  /** Appending events that write exactly `n` to `key`, and nothing to any other key, keeps every key rising when `n` is above `key`'s value. */
  lemma WritingKeyRises(p0: Progress, st: State, key: string, n: int, events: seq<Event>, k: string)
    requires KeyRises(p0, st, k)
    requires !Completed(st.progress, key, n)
    requires WriteValues(events, k) == if k == key then [n] else []
    ensures KeyRises(p0, State(st.trace + events, st.progress[key := n]), k)
  {
    WriteValuesAppend(st.trace, events, k);
    if k == key {
      assert Lookup(st.progress[key := n], k) == n;
      var before := [Lookup(p0, k)] + WriteValues(st.trace, k);
      assert Watermark(p0, st.trace, k) == before[|before| - 1];
      assert before[|before| - 1] < n;
      assert [Lookup(p0, k)] + WriteValues(st.trace + events, k) == before + [n];
      IncreasingSnoc(before, n);
    } else {
      assert WriteValues(st.trace + events, k) == WriteValues(st.trace, k) + [];
      assert WriteValues(st.trace, k) + [] == WriteValues(st.trace, k);
    }
  }

  lemma IncreasingSnoc(s: seq<int>, n: int)
    requires Increasing(s) && s != [] && s[|s| - 1] < n
    ensures Increasing(s + [n])
  {
  }

  lemma ListingKeyRises(p0: Progress, st: State, e: Event, k: string)
    requires KeyRises(p0, st, k)
    requires !e.WriteProgress?
    ensures KeyRises(p0, State(st.trace + [e], st.progress), k)
  {
    ListingWritesNothing(st, e, k);
  }

  lemma JobStepRises(digest: string -> string, slug: string, pipelineId: string, workflowId: string, job: Job, p0: Progress, st: State)
    requires WatermarkRises(p0, st)
    ensures WatermarkRises(p0, JobStep(digest, slug, pipelineId, workflowId, job, st))
  {
    if job.jobNumber.Some? && !Completed(st.progress, ArtifactsKey(slug, pipelineId, workflowId), job.jobNumber.value) {
      var n := job.jobNumber.value;
      var key := ArtifactsKey(slug, pipelineId, workflowId);
      var next := State(st.trace + ProcessedJob(digest, slug, key, n, job.artifacts), st.progress[key := n]);
      forall k
        ensures KeyRises(p0, next, k)
      {
        ProcessedJobKeyRises(digest, slug, key, n, job.artifacts, p0, st, k);
      }
    }
  }

  lemma {:induction false} JobsRunRises(digest: string -> string, slug: string, pipelineId: string, workflowId: string, jobs: seq<Job>, p0: Progress, st: State)
    requires WatermarkRises(p0, st)
    ensures WatermarkRises(p0, JobsRun(digest, slug, pipelineId, workflowId, jobs, st))
  {
    if jobs != [] {
      JobsRunRises(digest, slug, pipelineId, workflowId, jobs[..|jobs| - 1], p0, st);
      JobStepRises(digest, slug, pipelineId, workflowId, jobs[|jobs| - 1], p0,
        JobsRun(digest, slug, pipelineId, workflowId, jobs[..|jobs| - 1], st));
    }
  }

  lemma {:induction false} WorkflowsRunRises(digest: string -> string, slug: string, pipelineId: string, ws: seq<Workflow>, p0: Progress, st: State)
    requires WatermarkRises(p0, st)
    ensures WatermarkRises(p0, WorkflowsRun(digest, slug, pipelineId, ws, st))
  {
    if ws != [] {
      WorkflowsRunRises(digest, slug, pipelineId, ws[..|ws| - 1], p0, st);
      var mid := WorkflowsRun(digest, slug, pipelineId, ws[..|ws| - 1], st);
      var w := ws[|ws| - 1];
      var entry := State(mid.trace + [ListJobs(w.id)], mid.progress);
      forall k ensures KeyRises(p0, entry, k) {
        ListingKeyRises(p0, mid, ListJobs(w.id), k);
      }
      JobsRunRises(digest, slug, pipelineId, w.id, w.jobs, p0, entry);
    }
  }

  lemma {:induction false} PipelinesRunRises(digest: string -> string, slug: string, ps: seq<Pipeline>, p0: Progress, st: State)
    requires WatermarkRises(p0, st)
    ensures WatermarkRises(p0, PipelinesRun(digest, slug, ps, st))
  {
    if ps != [] {
      PipelinesRunRises(digest, slug, ps[..|ps| - 1], p0, st);
      var mid := PipelinesRun(digest, slug, ps[..|ps| - 1], st);
      var p := ps[|ps| - 1];
      var entry := State(mid.trace + [ListWorkflows(p.id)], mid.progress);
      forall k ensures KeyRises(p0, entry, k) {
        ListingKeyRises(p0, mid, ListWorkflows(p.id), k);
      }
      WorkflowsRunRises(digest, slug, p.id, p.workflows, p0, entry);
    }
  }

  /**
   * Over a whole project run, each key's writes are strictly increasing and
   * above its initial value (-1 when absent), and it ends holding the last
   * one. So once job `n` is recorded for a (pipeline, workflow), no later
   * job of it numbered at most `n` is processed, and no watermark goes down.
   */
  lemma ProjectRunWatermarksRise(digest: string -> string, slug: string, resp: PipelinesResponse, p0: Progress, key: string)
    ensures var run := ProjectRun(digest, slug, resp, p0);
      && Lookup(run.progress, key) == Watermark(p0, run.trace, key)
      && Increasing([Lookup(p0, key)] + WriteValues(run.trace, key))
      && Lookup(p0, key) <= Lookup(run.progress, key)
  {
    var st := State([], p0);
    assert forall k :: KeyRises(p0, st, k);
    if resp.ok {
      PipelinesRunRises(digest, slug, resp.items, p0, st);
    }
    var run := ProjectRun(digest, slug, resp, p0);
    assert KeyRises(p0, run, key);
    var s := [Lookup(p0, key)] + WriteValues(run.trace, key);
    assert s[0] <= s[|s| - 1];
  }

  // ---------------------------------------------------------------------
  // Resuming: a second run over the same responses does no work

  ghost predicate Grows(p: Progress, q: Progress) {
    forall k :: Lookup(p, k) <= Lookup(q, k)
  }

  lemma {:induction false} JobsRunGrows(digest: string -> string, slug: string, pipelineId: string, workflowId: string, jobs: seq<Job>, st: State)
    ensures Grows(st.progress, JobsRun(digest, slug, pipelineId, workflowId, jobs, st).progress)
  {
    if jobs != [] {
      JobsRunGrows(digest, slug, pipelineId, workflowId, jobs[..|jobs| - 1], st);
    }
  }

  lemma {:induction false} WorkflowsRunGrows(digest: string -> string, slug: string, pipelineId: string, ws: seq<Workflow>, st: State)
    ensures Grows(st.progress, WorkflowsRun(digest, slug, pipelineId, ws, st).progress)
  {
    if ws != [] {
      WorkflowsRunGrows(digest, slug, pipelineId, ws[..|ws| - 1], st);
      var mid := WorkflowsRun(digest, slug, pipelineId, ws[..|ws| - 1], st);
      JobsRunGrows(digest, slug, pipelineId, ws[|ws| - 1].id, ws[|ws| - 1].jobs, State(mid.trace + [ListJobs(ws[|ws| - 1].id)], mid.progress));
    }
  }

  /** Every numbered job of `jobs` is completed under `key` in `p`. */
  ghost predicate JobsDone(p: Progress, key: string, jobs: seq<Job>) {
    forall i :: 0 <= i < |jobs| && jobs[i].jobNumber.Some? ==> Completed(p, key, jobs[i].jobNumber.value)
  }

  ghost predicate WorkflowsDone(p: Progress, slug: string, pipelineId: string, ws: seq<Workflow>) {
    forall i :: 0 <= i < |ws| ==> JobsDone(p, ArtifactsKey(slug, pipelineId, ws[i].id), ws[i].jobs)
  }

  ghost predicate PipelinesDone(p: Progress, slug: string, ps: seq<Pipeline>) {
    forall i :: 0 <= i < |ps| ==> WorkflowsDone(p, slug, ps[i].id, ps[i].workflows)
  }

  lemma {:induction false} JobsRunCompletes(digest: string -> string, slug: string, pipelineId: string, workflowId: string, jobs: seq<Job>, st: State)
    ensures JobsDone(JobsRun(digest, slug, pipelineId, workflowId, jobs, st).progress, ArtifactsKey(slug, pipelineId, workflowId), jobs)
  {
    if jobs != [] {
      var init, last := jobs[..|jobs| - 1], jobs[|jobs| - 1];
      var key := ArtifactsKey(slug, pipelineId, workflowId);
      JobsRunCompletes(digest, slug, pipelineId, workflowId, init, st);
      var mid := JobsRun(digest, slug, pipelineId, workflowId, init, st);
      var fin := JobStep(digest, slug, pipelineId, workflowId, last, mid);
      assert Grows(mid.progress, fin.progress);
      forall i | 0 <= i < |jobs| && jobs[i].jobNumber.Some?
        ensures Completed(fin.progress, key, jobs[i].jobNumber.value)
      {
        if i < |init| {
          assert jobs[i] == init[i];
          assert Lookup(mid.progress, key) <= Lookup(fin.progress, key);
        }
      }
    }
  }

  lemma {:induction false} WorkflowsRunCompletes(digest: string -> string, slug: string, pipelineId: string, ws: seq<Workflow>, st: State)
    ensures WorkflowsDone(WorkflowsRun(digest, slug, pipelineId, ws, st).progress, slug, pipelineId, ws)
  {
    if ws != [] {
      var init, last := ws[..|ws| - 1], ws[|ws| - 1];
      WorkflowsRunCompletes(digest, slug, pipelineId, init, st);
      var mid := WorkflowsRun(digest, slug, pipelineId, init, st);
      var entry := State(mid.trace + [ListJobs(last.id)], mid.progress);
      var fin := JobsRun(digest, slug, pipelineId, last.id, last.jobs, entry);
      JobsRunGrows(digest, slug, pipelineId, last.id, last.jobs, entry);
      JobsRunCompletes(digest, slug, pipelineId, last.id, last.jobs, entry);
      forall i | 0 <= i < |ws|
        ensures JobsDone(fin.progress, ArtifactsKey(slug, pipelineId, ws[i].id), ws[i].jobs)
      {
        if i < |init| {
          assert ws[i] == init[i];
          var key := ArtifactsKey(slug, pipelineId, ws[i].id);
          assert Lookup(mid.progress, key) <= Lookup(fin.progress, key);
        }
      }
    }
  }

  lemma {:induction false} PipelinesRunCompletes(digest: string -> string, slug: string, ps: seq<Pipeline>, st: State)
    ensures PipelinesDone(PipelinesRun(digest, slug, ps, st).progress, slug, ps)
    ensures Grows(st.progress, PipelinesRun(digest, slug, ps, st).progress)
  {
    if ps != [] {
      var init, last := ps[..|ps| - 1], ps[|ps| - 1];
      PipelinesRunCompletes(digest, slug, init, st);
      var mid := PipelinesRun(digest, slug, init, st);
      var entry := State(mid.trace + [ListWorkflows(last.id)], mid.progress);
      var fin := WorkflowsRun(digest, slug, last.id, last.workflows, entry);
      WorkflowsRunGrows(digest, slug, last.id, last.workflows, entry);
      WorkflowsRunCompletes(digest, slug, last.id, last.workflows, entry);
      forall i | 0 <= i < |ps|
        ensures WorkflowsDone(fin.progress, slug, ps[i].id, ps[i].workflows)
      {
        if i < |init| {
          assert ps[i] == init[i];
          forall j | 0 <= j < |init[i].workflows|
            ensures JobsDone(fin.progress, ArtifactsKey(slug, init[i].id, init[i].workflows[j].id), init[i].workflows[j].jobs)
          {
            var key := ArtifactsKey(slug, init[i].id, init[i].workflows[j].id);
            assert Lookup(mid.progress, key) <= Lookup(fin.progress, key);
          }
        }
      }
    }
  }

  /** The listing requests a walk makes when every job is already completed. */
  function JobListings(ws: seq<Workflow>): seq<Event> {
    if ws == [] then [] else JobListings(ws[..|ws| - 1]) + [ListJobs(ws[|ws| - 1].id)]
  }

  function Listings(ps: seq<Pipeline>): seq<Event> {
    if ps == [] then []
    else Listings(ps[..|ps| - 1]) + [ListWorkflows(ps[|ps| - 1].id)] + JobListings(ps[|ps| - 1].workflows)
  }

  lemma {:induction false} CompletedJobsDoNothing(digest: string -> string, slug: string, pipelineId: string, workflowId: string, jobs: seq<Job>, st: State)
    requires JobsDone(st.progress, ArtifactsKey(slug, pipelineId, workflowId), jobs)
    ensures JobsRun(digest, slug, pipelineId, workflowId, jobs, st) == st
  {
    if jobs != [] {
      var init := jobs[..|jobs| - 1];
      assert forall i :: 0 <= i < |init| ==> init[i] == jobs[i];
      CompletedJobsDoNothing(digest, slug, pipelineId, workflowId, init, st);
    }
  }

  lemma {:induction false} CompletedWorkflowsOnlyList(digest: string -> string, slug: string, pipelineId: string, ws: seq<Workflow>, st: State)
    requires WorkflowsDone(st.progress, slug, pipelineId, ws)
    ensures WorkflowsRun(digest, slug, pipelineId, ws, st) == State(st.trace + JobListings(ws), st.progress)
  {
    if ws != [] {
      var init, last := ws[..|ws| - 1], ws[|ws| - 1];
      assert WorkflowsDone(st.progress, slug, pipelineId, init) by {
        forall i | 0 <= i < |init|
          ensures JobsDone(st.progress, ArtifactsKey(slug, pipelineId, init[i].id), init[i].jobs)
        {
          assert init[i] == ws[i];
        }
      }
      assert JobsDone(st.progress, ArtifactsKey(slug, pipelineId, last.id), last.jobs);
      CompletedWorkflowsOnlyList(digest, slug, pipelineId, init, st);
      var mid := WorkflowsRun(digest, slug, pipelineId, init, st);
      CompletedJobsDoNothing(digest, slug, pipelineId, last.id, last.jobs, State(mid.trace + [ListJobs(last.id)], mid.progress));
      assert st.trace + JobListings(init) + [ListJobs(last.id)] == st.trace + JobListings(ws);
    }
  }

  lemma {:induction false} CompletedPipelinesOnlyList(digest: string -> string, slug: string, ps: seq<Pipeline>, st: State)
    requires PipelinesDone(st.progress, slug, ps)
    ensures PipelinesRun(digest, slug, ps, st) == State(st.trace + Listings(ps), st.progress)
  {
    if ps != [] {
      var init, last := ps[..|ps| - 1], ps[|ps| - 1];
      assert PipelinesDone(st.progress, slug, init) by {
        forall i | 0 <= i < |init|
          ensures WorkflowsDone(st.progress, slug, init[i].id, init[i].workflows)
        {
          assert init[i] == ps[i];
        }
      }
      assert WorkflowsDone(st.progress, slug, last.id, last.workflows);
      CompletedPipelinesOnlyList(digest, slug, init, st);
      var mid := PipelinesRun(digest, slug, init, st);
      CompletedWorkflowsOnlyList(digest, slug, last.id, last.workflows, State(mid.trace + [ListWorkflows(last.id)], mid.progress));
      assert st.trace + Listings(init) + [ListWorkflows(last.id)] + JobListings(last.workflows) == st.trace + Listings(ps);
    }
  }

  /**
   * Running the project again over the same responses, from the progress the
   * first run left, only re-lists workflows and jobs: no artifact request, no
   * save and no progress write, and the progress stays as it was.
   */
  lemma RerunOnlyLists(digest: string -> string, slug: string, resp: PipelinesResponse, p0: Progress)
    ensures var first := ProjectRun(digest, slug, resp, p0);
      var second := ProjectRun(digest, slug, resp, first.progress);
      && second.progress == first.progress
      && second.trace == (if resp.ok then Listings(resp.items) else [])
  {
    if resp.ok {
      var first := ProjectRun(digest, slug, resp, p0);
      PipelinesRunCompletes(digest, slug, resp.items, State([], p0));
      CompletedPipelinesOnlyList(digest, slug, resp.items, State([], first.progress));
    }
  }

  /**
   * With progress `{"org/repo-p1-w1": 5}`, job 5 of workflow w1 in pipeline
   * p1 is skipped with no artifacts request, and job 6 is processed and
   * becomes the new watermark.
   */
  lemma ResumeExample(digest: string -> string)
    ensures var key := ArtifactsKey("org/repo", "p1", "w1");
      var resp := PipelinesResponse(true, [Pipeline("p1", [Workflow("w1", [Job(Some(5), [Artifact("a.txt", "u")]), Job(Some(6), [])])])]);
      && key == "org/repo-p1-w1"
      && ProjectRun(digest, "org/repo", resp, map[key := 5]) ==
         State([ListWorkflows("p1"), ListJobs("w1"), ListArtifacts(6), WriteProgress(key, 6)], map[key := 6])
  {
    var key := ArtifactsKey("org/repo", "p1", "w1");
    var jobs := [Job(Some(5), [Artifact("a.txt", "u")]), Job(Some(6), [])];
    var w := Workflow("w1", jobs);
    var p := Pipeline("p1", [w]);
    var st0 := State([ListWorkflows("p1"), ListJobs("w1")], map[key := 5]);
    assert jobs[..1][..0] == [];
    assert JobsRun(digest, "org/repo", "p1", "w1", jobs[..1], st0) == st0;
    var fin := State(st0.trace + ProcessedJob(digest, "org/repo", key, 6, []), map[key := 5][key := 6]);
    assert JobsRun(digest, "org/repo", "p1", "w1", jobs, st0) == fin;
    assert [w][..0] == [] && [p][..0] == [];
    assert [ListWorkflows("p1")] + [ListJobs("w1")] == st0.trace;
    assert [] + [ListWorkflows("p1")] == [ListWorkflows("p1")];
    assert WorkflowsRun(digest, "org/repo", "p1", [w], State([ListWorkflows("p1")], map[key := 5])) == fin;
    assert PipelinesRun(digest, "org/repo", [p], State([], map[key := 5])) == fin;
    assert map[key := 5][key := 6] == map[key := 6];
  }
}
