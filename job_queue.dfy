/** The job lifecycle and queue bookkeeping of job_queue.py: the `Job`
    record and its output path, and `JobQueue` with its job store, FIFO
    queue, statistics and the step one worker takes per dequeued job. */
module Jobs {
  import opened Wrappers
  import opened Paths
  import Text

  datatype JobStatus = Pending | Processing | Completed | Failed | Cancelled

  /** A clock reading (`datetime.now()`), supplied by the caller. */
  type Timestamp = nat

  /** The dictionary a handler returns: `success`, and `error` when it failed. */
  datatype Reply = Reply(success: bool, error: Option<string>, processingTime: Option<real>)

  datatype Job = Job(
    id: string,
    inputFile: string,
    operation: string,
    parameters: map<string, string>,
    outputFile: string,
    status: JobStatus,
    progress: real,
    createdAt: Timestamp,
    startedAt: Option<Timestamp>,
    completedAt: Option<Timestamp>,
    error: Option<string>,
    result: Option<Reply>)

  /** What the other fields of a job say about its status: a job that has not
      run has progress 0 and no times, error or result; only a completed job
      has a result (and progress 100); only a failed job has an error. */
  predicate Consistent(j: Job) {
    match j.status
    case Pending =>
      j.progress == 0.0 && j.startedAt.None? && j.completedAt.None? && j.error.None? && j.result.None?
    case Cancelled =>
      j.progress == 0.0 && j.startedAt.None? && j.completedAt.None? && j.error.None? && j.result.None?
    case Processing =>
      j.startedAt.Some? && j.completedAt.None? && j.error.None? && j.result.None?
    case Completed =>
      j.progress == 100.0 && j.startedAt.Some? && j.completedAt.Some? && j.error.None? && j.result.Some?
    case Failed =>
      j.startedAt.Some? && j.completedAt.Some? && j.error.Some? && j.result.None?
  }

  predicate IsTerminal(s: JobStatus) {
    s == Completed || s == Failed || s == Cancelled
  }

  // ---------------------------------------------------------------------
  // Job construction and its output path
  // ---------------------------------------------------------------------

  /** The extension `_generate_output_path` gives a thumbnail: the
      lower-cased `image_format` looked up in its table, `webp` by default. */
  function ThumbnailFormatExt(imageFormat: string): (ext: string)
    ensures ext == "webp" || ext == "jpg" || ext == "png"
    ensures ext == "jpg" <==> Text.Lower(imageFormat) == "jpg" || Text.Lower(imageFormat) == "jpeg"
    ensures ext == "png" <==> Text.Lower(imageFormat) == "png"
  {
    var key := Text.Lower(imageFormat);
    if key == "webp" then "webp"
    else if key == "jpg" || key == "jpeg" then "jpg"
    else if key == "png" then "png"
    else "webp"
  }

  /** The extension part of a generated output path, dot included. */
  function OutputExtension(inputFile: string, operation: string, parameters: map<string, string>): (ext: string)
    ensures operation == "generate_thumbnail" ==> ext == ".webp" || ext == ".jpg" || ext == ".png"
    ensures operation == "generate_thumbnail" ==>
              var key := Text.Lower(Get(parameters, "image_format").GetOr("webp"));
              && (ext == ".jpg" <==> key == "jpg" || key == "jpeg")
              && (ext == ".png" <==> key == "png")
    ensures operation == "generate_thumbnail" && "image_format" !in parameters ==> ext == ".webp"
    ensures operation == "create_gif" ==> ext == ".gif"
    ensures operation == "extract_audio" ==> ext == "." + Get(parameters, "audio_format").GetOr("mp3")
    ensures operation != "generate_thumbnail" && operation != "create_gif" && operation != "extract_audio" ==>
              ext == Suffix(inputFile)
  {
    assert Text.Lower("webp") == "webp";
    if operation == "generate_thumbnail" then
      var e := ThumbnailFormatExt(Get(parameters, "image_format").GetOr("webp"));
      assert ("." + e)[1..] == e;
      "." + e
    else if operation == "create_gif" then ".gif"
    else if operation == "extract_audio" then "." + Get(parameters, "audio_format").GetOr("mp3")
    else Suffix(inputFile)
  }

  function Get(m: map<string, string>, key: string): Option<string> {
    if key in m then Some(m[key]) else None
  }

  /** `Job._generate_output_path`, with `stamp` the formatted creation time
      (`%Y%m%d_%H%M%S`). */
  function GenerateOutputPath(inputFile: string, operation: string, parameters: map<string, string>,
                              stamp: string): (out: string)
    ensures Dir(inputFile) <= out
    ensures var ext := OutputExtension(inputFile, operation, parameters);
            |ext| <= |out| && out[|out| - |ext|..] == ext
  {
    var d, stem := Dir(inputFile), OutputStem(inputFile, operation, stamp);
    var ext := OutputExtension(inputFile, operation, parameters);
    JoinParts(d, stem + ext);
    JoinParts(d + stem, ext);
    d + (stem + ext)
  }

  function OutputStem(inputFile: string, operation: string, stamp: string): string {
    Stem(inputFile) + "_" + operation + "_" + stamp
  }

  lemma OutputStemNoSlash(inputFile: string, operation: string, stamp: string)
    requires NoChar(operation, '/') && NoChar(stamp, '/')
    ensures NoChar(OutputStem(inputFile, operation, stamp), '/')
  {
    StemNoSlash(inputFile);
    NoCharConcat(Stem(inputFile), "_", '/');
    NoCharConcat(Stem(inputFile) + "_", operation, '/');
    NoCharConcat(Stem(inputFile) + "_" + operation, "_", '/');
    NoCharConcat(Stem(inputFile) + "_" + operation + "_", stamp, '/');
  }

  lemma ImageExtensionsProper()
    ensures ProperExt(".webp") && ProperExt(".jpg") && ProperExt(".png") && ProperExt(".gif")
  {
  }

  /** The generated path lies in the input's directory and its name is
      `<stem>_<operation>_<stamp>` followed by the extension, as long as the
      operation, the stamp and the extension hold no `/`. For the thumbnail
      and GIF operations the path's suffix is exactly the chosen extension. */
  lemma GeneratedPathShape(inputFile: string, operation: string, parameters: map<string, string>,
                           stamp: string)
    requires NoChar(operation, '/') && NoChar(stamp, '/')
    requires NoChar(OutputExtension(inputFile, operation, parameters), '/')
    ensures var out := GenerateOutputPath(inputFile, operation, parameters, stamp);
            && Dir(out) == Dir(inputFile)
            && Name(out) == OutputStem(inputFile, operation, stamp) + OutputExtension(inputFile, operation, parameters)
    ensures operation == "generate_thumbnail" || operation == "create_gif" ==>
              Suffix(GenerateOutputPath(inputFile, operation, parameters, stamp))
                == OutputExtension(inputFile, operation, parameters)
  {
    var stem := OutputStem(inputFile, operation, stamp);
    var ext := OutputExtension(inputFile, operation, parameters);
    var d := Dir(inputFile);
    OutputStemNoSlash(inputFile, operation, stamp);
    NoCharConcat(stem, ext, '/');
    JoinSplits(d, stem + ext);
    if operation == "generate_thumbnail" || operation == "create_gif" {
      ImageExtensionsProper();
      StemAndSuffixOf(d, stem, ext);
    }
  }

  /** A job as `Job.__init__` builds it. `id` is the fresh identifier, `now`
      the creation time and `stamp` its formatted form; an absent or empty
      `outputFile` is replaced by the generated path. */
  function NewJob(id: string, inputFile: string, operation: string, parameters: map<string, string>,
                  outputFile: Option<string>, now: Timestamp, stamp: string): (j: Job)
    ensures j.status == Pending && Consistent(j)
    ensures j.id == id && j.inputFile == inputFile && j.operation == operation
    ensures j.parameters == parameters && j.createdAt == now
    ensures outputFile.Some? && outputFile.value != "" ==> j.outputFile == outputFile.value
    ensures outputFile.None? || outputFile.value == "" ==>
              j.outputFile == GenerateOutputPath(inputFile, operation, parameters, stamp)
  {
    var out := if outputFile.Some? && outputFile.value != "" then outputFile.value
               else GenerateOutputPath(inputFile, operation, parameters, stamp);
    Job(id, inputFile, operation, parameters, out, Pending, 0.0, now, None, None, None, None)
  }

  // ---------------------------------------------------------------------
  // Running one job: the handler as an input
  // ---------------------------------------------------------------------

  /** How a handler call ends: it returns its reply dictionary, or it raises
      an exception whose text is `message`. */
  datatype HandlerEnd = Returned(reply: Reply) | Raised(message: string)

  /** One handler call: the percentages it passed to the progress callback,
      in order, and how it ended. */
  datatype HandlerRun = HandlerRun(reports: seq<real>, ending: HandlerEnd)

  /** What a worker meets when it takes a job: the handler's behaviour and
      the clock readings for `started_at` and `completed_at`. */
  datatype Attempt = Attempt(run: HandlerRun, startedAt: Timestamp, finishedAt: Timestamp)

  function LastOr(s: seq<real>, default: real): real {
    if s == [] then default else s[|s| - 1]
  }

  function UnknownOperationError(operation: string): string {
    "Unknown operation: " + operation
  }

  /** The job record `_process_job` leaves behind, given the names the
      processor resolves (`operations`) and the attempt. */
  function Processed(job: Job, operations: set<string>, a: Attempt): (r: Job)
    ensures r.id == job.id && r.inputFile == job.inputFile && r.outputFile == job.outputFile
    ensures r.operation == job.operation && r.parameters == job.parameters && r.createdAt == job.createdAt
    ensures r.startedAt == Some(a.startedAt) && r.completedAt == Some(a.finishedAt)
    ensures r.status == Completed || r.status == Failed
    ensures r.status == Completed <==>
              job.operation in operations && a.run.ending.Returned? && a.run.ending.reply.success
    ensures r.status == Completed ==>
              r.progress == 100.0 && r.result == Some(a.run.ending.reply) && r.error == job.error
    ensures r.status == Failed ==> r.result == job.result
    ensures job.operation !in operations ==>
              r.error == Some(UnknownOperationError(job.operation)) && r.progress == job.progress
    ensures job.operation in operations && r.status == Failed ==>
              && r.progress == LastOr(a.run.reports, job.progress)
              && r.error == Some(match a.run.ending
                                 case Raised(m) => m
                                 case Returned(reply) => reply.error.GetOr("Unknown error"))
  {
    var running := job.(status := Processing, startedAt := Some(a.startedAt));
    var ended :=
      if job.operation !in operations then
        running.(status := Failed, error := Some(UnknownOperationError(job.operation)))
      else
        var reported := running.(progress := LastOr(a.run.reports, running.progress));
        match a.run.ending
        case Returned(reply) =>
          if reply.success then reported.(status := Completed, progress := 100.0, result := Some(reply))
          else reported.(status := Failed, error := Some(reply.error.GetOr("Unknown error")))
        case Raised(message) => reported.(status := Failed, error := Some(message));
    ended.(completedAt := Some(a.finishedAt))
  }

  /** Running a job that was waiting leaves a consistent, terminal record;
      its progress stays in [0, 100] when every reported value does. */
  lemma ProcessedConsistent(job: Job, operations: set<string>, a: Attempt)
    requires job.status == Pending && Consistent(job)
    ensures Consistent(Processed(job, operations, a)) && IsTerminal(Processed(job, operations, a).status)
    ensures (forall k :: 0 <= k < |a.run.reports| ==> 0.0 <= a.run.reports[k] <= 100.0) ==>
              0.0 <= Processed(job, operations, a).progress <= 100.0
  {
  }

  // ---------------------------------------------------------------------
  // Counting jobs by status
  // ---------------------------------------------------------------------

  ghost function IdsWith(m: map<string, Job>, s: JobStatus): set<string> {
    set id | id in m && m[id].status == s
  }

  /** The number of stored jobs with status `s`. */
  ghost function Count(m: map<string, Job>, s: JobStatus): nat {
    |IdsWith(m, s)|
  }

  /** Storing `j` under `id` moves one job between the counts of its old
      and its new status (or adds one to the new count for a new id). */
  lemma CountAfterPut(m: map<string, Job>, id: string, j: Job, s: JobStatus)
    ensures Count(m[id := j], s) ==
              Count(m, s) - (if id in m && m[id].status == s then 1 else 0) + (if j.status == s then 1 else 0)
  {
    var after, before := IdsWith(m[id := j], s), IdsWith(m, s);
    assert after - {id} == before - {id};
    CardWithout(after, id);
    CardWithout(before, id);
  }

  lemma CardWithout(a: set<string>, x: string)
    ensures |a| == |a - {x}| + (if x in a then 1 else 0)
  {
    if x in a {
      assert a == (a - {x}) + {x};
    } else {
      assert a == a - {x};
    }
  }

  lemma DisjointUnionCard(a: set<string>, b: set<string>)
    requires a !! b
    ensures |a + b| == |a| + |b|
  {
  }

  lemma SubsetCard(a: set<string>, b: set<string>)
    requires a <= b
    ensures |a| <= |b|
  {
    assert b == a + (b - a);
    DisjointUnionCard(a, b - a);
  }

  /** Every stored job has exactly one status, so the five counts add up to
      the number of jobs. */
  lemma StatusPartition(m: map<string, Job>)
    ensures |m.Keys| == Count(m, Pending) + Count(m, Processing) + Count(m, Completed)
                        + Count(m, Failed) + Count(m, Cancelled)
  {
    var p, r, c := IdsWith(m, Pending), IdsWith(m, Processing), IdsWith(m, Completed);
    var f, x := IdsWith(m, Failed), IdsWith(m, Cancelled);
    forall id | id in m.Keys ensures id in p + r + c + f + x {
      match m[id].status
      case Pending => assert id in p;
      case Processing => assert id in r;
      case Completed => assert id in c;
      case Failed => assert id in f;
      case Cancelled => assert id in x;
    }
    assert m.Keys == p + r + c + f + x;
    DisjointUnionCard(p, r);
    DisjointUnionCard(p + r, c);
    DisjointUnionCard(p + r + c, f);
    DisjointUnionCard(p + r + c + f, x);
  }

  predicate Distinct(s: seq<string>) {
    forall i, j :: 0 <= i < j < |s| ==> s[i] != s[j]
  }

  lemma {:induction false} DistinctCard(s: seq<string>)
    requires Distinct(s)
    ensures |set x | x in s| == |s|
  {
    if s != [] {
      var t := s[1..];
      DistinctCard(t);
      assert (set x | x in s) == (set x | x in t) + {s[0]};
      assert s[0] !in t;
    }
  }

  /** The jobs of `js` whose status is `s`, in their order. */
  function WithStatus(js: seq<Job>, s: JobStatus): (r: seq<Job>)
    ensures forall j :: j in r <==> j in js && j.status == s
    ensures |r| <= |js|
  {
    if js == [] then []
    else
      var init, last := js[..|js| - 1], js[|js| - 1];
      assert js == init + [last];
      WithStatus(init, s) + (if last.status == s then [last] else [])
  }

  /** The stored jobs in insertion order: what iterating `self.jobs.values()` yields. */
  function ListingOf(jobs: map<string, Job>, order: seq<string>): (r: seq<Job>)
    requires forall k :: 0 <= k < |order| ==> order[k] in jobs
    ensures |r| == |order| && forall k :: 0 <= k < |order| ==> r[k] == jobs[order[k]]
  {
    seq(|order|, k requires 0 <= k < |order| => jobs[order[k]])
  }

  /** The ids of `order` whose stored job has status `s`. */
  ghost function IdsListed(jobs: map<string, Job>, order: seq<string>, s: JobStatus): set<string> {
    set id | id in order && id in jobs && jobs[id].status == s
  }

  lemma IdsListedSnoc(jobs: map<string, Job>, order: seq<string>, last: string, s: JobStatus)
    requires last !in order && last in jobs
    ensures |IdsListed(jobs, order + [last], s)| ==
              |IdsListed(jobs, order, s)| + (if jobs[last].status == s then 1 else 0)
  {
    var before := IdsListed(jobs, order, s);
    if jobs[last].status == s {
      assert IdsListed(jobs, order + [last], s) == before + {last};
    } else {
      assert IdsListed(jobs, order + [last], s) == before;
    }
  }

  lemma WithStatusSnoc(js: seq<Job>, j: Job, s: JobStatus)
    ensures WithStatus(js + [j], s) == WithStatus(js, s) + (if j.status == s then [j] else [])
  {
    assert (js + [j])[..|js|] == js;
  }

  /** Filtering the listing of distinct stored ids keeps one entry per id
      with the status: as many as there are such ids. */
  lemma {:induction false} ListingWithStatusCount(jobs: map<string, Job>, order: seq<string>, s: JobStatus)
    requires Distinct(order) && forall k :: 0 <= k < |order| ==> order[k] in jobs
    ensures |WithStatus(ListingOf(jobs, order), s)| == |IdsListed(jobs, order, s)|
  {
    if order != [] {
      var init, last := order[..|order| - 1], order[|order| - 1];
      assert order == init + [last];
      assert Distinct(init);
      IdsListedSnoc(jobs, init, last, s);
      ListingWithStatusCount(jobs, init, s);
      var l' := ListingOf(jobs, init);
      assert ListingOf(jobs, order) == l' + [jobs[last]];
      WithStatusSnoc(l', jobs[last], s);
    }
  }

  /** The filter of `get_jobs_by_status`'s comprehension, as its loop. */
  method FilterByStatus(js: seq<Job>, status: JobStatus) returns (r: seq<Job>)
    ensures r == WithStatus(js, status)
  {
    r := [];
    for i := 0 to |js|
      invariant r == WithStatus(js[..i], status)
    {
      assert js[..i + 1] == js[..i] + [js[i]];
      if js[i].status == status {
        r := r + [js[i]];
      }
    }
    assert js[..|js|] == js;
  }

  /** Filtering the store's listing by status finds exactly the stored jobs
      with that status. */
  lemma ListedWithStatus(jobs: map<string, Job>, order: seq<string>, listed: seq<Job>, s: JobStatus)
    requires StoreOk(jobs, order)
    requires |listed| == |order| && forall k :: 0 <= k < |order| ==> listed[k] == jobs[order[k]]
    ensures forall j :: j in WithStatus(listed, s) ==> j.status == s && j.id in jobs && jobs[j.id] == j
    ensures forall id :: id in jobs && jobs[id].status == s ==> jobs[id] in WithStatus(listed, s)
  {
    forall j | j in listed ensures j.id in jobs && jobs[j.id] == j {
      var k :| 0 <= k < |listed| && listed[k] == j;
      assert order[k] in jobs;
    }
    forall id | id in jobs ensures jobs[id] in listed {
      var k :| 0 <= k < |order| && order[k] == id;
      assert listed[k] == jobs[id];
    }
  }

  predicate Waiting(s: JobStatus) {
    s == Pending || s == Cancelled
  }

  /** The job store: keyed by id, every key once in insertion order, every
      record consistent with its status. */
  ghost predicate StoreOk(jobs: map<string, Job>, order: seq<string>) {
    && Distinct(order)
    && (forall id :: id in jobs <==> id in order)
    && (forall id :: id in jobs ==> jobs[id].id == id && Consistent(jobs[id]))
  }

  /** The FIFO queue: each id once, every queued job stored and not yet run
      (pending, or cancelled while it waited), every pending job queued. */
  ghost predicate QueueOk(jobs: map<string, Job>, queue: seq<string>) {
    && Distinct(queue)
    && (forall id :: id in queue ==> id in jobs && Waiting(jobs[id].status))
    && (forall id :: id in jobs && jobs[id].status == Pending ==> id in queue)
  }

  /** With the store and queue invariants, the jobs that finished and the
      jobs still queued never outnumber the jobs stored. */
  lemma QueueAccount(jobs: map<string, Job>, order: seq<string>, queue: seq<string>)
    requires StoreOk(jobs, order) && QueueOk(jobs, queue)
    ensures |jobs.Keys| == |order|
    ensures Count(jobs, Completed) + Count(jobs, Failed) + |queue| <= |order|
  {
    DistinctCard(order);
    assert jobs.Keys == set x | x in order;
    DistinctCard(queue);
    var q := set x | x in queue;
    var waiting := IdsWith(jobs, Pending) + IdsWith(jobs, Cancelled);
    assert q <= waiting;
    SubsetCard(q, waiting);
    DisjointUnionCard(IdsWith(jobs, Pending), IdsWith(jobs, Cancelled));
    StatusPartition(jobs);
  }

  /** Once the queue is empty no job is pending; if moreover none failed
      or was cancelled (and none is processing), every stored job completed. */
  lemma Drained(jobs: map<string, Job>, order: seq<string>, queue: seq<string>)
    requires StoreOk(jobs, order) && QueueOk(jobs, queue) && queue == []
    ensures Count(jobs, Pending) == 0
    ensures Count(jobs, Processing) == 0 && Count(jobs, Failed) == 0 && Count(jobs, Cancelled) == 0 ==>
              Count(jobs, Completed) == |order|
  {
    assert IdsWith(jobs, Pending) == {};
    QueueAccount(jobs, order, queue);
    StatusPartition(jobs);
  }

  /** The five statistics of `get_stats`. */
  datatype Stats = Stats(totalJobs: int, completedJobs: int, failedJobs: int,
                         processingJobs: int, queueSize: nat)

  datatype WorkerEvent = Idle | Skipped(id: string) | Ran(id: string)

  /** `JobQueue`: the job store (`jobs`, with `order` the insertion order
      Python's dict keeps), the FIFO `queue` of job ids and the counters. */
  class JobQueue {
    const maxWorkers: int
    var jobs: map<string, Job>
    var order: seq<string>
    var queue: seq<string>
    var totalJobs: int
    var completedJobs: int
    var failedJobs: int
    var processingJobs: int

    /** The counters are what scanning the store would give: every job
        counted once in `totalJobs`, each completed or failed job once in
        its counter, and no job left processing between worker steps. */
    ghost predicate Valid()
      reads this
    {
      && StoreOk(jobs, order)
      && QueueOk(jobs, queue)
      && totalJobs == |order|
      && completedJobs == Count(jobs, Completed)
      && failedJobs == Count(jobs, Failed)
      && processingJobs == 0 && Count(jobs, Processing) == 0
    }

    constructor (maxWorkers: int)
      ensures Valid()
      ensures this.maxWorkers == maxWorkers
      ensures jobs == map[] && order == [] && queue == []
      ensures totalJobs == 0 && completedJobs == 0 && failedJobs == 0 && processingJobs == 0
    {
      this.maxWorkers := maxWorkers;
      jobs := map[];
      order := [];
      queue := [];
      totalJobs, completedJobs, failedJobs, processingJobs := 0, 0, 0, 0;
      assert IdsWith(map[], Completed) == {};
      assert IdsWith(map[], Failed) == {};
      assert IdsWith(map[], Processing) == {};
    }

    /** `add_job`: store the job, queue it at the back, count it. */
    method AddJob(job: Job) returns (id: string)
      requires Valid()
      requires job.status == Pending && Consistent(job)
      requires job.id !in jobs
      modifies this
      ensures Valid()
      ensures id == job.id
      ensures jobs == old(jobs)[job.id := job] && GetJob(id) == Some(job)
      ensures order == old(order) + [job.id]
      ensures queue == old(queue) + [job.id]
      ensures totalJobs == old(totalJobs) + 1
      ensures completedJobs == old(completedJobs) && failedJobs == old(failedJobs)
      ensures processingJobs == old(processingJobs)
    {
      CountAfterPut(jobs, job.id, job, Completed);
      CountAfterPut(jobs, job.id, job, Failed);
      CountAfterPut(jobs, job.id, job, Processing);
      jobs := jobs[job.id := job];
      order := order + [job.id];
      queue := queue + [job.id];
      totalJobs := totalJobs + 1;
      id := job.id;
    }

    /** `get_job`. */
    function GetJob(id: string): (r: Option<Job>)
      reads this
      ensures r.Some? <==> id in jobs
      ensures r.Some? ==> r.value == jobs[id]
    {
      if id in jobs then Some(jobs[id]) else None
    }

    /** `get_all_jobs`: every stored job, in the order they were added. */
    method GetAllJobs() returns (r: seq<Job>)
      requires Valid()
      ensures r == ListingOf(jobs, order)
      ensures |r| == |order|
      ensures forall i :: 0 <= i < |r| ==> r[i] == jobs[order[i]]
      ensures forall id :: id in jobs ==> jobs[id] in r
    {
      r := [];
      for i := 0 to |order|
        invariant |r| == i
        invariant forall k :: 0 <= k < i ==> r[k] == jobs[order[k]]
      {
        r := r + [jobs[order[i]]];
      }
      forall id | id in jobs ensures jobs[id] in r {
        var k :| 0 <= k < |order| && order[k] == id;
        assert r[k] == jobs[id];
      }
      assert r == ListingOf(jobs, order);
    }

    /** `get_jobs_by_status`: exactly the stored jobs whose status is
        `status`, each once, in the order they were added (the walk over
        the stored jobs that `get_all_jobs` makes, with a filter). */
    method GetJobsByStatus(status: JobStatus) returns (r: seq<Job>)
      requires Valid()
      ensures r == WithStatus(ListingOf(jobs, order), status)
      ensures forall j :: j in r ==> j.status == status && j.id in jobs && jobs[j.id] == j
      ensures forall id :: id in jobs && jobs[id].status == status ==> jobs[id] in r
      ensures |r| == Count(jobs, status)
    {
      var listed := GetAllJobs();
      r := FilterByStatus(listed, status);
      ListedWithStatus(jobs, order, listed, status);
      ListingWithStatusCount(jobs, order, status);
      assert IdsListed(jobs, order, status) == IdsWith(jobs, status);
    }

    /** `cancel_job`: succeeds only for a stored job that is still pending,
        which becomes cancelled; otherwise nothing changes. */
    method CancelJob(id: string) returns (ok: bool)
      requires Valid()
      modifies this
      ensures Valid()
      ensures ok <==> id in old(jobs) && old(jobs)[id].status == Pending
      ensures ok ==> jobs == old(jobs)[id := old(jobs)[id].(status := Cancelled)]
      ensures !ok ==> jobs == old(jobs)
      ensures order == old(order) && queue == old(queue)
      ensures totalJobs == old(totalJobs) && completedJobs == old(completedJobs)
      ensures failedJobs == old(failedJobs) && processingJobs == old(processingJobs)
    {
      if id in jobs && jobs[id].status == Pending {
        var cancelled := jobs[id].(status := Cancelled);
        CountAfterPut(jobs, id, cancelled, Completed);
        CountAfterPut(jobs, id, cancelled, Failed);
        CountAfterPut(jobs, id, cancelled, Processing);
        jobs := jobs[id := cancelled];
        return true;
      }
      return false;
    }

    /** `get_stats` (without `active_workers`). Between worker turns no job
        is processing, so `processingJobs` is 0 here; the bound says the
        counter never goes negative. */
    function GetStats(): (s: Stats)
      reads this
      requires Valid()
      ensures s.processingJobs >= 0
      ensures s.completedJobs + s.failedJobs + s.queueSize <= s.totalJobs
      ensures s.queueSize == |queue| && s.totalJobs == |jobs.Keys|
      ensures s.totalJobs == s.completedJobs + s.failedJobs + s.processingJobs
                             + Count(jobs, Pending) + Count(jobs, Cancelled)
    {
      QueueAccount(jobs, order, queue);
      StatusPartition(jobs);
      Stats(totalJobs, completedJobs, failedJobs, processingJobs, |queue|)
    }

    /** `_process_job` for the stored job `id`: mark it processing, resolve
        its operation, relay the handler's progress reports one by one, then
        record the outcome and restore `processing_jobs`. */
    method ProcessJob(id: string, operations: set<string>, a: Attempt)
      requires id in jobs
      modifies this
      ensures jobs == old(jobs)[id := Processed(old(jobs)[id], operations, a)]
      ensures completedJobs == old(completedJobs) + (if jobs[id].status == Completed then 1 else 0)
      ensures failedJobs == old(failedJobs) + (if jobs[id].status == Failed then 1 else 0)
      ensures processingJobs == old(processingJobs)
      ensures order == old(order) && queue == old(queue) && totalJobs == old(totalJobs)
    {
      var job := jobs[id];
      var running := job.(status := Processing, startedAt := Some(a.startedAt));
      jobs := jobs[id := running];
      processingJobs := processingJobs + 1;
      if job.operation !in operations {
        jobs := jobs[id := running.(status := Failed, error := Some(UnknownOperationError(job.operation)))];
        failedJobs := failedJobs + 1;
      } else {
        var reports := a.run.reports;
        for i := 0 to |reports|
          invariant jobs == old(jobs)[id := running.(progress := LastOr(reports[..i], running.progress))]
          invariant completedJobs == old(completedJobs) && failedJobs == old(failedJobs)
          invariant processingJobs == old(processingJobs) + 1
          invariant order == old(order) && queue == old(queue) && totalJobs == old(totalJobs)
        {
          jobs := jobs[id := jobs[id].(progress := reports[i])];
          assert reports[..i + 1][i] == reports[i];
        }
        assert reports[..|reports|] == reports;
        var reported := jobs[id];
        match a.run.ending {
          case Returned(reply) =>
            if reply.success {
              jobs := jobs[id := reported.(status := Completed, progress := 100.0, result := Some(reply))];
              completedJobs := completedJobs + 1;
            } else {
              jobs := jobs[id := reported.(status := Failed, error := Some(reply.error.GetOr("Unknown error")))];
              failedJobs := failedJobs + 1;
            }
          case Raised(message) =>
            jobs := jobs[id := reported.(status := Failed, error := Some(message))];
            failedJobs := failedJobs + 1;
        }
      }
      jobs := jobs[id := jobs[id].(completedAt := Some(a.finishedAt))];
      processingJobs := processingJobs - 1;
    }

    /** One turn of `_worker`'s loop: an empty queue is the dequeue timeout;
        a job cancelled while it waited is dropped from the queue untouched;
        any other job is run. */
    method WorkerStep(operations: set<string>, a: Attempt) returns (event: WorkerEvent)
      requires Valid()
      modifies this
      ensures Valid()
      ensures old(queue) == [] ==>
                event == Idle && jobs == old(jobs) && queue == old(queue)
                && completedJobs == old(completedJobs) && failedJobs == old(failedJobs)
      ensures old(queue) != [] ==> queue == old(queue)[1..]
      ensures old(queue) != [] && old(jobs)[old(queue)[0]].status == Cancelled ==>
                event == Skipped(old(queue)[0]) && jobs == old(jobs)
                && completedJobs == old(completedJobs) && failedJobs == old(failedJobs)
      ensures old(queue) != [] && old(jobs)[old(queue)[0]].status != Cancelled ==>
                && var id := old(queue)[0];
                && old(jobs)[id].status == Pending
                && event == Ran(id)
                && jobs == old(jobs)[id := Processed(old(jobs)[id], operations, a)]
                && completedJobs == old(completedJobs) + (if jobs[id].status == Completed then 1 else 0)
                && failedJobs == old(failedJobs) + (if jobs[id].status == Failed then 1 else 0)
      ensures order == old(order) && totalJobs == old(totalJobs) && processingJobs == old(processingJobs)
      ensures jobs.Keys == old(jobs).Keys
      ensures forall id :: id in old(jobs) && IsTerminal(old(jobs)[id].status) ==> jobs[id] == old(jobs)[id]
      ensures forall id :: id in jobs ==> jobs[id].operation == old(jobs)[id].operation
      ensures Count(jobs, Cancelled) == old(Count(jobs, Cancelled))
      ensures a.run.ending.Returned? && a.run.ending.reply.success
              && (forall id :: id in old(jobs) ==> old(jobs)[id].operation in operations)
              ==> failedJobs == old(failedJobs)
    {
      if queue == [] {
        return Idle;
      }
      var id := queue[0];
      assert id in queue;
      queue := queue[1..];
      assert id !in queue by {
        assert forall k :: 0 < k < |old(queue)| ==> old(queue)[k] != old(queue)[0];
      }
      if jobs[id].status == Cancelled {
        return Skipped(id);
      }
      ghost var before := jobs;
      ProcessJob(id, operations, a);
      ghost var after := jobs[id];
      ProcessedConsistent(before[id], operations, a);
      CountAfterPut(before, id, after, Completed);
      CountAfterPut(before, id, after, Failed);
      CountAfterPut(before, id, after, Processing);
      CountAfterPut(before, id, after, Cancelled);
      event := Ran(id);
    }

    /** `_worker` for as many turns as there are attempts: every turn
        dequeues (or times out on an empty queue). Once it has had at least
        as many turns as there were queued jobs, nothing is left pending;
        and if every handler succeeded on a resolvable operation and no job
        had failed or been cancelled, every job is completed. */
    method RunWorker(operations: set<string>, attempts: seq<Attempt>) returns (events: seq<WorkerEvent>)
      requires Valid()
      modifies this
      ensures Valid()
      ensures |events| == |attempts|
      ensures order == old(order) && totalJobs == old(totalJobs)
      ensures forall id :: id in old(jobs) && IsTerminal(old(jobs)[id].status) ==> jobs[id] == old(jobs)[id]
      ensures |attempts| >= |old(queue)| ==> queue == [] && Count(jobs, Pending) == 0
      ensures && |attempts| >= |old(queue)|
              && (forall id :: id in old(jobs) ==> old(jobs)[id].operation in operations)
              && (forall k :: 0 <= k < |attempts| ==>
                    attempts[k].run.ending.Returned? && attempts[k].run.ending.reply.success)
              && old(failedJobs) == 0 && old(Count(jobs, Cancelled)) == 0
              ==> completedJobs == totalJobs
    {
      events := [];
      ghost var allSucceed := forall k :: 0 <= k < |attempts| ==>
        attempts[k].run.ending.Returned? && attempts[k].run.ending.reply.success;
      ghost var allKnown := forall id :: id in jobs ==> jobs[id].operation in operations;
      for i := 0 to |attempts|
        invariant Valid()
        invariant |events| == i
        invariant order == old(order) && totalJobs == old(totalJobs)
        invariant forall id :: id in old(jobs) && IsTerminal(old(jobs)[id].status) ==> jobs[id] == old(jobs)[id]
        invariant |queue| == if i <= |old(queue)| then |old(queue)| - i else 0
        invariant allKnown ==> forall id :: id in jobs ==> jobs[id].operation in operations
        invariant Count(jobs, Cancelled) == old(Count(jobs, Cancelled))
        invariant allSucceed && allKnown ==> failedJobs == old(failedJobs)
      {
        var e := WorkerStep(operations, attempts[i]);
        events := events + [e];
      }
      if |attempts| >= |old(queue)| {
        Drained(jobs, order, queue);
      }
    }
  }
}
