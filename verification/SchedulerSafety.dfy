/**
 What every step of the concurrent calculation keeps, and what follows for every run: the channels never block
 for good, workers stay out of each other's slots, and a successful run leaves what a sequential one would.
 */
module SchedulerSafety {
  import opened Layout
  import opened Scheduler

  // ---- control: which chunks have been handed out

  ghost predicate ControlInv(job: Job, s: State)
    requires job.Valid()
  {
    var n := |s.workers|;
    && n <= job.ncols
    && s.from == job.ChunkFrom(n)
    && s.to == Min(job.ChunkFrom(n + 1), job.HSize())
    && (s.main.Launching? ==> n < job.ncols)
    && (s.main.Collecting? || s.main.Returned? ==> n == job.ncols)
    && forall c :: 0 <= c < n ==> s.workers[c].from == job.ChunkFrom(c) && s.workers[c].to == job.ChunkFrom(c + 1)
  }

  lemma MainKeepsControl(job: Job, s: State)
    requires job.Valid() && ControlInv(job, s)
    requires MainEnabled(job, s)
    ensures ControlInv(job, MainStep(job, s))
  {
    ChunkLimits(job, |s.workers|);
    ChunkLimits(job, |s.workers| + 1);
    assert job.ChunkSize() == job.nrows;
    var s' := MainStep(job, s);
    if s.main.Launching? {
      assert job.ChunkFrom(|s.workers| + 2) == job.ChunkFrom(|s.workers| + 1) + job.nrows;
      assert forall c :: 0 <= c < |s.workers| ==> s'.workers[c] == s.workers[c];
    }
  }

  /** A worker moves its own program counter and leaves everything of the main routine but the channels alone. */
  ghost predicate WorkerMoved(s: State, c: nat, s': State) {
    && s'.main == s.main && s'.from == s.from && s'.to == s.to && s'.collected == s.collected
    && c < |s.workers| == |s'.workers|
    && s'.workers == s.workers[c := s.workers[c].(pc := s'.workers[c].pc)]
  }

  lemma WorkerStepMoves(job: Job, s: State, c: nat, readFails: bool)
    requires job.Valid()
    requires WorkerEnabled(job, s, c)
    ensures WorkerMoved(s, c, WorkerStep(job, s, c, readFails))
  {
    match s.workers[c].pc
    case Fetching(k) =>
    case Combining(k) =>
    case Loading(i) =>
    case Writing(i, a, samples) =>
    case Reporting(failed) =>
    case Releasing(failed) =>
  }

  lemma WorkerKeepsControl(job: Job, s: State, c: nat, s': State)
    requires job.Valid() && ControlInv(job, s)
    requires WorkerMoved(s, c, s')
    ensures ControlInv(job, s')
  {
  }

  // ---- memory: what each worker has written, and that nobody else writes there

  ghost predicate DataDone(job: Job, data: seq<Slot>, lo: nat, hi: nat) {
    hi <= |data| && forall k :: lo <= k < hi ==> data[k] == Slot(job.fetch.SampleAt(k), job.fetch.Passes())
  }

  /** Filled from the first cube. */
  ghost predicate DataFirst(job: Job, data: seq<Slot>, lo: nat, hi: nat) {
    hi <= |data| && forall k :: lo <= k < hi ==> data[k] == Slot(job.fetch.first(k), 1)
  }

  ghost predicate Untouched(memory: seq<Slot>, lo: nat, hi: nat) {
    hi <= |memory| && forall k :: lo <= k < hi ==> memory[k].writes == 0
  }

  ghost predicate AtMost(memory: seq<Slot>, lo: nat, hi: nat, n: nat) {
    hi <= |memory| && forall k :: lo <= k < hi ==> memory[k].writes <= n
  }

  /** Of the cells [from, to), those before cell i are written, and the first a attributes of cell i. */
  ghost predicate OutDoneUpTo(job: Job, out: seq<Slot>, from: nat, to: nat, i: nat, a: nat)
    requires job.Valid()
    requires to <= job.HSize()
    requires |out| == job.Base(job.nattrs)
  {
    forall b: nat, j: nat :: b < job.nattrs && from <= j < to ==>
      if j < i || (j == i && b < a) then PlaceDone(job, out, b, j) else PlaceFree(job, out, b, j)
  }

  /** A place written once, with its expected value. */
  ghost predicate PlaceDone(job: Job, out: seq<Slot>, b: nat, j: nat)
    requires job.Valid()
    requires b < job.nattrs && j < job.HSize()
    requires |out| == job.Base(job.nattrs)
  {
    PlaceInBuffer(job, b, j);
    out[job.Place(b, j)] == Slot(job.Expected(b, j), 1)
  }

  ghost predicate PlaceFree(job: Job, out: seq<Slot>, b: nat, j: nat)
    requires b < job.nattrs && j < job.HSize()
    requires |out| == job.Base(job.nattrs)
  {
    PlaceInBuffer(job, b, j);
    out[job.Place(b, j)].writes == 0
  }

  ghost predicate OutAtMostOnce(job: Job, out: seq<Slot>, from: nat, to: nat)
    requires job.Valid()
    requires to <= job.HSize()
    requires |out| == job.Base(job.nattrs)
  {
    forall b: nat, j: nat :: b < job.nattrs && from <= j < to ==>
      PlaceDone(job, out, b, j) || PlaceFree(job, out, b, j)
  }

  /** The cells [from, to) could all be resampled. */
  ghost predicate CellsOk(job: Job, from: nat, to: nat) {
    forall i: nat :: from <= i < to ==> job.cellOk(i)
  }

  /** The slots of a worker's chunk hold what its progress implies. */
  ghost predicate WorkerOk(job: Job, w: Worker, data: seq<Slot>, out: seq<Slot>)
    requires job.Valid()
    requires w.from < w.to <= job.HSize()
    requires |data| == job.DataSize() && |out| == job.Base(job.nattrs)
  {
    var lo, hi := job.offsets[w.from], job.offsets[w.to];
    match w.pc
    case Fetching(k) =>
      && lo + k <= hi
      && DataFirst(job, data, lo, lo + k) && Untouched(data, lo + k, hi)
      && OutDoneUpTo(job, out, w.from, w.to, w.from, 0)
    case Combining(k) =>
      && lo + k <= hi && job.fetch.Double?
      && DataDone(job, data, lo, lo + k) && DataFirst(job, data, lo + k, hi)
      && OutDoneUpTo(job, out, w.from, w.to, w.from, 0)
    case Loading(i) =>
      && w.from <= i <= w.to
      && DataDone(job, data, lo, hi)
      && OutDoneUpTo(job, out, w.from, w.to, i, 0)
      && CellsOk(job, w.from, i)
    case Writing(i, a, samples) =>
      && w.from <= i < w.to && a <= job.nattrs && samples == job.Samples(i)
      && DataDone(job, data, lo, hi)
      && OutDoneUpTo(job, out, w.from, w.to, i, a)
      && CellsOk(job, w.from, i + 1)
    case _ =>
      if w.Failed() then AtMost(data, lo, hi, job.fetch.Passes()) && OutAtMostOnce(job, out, w.from, w.to)
      else DataDone(job, data, lo, hi) && OutDoneUpTo(job, out, w.from, w.to, w.to, 0) && CellsOk(job, w.from, w.to)
  }

  /** The slots of the chunk [from, to) are the same in both memories. */
  ghost predicate SameIn(job: Job, from: nat, to: nat, data: seq<Slot>, out: seq<Slot>, data': seq<Slot>, out': seq<Slot>)
    requires job.Valid()
    requires from <= to <= job.HSize()
    requires |data| == |data'| == job.DataSize() && |out| == |out'| == job.Base(job.nattrs)
  {
    && (forall k :: job.offsets[from] <= k < job.offsets[to] ==> data'[k] == data[k])
    && (forall b: nat, j: nat :: b < job.nattrs && from <= j < to ==> SamePlace(job, b, j, out, out'))
  }

  ghost predicate SamePlace(job: Job, b: nat, j: nat, out: seq<Slot>, out': seq<Slot>)
    requires b < job.nattrs && j < job.HSize()
    requires |out| == |out'| == job.Base(job.nattrs)
  {
    PlaceInBuffer(job, b, j);
    out'[job.Place(b, j)] == out[job.Place(b, j)]
  }

  /** A worker does not notice changes outside its own chunk. */
  lemma WorkerFrame(job: Job, w: Worker, data: seq<Slot>, out: seq<Slot>, data': seq<Slot>, out': seq<Slot>)
    requires job.Valid()
    requires w.from < w.to <= job.HSize()
    requires |data| == |data'| == job.DataSize() && |out| == |out'| == job.Base(job.nattrs)
    requires WorkerOk(job, w, data, out)
    requires SameIn(job, w.from, w.to, data, out, data', out')
    ensures WorkerOk(job, w, data', out')
  {
    forall b: nat, j: nat | b < job.nattrs && w.from <= j < w.to
      ensures PlaceDone(job, out', b, j) <==> PlaceDone(job, out, b, j)
      ensures PlaceFree(job, out', b, j) <==> PlaceFree(job, out, b, j)
    {
      assert SamePlace(job, b, j, out, out');
    }
  }

  ghost predicate MemoryInv(job: Job, s: State)
    requires job.Valid() && ControlInv(job, s)
  {
    && |s.data| == job.DataSize() && |s.out| == job.Base(job.nattrs)
    && (forall c :: 0 <= c < |s.workers| ==>
          s.workers[c].from < s.workers[c].to <= job.HSize() && WorkerOk(job, s.workers[c], s.data, s.out))
    && s.from <= job.HSize()
    && Untouched(s.data, job.offsets[s.from], |s.data|)
    && OutDoneUpTo(job, s.out, s.from, job.HSize(), s.from, 0)
  }

  lemma MainKeepsMemory(job: Job, s: State)
    requires job.Valid() && ControlInv(job, s) && MemoryInv(job, s)
    requires MainEnabled(job, s)
    ensures ControlInv(job, MainStep(job, s)) && MemoryInv(job, MainStep(job, s))
  {
    MainKeepsControl(job, s);
    var s' := MainStep(job, s);
    ChunkLimits(job, |s.workers|);
    if s.main.Launching? {
      var w := s'.workers[|s.workers|];
      assert w.from < w.to <= job.HSize();
      assert job.offsets[w.from] <= job.offsets[w.to] <= |s.data|;
      assert WorkerOk(job, w, s.data, s.out);
      assert forall c :: 0 <= c < |s.workers| ==> s'.workers[c] == s.workers[c];
      assert s'.from == w.to;
    }
  }

  /** A step of worker c leaves every slot outside its chunk alone. */
  ghost predicate OnlyOwnSlots(job: Job, w: Worker, s: State, s': State)
    requires job.Valid()
    requires w.from < w.to <= job.HSize()
  {
    && |s.data| == |s'.data| == job.DataSize() && |s.out| == |s'.out| == job.Base(job.nattrs)
    && (forall k :: 0 <= k < |s.data| && !(job.offsets[w.from] <= k < job.offsets[w.to]) ==> s'.data[k] == s.data[k])
    && (forall b: nat, j: nat :: b < job.nattrs && j < job.HSize() && !(w.from <= j < w.to) ==>
          SamePlace(job, b, j, s.out, s'.out))
  }

  ghost predicate StepOk(job: Job, s: State, c: nat, s': State)
    requires job.Valid()
    requires c < |s.workers|
    requires s.workers[c].from < s.workers[c].to <= job.HSize()
  {
    var w := s.workers[c];
    && OnlyOwnSlots(job, w, s, s')
    && WorkerMoved(s, c, s')
    && WorkerOk(job, s'.workers[c], s'.data, s'.out)
  }

  lemma FetchStepOk(job: Job, s: State, c: nat, readFails: bool)
    requires job.Valid()
    requires WorkerEnabled(job, s, c)
    requires s.workers[c].from < s.workers[c].to <= job.HSize()
    requires |s.data| == job.DataSize() && |s.out| == job.Base(job.nattrs)
    requires WorkerOk(job, s.workers[c], s.data, s.out)
    requires s.workers[c].pc.Fetching?
    ensures StepOk(job, s, c, WorkerStep(job, s, c, readFails))
  {
  }

  lemma CombineStepOk(job: Job, s: State, c: nat, readFails: bool)
    requires job.Valid()
    requires WorkerEnabled(job, s, c)
    requires s.workers[c].from < s.workers[c].to <= job.HSize()
    requires |s.data| == job.DataSize() && |s.out| == job.Base(job.nattrs)
    requires WorkerOk(job, s.workers[c], s.data, s.out)
    requires s.workers[c].pc.Combining?
    ensures StepOk(job, s, c, WorkerStep(job, s, c, readFails))
  {
  }

  lemma LoadStepOk(job: Job, s: State, c: nat, readFails: bool)
    requires job.Valid()
    requires WorkerEnabled(job, s, c)
    requires s.workers[c].from < s.workers[c].to <= job.HSize()
    requires |s.data| == job.DataSize() && |s.out| == job.Base(job.nattrs)
    requires WorkerOk(job, s.workers[c], s.data, s.out)
    requires s.workers[c].pc.Loading?
    ensures StepOk(job, s, c, WorkerStep(job, s, c, readFails))
  {
    var w := s.workers[c];
    var i := w.pc.i;
    if i < w.to {
      if job.cellOk(i) {
        LoadedSamples(job, w, s.data, i);
      } else {
        GiveUpOk(job, w, s.data, s.out);
      }
    }
  }

  lemma LoadedSamples(job: Job, w: Worker, data: seq<Slot>, i: nat)
    requires job.Valid() && w.from <= i < w.to <= job.HSize()
    requires |data| == job.DataSize() && DataDone(job, data, job.offsets[w.from], job.offsets[w.to])
    ensures job.offsets[w.from] <= job.offsets[i] <= job.offsets[i + 1] <= job.offsets[w.to] <= |data|
    ensures Values(data[job.offsets[i]..job.offsets[i + 1]]) == job.Samples(i)
  {
  }

  /** A worker may give up at any cell. */
  lemma GiveUpOk(job: Job, w: Worker, data: seq<Slot>, out: seq<Slot>)
    requires job.Valid()
    requires w.from < w.to <= job.HSize()
    requires |data| == job.DataSize() && |out| == job.Base(job.nattrs)
    requires WorkerOk(job, w, data, out) && w.pc.Loading?
    ensures WorkerOk(job, w.(pc := Reporting(true)), data, out)
  {
  }

  lemma WriteStepOk(job: Job, s: State, c: nat, readFails: bool)
    requires job.Valid()
    requires WorkerEnabled(job, s, c)
    requires s.workers[c].from < s.workers[c].to <= job.HSize()
    requires |s.data| == job.DataSize() && |s.out| == job.Base(job.nattrs)
    requires WorkerOk(job, s.workers[c], s.data, s.out)
    requires s.workers[c].pc.Writing?
    ensures StepOk(job, s, c, WorkerStep(job, s, c, readFails))
  {
    var w := s.workers[c];
    var i, a := w.pc.i, w.pc.a;
    var s' := WorkerStep(job, s, c, readFails);
    if a < job.nattrs {
      PlaceInBuffer(job, a, i);
      forall b: nat, j: nat | b < job.nattrs && j < job.HSize() && (b != a || j != i)
        ensures SamePlace(job, b, j, s.out, s'.out)
      {
        PlaceInBuffer(job, b, j);
        if job.Place(b, j) == job.Place(a, i) {
          PlacesDiffer(job, b, j, a, i);
        }
      }
      forall b: nat, j: nat | b < job.nattrs && w.from <= j < w.to && (b != a || j != i)
        ensures PlaceDone(job, s'.out, b, j) <==> PlaceDone(job, s.out, b, j)
        ensures PlaceFree(job, s'.out, b, j) <==> PlaceFree(job, s.out, b, j)
      {
        assert SamePlace(job, b, j, s.out, s'.out);
      }
      assert PlaceFree(job, s.out, a, i);
      assert PlaceDone(job, s'.out, a, i);
    }
  }

  lemma WorkerStepOk(job: Job, s: State, c: nat, readFails: bool)
    requires job.Valid()
    requires WorkerEnabled(job, s, c)
    requires s.workers[c].from < s.workers[c].to <= job.HSize()
    requires |s.data| == job.DataSize() && |s.out| == job.Base(job.nattrs)
    requires WorkerOk(job, s.workers[c], s.data, s.out)
    ensures StepOk(job, s, c, WorkerStep(job, s, c, readFails))
  {
    match s.workers[c].pc
    case Fetching(_) => FetchStepOk(job, s, c, readFails);
    case Combining(_) => CombineStepOk(job, s, c, readFails);
    case Loading(_) => LoadStepOk(job, s, c, readFails);
    case Writing(_, _, _) => WriteStepOk(job, s, c, readFails);
    case _ =>
  }

  lemma WorkerKeepsMemory(job: Job, s: State, c: nat, readFails: bool)
    requires job.Valid() && ControlInv(job, s) && MemoryInv(job, s)
    requires WorkerEnabled(job, s, c)
    ensures ControlInv(job, WorkerStep(job, s, c, readFails)) && MemoryInv(job, WorkerStep(job, s, c, readFails))
  {
    var s' := WorkerStep(job, s, c, readFails);
    WorkerStepOk(job, s, c, readFails);
    WorkerKeepsControl(job, s, c, s');
    forall d | 0 <= d < |s.workers| && d != c
      ensures WorkerOk(job, s'.workers[d], s'.data, s'.out)
    {
      OthersStayOk(job, s, c, d, s');
    }
    RestStaysUntouched(job, s, c, s');
  }

  /** What one worker does is no concern of another. */
  lemma OthersStayOk(job: Job, s: State, c: nat, d: nat, s': State)
    requires job.Valid() && ControlInv(job, s) && MemoryInv(job, s)
    requires c < |s.workers| && d < |s.workers| && d != c && StepOk(job, s, c, s')
    ensures s'.workers[d] == s.workers[d] && WorkerOk(job, s.workers[d], s'.data, s'.out)
  {
    ChunksApart(job, s, c, d);
    WorkerFrame(job, s.workers[d], s.data, s.out, s'.data, s'.out);
  }

  lemma RestStaysUntouched(job: Job, s: State, c: nat, s': State)
    requires job.Valid() && ControlInv(job, s) && MemoryInv(job, s)
    requires c < |s.workers| && StepOk(job, s, c, s')
    ensures Untouched(s'.data, job.offsets[s.from], |s'.data|)
    ensures OutDoneUpTo(job, s'.out, s.from, job.HSize(), s.from, 0)
  {
    ChunkBeforeFrom(job, s, c);
    forall b: nat, j: nat | b < job.nattrs && s.from <= j < job.HSize()
      ensures PlaceFree(job, s'.out, b, j)
    {
      assert PlaceFree(job, s.out, b, j);
      assert SamePlace(job, b, j, s.out, s'.out);
    }
  }

  /** Chunks of different workers, and the cells not handed out yet, lie apart. */
  lemma ChunksApart(job: Job, s: State, c: nat, d: nat)
    requires job.Valid() && ControlInv(job, s)
    requires c < |s.workers| && d < |s.workers| && c != d
    ensures s.workers[c].to <= s.workers[d].from || s.workers[d].to <= s.workers[c].from
  {
    MultipleOrder(job.nrows, c, d);
    MultipleOrder(job.nrows, d, c);
    ChunkLimits(job, c);
    ChunkLimits(job, d);
  }

  lemma ChunkBeforeFrom(job: Job, s: State, c: nat)
    requires job.Valid() && ControlInv(job, s)
    requires c < |s.workers|
    ensures s.workers[c].to <= s.from <= job.HSize()
  {
    MultipleOrder(job.nrows, c, |s.workers|);
    ChunkLimits(job, c);
    ChunkLimits(job, |s.workers|);
  }

  // ---- channels: the guard counts active workers, and every finished worker has one report under way

  predicate IsActive(w: Worker) { w.Active() }
  predicate HasReported(w: Worker) { w.Reported() }

  ghost function Count(p: Worker -> bool, workers: seq<Worker>): nat {
    if workers == [] then 0
    else Count(p, workers[..|workers| - 1]) + (if p(workers[|workers| - 1]) then 1 else 0)
  }

  lemma CountAppend(p: Worker -> bool, workers: seq<Worker>, w: Worker)
    ensures Count(p, workers + [w]) == Count(p, workers) + (if p(w) then 1 else 0)
  {
    assert (workers + [w])[..|workers|] == workers;
  }

  lemma {:induction false} CountUpdate(p: Worker -> bool, workers: seq<Worker>, c: nat, w: Worker)
    requires c < |workers|
    ensures Count(p, workers[c := w]) == Count(p, workers) - (if p(workers[c]) then 1 else 0) + (if p(w) then 1 else 0)
    decreases |workers|
  {
    var last := |workers| - 1;
    if c < last {
      assert workers[c := w][..last] == workers[..last][c := w];
      CountUpdate(p, workers[..last], c, w);
    } else {
      assert workers[c := w][..last] == workers[..last];
    }
  }

  lemma {:induction false} CountBounds(p: Worker -> bool, workers: seq<Worker>)
    ensures Count(p, workers) <= |workers|
    ensures Count(p, workers) == |workers| ==> forall c :: 0 <= c < |workers| ==> p(workers[c])
    ensures Count(p, workers) > 0 ==> exists c :: 0 <= c < |workers| && p(workers[c])
    decreases |workers|
  {
    if workers != [] {
      CountBounds(p, workers[..|workers| - 1]);
    }
  }

  ghost predicate FailureReported(workers: seq<Worker>) {
    exists c :: 0 <= c < |workers| && workers[c].Reported() && workers[c].Failed()
  }

  ghost predicate ChannelInv(job: Job, s: State) {
    && s.guard == Count(IsActive, s.workers) + (if s.main.Launching? then 1 else 0)
    && s.guard <= job.MaxConcurrent()
    && |s.errs| + |s.collected| == Count(HasReported, s.workers)
    && (true in s.errs || true in s.collected <==> FailureReported(s.workers))
    && (s.main.Returned? ==> s.errs == [] && |s.collected| == |s.workers| && (s.main.ok <==> true !in s.collected))
  }

  lemma MainKeepsChannels(job: Job, s: State)
    requires ChannelInv(job, s)
    requires MainEnabled(job, s)
    ensures ChannelInv(job, MainStep(job, s))
  {
    var s' := MainStep(job, s);
    match s.main
    case Launching =>
      var w := Worker(s.from, s.to, Fetching(0));
      CountAppend(IsActive, s.workers, w);
      CountAppend(HasReported, s.workers, w);
      assert FailureReported(s'.workers) ==> FailureReported(s.workers);
      assert forall c :: 0 <= c < |s.workers| ==> s'.workers[c] == s.workers[c];
    case Collecting =>
      CountBounds(HasReported, s.workers);
      if |s.collected| < |s.workers| {
        assert s.errs == [s.errs[0]] + s.errs[1..];
      }
    case _ =>
  }

  lemma WorkerKeepsChannels(job: Job, s: State, c: nat, readFails: bool)
    requires job.Valid() && ChannelInv(job, s)
    requires WorkerEnabled(job, s, c)
    ensures ChannelInv(job, WorkerStep(job, s, c, readFails))
  {
    var s' := WorkerStep(job, s, c, readFails);
    WorkerStepMoves(job, s, c, readFails);
    var w, w' := s.workers[c], s'.workers[c];
    CountUpdate(IsActive, s.workers, c, w');
    CountUpdate(HasReported, s.workers, c, w');
    ReportsFollow(job, s, c, readFails);
    CountBounds(HasReported, s.workers);
    assert s.main.Returned? ==> HasReported(w);
    if w.Reported() || !w'.Reported() {
      assert FailureReported(s'.workers) <==> FailureReported(s.workers) by {
        assert forall d :: 0 <= d < |s.workers| && d != c ==> s'.workers[d] == s.workers[d];
      }
    } else {
      assert FailureReported(s'.workers) <==> FailureReported(s.workers) || w'.Failed() by {
        assert forall d :: 0 <= d < |s.workers| && d != c ==> s'.workers[d] == s.workers[d];
        assert s'.workers[c].Reported();
      }
    }
  }

  /** How one step of a worker moves the two channels. */
  lemma ReportsFollow(job: Job, s: State, c: nat, readFails: bool)
    requires job.Valid()
    requires WorkerEnabled(job, s, c)
    ensures var s' := WorkerStep(job, s, c, readFails);
            var w, w' := s.workers[c], s'.workers[c];
            && w.Active()
            && (w.Reported() ==> w'.Reported() && (w.Failed() <==> w'.Failed()))
            && s'.guard == s.guard - (if w'.Active() then 0 else 1)
            && s'.errs == s.errs + (if w'.Reported() && !w.Reported() then [w'.Failed()] else [])
            && (s'.main.Returned? ==> s'.main == s.main)
  {
    match s.workers[c].pc
    case Fetching(k) =>
    case Combining(k) =>
    case Loading(i) =>
    case Writing(i, a, samples) =>
    case Reporting(failed) =>
    case Releasing(failed) =>
  }

  // ---- every run

  ghost predicate Inv(job: Job, s: State)
    requires job.Valid()
  {
    ControlInv(job, s) && MemoryInv(job, s) && ChannelInv(job, s)
  }

  lemma InitialInv(job: Job, s: State)
    requires job.Valid() && Initial(job, s)
    ensures Inv(job, s)
  {
    ChunkLimits(job, 0);
    forall b: nat, j: nat | b < job.nattrs && j < job.HSize()
      ensures PlaceFree(job, s.out, b, j)
    {
      PlaceInBuffer(job, b, j);
    }
  }

  lemma StepKeepsInv(job: Job, s: State, action: Action)
    requires job.Valid() && Inv(job, s)
    requires Enabled(job, s, action)
    ensures Inv(job, Step(job, s, action))
  {
    match action
    case MainActs =>
      MainKeepsMemory(job, s);
      MainKeepsChannels(job, s);
    case WorkerActs(c, readFails) =>
      WorkerKeepsMemory(job, s, c, readFails);
      WorkerKeepsChannels(job, s, c, readFails);
  }

  /** The invariant holds after every interleaving. */
  lemma {:induction false} RunKeepsInv(job: Job, s: State, actions: seq<Action>)
    requires job.Valid() && Inv(job, s)
    requires IsRun(job, s, actions)
    ensures Inv(job, After(job, s, actions))
    decreases |actions|
  {
    if actions != [] {
      StepKeepsInv(job, s, actions[0]);
      RunKeepsInv(job, Step(job, s, actions[0]), actions[1..]);
    }
  }

  /** Sending on the errs channel never blocks, and neither does giving back a place in the guard channel. */
  lemma WorkersNeverBlock(job: Job, s: State, c: nat)
    requires job.Valid() && Inv(job, s)
    requires c < |s.workers| && s.workers[c].Active()
    ensures WorkerEnabled(job, s, c)
  {
    ErrsCapacityFormula(job);
    CountBounds(HasReported, s.workers);
    CountZero(IsActive, s.workers, c);
  }

  lemma {:induction false} CountZero(p: Worker -> bool, workers: seq<Worker>, c: nat)
    requires c < |workers| && p(workers[c])
    ensures Count(p, workers) > 0
    decreases |workers|
  {
    if c < |workers| - 1 {
      CountZero(p, workers[..|workers| - 1], c);
    }
  }

  /** Until the call returns, somebody can move. */
  lemma NoDeadlock(job: Job, s: State) returns (action: Action)
    requires job.Valid() && Inv(job, s)
    ensures !s.main.Returned? ==> Enabled(job, s, action)
  {
    action := MainActs;
    if !s.main.Returned? && !MainEnabled(job, s) {
      var c: nat;
      if s.main.Acquiring? {
        CountBounds(IsActive, s.workers);
        c :| c < |s.workers| && IsActive(s.workers[c]);
      } else {
        c := FindUnreported(s.workers);
      }
      WorkersNeverBlock(job, s, c);
      action := WorkerActs(c, false);
    }
  }

  lemma {:induction false} FindUnreported(workers: seq<Worker>) returns (c: nat)
    requires Count(HasReported, workers) < |workers|
    ensures c < |workers| && !workers[c].Reported()
    decreases |workers|
  {
    c := |workers| - 1;
    if HasReported(workers[c]) {
      c := FindUnreported(workers[..c]);
    }
  }

  /** The workers for which p holds. */
  ghost function Which(p: Worker -> bool, workers: seq<Worker>): set<nat> {
    set c: nat | c < |workers| && p(workers[c])
  }

  lemma {:induction false} CountIsCardinality(p: Worker -> bool, workers: seq<Worker>)
    ensures Count(p, workers) == |Which(p, workers)|
  {
    if workers != [] {
      var n := |workers| - 1;
      CountIsCardinality(p, workers[..n]);
      assert Which(p, workers) == Which(p, workers[..n]) + if p(workers[n]) then {n} else {};
    }
  }

  /**
   At no time do more workers run than half the number of rows, or one if that is zero, and while there are chunks
   left the main routine waits exactly when that many do.
   */
  lemma BoundedConcurrency(job: Job, s: State, actions: seq<Action>)
    requires job.Valid() && Initial(job, s) && IsRun(job, s, actions)
    ensures var now := After(job, s, actions);
            var running := |set c: nat | c < |now.workers| && !now.workers[c].pc.Exited?|;
            var limit := if job.nrows / 2 > 1 then job.nrows / 2 else 1;
            && running <= limit
            && (now.main.Acquiring? && now.from < job.HSize() ==> (MainEnabled(job, now) <==> running < limit))
  {
    var now := After(job, s, actions);
    InitialInv(job, s);
    RunKeepsInv(job, s, actions);
    CountIsCardinality(IsActive, now.workers);
    assert Which(IsActive, now.workers) == set c: nat | c < |now.workers| && !now.workers[c].pc.Exited?;
  }
}
