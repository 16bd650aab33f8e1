/** What a caller of the concurrent calculation gets, over every interleaving: termination, and the sequential result. */
module SchedulerResults {
  import opened Layout
  import opened Scheduler
  import opened SchedulerSafety

  // ---- every run ends

  /** Steps needed for n more cells: take over the samples, store every attribute, move on. */
  function CellsRank(job: Job, n: nat): nat {
    Multiple(job.nattrs + 2, n)
  }

  /** Steps a worker may still take. */
  function WorkerRank(job: Job, w: Worker): int
    requires job.Valid()
    requires w.from < w.to <= job.HSize()
  {
    match w.pc
    case Fetching(k) => 2 * (job.offsets[w.to] - job.offsets[w.from]) - k + 5 + CellsRank(job, w.to - w.from)
    case Combining(k) => job.offsets[w.to] - job.offsets[w.from] - k + 4 + CellsRank(job, w.to - w.from)
    case Loading(i) => (if i <= w.to then CellsRank(job, w.to - i) else 0) + 3
    case Writing(i, a, _) => (if i < w.to then CellsRank(job, w.to - i - 1) else 0) + job.nattrs - a + 4
    case Reporting(_) => 2
    case Releasing(_) => 1
    case Exited(_) => 0
  }

  function Total(ranks: seq<int>): int {
    if ranks == [] then 0 else Total(ranks[..|ranks| - 1]) + ranks[|ranks| - 1]
  }

  lemma {:induction false} TotalUpdate(ranks: seq<int>, c: nat, r: int)
    requires c < |ranks|
    ensures Total(ranks[c := r]) == Total(ranks) - ranks[c] + r
    decreases |ranks|
  {
    var last := |ranks| - 1;
    if c < last {
      assert ranks[c := r][..last] == ranks[..last][c := r];
      TotalUpdate(ranks[..last], c, r);
    } else {
      assert ranks[c := r][..last] == ranks[..last];
    }
  }

  lemma {:induction false} TotalNotNegative(ranks: seq<int>)
    requires forall c :: 0 <= c < |ranks| ==> ranks[c] >= 0
    ensures Total(ranks) >= 0
    decreases |ranks|
  {
    if ranks != [] {
      TotalNotNegative(ranks[..|ranks| - 1]);
    }
  }

  function Ranks(job: Job, workers: seq<Worker>): (r: seq<int>)
    requires job.Valid()
    requires forall c :: 0 <= c < |workers| ==> workers[c].from < workers[c].to <= job.HSize()
    ensures |r| == |workers| && forall c :: 0 <= c < |r| ==> r[c] == WorkerRank(job, workers[c])
  {
    seq(|workers|, c requires 0 <= c < |workers| => WorkerRank(job, workers[c]))
  }

  function RankSum(job: Job, workers: seq<Worker>): int
    requires job.Valid()
    requires forall c :: 0 <= c < |workers| ==> workers[c].from < workers[c].to <= job.HSize()
  {
    if workers == [] then 0
    else RankSum(job, workers[..|workers| - 1]) + WorkerRank(job, workers[|workers| - 1])
  }

  lemma {:induction false} RankSumIsTotal(job: Job, workers: seq<Worker>)
    requires job.Valid()
    requires forall c :: 0 <= c < |workers| ==> workers[c].from < workers[c].to <= job.HSize()
    ensures RankSum(job, workers) == Total(Ranks(job, workers))
    decreases |workers|
  {
    if workers != [] {
      var init := workers[..|workers| - 1];
      RankSumIsTotal(job, init);
      assert Ranks(job, workers)[..|init|] == Ranks(job, init);
    }
  }

  /** Steps of the chunks [c, ncols) that are not handed out yet, with the two steps that hand each one out. */
  function FutureRank(job: Job, c: nat): (r: int)
    requires job.Valid()
    ensures r >= 0 && (c < job.ncols ==> r >= 2)
    decreases job.ncols - c
  {
    if c >= job.ncols then 0
    else
      ChunkLimits(job, c);
      2 + WorkerRank(job, Worker(job.ChunkFrom(c), job.ChunkFrom(c + 1), Fetching(0))) + FutureRank(job, c + 1)
  }

  function MainRank(job: Job, s: State): int
    requires job.Valid()
  {
    match s.main
    case Acquiring => FutureRank(job, |s.workers|) + job.ncols + 2
    case Launching => FutureRank(job, |s.workers|) + job.ncols + 1
    case Collecting => job.ncols - |s.collected| + 1
    case Returned(_) => 0
  }

  function Rank(job: Job, s: State): int
    requires job.Valid()
    requires forall c :: 0 <= c < |s.workers| ==> s.workers[c].from < s.workers[c].to <= job.HSize()
  {
    MainRank(job, s) + RankSum(job, s.workers)
  }

  lemma RankSumAppend(job: Job, workers: seq<Worker>, w: Worker)
    requires job.Valid()
    requires forall c :: 0 <= c < |workers| ==> workers[c].from < workers[c].to <= job.HSize()
    requires w.from < w.to <= job.HSize()
    ensures RankSum(job, workers + [w]) == RankSum(job, workers) + WorkerRank(job, w)
  {
    assert (workers + [w])[..|workers|] == workers;
  }

  lemma RankSumUpdate(job: Job, workers: seq<Worker>, c: nat, w: Worker)
    requires job.Valid()
    requires forall d :: 0 <= d < |workers| ==> workers[d].from < workers[d].to <= job.HSize()
    requires c < |workers| && w.from < w.to <= job.HSize()
    ensures RankSum(job, workers[c := w]) == RankSum(job, workers) - WorkerRank(job, workers[c]) + WorkerRank(job, w)
  {
    RankSumIsTotal(job, workers);
    RankSumIsTotal(job, workers[c := w]);
    assert Ranks(job, workers[c := w]) == Ranks(job, workers)[c := WorkerRank(job, w)];
    TotalUpdate(Ranks(job, workers), c, WorkerRank(job, w));
  }

  lemma WorkerRankNotNegative(job: Job, w: Worker, data: seq<Slot>, out: seq<Slot>)
    requires job.Valid()
    requires w.from < w.to <= job.HSize()
    requires |data| == job.DataSize() && |out| == job.Base(job.nattrs)
    requires WorkerOk(job, w, data, out)
    ensures WorkerRank(job, w) >= 0
  {
  }

  lemma RankSumNotNegative(job: Job, workers: seq<Worker>, data: seq<Slot>, out: seq<Slot>)
    requires job.Valid()
    requires |data| == job.DataSize() && |out| == job.Base(job.nattrs)
    requires forall c :: 0 <= c < |workers| ==>
               workers[c].from < workers[c].to <= job.HSize() && WorkerOk(job, workers[c], data, out)
    ensures RankSum(job, workers) >= 0
  {
    forall c | 0 <= c < |workers|
      ensures Ranks(job, workers)[c] >= 0
    {
      WorkerRankNotNegative(job, workers[c], data, out);
    }
    RankSumIsTotal(job, workers);
    TotalNotNegative(Ranks(job, workers));
  }

  /** Where a worker may go next. */
  ghost predicate PcFollows(job: Job, w: Worker, pc: Pc)
    requires job.Valid()
    requires w.from < w.to <= job.HSize()
  {
    match w.pc
    case Fetching(k) =>
      || pc == Reporting(true)
      || (if job.offsets[w.from] + k < job.offsets[w.to] then pc == Fetching(k + 1) else pc in {Combining(0), Loading(w.from)})
    case Combining(k) =>
      || pc == Reporting(true) || pc == Loading(w.from)
      || (job.offsets[w.from] + k < job.offsets[w.to] && pc == Combining(k + 1))
    case Loading(i) => pc.Reporting? || (i < w.to && pc.Writing? && pc.i == i && pc.a == 0)
    case Writing(i, a, samples) =>
      || pc.Reporting?
      || (if a < job.nattrs then pc == Writing(i, a + 1, samples) else pc == Loading(i + 1))
    case Reporting(_) => pc.Releasing?
    case Releasing(_) => pc.Exited?
    case Exited(_) => false
  }

  lemma WorkerStepFollows(job: Job, s: State, c: nat, readFails: bool)
    requires job.Valid()
    requires WorkerEnabled(job, s, c)
    requires s.workers[c].from < s.workers[c].to <= job.HSize()
    ensures PcFollows(job, s.workers[c], WorkerStep(job, s, c, readFails).workers[c].pc)
  {
    match s.workers[c].pc
    case Fetching(k) =>
    case Combining(k) =>
    case Loading(i) =>
    case Writing(i, a, samples) =>
    case Reporting(failed) =>
    case Releasing(failed) =>
  }

  lemma FollowingLowersRank(job: Job, w: Worker, pc: Pc, data: seq<Slot>, out: seq<Slot>)
    requires job.Valid()
    requires w.from < w.to <= job.HSize()
    requires |data| == job.DataSize() && |out| == job.Base(job.nattrs)
    requires WorkerOk(job, w, data, out)
    requires PcFollows(job, w, pc)
    ensures WorkerRank(job, w.(pc := pc)) < WorkerRank(job, w)
  {
  }

  /** Every worker has a non-empty chunk. */
  ghost predicate ChunksOk(job: Job, s: State)
    requires job.Valid()
  {
    forall c :: 0 <= c < |s.workers| ==> s.workers[c].from < s.workers[c].to <= job.HSize()
  }

  lemma LaunchLowersRank(job: Job, s: State)
    requires job.Valid() && ControlInv(job, s) && ChunksOk(job, s)
    requires s.main.Launching?
    ensures ChunksOk(job, MainStep(job, s)) && Rank(job, MainStep(job, s)) < Rank(job, s)
  {
    var w := Worker(s.from, s.to, Fetching(0));
    ChunkLimits(job, |s.workers|);
    assert MainStep(job, s).workers == s.workers + [w];
    RankSumAppend(job, s.workers, w);
    assert FutureRank(job, |s.workers|) == 2 + WorkerRank(job, w) + FutureRank(job, |s.workers| + 1);
  }

  lemma MainStepLowersRank(job: Job, s: State)
    requires job.Valid() && ControlInv(job, s) && ChannelInv(job, s) && ChunksOk(job, s)
    requires MainEnabled(job, s)
    ensures ChunksOk(job, MainStep(job, s)) && Rank(job, MainStep(job, s)) < Rank(job, s)
  {
    if s.main.Launching? {
      LaunchLowersRank(job, s);
    } else {
      assert MainStep(job, s).workers == s.workers;
      ChunkLimits(job, |s.workers|);
      CountBounds(HasReported, s.workers);
    }
  }

  lemma WorkerStepLowersRank(job: Job, s: State, c: nat, readFails: bool)
    requires job.Valid() && Inv(job, s)
    requires WorkerEnabled(job, s, c)
    ensures Inv(job, WorkerStep(job, s, c, readFails)) && Rank(job, WorkerStep(job, s, c, readFails)) < Rank(job, s)
  {
    var s' := WorkerStep(job, s, c, readFails);
    StepKeepsInv(job, s, WorkerActs(c, readFails));
    WorkerStepMoves(job, s, c, readFails);
    WorkerStepFollows(job, s, c, readFails);
    FollowingLowersRank(job, s.workers[c], s'.workers[c].pc, s.data, s.out);
    RankSumUpdate(job, s.workers, c, s'.workers[c]);
  }

  lemma RankNotNegative(job: Job, s: State)
    requires job.Valid() && Inv(job, s)
    ensures Rank(job, s) >= 0
  {
    CountBounds(HasReported, s.workers);
    RankSumNotNegative(job, s.workers, s.data, s.out);
  }

  /** Every step uses up some of the rank, and the rank is never negative. */
  lemma StepLowersRank(job: Job, s: State, action: Action)
    requires job.Valid() && Inv(job, s)
    requires Enabled(job, s, action)
    ensures Inv(job, Step(job, s, action))
    ensures 0 <= Rank(job, Step(job, s, action)) < Rank(job, s)
  {
    match action {
      case MainActs =>
        StepKeepsInv(job, s, action);
        MainStepLowersRank(job, s);
      case WorkerActs(c, readFails) => WorkerStepLowersRank(job, s, c, readFails);
    }
    RankNotNegative(job, Step(job, s, action));
  }

  /** No interleaving is longer than the rank of its first state: every run ends. */
  lemma {:induction false} RunsAreBounded(job: Job, s: State, actions: seq<Action>)
    requires job.Valid() && Inv(job, s)
    requires IsRun(job, s, actions)
    ensures |actions| <= Rank(job, s) || actions == []
    decreases |actions|
  {
    if actions != [] {
      var s' := Step(job, s, actions[0]);
      StepLowersRank(job, s, actions[0]);
      RunsAreBounded(job, s', actions[1..]);
    }
  }

  // ---- what has been written when the call returns

  /** The chunk that cell i belongs to. */
  lemma {:induction false} FindChunk(job: Job, i: nat, n: nat) returns (c: nat)
    requires job.Valid()
    requires n <= job.ncols && i < job.ChunkFrom(n)
    ensures c < n && job.ChunkFrom(c) <= i < job.ChunkFrom(c + 1)
    decreases n
  {
    c := n - 1;
    if i < job.ChunkFrom(c) {
      c := FindChunk(job, i, c);
    }
  }

  /** The chunk whose samples slot k of the data array belongs to. */
  lemma {:induction false} FindDataChunk(job: Job, k: nat, n: nat) returns (c: nat)
    requires job.Valid()
    requires n <= job.ncols && job.ChunkFrom(n) <= job.HSize() && k < job.offsets[job.ChunkFrom(n)]
    ensures c < n && job.ChunkFrom(c + 1) <= job.HSize()
    ensures job.offsets[job.ChunkFrom(c)] <= k < job.offsets[job.ChunkFrom(c + 1)]
    decreases n
  {
    c := n - 1;
    ChunkLimits(job, c);
    if k < job.offsets[job.ChunkFrom(c)] {
      c := FindDataChunk(job, k, c);
    }
  }

  lemma ReturnedMeansAllReported(job: Job, s: State)
    requires job.Valid() && Inv(job, s)
    requires s.main.Returned?
    ensures |s.workers| == job.ncols
    ensures forall c :: 0 <= c < |s.workers| ==> s.workers[c].Reported()
    ensures s.main.ok <==> forall c :: 0 <= c < |s.workers| ==> !s.workers[c].Failed()
  {
    CountBounds(HasReported, s.workers);
    forall c | 0 <= c < |s.workers|
      ensures s.workers[c].Reported()
    {
      assert HasReported(s.workers[c]);
    }
  }

  /** Once the call has returned, no step of any worker touches the sub-volume or the output buffer. */
  lemma QuietAfterReturn(job: Job, s: State, action: Action)
    requires job.Valid() && Inv(job, s)
    requires s.main.Returned?
    requires Enabled(job, s, action)
    ensures var s' := Step(job, s, action);
            s'.main == s.main && s'.data == s.data && s'.out == s.out
  {
    ReturnedMeansAllReported(job, s);
    assert s.workers[action.c].Reported();
  }

  /** Attribute a over the whole surface, as calculated cell after cell. */
  function SequentialMap(job: Job, a: nat): (r: seq<real>)
    requires job.Valid()
    ensures |r| == job.HSize()
  {
    seq(job.HSize(), i requires 0 <= i < job.HSize() => job.Expected(a, i))
  }

  lemma SuccessWroteCell(job: Job, s: State, a: nat, i: nat)
    requires job.Valid() && Inv(job, s)
    requires s.main == Returned(true)
    requires a < job.nattrs && i < job.HSize()
    ensures job.Place(a, i) < |s.out| && s.out[job.Place(a, i)] == Slot(job.Expected(a, i), 1)
  {
    ReturnedMeansAllReported(job, s);
    PlaceInBuffer(job, a, i);
    var c := FindChunk(job, i, job.ncols);
    assert WorkerOk(job, s.workers[c], s.data, s.out);
    assert PlaceDone(job, s.out, a, i);
  }

  lemma SuccessWroteSample(job: Job, s: State, k: nat)
    requires job.Valid() && Inv(job, s)
    requires s.main == Returned(true)
    requires k < job.DataSize()
    ensures s.data[k] == Slot(job.fetch.SampleAt(k), job.fetch.Passes())
  {
    ReturnedMeansAllReported(job, s);
    var c := FindDataChunk(job, k, job.ncols);
    assert WorkerOk(job, s.workers[c], s.data, s.out);
  }

  lemma MapFromCells(job: Job, out: seq<Slot>, a: nat)
    requires job.Valid()
    requires job.Base(a + 1) == job.Base(a) + job.HSize() <= |out|
    requires forall i: nat :: i < job.HSize() ==> out[job.Place(a, i)] == Slot(job.Expected(a, i), 1)
    ensures Values(out[job.Base(a)..job.Base(a + 1)]) == SequentialMap(job, a)
    ensures forall k :: job.Base(a) <= k < job.Base(a + 1) ==> out[k].writes == 1
  {
    var slice := out[job.Base(a)..job.Base(a + 1)];
    forall i: nat | i < job.HSize()
      ensures slice[i] == Slot(job.Expected(a, i), 1)
    {
      assert slice[i] == out[job.Place(a, i)];
    }
    forall k | job.Base(a) <= k < job.Base(a + 1)
      ensures out[k].writes == 1
    {
      assert out[k] == out[job.Place(a, k - job.Base(a))];
    }
  }

  lemma SuccessWroteMap(job: Job, s: State, a: nat)
    requires job.Valid() && Inv(job, s)
    requires s.main == Returned(true)
    requires a < job.nattrs
    ensures job.Base(a) <= job.Base(a + 1) <= |s.out|
    ensures Values(s.out[job.Base(a)..job.Base(a + 1)]) == SequentialMap(job, a)
    ensures forall k :: job.Base(a) <= k < job.Base(a + 1) ==> s.out[k].writes == 1
  {
    MultipleOrder(job.HSize(), a + 1, job.nattrs);
    forall i: nat | i < job.HSize()
      ensures s.out[job.Place(a, i)] == Slot(job.Expected(a, i), 1)
    {
      SuccessWroteCell(job, s, a, i);
    }
    MapFromCells(job, s.out, a);
  }

  /**
   In every interleaving that returns successfully, the slice of the output buffer returned for each attribute is
   the sequential result, every slot of it has been written exactly once, and so has every slot of the sub-volume.
   */
  lemma ParallelEqualsSequential(job: Job, s: State, actions: seq<Action>, a: nat)
    requires job.Valid() && Initial(job, s)
    requires IsRun(job, s, actions)
    requires After(job, s, actions).main == Returned(true)
    requires a < job.nattrs
    ensures var end := After(job, s, actions);
            && job.Base(a) <= job.Base(a + 1) <= |end.out|
            && Values(end.out[job.Base(a)..job.Base(a + 1)]) == SequentialMap(job, a)
            && (forall k :: job.Base(a) <= k < job.Base(a + 1) ==> end.out[k].writes == 1)
            && |end.data| == job.DataSize()
            && (forall k :: 0 <= k < |end.data| ==> end.data[k] == Slot(job.fetch.SampleAt(k), job.fetch.Passes()))
  {
    InitialInv(job, s);
    RunKeepsInv(job, s, actions);
    var end := After(job, s, actions);
    SuccessWroteMap(job, end, a);
    forall k | 0 <= k < |end.data|
      ensures end.data[k] == Slot(job.fetch.SampleAt(k), job.fetch.Passes())
    {
      SuccessWroteSample(job, end, k);
    }
  }

  // ---- when it succeeds

  predicate NoReadFails(actions: seq<Action>) {
    forall k :: 0 <= k < |actions| ==> actions[k].WorkerActs? ==> !actions[k].readFails
  }

  ghost predicate NobodyFailed(s: State) {
    forall c :: 0 <= c < |s.workers| ==> !s.workers[c].Failed()
  }

  lemma StepFailsOnlyOnRefusal(job: Job, s: State, action: Action)
    requires job.Valid() && Inv(job, s) && NobodyFailed(s)
    requires forall i :: 0 <= i < job.HSize() ==> job.cellOk(i)
    requires Enabled(job, s, action)
    requires action.WorkerActs? ==> !action.readFails
    ensures NobodyFailed(Step(job, s, action))
  {
    if action.WorkerActs? {
      var c := action.c;
      var w := s.workers[c];
      WorkerStepMoves(job, s, c, false);
      assert WorkerOk(job, w, s.data, s.out);
      if w.pc.Writing? && w.pc.a < job.nattrs {
        PlaceInBuffer(job, w.pc.a, w.pc.i);
      }
      assert !w.Failed();
    }
  }

  /** If the store refuses no read and every cell can be resampled, the call succeeds. */
  lemma {:induction false} SucceedsUnlessRefused(job: Job, s: State, actions: seq<Action>)
    requires job.Valid() && Inv(job, s) && NobodyFailed(s)
    requires forall i :: 0 <= i < job.HSize() ==> job.cellOk(i)
    requires IsRun(job, s, actions) && NoReadFails(actions)
    ensures var end := After(job, s, actions); end.main.Returned? ==> end.main.ok
    decreases |actions|
  {
    if actions == [] {
      if s.main.Returned? {
        ReturnedMeansAllReported(job, s);
      }
    } else {
      StepFailsOnlyOnRefusal(job, s, actions[0]);
      StepKeepsInv(job, s, actions[0]);
      SucceedsUnlessRefused(job, Step(job, s, actions[0]), actions[1..]);
    }
  }

  lemma SuccessMeansCellOk(job: Job, s: State, i: nat)
    requires job.Valid() && Inv(job, s)
    requires s.main == Returned(true) && i < job.HSize()
    ensures job.cellOk(i)
  {
    ReturnedMeansAllReported(job, s);
    var c := FindChunk(job, i, job.ncols);
    assert WorkerOk(job, s.workers[c], s.data, s.out);
  }

  /** If the store refuses no read, the call succeeds exactly when every cell can be resampled. */
  lemma SucceedsIff(job: Job, s: State, actions: seq<Action>)
    requires job.Valid() && Initial(job, s)
    requires IsRun(job, s, actions) && NoReadFails(actions)
    requires After(job, s, actions).main.Returned?
    ensures After(job, s, actions).main.ok <==> CellsOk(job, 0, job.HSize())
  {
    InitialInv(job, s);
    RunKeepsInv(job, s, actions);
    var end := After(job, s, actions);
    if end.main.ok {
      forall i: nat | i < job.HSize()
        ensures job.cellOk(i)
      {
        SuccessMeansCellOk(job, end, i);
      }
    } else if CellsOk(job, 0, job.HSize()) {
      SucceedsUnlessRefused(job, s, actions);
    }
  }

  lemma StepKeepsFailure(job: Job, s: State, action: Action, c: nat)
    requires job.Valid() && Enabled(job, s, action)
    requires c < |s.workers| && s.workers[c].Failed()
    ensures c < |Step(job, s, action).workers| && Step(job, s, action).workers[c].Failed()
  {
    match action
    case MainActs =>
    case WorkerActs(d, readFails) => WorkerStepMoves(job, s, d, readFails);
  }

  lemma {:induction false} FailureIsReturned(job: Job, s: State, actions: seq<Action>, c: nat)
    requires job.Valid() && Inv(job, s) && IsRun(job, s, actions)
    requires c < |s.workers| && s.workers[c].Failed()
    ensures var end := After(job, s, actions); end.main.Returned? ==> !end.main.ok
    decreases |actions|
  {
    if actions == [] {
      if s.main.Returned? {
        ReturnedMeansAllReported(job, s);
      }
    } else {
      StepKeepsInv(job, s, actions[0]);
      StepKeepsFailure(job, s, actions[0], c);
      FailureIsReturned(job, Step(job, s, actions[0]), actions[1..], c);
    }
  }

  /** A refused read is never lost: however the run goes on, the call does not succeed. */
  lemma RefusedReadIsReturned(job: Job, s: State, c: nat, actions: seq<Action>)
    requires job.Valid() && Inv(job, s)
    requires c < |s.workers| && (s.workers[c].pc.Fetching? || s.workers[c].pc.Combining?)
    requires Enabled(job, s, WorkerActs(c, true)) && IsRun(job, Step(job, s, WorkerActs(c, true)), actions)
    ensures var end := After(job, Step(job, s, WorkerActs(c, true)), actions); end.main.Returned? ==> !end.main.ok
  {
    StepKeepsInv(job, s, WorkerActs(c, true));
    FailureIsReturned(job, Step(job, s, WorkerActs(c, true)), actions, c);
  }

  /** A run that cannot go on has returned, and no worker is left behind. */
  lemma StuckMeansReturned(job: Job, s: State, actions: seq<Action>)
    requires job.Valid() && Initial(job, s)
    requires IsRun(job, s, actions)
    requires forall action :: !Enabled(job, After(job, s, actions), action)
    ensures var end := After(job, s, actions);
            end.main.Returned? && forall c :: 0 <= c < |end.workers| ==> !end.workers[c].Active()
  {
    InitialInv(job, s);
    RunKeepsInv(job, s, actions);
    var end := After(job, s, actions);
    var action := NoDeadlock(job, end);
    assert !Enabled(job, end, action);
    forall c | 0 <= c < |end.workers|
      ensures !end.workers[c].Active()
    {
      assert !Enabled(job, end, WorkerActs(c, false));
      if end.workers[c].Active() {
        WorkersNeverBlock(job, end, c);
      }
    }
  }
}
