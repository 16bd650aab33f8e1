/**
 The concurrent calculation of attributes, as a system of steps. The main routine splits the surface into chunks
 and starts one worker per chunk. A bounded channel `guard` limits how many workers run at a time, and each worker
 reports its outcome on a bounded channel `errs`, which the main routine then empties. All workers write into the
 one data array of the sub-volume and into the one output buffer, without any lock.
 */
module Scheduler {
  import opened Layout

  function Max(a: nat, b: nat): nat { if a > b then a else b }
  function Min(a: nat, b: nat): nat { if a < b then a else b }

  /**
   How a slot of the data array is filled. One cube: with what the store delivers. Two cubes: with what the first
   delivers, and then, in place, with that and what the second delivers, combined.
   */
  datatype Fetch = Single(first: nat -> real) | Double(first: nat -> real, combine: (nat, real) -> real) {
    function SampleAt(k: nat): real {
      if Single? then first(k) else combine(k, first(k))
    }

    /** How often a slot is written. */
    function Passes(): nat {
      if Single? then 1 else 2
    }
  }

  /**
   One request: the surface, the number of attributes, the offset table of the sub-volume, and the values that
   the workers obtain: from the cube store for a slot of the data array, and value for an attribute of a cell, from
   the cell's samples. Resampling a cell may fail, which cellOk tells.
   */
  datatype Job = Job(nrows: nat, ncols: nat, nattrs: nat, offsets: seq<nat>,
                     fetch: Fetch, cellOk: nat -> bool, value: (nat, nat, seq<real>) -> real)
  {
    /** Number of cells: nrows times ncols. */
    function HSize(): nat { Multiple(nrows, ncols) }
    function MaxConcurrent(): nat { Max(nrows / 2, 1) }
    function ChunkSize(): nat { Max(nrows, 1) }

    /** Capacity of the errs channel. */
    function ErrsCapacity(): nat { Quotient(HSize(), ChunkSize()) + 1 }

    ghost predicate Valid() {
      && nrows > 0 && ncols > 0 && nattrs > 0
      && |offsets| == HSize() + 1
      && offsets[0] == 0
      && forall i, j :: 0 <= i <= j < |offsets| ==> offsets[i] <= offsets[j]
    }

    function DataSize(): nat
      requires Valid()
    {
      offsets[HSize()]
    }

    /** Start of attribute a in the output buffer. */
    function Base(a: nat): nat {
      Multiple(HSize(), a)
    }

    /** Place of attribute a of cell i in the output buffer. */
    function Place(a: nat, i: nat): nat {
      Layout.Place(HSize(), a, i)
    }

    /** Start of chunk c. */
    function ChunkFrom(c: nat): nat {
      Multiple(nrows, c)
    }

    /** The samples of cell i, as the cube store delivers them. */
    function Samples(i: nat): (r: seq<real>)
      requires Valid()
      requires i < HSize()
      ensures |r| == offsets[i + 1] - offsets[i]
    {
      seq(offsets[i + 1] - offsets[i], k requires 0 <= k < offsets[i + 1] - offsets[i] => fetch.SampleAt(offsets[i] + k))
    }

    /** What a sequential calculation leaves for attribute a of cell i. */
    function Expected(a: nat, i: nat): real
      requires Valid()
      requires i < HSize()
    {
      value(a, i, Samples(i))
    }
  }

  datatype Pc =
    | Fetching(k: nat)
    | Combining(k: nat)
    | Loading(i: nat)
    | Writing(i: nat, a: nat, samples: seq<real>)
    | Reporting(failed: bool)
    | Releasing(failed: bool)
    | Exited(failed: bool)

  datatype Worker = Worker(from: nat, to: nat, pc: Pc) {
    predicate Reported() { pc.Releasing? || pc.Exited? }
    predicate Active() { !pc.Exited? }
    predicate Failed() { (pc.Reporting? || pc.Releasing? || pc.Exited?) && pc.failed }
  }

  datatype Main = Acquiring | Launching | Collecting | Returned(ok: bool)

  /** One slot of a shared array, with the number of times it has been written. */
  datatype Slot = Slot(value: real, writes: nat)

  function Write(memory: seq<Slot>, k: nat, v: real): seq<Slot>
    requires k < |memory|
  {
    memory[k := Slot(v, memory[k].writes + 1)]
  }

  function Values(memory: seq<Slot>): (r: seq<real>)
    ensures |r| == |memory| && forall k :: 0 <= k < |r| ==> r[k] == memory[k].value
  {
    seq(|memory|, k requires 0 <= k < |memory| => memory[k].value)
  }

  datatype State = State(main: Main, from: nat, to: nat, guard: nat, errs: seq<bool>, collected: seq<bool>,
                         workers: seq<Worker>, data: seq<Slot>, out: seq<Slot>)

  /** readFails: the cube store may refuse any read. */
  datatype Action = MainActs | WorkerActs(c: nat, readFails: bool)

  /** Whatever values the two arrays hold at the start. */
  ghost predicate Initial(job: Job, s: State)
    requires job.Valid()
  {
    && s.main == Acquiring && s.from == 0 && s.to == job.ChunkSize()
    && s.guard == 0 && s.errs == [] && s.collected == [] && s.workers == []
    && |s.data| == job.DataSize() && |s.out| == job.Base(job.nattrs)
    && (forall k :: 0 <= k < |s.data| ==> s.data[k].writes == 0)
    && (forall k :: 0 <= k < |s.out| ==> s.out[k].writes == 0)
  }

  // ---- steps of the main routine

  predicate MainEnabled(job: Job, s: State) {
    match s.main
    case Acquiring => s.from < job.HSize() ==> s.guard < job.MaxConcurrent()
    case Launching => true
    case Collecting => |s.collected| < |s.workers| ==> s.errs != []
    case Returned(_) => false
  }

  function MainStep(job: Job, s: State): State
    requires MainEnabled(job, s)
  {
    match s.main
    case Acquiring =>
      if s.from < job.HSize() then s.(main := Launching, guard := s.guard + 1)
      else s.(main := Collecting)
    case Launching =>
      s.(main := Acquiring,
         workers := s.workers + [Worker(s.from, s.to, Fetching(0))],
         from := s.from + job.ChunkSize(),
         to := Min(s.to + job.ChunkSize(), job.HSize()))
    case Collecting =>
      if |s.collected| < |s.workers| then s.(collected := s.collected + [s.errs[0]], errs := s.errs[1..])
      else s.(main := Returned(true !in s.collected))
  }

  // ---- steps of a worker

  predicate WorkerEnabled(job: Job, s: State, c: nat) {
    && c < |s.workers|
    && match s.workers[c].pc
       case Reporting(_) => |s.errs| < job.ErrsCapacity()
       case Releasing(_) => s.guard > 0
       case Exited(_) => false
       case _ => true
  }

  function SetPc(s: State, c: nat, pc: Pc): State
    requires c < |s.workers|
  {
    s.(workers := s.workers[c := s.workers[c].(pc := pc)])
  }

  /**
   One step of worker c: store one fetched sample, combine it with one of the second cube, take over the samples of one cell, store one attribute of it,
   report, or give back its place in the guard channel. An index out of range counts as a failure.
   */
  function WorkerStep(job: Job, s: State, c: nat, readFails: bool): State
    requires job.Valid()
    requires WorkerEnabled(job, s, c)
  {
    var w := s.workers[c];
    match w.pc
    case Fetching(k) =>
      if readFails || w.from >= w.to || w.to > job.HSize() || job.offsets[w.to] > |s.data| then
        SetPc(s, c, Reporting(true))
      else if job.offsets[w.from] + k < job.offsets[w.to] then
        var slot := job.offsets[w.from] + k;
        SetPc(s.(data := Write(s.data, slot, job.fetch.first(slot))), c, Fetching(k + 1))
      else
        SetPc(s, c, if job.fetch.Double? then Combining(0) else Loading(w.from))
    case Combining(k) =>
      if readFails || w.from >= w.to || w.to > job.HSize() || job.offsets[w.to] > |s.data| || !job.fetch.Double? then
        SetPc(s, c, Reporting(true))
      else if job.offsets[w.from] + k < job.offsets[w.to] then
        var slot := job.offsets[w.from] + k;
        SetPc(s.(data := Write(s.data, slot, job.fetch.combine(slot, s.data[slot].value))), c, Combining(k + 1))
      else
        SetPc(s, c, Loading(w.from))
    case Loading(i) =>
      if i >= w.to then
        SetPc(s, c, Reporting(false))
      else if i >= job.HSize() || !job.cellOk(i) || job.offsets[i + 1] > |s.data| then
        SetPc(s, c, Reporting(true))
      else
        SetPc(s, c, Writing(i, 0, Values(s.data[job.offsets[i]..job.offsets[i + 1]])))
    case Writing(i, a, samples) =>
      if a >= job.nattrs then
        SetPc(s, c, Loading(i + 1))
      else if job.Place(a, i) >= |s.out| then
        SetPc(s, c, Reporting(true))
      else
        SetPc(s.(out := Write(s.out, job.Place(a, i), job.value(a, i, samples))), c, Writing(i, a + 1, samples))
    case Reporting(failed) =>
      SetPc(s.(errs := s.errs + [failed]), c, Releasing(failed))
    case Releasing(failed) =>
      SetPc(s.(guard := s.guard - 1), c, Exited(failed))
  }

  // ---- runs

  predicate Enabled(job: Job, s: State, action: Action) {
    match action
    case MainActs => MainEnabled(job, s)
    case WorkerActs(c, _) => WorkerEnabled(job, s, c)
  }

  function Step(job: Job, s: State, action: Action): State
    requires job.Valid()
    requires Enabled(job, s, action)
  {
    match action
    case MainActs => MainStep(job, s)
    case WorkerActs(c, readFails) => WorkerStep(job, s, c, readFails)
  }

  /** The actions can be taken one after the other from s: one interleaving of the main routine and the workers. */
  ghost predicate IsRun(job: Job, s: State, actions: seq<Action>)
    requires job.Valid()
    decreases |actions|
  {
    actions == [] || (Enabled(job, s, actions[0]) && IsRun(job, Step(job, s, actions[0]), actions[1..]))
  }

  ghost function After(job: Job, s: State, actions: seq<Action>): State
    requires job.Valid()
    requires IsRun(job, s, actions)
    decreases |actions|
  {
    if actions == [] then s else After(job, Step(job, s, actions[0]), actions[1..])
  }

  // ---- chunks and places

  /** The chunks tile the surface: chunk c is [ChunkFrom(c), ChunkFrom(c + 1)), and the last of ncols chunks ends at HSize(). */
  lemma ChunkLimits(job: Job, c: nat)
    requires job.nrows > 0
    ensures job.ChunkFrom(c + 1) == job.ChunkFrom(c) + job.nrows
    ensures job.ChunkFrom(job.ncols) == job.HSize()
    ensures c < job.ncols <==> job.ChunkFrom(c) < job.HSize()
    ensures c < job.ncols ==> job.ChunkFrom(c + 1) <= job.HSize()
    ensures c <= job.ncols ==> job.ChunkFrom(c) <= job.HSize()
  {
    MultipleOrder(job.nrows, c, job.ncols);
    MultipleOrder(job.nrows, job.ncols, c);
  }

  /** There is room on the errs channel for one report per chunk, and one more. */
  lemma ErrsCapacityFormula(job: Job)
    requires job.nrows > 0
    ensures job.ErrsCapacity() == job.ncols + 1 == job.HSize() / job.ChunkSize() + 1
  {
    QuotientOfMultiple(job.nrows, job.ncols);
    QuotientIsDivision(job.HSize(), job.ChunkSize());
  }

  /** Two different attributes or cells never share a place. */
  lemma PlacesDiffer(job: Job, a: nat, i: nat, b: nat, j: nat)
    requires i < job.HSize() && j < job.HSize()
    requires job.Place(a, i) == job.Place(b, j)
    ensures a == b && i == j
  {
    PlacesApart(job.HSize(), a, i, b, j);
  }

  lemma PlaceInBuffer(job: Job, a: nat, i: nat)
    requires i < job.HSize() && a < job.nattrs
    ensures job.Place(a, i) < job.Base(job.nattrs)
  {
    PlaceInside(job.HSize(), job.nattrs, a, i);
  }
}
