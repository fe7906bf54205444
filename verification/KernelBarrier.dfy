/**
 * The kernel benchmark: one main thread that creates N workers, releases them together, waits for each and adds up
 * their times. Every step of every thread is a step of one system, and a run is any sequence of enabled steps.
 */
module KernelBarrier {
  import opened Traces
  import opened Words

  const USEC_PER_SEC := 1_000_000

  // struct timeval, and the elapsed time computed from two of them

  datatype TimeVal = TimeVal(sec: int, usec: int) {
    predicate Normal() { 0 <= usec < USEC_PER_SEC }

    function Micros(): int { sec * USEC_PER_SEC + usec }
  }

  /** Conversion to unsigned long long: never negative, whatever the sign of x. */
  function U64(x: int): (r: nat)
    ensures r < TWO64
  {
    x % TWO64
  }

  /** The three statements on time at the end of benchmark_thread; the microsecond difference may be negative. */
  function Elapsed(start: TimeVal, end: TimeVal): (time: nat)
    ensures time < TWO64
  {
    var time0 := U64(end.sec - start.sec);
    var time1 := U64(time0 * USEC_PER_SEC);
    U64(time1 + U64(end.usec - start.usec))
  }

  lemma U64OfMultiple(x: int, k: int)
    ensures U64(x + TWO64 * k) == U64(x)
  {
    var q, r := x / TWO64, x % TWO64;
    assert x + TWO64 * k == TWO64 * (q + k) + r;
  }

  /** The wrapped arithmetic gives the true difference modulo 2^64. */
  lemma ElapsedIsTrueDifference(start: TimeVal, end: TimeVal)
    ensures Elapsed(start, end) == U64(end.Micros() - start.Micros())
    ensures 0 <= end.Micros() - start.Micros() < TWO64 ==> Elapsed(start, end) == end.Micros() - start.Micros()
  {
    hide U64;
    var ds, du := end.sec - start.sec, end.usec - start.usec;
    var a := U64Quotient(ds);
    var b := U64Quotient(U64(ds) * USEC_PER_SEC);
    var c := U64Quotient(du);
    var time1 := U64(U64(ds) * USEC_PER_SEC);
    assert time1 + U64(du) == (ds * USEC_PER_SEC + du) + TWO64 * (a * USEC_PER_SEC + b + c);
    U64OfMultiple(ds * USEC_PER_SEC + du, a * USEC_PER_SEC + b + c);
    assert end.Micros() - start.Micros() == ds * USEC_PER_SEC + du;
    U64OfSmall(end.Micros() - start.Micros());
  }

  lemma U64Quotient(x: int) returns (k: int)
    ensures U64(x) == x + TWO64 * k
  {
    k := -(x / TWO64);
  }

  lemma U64OfSmall(x: int)
    ensures 0 <= x < TWO64 ==> U64(x) == x
  {
  }

  // The system

  /** An event_count that the int loop variable of benchmark_thread can reach. */
  type EventCount = k: int | 0 <= k < 0x8000_0000

  /** n workers, on CPUs 0 to n - 1, each firing count events. */
  datatype Config = Config(n: nat, count: EventCount)

  /** Where a worker is in benchmark_thread. */
  datatype Worker =
    | Absent
    | Waiting
    | Firing(start: TimeVal, i: nat)
    | Stamped(start: TimeVal, end: TimeVal)
    | Stored(start: TimeVal, end: TimeVal)
    | Signalled(start: TimeVal, end: TimeVal)

  /** Where the main thread is in time_show: in which loop, at which CPU, with which running total. */
  datatype Main =
    | Initialising(cpu: nat)
    | Creating(cpu: nat)
    | Releasing
    | Joining(cpu: nat)
    | Summing(cpu: nat, total: nat)
    | Returned(total: nat)

  datatype State = State(
    main: Main,
    workers: seq<Worker>,
    released: bool,           // main_start is complete
    ended: seq<bool>,         // threads[cpu].end is complete
    time: seq<nat>,           // threads[cpu].time
    freed: bool,              // kfree(threads)
    clock: int,               // the latest time of day anybody has read, in microseconds
    fired: seq<(nat, nat)>)   // the trace: (cpu, i)

  /** Memory from kmalloc holds anything; nothing is created yet. */
  ghost predicate Initial(c: Config, s: State)
  {
    && s.main == Initialising(0)
    && s.workers == seq(c.n, _ => Absent)
    && |s.ended| == |s.time| == c.n
    && !s.released && !s.freed && s.fired == []
  }

  /** Which thread moves; now is the time of day it reads, if it reads it. */
  datatype Move = MainMoves | WorkerMoves(cpu: nat, now: TimeVal)

  predicate Enabled(c: Config, s: State, m: Move)
    requires |s.workers| == |s.ended| == |s.time| == c.n
  {
    match m
    case MainMoves =>
      (match s.main
       case Joining(cpu) => cpu < c.n ==> s.ended[cpu]
       case Returned(_) => false
       case _ => true)
    case WorkerMoves(cpu, now) =>
      && cpu < c.n
      && (match s.workers[cpu]
          case Absent => false
          case Waiting => s.released && now.Normal() && s.clock <= now.Micros()
          case Firing(_, i) => i < c.count || (now.Normal() && s.clock <= now.Micros())
          case Signalled(_, _) => false
          case _ => true)
  }

  function MainStep(c: Config, s: State): (s': State)
    requires |s.workers| == |s.ended| == |s.time| == c.n
    requires !s.main.Returned?
    ensures |s'.workers| == |s'.ended| == |s'.time| == c.n
  {
    match s.main
    case Initialising(cpu) =>
      if cpu < c.n then s.(main := Initialising(cpu + 1), ended := s.ended[cpu := false], time := s.time[cpu := 0])
      else s.(main := Creating(0))
    case Creating(cpu) =>
      if cpu < c.n then s.(main := Creating(cpu + 1), workers := s.workers[cpu := Waiting])
      else s.(main := Releasing)
    case Releasing => s.(main := Joining(0), released := true)
    case Joining(cpu) => s.(main := if cpu < c.n then Joining(cpu + 1) else Summing(0, 0))
    case Summing(cpu, total) =>
      if cpu < c.n then s.(main := Summing(cpu + 1, U64(total + s.time[cpu])))
      else s.(main := Returned(total), freed := true)
  }

  function WorkerStep(c: Config, s: State, cpu: nat, now: TimeVal): (s': State)
    requires |s.workers| == |s.ended| == |s.time| == c.n
    requires cpu < c.n && !s.workers[cpu].Absent? && !s.workers[cpu].Signalled?
    ensures |s'.workers| == |s'.ended| == |s'.time| == c.n
  {
    match s.workers[cpu]
    case Waiting => s.(workers := s.workers[cpu := Firing(now, 0)], clock := now.Micros())
    case Firing(start, i) =>
      if i < c.count then s.(workers := s.workers[cpu := Firing(start, i + 1)], fired := s.fired + [(cpu, i)])
      else s.(workers := s.workers[cpu := Stamped(start, now)], clock := now.Micros())
    case Stamped(start, end) =>
      s.(workers := s.workers[cpu := Stored(start, end)], time := s.time[cpu := Elapsed(start, end)])
    case Stored(start, end) =>
      s.(workers := s.workers[cpu := Signalled(start, end)], ended := s.ended[cpu := true])
  }

  function Apply(c: Config, s: State, m: Move): (s': State)
    requires |s.workers| == |s.ended| == |s.time| == c.n
    requires Enabled(c, s, m)
    ensures |s'.workers| == |s'.ended| == |s'.time| == c.n
  {
    match m
    case MainMoves => MainStep(c, s)
    case WorkerMoves(cpu, now) => WorkerStep(c, s, cpu, now)
  }

  /** A run: a sequence of moves, each enabled where it is taken. */
  ghost predicate Legal(c: Config, s: State, moves: seq<Move>)
    requires |s.workers| == |s.ended| == |s.time| == c.n
    decreases |moves|
  {
    moves == [] || (Enabled(c, s, moves[0]) && Legal(c, Apply(c, s, moves[0]), moves[1..]))
  }

  ghost function After(c: Config, s: State, moves: seq<Move>): (s': State)
    requires |s.workers| == |s.ended| == |s.time| == c.n
    requires Legal(c, s, moves)
    ensures |s'.workers| == |s'.ended| == |s'.time| == c.n
    decreases |moves|
  {
    if moves == [] then s else After(c, Apply(c, s, moves[0]), moves[1..])
  }

  // What every step keeps

  /** How many events a worker has fired. */
  function Progress(c: Config, w: Worker): nat
  {
    match w
    case Absent => 0
    case Waiting => 0
    case Firing(_, i) => i
    case _ => c.count
  }

  /** The indices that one CPU has traced, in order. */
  function FiredBy(fired: seq<(nat, nat)>, cpu: nat): seq<nat>
  {
    if fired == [] then []
    else
      var (who, i) := fired[|fired| - 1];
      FiredBy(fired[..|fired| - 1], cpu) + if who == cpu then [i] else []
  }

  function UpTo(n: nat): seq<nat> { seq(n, i => i) }

  function Sum(f: Worker -> int, ws: seq<Worker>): int
  {
    if ws == [] then 0 else Sum(f, ws[..|ws| - 1]) + f(ws[|ws| - 1])
  }

  function ProgressIn(c: Config): Worker -> int { w => Progress(c, w) }

  /** True elapsed microseconds of a worker that has both timestamps. */
  function Lasted(w: Worker): int
  {
    if w.Stamped? || w.Stored? || w.Signalled? then w.end.Micros() - w.start.Micros() else 0
  }

  ghost predicate Created(s: State, cpu: nat)
  {
    match s.main
    case Initialising(_) => false
    case Creating(k) => cpu < k
    case _ => true
  }

  ghost predicate WorkerOk(c: Config, s: State, cpu: nat)
    requires |s.workers| == |s.ended| == |s.time| == c.n && cpu < c.n
  {
    var w := s.workers[cpu];
    && (w.Absent? <==> !Created(s, cpu))
    && (!w.Absent? && !w.Waiting? ==> s.released && w.start.Micros() <= s.clock)
    && (w.Firing? ==> w.i <= c.count)
    && (w.Stamped? || w.Stored? || w.Signalled? ==> w.start.Micros() <= w.end.Micros() <= s.clock)
    && (w.Stored? || w.Signalled? ==> s.time[cpu] == Elapsed(w.start, w.end))
    && (!s.main.Initialising? ==> (s.ended[cpu] <==> w.Signalled?))
    && (s.main.Initialising? && cpu < s.main.cpu ==> !s.ended[cpu])
    && FiredBy(s.fired, cpu) == UpTo(Progress(c, w))
  }

  ghost predicate MainOk(c: Config, s: State)
    requires |s.workers| == |s.ended| == |s.time| == c.n
  {
    && (s.released <==> s.main.Joining? || s.main.Summing? || s.main.Returned?)
    && (s.freed <==> s.main.Returned?)
    && (s.main.Initialising? || s.main.Creating? || s.main.Joining? || s.main.Summing? ==> s.main.cpu <= c.n)
    && (forall j | 0 <= j < c.n ::
          (s.main.Joining? && j < s.main.cpu) || s.main.Summing? || s.main.Returned? ==> s.workers[j].Signalled?)
    && (s.main.Summing? ==> s.main.total == U64(Sum(Lasted, s.workers[..s.main.cpu])))
    && (s.main.Returned? ==> s.main.total == U64(Sum(Lasted, s.workers)))
  }

  ghost predicate Inv(c: Config, s: State)
  {
    && |s.workers| == |s.ended| == |s.time| == c.n
    && (forall cpu | 0 <= cpu < c.n :: WorkerOk(c, s, cpu))
    && MainOk(c, s)
    && |s.fired| == Sum(ProgressIn(c), s.workers)
  }

  // Lemmas on the sums and on the trace

  lemma {:induction false} SumUpdate(f: Worker -> int, ws: seq<Worker>, j: nat, w: Worker)
    requires j < |ws|
    ensures Sum(f, ws[j := w]) == Sum(f, ws) - f(ws[j]) + f(w)
  {
    var last := |ws| - 1;
    if j == last {
      assert ws[j := w][..last] == ws[..last];
    } else {
      assert ws[j := w][..last] == ws[..last][j := w];
      SumUpdate(f, ws[..last], j, w);
    }
  }

  lemma {:induction false} SumOfNothing(f: Worker -> int, ws: seq<Worker>)
    requires forall j | 0 <= j < |ws| :: f(ws[j]) == 0
    ensures Sum(f, ws) == 0
  {
    if ws != [] { SumOfNothing(f, ws[..|ws| - 1]); }
  }

  lemma {:induction false} SumOfEqual(f: Worker -> int, ws: seq<Worker>, k: int)
    requires forall j | 0 <= j < |ws| :: f(ws[j]) == k
    ensures Sum(f, ws) == |ws| * k
  {
    if ws != [] { SumOfEqual(f, ws[..|ws| - 1], k); }
  }

  lemma FiredBySnoc(fired: seq<(nat, nat)>, cpu: nat, i: nat, other: nat)
    ensures FiredBy(fired + [(cpu, i)], other) == FiredBy(fired, other) + if cpu == other then [i] else []
  {
    assert (fired + [(cpu, i)])[..|fired|] == fired;
  }

  // The invariant holds in every reachable state

  lemma InitialInv(c: Config, s: State)
    requires Initial(c, s)
    ensures Inv(c, s)
  {
    SumOfNothing(ProgressIn(c), s.workers);
    assert s.workers[..0] == [];
  }

  lemma AddModulo(x: int, y: int)
    ensures U64(U64(x) + U64(y)) == U64(x + y)
  {
    hide U64;
    var a := U64Quotient(x);
    var b := U64Quotient(y);
    U64OfMultiple(x + y, a + b);
  }

  lemma MainKeepsWorker(c: Config, s: State, cpu: nat)
    requires Inv(c, s) && Enabled(c, s, MainMoves) && cpu < c.n
    ensures WorkerOk(c, MainStep(c, s), cpu)
  {
    hide Elapsed, FiredBy;
    assert WorkerOk(c, s, cpu);
    if s.main.Joining? || s.main.Summing? { assert MainOk(c, s); }
  }

  lemma MainKeepsMain(c: Config, s: State)
    requires Inv(c, s) && Enabled(c, s, MainMoves)
    ensures MainOk(c, MainStep(c, s))
  {
    hide Elapsed, FiredBy, U64, Inv;
    KnownOfInv(c, s);
    if s.main.Joining? {
      assert s.workers[..0] == [];
      U64OfSmall(0);
      if s.main.cpu < c.n { assert WorkerOk(c, s, s.main.cpu); }
    } else if s.main.Summing? {
      var k := s.main.cpu;
      if k < c.n {
        assert WorkerOk(c, s, k);
        assert s.workers[..k + 1][..k] == s.workers[..k];
        ElapsedIsTrueDifference(s.workers[k].start, s.workers[k].end);
        AddModulo(Sum(Lasted, s.workers[..k]), Lasted(s.workers[k]));
      } else {
        assert s.workers[..k] == s.workers;
      }
    }
  }

  lemma KnownOfInv(c: Config, s: State)
    requires Inv(c, s)
    ensures |s.workers| == |s.ended| == |s.time| == c.n
    ensures MainOk(c, s) && forall cpu | 0 <= cpu < c.n :: WorkerOk(c, s, cpu)
  {
  }

  lemma MainKeepsInv(c: Config, s: State)
    requires Inv(c, s) && Enabled(c, s, MainMoves)
    ensures Inv(c, MainStep(c, s))
  {
    hide WorkerOk, MainOk, Sum;
    if s.main.Creating? && s.main.cpu < c.n {
      NotYetCreated(c, s);
      SumUpdate(ProgressIn(c), s.workers, s.main.cpu, Waiting);
    }
    forall cpu | 0 <= cpu < c.n ensures WorkerOk(c, MainStep(c, s), cpu) {
      MainKeepsWorker(c, s, cpu);
    }
    MainKeepsMain(c, s);
  }

  lemma NotYetCreated(c: Config, s: State)
    requires Inv(c, s) && s.main.Creating? && s.main.cpu < c.n
    ensures s.workers[s.main.cpu].Absent?
  {
    assert WorkerOk(c, s, s.main.cpu);
  }

  lemma WorkerKeepsOther(c: Config, s: State, cpu: nat, now: TimeVal, other: nat)
    requires Inv(c, s) && Enabled(c, s, WorkerMoves(cpu, now)) && other < c.n && other != cpu
    ensures WorkerOk(c, WorkerStep(c, s, cpu, now), other)
  {
    hide Elapsed, FiredBy;
    assert WorkerOk(c, s, other);
    var w := s.workers[cpu];
    if w.Firing? {
      FiredBySnoc(s.fired, cpu, w.i, other);
      assert FiredBy(s.fired, other) + [] == FiredBy(s.fired, other);
    }
  }

  lemma WorkerKeepsItself(c: Config, s: State, cpu: nat, now: TimeVal)
    requires Inv(c, s) && Enabled(c, s, WorkerMoves(cpu, now))
    ensures WorkerOk(c, WorkerStep(c, s, cpu, now), cpu)
  {
    hide Elapsed, FiredBy;
    assert WorkerOk(c, s, cpu);
    var w := s.workers[cpu];
    if w.Firing? {
      FiredBySnoc(s.fired, cpu, w.i, cpu);
      assert UpTo(w.i + 1) == UpTo(w.i) + [w.i];
    }
  }

  /** No worker moves any more once main looks at its slot, so what main has found stays true. */
  lemma WorkerKeepsMain(c: Config, s: State, cpu: nat, now: TimeVal)
    requires Inv(c, s) && Enabled(c, s, WorkerMoves(cpu, now))
    ensures MainOk(c, WorkerStep(c, s, cpu, now))
  {
    hide WorkerOk, Sum, U64, Elapsed;
    assert !s.workers[cpu].Signalled?;
    assert !s.main.Summing? && !s.main.Returned?;
  }

  lemma ProgressIsCounted(c: Config, s: State, cpu: nat, now: TimeVal)
    requires Inv(c, s) && Enabled(c, s, WorkerMoves(cpu, now))
    ensures var s' := WorkerStep(c, s, cpu, now);
            |s'.fired| - |s.fired| == Progress(c, s'.workers[cpu]) - Progress(c, s.workers[cpu])
  {
    assert WorkerOk(c, s, cpu);
  }

  lemma WorkerKeepsInv(c: Config, s: State, cpu: nat, now: TimeVal)
    requires Inv(c, s) && Enabled(c, s, WorkerMoves(cpu, now))
    ensures Inv(c, WorkerStep(c, s, cpu, now))
  {
    hide WorkerOk, MainOk, Sum, Elapsed;
    ProgressIsCounted(c, s, cpu, now);
    SumUpdate(ProgressIn(c), s.workers, cpu, WorkerStep(c, s, cpu, now).workers[cpu]);
    WorkerKeepsItself(c, s, cpu, now);
    forall other | 0 <= other < c.n ensures WorkerOk(c, WorkerStep(c, s, cpu, now), other) {
      if other != cpu { WorkerKeepsOther(c, s, cpu, now, other); }
    }
    WorkerKeepsMain(c, s, cpu, now);
  }

  // Every run

  lemma {:induction false} EveryRunKeepsInv(c: Config, s: State, moves: seq<Move>)
    requires |s.workers| == |s.ended| == |s.time| == c.n
    requires Inv(c, s) && Legal(c, s, moves)
    ensures Inv(c, After(c, s, moves))
    decreases |moves|
  {
    hide Inv, Apply, Enabled;
    if moves != [] {
      StepKeepsInv(c, s, moves[0]);
      EveryRunKeepsInv(c, Apply(c, s, moves[0]), moves[1..]);
    }
  }

  lemma StepKeepsInv(c: Config, s: State, m: Move)
    requires Inv(c, s) && Enabled(c, s, m)
    ensures Inv(c, Apply(c, s, m))
  {
    hide Inv, Enabled;
    match m
    case MainMoves => MainKeepsInv(c, s);
    case WorkerMoves(cpu, now) => WorkerKeepsInv(c, s, cpu, now);
  }

  /**
   * Safety, in every state that any interleaving reaches: no worker has read its start time before all workers exist
   * and complete_all ran; main adds up only the times of workers that have signalled; and the slots are freed only
   * when every worker has signalled, after which no worker has a step left that could touch them.
   */
  lemma SafeInEveryRun(c: Config, s0: State, moves: seq<Move>)
    requires Initial(c, s0) && Legal(c, s0, moves)
    ensures var s := After(c, s0, moves);
      && (forall cpu | 0 <= cpu < c.n && !s.workers[cpu].Absent? && !s.workers[cpu].Waiting? ::
            s.released && forall other | 0 <= other < c.n :: !s.workers[other].Absent?)
      && (s.main.Summing? ==> forall cpu | 0 <= cpu < c.n :: s.workers[cpu].Signalled?)
      && (s.freed ==> forall cpu, now | 0 <= cpu < c.n :: !Enabled(c, s, WorkerMoves(cpu, now)))
  {
    InitialInv(c, s0);
    EveryRunKeepsInv(c, s0, moves);
    var s := After(c, s0, moves);
    SafeUnderInv(c, s);
  }

  lemma SafeUnderInv(c: Config, s: State)
    requires Inv(c, s)
    ensures forall cpu | 0 <= cpu < c.n && !s.workers[cpu].Absent? && !s.workers[cpu].Waiting? ::
              s.released && forall other | 0 <= other < c.n :: !s.workers[other].Absent?
    ensures s.main.Summing? || s.freed ==> forall cpu | 0 <= cpu < c.n :: s.workers[cpu].Signalled?
  {
    hide FiredBy, Sum, Elapsed;
    forall cpu | 0 <= cpu < c.n && !s.workers[cpu].Absent? && !s.workers[cpu].Waiting?
      ensures s.released && forall other | 0 <= other < c.n :: !s.workers[other].Absent?
    {
      assert WorkerOk(c, s, cpu);
      forall other | 0 <= other < c.n ensures !s.workers[other].Absent? { assert WorkerOk(c, s, other); }
    }
  }

  // What the threads have read, by the moves of the run

  function MovesOf(cpu: nat): Move -> bool { (m: Move) => m.WorkerMoves? && m.cpu == cpu }

  /** How many steps a worker has taken. */
  function Steps(moves: seq<Move>, cpu: nat): nat { |Places(moves, MovesOf(cpu))| }

  /** The time of day at the k-th of them, counted from 0. */
  function Reading(moves: seq<Move>, cpu: nat, k: nat): TimeVal
    requires k < Steps(moves, cpu)
  {
    moves[Places(moves, MovesOf(cpu))[k]].now
  }

  lemma OneMoreMove(moves: seq<Move>, m: Move, cpu: nat)
    ensures var mine := m.WorkerMoves? && m.cpu == cpu;
      && Steps(moves + [m], cpu) == Steps(moves, cpu) + (if mine then 1 else 0)
      && (forall k | 0 <= k < Steps(moves, cpu) :: Reading(moves + [m], cpu, k) == Reading(moves, cpu, k))
      && (mine ==> Reading(moves + [m], cpu, Steps(moves, cpu)) == m.now)
  {
    PlacesSnoc(moves, m, MovesOf(cpu));
  }

  /** The steps a worker has taken, and which of its readings it holds. */
  ghost predicate Seen(c: Config, w: Worker, moves: seq<Move>, cpu: nat)
  {
    var steps := Steps(moves, cpu);
    match w
    case Absent => steps == 0
    case Waiting => steps == 0
    case Firing(start, i) => steps == i + 1 && start == Reading(moves, cpu, 0)
    case Stamped(start, end) =>
      steps == c.count + 2 && start == Reading(moves, cpu, 0) && end == Reading(moves, cpu, c.count + 1)
    case Stored(start, end) =>
      steps == c.count + 3 && start == Reading(moves, cpu, 0) && end == Reading(moves, cpu, c.count + 1)
    case Signalled(start, end) =>
      steps == c.count + 4 && start == Reading(moves, cpu, 0) && end == Reading(moves, cpu, c.count + 1)
  }

  /** Steps 1 to count of a worker, and no others, fire its events 0 to count - 1. */
  function TraceOf(c: Config, moves: seq<Move>): seq<(nat, nat)>
  {
    if moves == [] then []
    else
      var before, m := moves[..|moves| - 1], moves[|moves| - 1];
      TraceOf(c, before)
      + if m.MainMoves? then []
        else
          var k := Steps(before, m.cpu);
          if 1 <= k <= c.count then [(m.cpu, k - 1)] else []
  }

  ghost predicate History(c: Config, s: State, moves: seq<Move>)
    requires |s.workers| == c.n
  {
    && (forall cpu | 0 <= cpu < c.n :: Seen(c, s.workers[cpu], moves, cpu))
    && s.fired == TraceOf(c, moves)
  }

  lemma SeenStays(c: Config, w: Worker, moves: seq<Move>, m: Move, cpu: nat)
    requires Seen(c, w, moves, cpu) && !(m.WorkerMoves? && m.cpu == cpu)
    ensures Seen(c, w, moves + [m], cpu)
  {
    hide Steps, Reading;
    OneMoreMove(moves, m, cpu);
  }

  lemma SeenMoves(c: Config, s: State, moves: seq<Move>, cpu: nat, now: TimeVal)
    requires Inv(c, s) && Enabled(c, s, WorkerMoves(cpu, now)) && Seen(c, s.workers[cpu], moves, cpu)
    ensures Seen(c, WorkerStep(c, s, cpu, now).workers[cpu], moves + [WorkerMoves(cpu, now)], cpu)
  {
    hide FiredBy, Elapsed, MainOk, Sum, Steps, Reading;
    assert WorkerOk(c, s, cpu);
    OneMoreMove(moves, WorkerMoves(cpu, now), cpu);
  }

  lemma TraceMoves(c: Config, s: State, moves: seq<Move>, m: Move)
    requires Inv(c, s) && Enabled(c, s, m) && History(c, s, moves)
    ensures Apply(c, s, m).fired == TraceOf(c, moves + [m])
  {
    hide FiredBy, Elapsed, MainOk, Sum, Steps, Reading;
    assert (moves + [m])[..|moves|] == moves;
    if m.WorkerMoves? {
      assert WorkerOk(c, s, m.cpu) && Seen(c, s.workers[m.cpu], moves, m.cpu);
    }
  }

  lemma HistoryMoves(c: Config, s: State, moves: seq<Move>, m: Move)
    requires Inv(c, s) && Enabled(c, s, m) && History(c, s, moves)
    ensures History(c, Apply(c, s, m), moves + [m])
  {
    hide WorkerOk, MainOk, Sum, Seen, TraceOf, Elapsed;
    TraceMoves(c, s, moves, m);
    var s' := Apply(c, s, m);
    forall cpu | 0 <= cpu < c.n ensures Seen(c, s'.workers[cpu], moves + [m], cpu) {
      WorkerMovesAlone(c, s, moves, m, cpu);
    }
  }

  lemma WorkerMovesAlone(c: Config, s: State, moves: seq<Move>, m: Move, cpu: nat)
    requires Inv(c, s) && Enabled(c, s, m) && cpu < c.n && Seen(c, s.workers[cpu], moves, cpu)
    ensures Seen(c, Apply(c, s, m).workers[cpu], moves + [m], cpu)
  {
    hide FiredBy, Elapsed, MainOk, Sum, Seen;
    if m.WorkerMoves? && m.cpu == cpu {
      SeenMoves(c, s, moves, cpu, m.now);
    } else {
      SeenStays(c, s.workers[cpu], moves, m, cpu);
      if s.main.Creating? && s.main.cpu == cpu && m.MainMoves? {
        NotYetCreated(c, s);
        CreatedUnseen(c, moves + [m], cpu);
      }
    }
  }

  lemma CreatedUnseen(c: Config, moves: seq<Move>, cpu: nat)
    ensures Seen(c, Absent, moves, cpu) ==> Seen(c, Waiting, moves, cpu)
  {
    hide Steps, Reading;
  }

  lemma {:induction false} EveryRunHasHistory(c: Config, s: State, before: seq<Move>, moves: seq<Move>)
    requires |s.workers| == |s.ended| == |s.time| == c.n
    requires Inv(c, s) && History(c, s, before) && Legal(c, s, moves)
    ensures History(c, After(c, s, moves), before + moves)
    decreases |moves|
  {
    hide Inv, Apply, Enabled, History;
    if moves == [] {
      assert before + moves == before;
    } else {
      StepKeepsInv(c, s, moves[0]);
      HistoryMoves(c, s, before, moves[0]);
      EveryRunHasHistory(c, Apply(c, s, moves[0]), before + [moves[0]], moves[1..]);
      assert before + [moves[0]] + moves[1..] == before + moves;
    }
  }

  function MicrosBetween(start: TimeVal, end: TimeVal): int
  {
    (end.sec - start.sec) * 1_000_000 + (end.usec - start.usec)
  }

  /** The sum, over the first k workers, of the time between the first reading of each and the one after its events. */
  function Measured(c: Config, moves: seq<Move>, k: nat): int
    requires forall cpu | 0 <= cpu < k :: Steps(moves, cpu) == c.count + 4
  {
    if k == 0 then 0
    else
      var n: nat := c.count;
      Measured(c, moves, k - 1)
      + MicrosBetween(Reading(moves, k - 1, 0), Reading(moves, k - 1, n + 1))
  }

  lemma {:induction false} MeasuredIsSum(c: Config, ws: seq<Worker>, moves: seq<Move>)
    requires forall cpu | 0 <= cpu < |ws| :: ws[cpu].Signalled? && Seen(c, ws[cpu], moves, cpu)
    ensures forall cpu | 0 <= cpu < |ws| :: Steps(moves, cpu) == c.count + 4
    ensures Measured(c, moves, |ws|) == Sum(Lasted, ws)
  {
    hide Steps, Reading;
    forall cpu | 0 <= cpu < |ws| ensures Steps(moves, cpu) == c.count + 4 { assert ws[cpu].Signalled?; }
    if ws != [] {
      MeasuredIsSum(c, ws[..|ws| - 1], moves);
      assert Seen(c, ws[|ws| - 1], moves, |ws| - 1);
    }
  }

  /**
   * The total that main returns, from the moves of the run: each worker has read the time at its first step, fired its
   * events at the next count steps, in order, and read the time again at the step after them; the total is the sum of
   * the differences between those two readings in microseconds, modulo 2^64.
   */
  lemma TotalOfEveryCompleteRun(c: Config, s0: State, moves: seq<Move>)
    requires Initial(c, s0) && Legal(c, s0, moves) && After(c, s0, moves).main.Returned?
    ensures forall cpu | 0 <= cpu < c.n :: Steps(moves, cpu) == c.count + 4
    ensures var s := After(c, s0, moves);
      && (forall cpu | 0 <= cpu < c.n ::
            && s.workers[cpu].Signalled? && 0 <= Lasted(s.workers[cpu])
            && FiredBy(s.fired, cpu) == UpTo(c.count))
      && s.fired == TraceOf(c, moves) && |s.fired| == c.n * c.count
      && 0 <= Measured(c, moves, c.n)
      && s.main.total == Measured(c, moves, c.n) % 0x1_0000_0000_0000_0000
      && (Measured(c, moves, c.n) < 0x1_0000_0000_0000_0000 ==> s.main.total == Measured(c, moves, c.n))
  {
    hide Inv, Seen, TraceOf, Measured, FiredBy, Lasted, Steps;
    InitialInv(c, s0);
    NothingSeen(c, s0);
    EveryRunKeepsInv(c, s0, moves);
    EveryRunHasHistory(c, s0, [], moves);
    assert [] + moves == moves;
    var s := After(c, s0, moves);
    TotalUnderInv(c, s);
    MeasuredIsSum(c, s.workers, moves);
  }

  lemma NothingSeen(c: Config, s: State)
    requires Initial(c, s)
    ensures History(c, s, [])
  {
  }

  lemma TotalUnderInv(c: Config, s: State)
    requires Inv(c, s) && s.main.Returned?
    ensures forall cpu | 0 <= cpu < c.n ::
              && s.workers[cpu].Signalled? && 0 <= Lasted(s.workers[cpu])
              && FiredBy(s.fired, cpu) == UpTo(c.count)
    ensures |s.fired| == c.n * c.count
    ensures 0 <= Sum(Lasted, s.workers) && s.main.total == Sum(Lasted, s.workers) % TWO64
  {
    forall cpu | 0 <= cpu < c.n
      ensures s.workers[cpu].Signalled? && 0 <= Lasted(s.workers[cpu]) && FiredBy(s.fired, cpu) == UpTo(c.count)
    {
      assert WorkerOk(c, s, cpu);
    }
    SumOfEqual(ProgressIn(c), s.workers, c.count);
    SumIsNatural(s.workers);
  }

  lemma {:induction false} SumIsNatural(ws: seq<Worker>)
    requires forall j | 0 <= j < |ws| :: 0 <= Lasted(ws[j])
    ensures 0 <= Sum(Lasted, ws)
  {
    if ws != [] { SumIsNatural(ws[..|ws| - 1]); }
  }

  // Progress

  /** Steps a worker has left. */
  function WorkLeft(c: Config, w: Worker): int
  {
    match w
    case Absent => c.count + 4
    case Waiting => c.count + 4
    case Firing(_, i) => c.count - i + 3
    case Stamped(_, _) => 2
    case Stored(_, _) => 1
    case Signalled(_, _) => 0
  }

  function WorkLeftIn(c: Config): Worker -> int { w => WorkLeft(c, w) }

  /** Steps main has left. */
  function MainLeft(c: Config, m: Main): int
  {
    match m
    case Initialising(cpu) => c.n - cpu + 3 * c.n + 5
    case Creating(cpu) => c.n - cpu + 2 * c.n + 4
    case Releasing => 2 * c.n + 3
    case Joining(cpu) => c.n - cpu + c.n + 2
    case Summing(cpu, _) => c.n - cpu + 1
    case Returned(_) => 0
  }

  function StepsLeft(c: Config, s: State): int
  {
    MainLeft(c, s.main) + Sum(WorkLeftIn(c), s.workers)
  }

  /** Every step of every thread is one step less to go. */
  lemma StepsCountDown(c: Config, s: State, m: Move)
    requires Inv(c, s) && Enabled(c, s, m)
    ensures StepsLeft(c, Apply(c, s, m)) == StepsLeft(c, s) - 1
  {
    hide FiredBy, Elapsed;
    match m
    case MainMoves =>
      if s.main.Creating? && s.main.cpu < c.n {
        NotYetCreated(c, s);
        SumUpdate(WorkLeftIn(c), s.workers, s.main.cpu, Waiting);
      }
    case WorkerMoves(cpu, now) =>
      assert WorkerOk(c, s, cpu);
      SumUpdate(WorkLeftIn(c), s.workers, cpu, WorkerStep(c, s, cpu, now).workers[cpu]);
  }

  lemma {:induction false} StepsLeftIsNatural(c: Config, s: State, k: nat)
    requires Inv(c, s) && k <= c.n
    ensures 0 <= Sum(WorkLeftIn(c), s.workers[..k])
  {
    if k > 0 {
      StepsLeftIsNatural(c, s, k - 1);
      assert s.workers[..k][..k - 1] == s.workers[..k - 1];
      assert WorkerOk(c, s, k - 1);
    }
  }

  /** No deadlock: until main has returned, some thread can move. */
  lemma SomebodyCanMove(c: Config, s: State) returns (m: Move)
    requires Inv(c, s) && !s.main.Returned?
    ensures Enabled(c, s, m)
  {
    m := MainMoves;
    if !Enabled(c, s, MainMoves) {
      var cpu := s.main.cpu;
      assert WorkerOk(c, s, cpu);
      var sec := s.clock / USEC_PER_SEC;
      m := WorkerMoves(cpu, TimeVal(sec, s.clock % USEC_PER_SEC));
    }
  }

  /** From the release to its signal a worker can take its next step at any time, wherever the others are. */
  lemma WorkersRunFreely(c: Config, s: State, cpu: nat, now: TimeVal)
    requires Inv(c, s) && s.released && cpu < c.n && !s.workers[cpu].Signalled?
    requires now.Normal() && s.clock <= now.Micros()
    ensures Enabled(c, s, WorkerMoves(cpu, now))
  {
    assert WorkerOk(c, s, cpu);
  }

  lemma {:induction false} StepsOfRun(c: Config, s: State, moves: seq<Move>)
    requires |s.workers| == |s.ended| == |s.time| == c.n
    requires Inv(c, s) && Legal(c, s, moves)
    ensures StepsLeft(c, After(c, s, moves)) == StepsLeft(c, s) - |moves|
    decreases |moves|
  {
    hide Inv, Apply, Enabled, StepsLeft;
    if moves != [] {
      StepKeepsInv(c, s, moves[0]);
      StepsCountDown(c, s, moves[0]);
      StepsOfRun(c, Apply(c, s, moves[0]), moves[1..]);
    }
  }

  /**
   * Every run ends, and ends well: no interleaving is longer than 4n + 5 + n(count + 4) steps, and a run is that long
   * exactly when main has returned, which is exactly when no thread can move.
   */
  lemma EveryRunTerminates(c: Config, s0: State, moves: seq<Move>)
    requires Initial(c, s0) && Legal(c, s0, moves)
    ensures var s := After(c, s0, moves);
            var all := 4 * c.n + 5 + c.n * (c.count + 4);
      && |moves| <= all
      && (|moves| == all <==> s.main.Returned?)
      && (s.main.Returned? <==> forall m :: !Enabled(c, s, m))
  {
    hide StepsLeft, Inv, After, Legal, Enabled;
    InitialInv(c, s0);
    EveryRunKeepsInv(c, s0, moves);
    StepsOfRun(c, s0, moves);
    StepsAtFirst(c, s0);
    StepsAtLast(c, After(c, s0, moves));
  }

  /** Whatever has happened so far, the run can be completed. */
  lemma {:induction false} EveryRunCanBeCompleted(c: Config, s: State) returns (moves: seq<Move>)
    requires Inv(c, s)
    ensures |s.workers| == |s.ended| == |s.time| == c.n
    ensures Legal(c, s, moves) && After(c, s, moves).main.Returned?
    decreases StepsLeft(c, s)
  {
    hide WorkerOk, MainOk, Sum, Apply, StepsLeft;
    moves := [];
    if !s.main.Returned? {
      var m := SomebodyCanMove(c, s);
      StepKeepsInv(c, s, m);
      StepsCountDown(c, s, m);
      StepsAtLast(c, s);
      StepsAtLast(c, Apply(c, s, m));
      var more := EveryRunCanBeCompleted(c, Apply(c, s, m));
      moves := [m] + more;
      assert moves[1..] == more;
    }
  }

  /** A run can start with anything in the slots, at any time of day. */
  lemma AnyStart(c: Config, ended: seq<bool>, time: seq<nat>, clock: int)
    requires |ended| == |time| == c.n
    ensures Initial(c, State(Initialising(0), seq(c.n, _ => Absent), false, ended, time, false, clock, []))
  {
  }

  lemma StepsAtFirst(c: Config, s: State)
    requires Initial(c, s)
    ensures StepsLeft(c, s) == 4 * c.n + 5 + c.n * (c.count + 4)
  {
    SumOfEqual(WorkLeftIn(c), s.workers, c.count + 4);
  }

  /** Steps are left exactly until main has returned, and exactly as long as somebody can move. */
  lemma StepsAtLast(c: Config, s: State)
    requires Inv(c, s)
    ensures 0 <= StepsLeft(c, s) && (StepsLeft(c, s) == 0 <==> s.main.Returned?)
    ensures s.main.Returned? <==> forall m :: !Enabled(c, s, m)
  {
    hide WorkerOk, Sum;
    StepsLeftIsNatural(c, s, c.n);
    assert s.workers[..c.n] == s.workers;
    if s.main.Returned? {
      SafeUnderInv(c, s);
      SumOfEqual(WorkLeftIn(c), s.workers, 0);
    } else {
      var m := SomebodyCanMove(c, s);
    }
  }
}
