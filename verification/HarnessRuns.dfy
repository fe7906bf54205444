/** What every run of the harness does: it ends, it prints the logs, and the times in them can be subtracted. */
module HarnessRuns {
  import opened Text
  import opened Json
  import opened SharedEvents
  import opened Printer
  import opened Reporting
  import opened Harness
  import opened HarnessHistory
  import UstBenchmark

  // What every complete run prints

  function AllEvents(s: State): (logs: seq<seq<Event>>)
    ensures |logs| == |s.adds|
    ensures forall i | 0 <= i < |logs| :: logs[i] == Events(s.adds[i])
  {
    seq(|s.adds|, i requires 0 <= i < |s.adds| => Events(s.adds[i]))
  }

  /** Each child that has exited well has added its whole script, in order, and nothing else is in its segment. */
  lemma FinishedUnderInv(c: Config, s: State)
    requires Inv(c, s) && s.parent.Finished?
    ensures s.parent.output.Some? <==> forall i | 0 <= i < |c.pids| :: |Script(c, i)| <= MAX_EVENT_COUNT
    ensures s.parent.output.Some? ==>
      && s.parent.output.value == ReportText(AllEvents(s))
      && forall i | 0 <= i < |c.pids| ::
           |s.adds[i]| == |Script(c, i)| && Named(s.adds[i], Script(c, i)) && Timed(s.adds[i], s.clock)
  {
    hide Timed, Named, ReportText;
    forall i | 0 <= i < |c.pids|
      ensures s.children[i] == Exited(0) <==> |Script(c, i)| <= MAX_EVENT_COUNT
      ensures Named(s.adds[i], Script(c, i)) && Timed(s.adds[i], s.clock)
      ensures s.children[i] == Exited(0) ==> |s.adds[i]| == |Script(c, i)|
      ensures LogsExist(c, s) ==> Logs(s.memory, c.pids)[i] == AllEvents(s)[i]
    {
      assert ChildOk(c, s, i);
      LogLength(s.memory[c.pids[i]]);
    }
    if s.parent.output.Some? { assert Logs(s.memory, c.pids) == AllEvents(s); }
  }

  ghost predicate ScriptsNeedNoEscape(c: Config)
    requires |c.pids| == |c.programs|
  {
    forall i, k | 0 <= i < |c.pids| && 0 <= k < |Script(c, i)| :: NeedsNoEscape(Script(c, i)[k])
  }

  /** The time an event carries: "start" that of leaving its call, any other that of entering it. */
  function StampOf(c: Config, moves: seq<Move>, i: nat, k: nat): Timespec
    requires i < |c.programs| && k < |Script(c, i)| && EnterAt(k) + 1 < Steps(moves, i)
  {
    Reading(moves, i, if Script(c, i)[k] == "start" then EnterAt(k) + 1 else EnterAt(k))
  }

  ghost predicate AllRan(c: Config, moves: seq<Move>)
    requires |c.pids| == |c.programs|
  {
    forall i | 0 <= i < |c.pids| :: Steps(moves, i) == 2 * |Script(c, i)| + 4
  }

  /** What a child logs: "exec" and then the events of its program, with what its own steps have read. */
  function LogOf(c: Config, moves: seq<Move>, i: nat): (log: seq<Event>)
    requires i < |c.programs| && Steps(moves, i) == 2 * |Script(c, i)| + 4
    ensures |log| == 1 + |c.programs[i]|
    ensures log[0].name == "exec" && forall k | 0 <= k < |c.programs[i]| :: log[k + 1].name == c.programs[i][k]
    ensures forall k | 0 <= k < |log| :: log[k] == Event(Script(c, i)[k], StampOf(c, moves, i, k))
  {
    seq(|Script(c, i)|, k requires 0 <= k < |Script(c, i)| => Event(Script(c, i)[k], StampOf(c, moves, i, k)))
  }

  function LogsOf(c: Config, moves: seq<Move>): (logs: seq<seq<Event>>)
    requires |c.pids| == |c.programs| && AllRan(c, moves)
    ensures |logs| == |c.pids| && forall i | 0 <= i < |c.pids| :: logs[i] == LogOf(c, moves, i)
  {
    seq(|c.pids|, i requires 0 <= i < |c.pids| => LogOf(c, moves, i))
  }

  lemma EventsAreReadings(c: Config, s: State, moves: seq<Move>, i: nat)
    requires Inv(c, s) && History(c, s, moves) && i < |c.pids|
    requires s.children[i] == Exited(0) && |s.adds[i]| == |Script(c, i)|
    ensures Steps(moves, i) == 2 * |Script(c, i)| + 4 && Events(s.adds[i]) == LogOf(c, moves, i)
  {
    hide Steps, Reading, Script, ParentOk, Log;
    assert ChildOk(c, s, i);
    assert Seen(s.children[i], Script(c, i), s.adds[i], moves, i);
    var adds := s.adds[i];
    forall k | 0 <= k < |adds| ensures adds[k].event == Event(Script(c, i)[k], StampOf(c, moves, i, k)) {}
  }

  lemma LogsAreReadings(c: Config, s: State, moves: seq<Move>)
    requires Inv(c, s) && History(c, s, moves) && s.parent.Finished? && s.parent.output.Some?
    ensures AllRan(c, moves) && AllEvents(s) == LogsOf(c, moves)
  {
    hide History, ReportText;
    FinishedUnderInv(c, s);
    forall i | 0 <= i < |c.pids|
      ensures Steps(moves, i) == 2 * |Script(c, i)| + 4 && Events(s.adds[i]) == LogOf(c, moves, i)
    {
      EventsAreReadings(c, s, moves, i);
    }
  }

  /**
   * In every interleaving that the parent finishes, whatever the segments held before: it prints exactly when no child
   * overran its log, that is when no program adds more than 255 events. The i-th object is then "exec" and the events
   * of program i, each once and in order, with the times that the steps of child i itself have read: the text is a
   * function of the moves. A JSON parser gets all of it back.
   */
  lemma EveryRunPrintsTheLogs(c: Config, s0: State, moves: seq<Move>)
    requires Initial(c, s0) && Legal(c, s0, moves) && After(c, s0, moves).parent.Finished?
    ensures var s := After(c, s0, moves);
      (s.parent.output.Some? <==> forall i | 0 <= i < |c.pids| :: |c.programs[i]| < 256)
    ensures var s := After(c, s0, moves);
      s.parent.output.Some? ==>
        && AllRan(c, moves) && s.parent.output.value == ReportText(LogsOf(c, moves)) && AllEvents(s) == LogsOf(c, moves)
        && forall i | 0 <= i < |c.pids| ::
             |s.adds[i]| == |Script(c, i)| && Named(s.adds[i], Script(c, i)) && Timed(s.adds[i], s.clock)
    ensures var s := After(c, s0, moves);
      s.parent.output.Some? && ScriptsNeedNoEscape(c) ==>
        ParseText(s.parent.output.value) == Some(Array(ObjectsOf(LogsOf(c, moves))))
  {
    hide Timed, Named, ReportText, Legal, History, LogOf;
    InitialInv(c, s0);
    EveryRunKeepsInv(c, s0, moves);
    CallsAreReadings(c, s0, moves);
    var s := After(c, s0, moves);
    FinishedUnderInv(c, s);
    assert forall i | 0 <= i < |c.pids| :: |Script(c, i)| == 1 + |c.programs[i]|;
    if s.parent.output.Some? {
      LogsAreReadings(c, s, moves);
      if ScriptsNeedNoEscape(c) { PrintedReadsBack(c, s); }
    }
  }

  lemma PrintedReadsBack(c: Config, s: State)
    requires Inv(c, s) && s.parent.Finished? && s.parent.output.Some? && ScriptsNeedNoEscape(c)
    ensures ParseText(ReportText(AllEvents(s))) == Some(Array(ObjectsOf(AllEvents(s))))
  {
    hide Timed, Named, ReportText;
    FinishedUnderInv(c, s);
    forall i | 0 <= i < |c.pids| ensures AllPrintable(AllEvents(s)[i]) {
      EventsPrintable(s.adds[i], s.clock, Script(c, i));
    }
    ReportReadsBack(AllEvents(s));
  }

  lemma EventsPrintable(adds: seq<Added>, until: Timespec, script: seq<string>)
    requires Timed(adds, until) && Named(adds, script) && forall k | 0 <= k < |script| :: NeedsNoEscape(script[k])
    ensures AllPrintable(Events(adds))
  {
    forall k | 0 <= k < |adds| ensures Printable(Events(adds)[k]) {
      assert NeedsNoEscape(script[k]);
    }
  }

  // Timestamps

  lemma {:induction false} CallsInOrder(adds: seq<Added>, until: Timespec, j: nat, k: nat)
    requires Timed(adds, until) && j < k < |adds|
    ensures adds[j].left.Nanos() <= adds[k].entered.Nanos()
  {
    if j + 1 < k { CallsInOrder(adds, until, j, k - 1); }
  }

  /** Times along a log never decrease, although some are taken on entering and some on leaving the call. */
  lemma StampsInOrder(adds: seq<Added>, until: Timespec, j: nat, k: nat)
    requires Timed(adds, until) && j < k < |adds|
    ensures adds[j].event.ts.Nanos() <= adds[k].event.ts.Nanos()
  {
    CallsInOrder(adds, until, j, k);
  }

  predicate During(t: nat, call: Added) { call.entered.Nanos() <= t <= call.left.Nanos() }

  /** From "start" to a later event, the time measured is the time between the two calls: neither call is part of it. */
  lemma IntervalExcludesLogging(adds: seq<Added>, until: Timespec, j: nat, k: nat)
    requires Timed(adds, until) && j < k < |adds|
    requires adds[j].event.name == "start" && adds[k].event.name != "start"
    ensures adds[k].event.ts.Nanos() - adds[j].event.ts.Nanos() == adds[k].entered.Nanos() - adds[j].left.Nanos()
    ensures forall t | adds[j].event.ts.Nanos() < t < adds[k].event.ts.Nanos() ::
              !During(t, adds[j]) && !During(t, adds[k])
  {
    CallsInOrder(adds, until, j, k);
  }

  lemma SecondsOfNanos(a: Timespec, b: Timespec)
    requires a.Nanos() <= b.Nanos()
    ensures Seconds(a) <= Seconds(b)
  {
    assert Seconds(a) == a.Nanos() as real / 1000000000.0;
    assert Seconds(b) == b.Nanos() as real / 1000000000.0;
  }

  // From the printed text to the arithmetic of benchmarks.py

  ghost predicate AllNumbers(members: seq<Member>)
  {
    forall i | 0 <= i < |members| :: members[i].value.Number?
  }

  /** The dictionary json.loads makes of an object of numbers: the last of equal names wins. */
  ghost function Loaded(members: seq<Member>): UstBenchmark.Events
    requires AllNumbers(members)
  {
    if members == [] then map[]
    else
      var last := members[|members| - 1];
      Loaded(members[..|members| - 1])[last.name := last.value.r]
  }

  /** No later name is the same. */
  ghost predicate LastOfItsName(names: seq<string>, k: nat)
  {
    k < |names| && forall l | k < l < |names| :: names[l] != names[k]
  }

  lemma {:induction false} LoadedLast(members: seq<Member>, k: nat)
    requires AllNumbers(members) && k < |members|
    requires forall l | k < l < |members| :: members[l].name != members[k].name
    ensures members[k].name in Loaded(members) && Loaded(members)[members[k].name] == members[k].value.r
  {
    if k < |members| - 1 {
      LoadedLast(members[..|members| - 1], k);
    }
  }

  /** The difference of two times of one printed log, from the one object that was read back. */
  lemma IntervalInObject(adds: seq<Added>, until: Timespec, script: seq<string>, j: nat, k: nat)
    requires Timed(adds, until) && Named(adds, script) && |adds| == |script|
    requires j < k && LastOfItsName(script, j) && LastOfItsName(script, k)
    ensures AllNumbers(MembersOf(Events(adds)))
    ensures var e := Loaded(MembersOf(Events(adds)));
      && script[j] in e && script[k] in e
      && UstBenchmark.Between(e, script[j], script[k]) == Seconds(adds[k].event.ts) - Seconds(adds[j].event.ts)
      && UstBenchmark.Between(e, script[j], script[k]) >= 0.0
  {
    hide Seconds;
    var members := MembersOf(Events(adds));
    assert forall l | 0 <= l < |members| :: members[l].name == script[l];
    StampsInOrder(adds, until, j, k);
    LoadedLast(members, j);
    LoadedLast(members, k);
    SecondsOfNanos(adds[j].event.ts, adds[k].event.ts);
  }

  /**
   * In every interleaving: what json.loads makes of the printed text is a list with one dictionary per CPU, and what
   * do_ust_benchmark then subtracts, "main" minus "exec" and "end" minus "start", is the exact time between two
   * readings of that process's own, and never negative.
   */
  lemma ReportedIntervals(c: Config, s0: State, moves: seq<Move>, i: nat, j: nat, k: nat)
    requires Initial(c, s0) && Legal(c, s0, moves) && ScriptsNeedNoEscape(c)
    requires After(c, s0, moves).parent.Finished? && After(c, s0, moves).parent.output.Some?
    requires i < |c.pids| && j < k && LastOfItsName(Script(c, i), j) && LastOfItsName(Script(c, i), k)
    ensures AllRan(c, moves)
    ensures var read := ParseText(After(c, s0, moves).parent.output.value);
      && read.Some? && read.value.Array? && |read.value.items| == |c.pids|
      && read.value.items[i].Object? && AllNumbers(read.value.items[i].members)
      && var e := Loaded(read.value.items[i].members);
         && Script(c, i)[j] in e && Script(c, i)[k] in e
         && UstBenchmark.Between(e, Script(c, i)[j], Script(c, i)[k])
            == Seconds(StampOf(c, moves, i, k)) - Seconds(StampOf(c, moves, i, j)) >= 0.0
  {
    hide Timed, Named, Seconds, Legal, ParseText, ReportText, Loaded, UstBenchmark.Between, Script, StampOf;
    EveryRunPrintsTheLogs(c, s0, moves);
    var s := After(c, s0, moves);
    IntervalInObject(s.adds[i], s.clock, Script(c, i), j, k);
    var log := LogOf(c, moves, i);
    assert log == Events(s.adds[i]) by { assert LogsOf(c, moves)[i] == AllEvents(s)[i]; }
    assert log[j] == s.adds[i][j].event && log[k] == s.adds[i][k].event;
    assert ObjectsOf(LogsOf(c, moves))[i] == Object(MembersOf(log));
  }

  /** The dictionaries that json.loads makes of the report. */
  ghost function Dictionaries(items: seq<Value>): (ds: seq<UstBenchmark.Events>)
    requires forall i | 0 <= i < |items| :: items[i].Object? && AllNumbers(items[i].members)
    ensures |ds| == |items| && forall i | 0 <= i < |ds| :: ds[i] == Loaded(items[i].members)
  {
    seq(|items|, i requires 0 <= i < |items| => Loaded(items[i].members))
  }

  /** In each of the first n scripts, two places with the given names, the second after the first. */
  ghost predicate InEach(c: Config, from: string, to: string, js: seq<nat>, ks: seq<nat>)
    requires |c.pids| == |c.programs|
  {
    && |js| == |ks| == |c.pids|
    && forall i | 0 <= i < |c.pids| ::
         && js[i] < ks[i] && LastOfItsName(Script(c, i), js[i]) && LastOfItsName(Script(c, i), ks[i])
         && Script(c, i)[js[i]] == from && Script(c, i)[ks[i]] == to
  }

  /** The time between two events of one child. */
  function Between(c: Config, moves: seq<Move>, i: nat, j: nat, k: nat): real
    requires i < |c.programs| && j < k < |Script(c, i)| && Steps(moves, i) == 2 * |Script(c, i)| + 4
  {
    Seconds(StampOf(c, moves, i, k)) - Seconds(StampOf(c, moves, i, j))
  }

  /** The same, added up over the first n children. */
  ghost function TimesBetween(c: Config, moves: seq<Move>, js: seq<nat>, ks: seq<nat>, n: nat): real
    requires |c.pids| == |c.programs| && AllRan(c, moves) && n <= |c.pids| == |js| == |ks|
    requires forall i | 0 <= i < n :: js[i] < ks[i] < |Script(c, i)|
  {
    if n == 0 then 0.0
    else
      TimesBetween(c, moves, js, ks, n - 1) + Between(c, moves, n - 1, js[n - 1], ks[n - 1])
  }

  lemma {:induction false} TotalIsBetween(c: Config, moves: seq<Move>, from: string, to: string, js: seq<nat>,
                                          ks: seq<nat>, ds: seq<UstBenchmark.Events>, n: nat)
    requires |c.pids| == |c.programs| && AllRan(c, moves) && n <= |c.pids| == |js| == |ks| == |ds|
    requires forall i | 0 <= i < n :: js[i] < ks[i] < |Script(c, i)|
    requires forall i | 0 <= i < n :: UstBenchmark.Between(ds[i], from, to) == Between(c, moves, i, js[i], ks[i])
    ensures UstBenchmark.Total(ds, from, to, n) == TimesBetween(c, moves, js, ks, n)
  {
    hide Between, UstBenchmark.Between, Script;
    if n > 0 { TotalIsBetween(c, moves, from, to, js, ks, ds, n - 1); }
  }

  /**
   * In every interleaving, from the steps of the processes to the sums of the driver: what do_ust_benchmark adds up
   * from the printed text, "main" minus "exec" or "end" minus "start" over all CPUs, is the sum of the times that
   * passed between the readings of each process.
   */
  lemma DriverTotals(c: Config, s0: State, moves: seq<Move>, from: string, to: string, js: seq<nat>, ks: seq<nat>)
    requires Initial(c, s0) && Legal(c, s0, moves) && ScriptsNeedNoEscape(c) && InEach(c, from, to, js, ks)
    requires After(c, s0, moves).parent.Finished? && After(c, s0, moves).parent.output.Some?
    ensures AllRan(c, moves)
    ensures var read := ParseText(After(c, s0, moves).parent.output.value);
      && read.Some? && read.value.Array? && |read.value.items| == |c.pids|
      && (forall i | 0 <= i < |c.pids| :: read.value.items[i].Object? && AllNumbers(read.value.items[i].members))
      && UstBenchmark.Total(Dictionaries(read.value.items), from, to, |c.pids|)
         == TimesBetween(c, moves, js, ks, |c.pids|)
  {
    hide Seconds, Legal, ParseText, ReportText, Loaded, UstBenchmark.Between, Script, StampOf, AllNumbers, LogOf;
    EveryRunPrintsTheLogs(c, s0, moves);
    var items := ParseText(After(c, s0, moves).parent.output.value).value.items;
    forall i | 0 <= i < |c.pids|
      ensures items[i].Object? && AllNumbers(items[i].members)
      ensures UstBenchmark.Between(Loaded(items[i].members), from, to) == Between(c, moves, i, js[i], ks[i])
    {
      ReportedIntervals(c, s0, moves, i, js[i], ks[i]);
    }
    TotalIsBetween(c, moves, from, to, js, ks, Dictionaries(items), |c.pids|);
  }

  // The steps of main are method Report

  ghost predicate AllGone(c: Config, s: State)
    requires Shaped(c, s)
  {
    forall i | 0 <= i < |c.pids| :: s.children[i].Exited?
  }

  lemma {:induction false} GoneStayGone(c: Config, s: State, moves: seq<Move>)
    requires Shaped(c, s) && Inv(c, s) && AllGone(c, s) && !s.parent.Forking? && Legal(c, s, moves)
    ensures After(c, s, moves).children == s.children && After(c, s, moves).memory == s.memory
    decreases |moves|
  {
    if moves != [] {
      GoneStay(c, s, moves[0]);
      StepKeepsInv(c, s, moves[0]);
      GoneStayGone(c, Apply(c, s, moves[0]), moves[1..]);
    }
  }

  lemma GoneStay(c: Config, s: State, m: Move)
    requires Inv(c, s) && AllGone(c, s) && !s.parent.Forking? && Enabled(c, s, m)
    ensures var s' := Apply(c, s, m);
      s'.children == s.children && s'.memory == s.memory && !s'.parent.Forking?
  {
    hide ChildOk, ParentOk, PrintStep;
    assert m.ParentMoves?;
    ParentKeepsMemory(c, s, m.malloced);
    if s.parent.Printing? && s.parent.i < |c.pids| { PrintsOwn(c, s, m.malloced); }
  }

  /**
   * Once the parent has waited for all children, whatever it prints in the end is what Report prints on the same
   * memory with the same ctx.
   */
  method ReportIsTheOutput(ghost c: Config, ghost s: State, ghost moves: seq<Move>, p: Process, pids: seq<int>,
                           statuses: seq<int>, malloced: int)
    returns (ret: int, out: string)
    requires Inv(c, s) && s.parent.Waiting? && s.parent.i == |c.pids|
    requires Legal(c, s, moves) && After(c, s, moves).parent.Finished?
    requires p.Valid() && p.ctx == s.parentCtx && p.machine.memory == s.memory && pids == c.pids
    requires |statuses| == |pids|
    requires forall i | 0 <= i < |pids| :: statuses[i] == 0 <==> s.children[i] == Exited(0)
    modifies p`ctx, p.machine`memory
    ensures After(c, s, moves).parent == Finished(if ret == 0 then Some(out) else None)
  {
    hide ChildOk, ReportText, Legal, Log;
    assert AllGone(c, s);
    EveryRunKeepsInv(c, s, moves);
    GoneStayGone(c, s, moves);
    forall i | 0 <= i < |pids| ensures Readable(s.memory, pids[i]) { OwnLogReadable(c, s, i); }
    ret, out := Report(p, pids, statuses, malloced);
  }

  // Progress

  /** Steps a child has left, when its script has l events. */
  function ChildLeft(child: Child, l: nat): nat
  {
    match child
    case Unborn => 2 * l + 4
    case Closing => 2 * l + 4
    case Clearing => 2 * l + 3
    case Ready(next) => if next == 0 then 2 * l + 2 else if next <= l then 2 * (l - next) + 1 else 0
    case Adding(next, _) => if next == 0 then 2 * l + 1 else if next <= l then 2 * (l - next) else 0
    case Execing => 2 * l
    case Exited(_) => 0
  }

  /** Steps the first k children have left. */
  function ChildrenLeft(c: Config, children: seq<Child>, k: nat): nat
    requires k <= |children| == |c.programs|
  {
    if k == 0 then 0 else ChildrenLeft(c, children, k - 1) + ChildLeft(children[k - 1], |Script(c, k - 1)|)
  }

  function ParentLeft(c: Config, p: Parent): nat
  {
    var n := |c.pids|;
    match p
    case Forking(i) => if i <= n then n - i + 2 * n + 3 else 0
    case Waiting(i, _) => if i <= n then n - i + n + 2 else 0
    case Printing(i, _) => if i <= n then n - i + 1 else 0
    case Finished(_) => 0
  }

  ghost function StepsLeft(c: Config, s: State): nat
    requires Shaped(c, s)
  {
    ParentLeft(c, s.parent) + ChildrenLeft(c, s.children, |c.pids|)
  }

  lemma {:induction false} OneChildLess(c: Config, children: seq<Child>, i: nat, child: Child, k: nat)
    requires i < |children| == |c.programs| && k <= |children|
    ensures ChildrenLeft(c, children[i := child], k) == ChildrenLeft(c, children, k)
         + if i < k then ChildLeft(child, |Script(c, i)|) - ChildLeft(children[i], |Script(c, i)|) else 0
  {
    hide ChildLeft, Script;
    if k > 0 { OneChildLess(c, children, i, child, k - 1); }
  }

  /** No child has overrun its log. */
  ghost predicate NoneFailed(s: State)
  {
    forall i | 0 <= i < |s.children| :: s.children[i].Exited? ==> s.children[i].status == 0
  }

  /** A step of a child costs it one of its steps, or all that it has left if it overruns its log. */
  lemma ChildCountsDown(c: Config, s: State, i: nat, now: Timespec, malloced: int)
    requires Inv(c, s) && Enabled(c, s, ChildMoves(i, now, malloced))
    ensures var s' := ChildStep(c, s, i, now, malloced);
      var child := s'.children[i];
      var left, left' := ChildLeft(s.children[i], |Script(c, i)|), ChildLeft(child, |Script(c, i)|);
      && s'.children == s.children[i := child]
      && left' < left && (left' == left - 1 <==> !(child.Exited? && child.status != 0))
  {
    hide Timed, Named, Log, ParentOk, Stamp, Appended, Events;
    assert ChildOk(c, s, i);
  }

  lemma ForkCountsDown(c: Config, s: State, malloced: int)
    requires Inv(c, s) && s.parent.Forking? && s.parent.i < |c.pids|
    ensures var s' := ParentStep(c, s, malloced);
      Shaped(c, s') && StepsLeft(c, s') == StepsLeft(c, s) - 1 && (NoneFailed(s') <==> NoneFailed(s))
  {
    hide Timed, Named, Log, Events, Script;
    var i, s' := s.parent.i, ParentStep(c, s, malloced);
    assert ChildOk(c, s, i);
    OneChildLess(c, s.children, i, Closing, |c.pids|);
    forall k | 0 <= k < |c.pids|
      ensures s'.children[k].Exited? <==> s.children[k].Exited?
      ensures s.children[k].Exited? ==> s'.children[k] == s.children[k]
    {
    }
  }

  lemma ParentCountsDown(c: Config, s: State, malloced: int)
    requires Inv(c, s) && Enabled(c, s, ParentMoves(malloced))
    ensures var s' := ParentStep(c, s, malloced);
      && Shaped(c, s') && StepsLeft(c, s') < StepsLeft(c, s) && (NoneFailed(s') <==> NoneFailed(s))
      && (NoneFailed(s) ==> StepsLeft(c, s') == StepsLeft(c, s) - 1)
  {
    hide PrintStep, ObjectsSoFar, ChildOk, Log, ChildrenLeft;
    if s.parent.Forking? && s.parent.i < |c.pids| {
      ForkCountsDown(c, s, malloced);
    } else if s.parent.Printing? && s.parent.i < |c.pids| {
      PrintsOwn(c, s, malloced);
    }
  }

  /** Every step of every process is at least one step less to go, and one exactly unless a child overruns its log. */
  lemma StepsCountDown(c: Config, s: State, m: Move)
    requires Inv(c, s) && Enabled(c, s, m)
    ensures var s' := Apply(c, s, m);
      && StepsLeft(c, s') < StepsLeft(c, s) && (NoneFailed(s') ==> NoneFailed(s))
      && (NoneFailed(s) ==> (NoneFailed(s') <==> StepsLeft(c, s') == StepsLeft(c, s) - 1))
  {
    hide ChildOk, ParentOk, ParentStep, ChildStep, ChildrenLeft, ParentLeft, ChildLeft;
    match m
    case ParentMoves(malloced) => ParentCountsDown(c, s, malloced);
    case ChildMoves(i, now, malloced) =>
      ChildMovesAlone(c, s, i, now, malloced);
      ChildCountsDown(c, s, i, now, malloced);
      OneChildLess(c, s.children, i, ChildStep(c, s, i, now, malloced).children[i], |c.pids|);
  }

  lemma {:induction false} StepsOfRun(c: Config, s: State, moves: seq<Move>)
    requires Shaped(c, s) && Inv(c, s) && Legal(c, s, moves)
    ensures var s' := After(c, s, moves);
      && |moves| + StepsLeft(c, s') <= StepsLeft(c, s) && (NoneFailed(s') ==> NoneFailed(s))
      && (NoneFailed(s) ==> (NoneFailed(s') <==> |moves| + StepsLeft(c, s') == StepsLeft(c, s)))
    decreases |moves|
  {
    hide Inv, Apply, Enabled, StepsLeft, NoneFailed, Shaped;
    if moves != [] {
      StepKeepsInv(c, s, moves[0]);
      StepsCountDown(c, s, moves[0]);
      StepsOfRun(c, Apply(c, s, moves[0]), moves[1..]);
    }
  }

  /** No deadlock: until main has finished, some process can move, and it need not wait for the clock. */
  lemma SomebodyCanMove(c: Config, s: State) returns (m: Move)
    requires Inv(c, s) && !s.parent.Finished?
    ensures Enabled(c, s, m)
  {
    hide Timed, Named, Log, Events;
    m := ParentMoves(0);
    if !Enabled(c, s, m) {
      assert ChildOk(c, s, s.parent.i);
      m := ChildMoves(s.parent.i, s.clock, 0);
    }
  }

  /** Two steps for each event of the first k children, and four more. */
  function Work(c: Config, k: nat): nat
    requires k <= |c.programs|
  {
    if k == 0 then 0 else Work(c, k - 1) + 2 * |Script(c, k - 1)| + 4
  }

  lemma {:induction false} ChildrenLeftAtFirst(c: Config, children: seq<Child>, k: nat)
    requires k <= |children| == |c.programs| && forall i | 0 <= i < k :: children[i] == Unborn
    ensures ChildrenLeft(c, children, k) == Work(c, k)
  {
    if k > 0 { ChildrenLeftAtFirst(c, children, k - 1); }
  }

  lemma {:induction false} ChildrenLeftAtLast(c: Config, children: seq<Child>, k: nat)
    requires k <= |children| == |c.programs| && forall i | 0 <= i < k :: children[i].Exited?
    ensures ChildrenLeft(c, children, k) == 0
  {
    if k > 0 { ChildrenLeftAtLast(c, children, k - 1); }
  }

  /**
   * Every run ends: no interleaving is longer than 3n + 3 steps and two steps for each event and four for each child,
   * a run is that long exactly when the report has been printed, and nobody can move exactly when main has finished.
   */
  lemma EveryRunTerminates(c: Config, s0: State, moves: seq<Move>)
    requires Initial(c, s0) && Legal(c, s0, moves)
    ensures var s := After(c, s0, moves);
            var all := 3 * |c.pids| + 3 + Work(c, |c.pids|);
      && |moves| <= all
      && (|moves| == all <==> s.parent.Finished? && s.parent.output.Some?)
      && (s.parent.Finished? <==> forall m :: !Enabled(c, s, m))
  {
    hide ChildOk, ReportText, Legal;
    InitialInv(c, s0);
    EveryRunKeepsInv(c, s0, moves);
    StepsOfRun(c, s0, moves);
    ChildrenLeftAtFirst(c, s0.children, |c.pids|);
    var s := After(c, s0, moves);
    if s.parent.Finished? {
      ChildrenLeftAtLast(c, s.children, |c.pids|);
      NobodyCanMove(c, s);
    } else {
      var m := SomebodyCanMove(c, s);
    }
  }

  /** Whatever has happened so far, the run can be completed. */
  lemma {:induction false} EveryRunCanBeCompleted(c: Config, s: State) returns (moves: seq<Move>)
    requires Shaped(c, s) && Inv(c, s)
    ensures Legal(c, s, moves) && After(c, s, moves).parent.Finished?
    decreases StepsLeft(c, s)
  {
    hide Inv, Apply, StepsLeft, Enabled, NoneFailed;
    moves := [];
    if !s.parent.Finished? {
      var m := SomebodyCanMove(c, s);
      StepKeepsInv(c, s, m);
      StepsCountDown(c, s, m);
      var more := EveryRunCanBeCompleted(c, Apply(c, s, m));
      moves := [m] + more;
      assert moves[1..] == more;
    }
  }

  /** A run can start with any segments left over from before, at any normal time of the clock. */
  lemma AnyStart(c: Config, ctxs: seq<Ctx>, memory: Memory, clock: Timespec)
    requires WellFormed(c) && |ctxs| == |c.pids| && clock.Normal()
    ensures var n := |c.pids|;
      Initial(c, State(Forking(0), NoCtx, seq(n, _ => Unborn), ctxs, memory, clock, seq(n, _ => [])))
  {
  }

  lemma NobodyCanMove(c: Config, s: State)
    requires Inv(c, s) && s.parent.Finished?
    ensures forall m :: !Enabled(c, s, m)
  {
    hide ChildOk;
  }
}
