/**
 * The measurement harness: one parent forks a child per CPU, waits for all of them, and prints their logs. The children
 * run at the same time on one shared memory, in any order.
 */
module Harness {
  import opened Text
  import opened Json
  import opened SharedEvents
  import opened Printer
  import opened Reporting
  import UstBenchmark

  /** Process ids of the children, and the events that the program executed by each of them adds. */
  datatype Config = Config(pids: seq<int>, programs: seq<seq<string>>)

  ghost predicate WellFormed(c: Config)
  {
    && |c.pids| == |c.programs|
    && (forall i, j | 0 <= i < j < |c.pids| :: c.pids[i] != c.pids[j])
    && forall i, k | 0 <= i < |c.programs| && 0 <= k < |c.programs[i]| ::
         |c.programs[i][k]| < MAX_EVENT_NAME_LENGTH
  }

  /** What child i adds: "exec" between fork and execv, then what its program adds. */
  function Script(c: Config, i: nat): seq<string>
    requires i < |c.programs|
  {
    ["exec"] + c.programs[i]
  }

  /** Where a child is: in run_child up to the call of execv, in its program from then on. */
  datatype Child =
    | Unborn
    | Closing
    | Clearing
    | Ready(next: nat)
    | Adding(next: nat, entered: Timespec)
    | Execing
    | Exited(status: int)

  /** Where the parent is in main, and what it has printed. */
  datatype Parent =
    | Forking(i: nat)
    | Waiting(i: nat, failed: bool)
    | Printing(i: nat, out: string)
    | Finished(output: Option<string>)

  /** A completed call of shared_events_add: the clock at its first and at its last moment. */
  datatype Added = Added(event: Event, entered: Timespec, left: Timespec)

  datatype State = State(
    parent: Parent,
    parentCtx: Ctx,
    children: seq<Child>,
    ctxs: seq<Ctx>,
    memory: Memory,
    clock: Timespec,
    adds: seq<seq<Added>>)   // by child, since its clear

  ghost predicate Shaped(c: Config, s: State)
  {
    WellFormed(c) && |s.children| == |s.ctxs| == |s.adds| == |c.pids|
  }

  /** Segments may be left over from earlier processes, with anything in them. */
  ghost predicate Initial(c: Config, s: State)
  {
    && Shaped(c, s) && s.clock.Normal()
    && s.parent == Forking(0) && s.parentCtx == NoCtx
    && (forall i | 0 <= i < |c.pids| :: s.children[i] == Unborn && s.adds[i] == [])
  }

  /** Which process moves; now is the clock if it reads it, malloced what malloc happens to return. */
  datatype Move = ParentMoves(malloced: int) | ChildMoves(i: nat, now: Timespec, malloced: int)

  predicate Later(clock: Timespec, now: Timespec) { now.Normal() && clock.Nanos() <= now.Nanos() }

  ghost predicate Enabled(c: Config, s: State, m: Move)
    requires Shaped(c, s)
  {
    match m
    case ParentMoves(_) =>
      (match s.parent
       case Forking(_) => true
       case Waiting(i, _) => i < |c.pids| ==> s.children[i].Exited?
       case Printing(_, _) => true
       case Finished(_) => false)
    case ChildMoves(i, now, _) =>
      && i < |c.pids| && Later(s.clock, now)
      && !s.children[i].Unborn? && !s.children[i].Exited?
  }

  /** The ctx and the memory after the opening that every other call starts with. */
  function AfterOpen(c: Config, s: State, i: nat, malloced: int): (Ctx, Memory)
    requires i < |s.ctxs| && i < |c.pids|
  {
    (Opened(s.ctxs[i], c.pids[i], malloced), OpenedMemory(s.memory, s.ctxs[i], c.pids[i]))
  }

  function ChildAt(s: State, i: nat, child: Child): State
    requires i < |s.children|
  {
    s.(children := s.children[i := child])
  }

  /** shared_events_clear. */
  function ClearStep(c: Config, s: State, i: nat, malloced: int): State
    requires i < |s.children| == |s.ctxs| == |s.adds| == |c.pids|
  {
    var (ctx, m) := AfterOpen(c, s, i, malloced);
    var s' := ChildAt(s, i, Ready(0)).(ctxs := s.ctxs[i := ctx], adds := s.adds[i := []]);
    if ctx.pid in m then s'.(memory := m[ctx.pid := Slots(0, m[ctx.pid].slots)]) else s'
  }

  /** The end of shared_events_add; a program whose add fails exits with a failure. */
  function AddStep(c: Config, s: State, i: nat, now: Timespec, malloced: int): State
    requires i < |s.children| == |s.ctxs| == |s.adds| == |c.pids| == |c.programs|
    requires s.children[i].Adding? && s.children[i].next < |Script(c, i)|
  {
    var Adding(next, entered) := s.children[i];
    var name := Script(c, i)[next];
    var (ctx, m) := AfterOpen(c, s, i, malloced);
    var s' := s.(ctxs := s.ctxs[i := ctx], clock := now);
    if ctx.pid !in m || m[ctx.pid].count >= MAX_EVENT_COUNT then
      ChildAt(s', i, if next == 0 then Execing else Exited(1)).(memory := m)
    else
      var e := Event(name, Stamp(name, entered, now));
      ChildAt(s', i, if next == 0 then Execing else Ready(next + 1)).(
        memory := m[ctx.pid := Appended(m[ctx.pid], e)],
        adds := s.adds[i := s.adds[i] + [Added(e, entered, now)]])
  }

  function ChildStep(c: Config, s: State, i: nat, now: Timespec, malloced: int): State
    requires i < |s.children| == |s.ctxs| == |s.adds| == |c.pids| == |c.programs|
  {
    match s.children[i]
    case Closing => ChildAt(s, i, Clearing).(ctxs := s.ctxs[i := NoCtx])
    case Clearing => ClearStep(c, s, i, malloced)
    case Ready(next) =>
      if next < |Script(c, i)| then ChildAt(s, i, Adding(next, now)).(clock := now) else ChildAt(s, i, Exited(0))
    case Adding(next, _) => if next < |Script(c, i)| then AddStep(c, s, i, now, malloced) else s
    case Execing => ChildAt(s, i, Ready(1)).(ctxs := s.ctxs[i := NoCtx])
    case _ => s
  }

  /** print_events: whichever segment the parent's ctx leads to. */
  function PrintStep(c: Config, s: State, malloced: int): State
    requires s.parent.Printing? && s.parent.i < |c.pids|
  {
    var Printing(i, out) := s.parent;
    var ctx := Opened(s.parentCtx, c.pids[i], malloced);
    var m := OpenedMemory(s.memory, s.parentCtx, c.pids[i]);
    if ctx.pid in m && m[ctx.pid].count <= MAX_EVENT_COUNT then
      var text := ObjectText(Log(m[ctx.pid])) + if i < |c.pids| - 1 then "," else "";
      s.(parent := Printing(i + 1, out + text), parentCtx := NoCtx, memory := m)
    else s
  }

  /** Fork all, which then hold a copy of the parent's ctx; wait for all; print all, unless one has failed. */
  function ParentStep(c: Config, s: State, malloced: int): State
    requires |s.children| == |s.ctxs| == |s.adds| == |c.pids|
  {
    match s.parent
    case Forking(i) =>
      if i < |c.pids| then ChildAt(s, i, Closing).(parent := Forking(i + 1), ctxs := s.ctxs[i := s.parentCtx])
      else s.(parent := Waiting(0, false))
    case Waiting(i, failed) =>
      if i < |c.pids| then s.(parent := Waiting(i + 1, failed || s.children[i] != Exited(0)))
      else s.(parent := if failed then Finished(None) else Printing(0, "[\n"))
    case Printing(i, out) =>
      if i < |c.pids| then PrintStep(c, s, malloced) else s.(parent := Finished(Some(out + "]\n")))
    case Finished(_) => s
  }

  predicate LogsExist(c: Config, s: State)
  {
    forall i | 0 <= i < |c.pids| :: c.pids[i] in s.memory && s.memory[c.pids[i]].count <= MAX_EVENT_COUNT
  }

  ghost function Apply(c: Config, s: State, m: Move): (s': State)
    requires Shaped(c, s)
    ensures Shaped(c, s')
  {
    match m
    case ParentMoves(malloced) => ParentStep(c, s, malloced)
    case ChildMoves(i, now, malloced) => if i < |c.pids| then ChildStep(c, s, i, now, malloced) else s
  }

  ghost predicate Legal(c: Config, s: State, moves: seq<Move>)
    requires Shaped(c, s)
    decreases |moves|
  {
    moves == [] || (Enabled(c, s, moves[0]) && Legal(c, Apply(c, s, moves[0]), moves[1..]))
  }

  ghost function After(c: Config, s: State, moves: seq<Move>): (s': State)
    requires Shaped(c, s)
    ensures Shaped(c, s')
    decreases |moves|
  {
    if moves == [] then s else After(c, Apply(c, s, moves[0]), moves[1..])
  }

  // The history of one child

  function Events(adds: seq<Added>): (es: seq<Event>)
    ensures |es| == |adds|
    ensures forall k | 0 <= k < |es| :: es[k] == adds[k].event
  {
    seq(|adds|, k requires 0 <= k < |adds| => adds[k].event)
  }

  /** Calls follow each other, and each is stamped as shared_events_add does. */
  ghost predicate Timed(adds: seq<Added>, until: Timespec)
  {
    && (forall k | 0 <= k < |adds| ::
          && adds[k].event.ts == Stamp(adds[k].event.name, adds[k].entered, adds[k].left)
          && adds[k].entered.Normal() && adds[k].left.Normal()
          && adds[k].entered.Nanos() <= adds[k].left.Nanos() <= until.Nanos())
    && forall k | 0 < k < |adds| :: adds[k - 1].left.Nanos() <= adds[k].entered.Nanos()
  }

  ghost predicate Named(adds: seq<Added>, script: seq<string>)
  {
    |adds| <= |script| && forall k | 0 <= k < |adds| :: adds[k].event.name == script[k]
  }

  /** How many events a child has added, where that is known from where it is. */
  predicate CountFits(child: Child, script: seq<string>, n: nat)
  {
    match child
    case Unborn => n == 0
    case Closing => n == 0
    case Clearing => n == 0
    case Ready(next) => n == next <= |script|
    case Adding(next, _) => n == next < |script|
    case Execing => n == 1
    case Exited(status) => (status == 0 && n == |script|) || (status != 0 && n == MAX_EVENT_COUNT < |script|)
  }

  ghost predicate ChildOk(c: Config, s: State, i: nat)
    requires Shaped(c, s) && i < |c.pids|
  {
    var child, p := s.children[i], c.pids[i];
    && CountFits(child, Script(c, i), |s.adds[i]|)
    && Named(s.adds[i], Script(c, i)) && Timed(s.adds[i], s.clock)
    && (child.Adding? ==> child.entered.Normal() && Timed(s.adds[i], child.entered)
                          && child.entered.Nanos() <= s.clock.Nanos())
    && (child.Closing? || child.Clearing? ==> s.ctxs[i] == NoCtx)
    && (!child.Unborn? && !child.Closing? && s.ctxs[i].Attached? ==> s.ctxs[i].pid == p && p in s.memory)
    && (!child.Unborn? && !child.Closing? && !child.Clearing? ==>
          p in s.memory && s.memory[p].count <= MAX_EVENT_COUNT && Log(s.memory[p]) == Events(s.adds[i]))
    && (child.Unborn? <==> s.parent.Forking? && s.parent.i <= i)
  }

  ghost predicate ParentOk(c: Config, s: State)
    requires Shaped(c, s)
  {
    match s.parent
    case Forking(i) => i <= |c.pids|
    case Waiting(i, failed) =>
      && i <= |c.pids| && (forall j | 0 <= j < i :: s.children[j].Exited?)
      && (failed <==> exists j | 0 <= j < i :: s.children[j] != Exited(0))
    case Printing(i, out) =>
      && i <= |c.pids| && (forall j | 0 <= j < |c.pids| :: s.children[j] == Exited(0))
      && LogsExist(c, s) && out == "[\n" + ObjectsSoFar(Logs(s.memory, c.pids), i)
    case Finished(output) =>
      && (forall j | 0 <= j < |c.pids| :: s.children[j].Exited?)
      && (output.None? <==> exists j | 0 <= j < |c.pids| :: s.children[j] != Exited(0))
      && (output.Some? ==> LogsExist(c, s) && output.value == ReportText(Logs(s.memory, c.pids)))
  }

  ghost predicate Inv(c: Config, s: State)
  {
    && Shaped(c, s) && s.clock.Normal() && s.parentCtx == NoCtx
    && (forall i | 0 <= i < |c.pids| :: ChildOk(c, s, i))
    && ParentOk(c, s)
  }

  // The invariant holds in every reachable state

  lemma InitialInv(c: Config, s: State)
    requires Initial(c, s)
    ensures Inv(c, s)
  {
    forall i | 0 <= i < |c.pids| ensures ChildOk(c, s, i) { assert s.adds[i] == []; }
  }

  lemma TimedLater(adds: seq<Added>, from: Timespec, to: Timespec)
    requires Timed(adds, from) && from.Nanos() <= to.Nanos()
    ensures Timed(adds, to)
  {
  }

  lemma TimedSnoc(adds: seq<Added>, a: Added)
    requires Timed(adds, a.entered) && a.entered.Normal() && a.left.Normal() && a.entered.Nanos() <= a.left.Nanos()
    requires a.event.ts == Stamp(a.event.name, a.entered, a.left)
    ensures Timed(adds + [a], a.left)
  {
  }

  /** A child that opens finds its own segment, whether or not it has opened it before. */
  lemma OpensOwn(c: Config, s: State, i: nat, malloced: int)
    requires Shaped(c, s) && i < |c.pids| && ChildOk(c, s, i)
    requires s.children[i].Clearing? || s.children[i].Adding?
    ensures var (ctx, m) := AfterOpen(c, s, i, malloced);
      && ctx.Attached? && ctx.pid == c.pids[i] && c.pids[i] in m
      && (s.children[i].Adding? ==> m == s.memory)
      && forall q | q in s.memory :: q in m && m[q] == s.memory[q]
  {
  }

  /** The segment of a process is the same in both memories, if it exists. */
  predicate SameSegment(m: Memory, m': Memory, p: int)
  {
    (p in m <==> p in m') && (p in m ==> m[p] == m'[p])
  }

  /** No step of a child touches the segment, or anything else, of another. */
  lemma ChildKeepsOther(c: Config, s: State, i: nat, now: Timespec, malloced: int, other: nat)
    requires Inv(c, s) && Enabled(c, s, ChildMoves(i, now, malloced)) && other < |c.pids| && other != i
    ensures var s' := ChildStep(c, s, i, now, malloced);
      && Shaped(c, s') && s'.parent == s.parent && Later(s.clock, s'.clock)
      && SameSegment(s.memory, s'.memory, c.pids[other])
      && s'.children[other] == s.children[other] && s'.ctxs[other] == s.ctxs[other]
      && s'.adds[other] == s.adds[other]
  {
    hide Timed, Named, CountFits, Log, Events, ParentOk, Stamp, Appended;
    assert ChildOk(c, s, i);
    assert c.pids[i] != c.pids[other];
    if s.children[i].Clearing? || s.children[i].Adding? { OpensOwn(c, s, i, malloced); }
  }

  lemma ChildKeepsOtherOk(c: Config, s: State, i: nat, now: Timespec, malloced: int, other: nat)
    requires Inv(c, s) && Enabled(c, s, ChildMoves(i, now, malloced)) && other < |c.pids| && other != i
    ensures var s' := ChildStep(c, s, i, now, malloced); Shaped(c, s') && ChildOk(c, s', other)
  {
    hide Timed, Named, CountFits, Log, Events, ParentOk, ChildStep;
    assert ChildOk(c, s, other);
    ChildKeepsOther(c, s, i, now, malloced, other);
    TimedLater(s.adds[other], s.clock, ChildStep(c, s, i, now, malloced).clock);
  }

  lemma ClearKeepsItself(c: Config, s: State, i: nat, malloced: int)
    requires Inv(c, s) && i < |c.pids| && s.children[i].Clearing?
    ensures Shaped(c, ClearStep(c, s, i, malloced)) && ChildOk(c, ClearStep(c, s, i, malloced), i)
  {
    assert ChildOk(c, s, i);
    OpensOwn(c, s, i, malloced);
    var s' := ClearStep(c, s, i, malloced);
    assert Log(s'.memory[c.pids[i]]) == [] == Events(s'.adds[i]);
  }

  lemma AddKeepsItself(c: Config, s: State, i: nat, now: Timespec, malloced: int)
    requires Inv(c, s) && i < |c.pids| && s.children[i].Adding? && Later(s.clock, now)
    requires s.children[i].next < |Script(c, i)|
    ensures Shaped(c, AddStep(c, s, i, now, malloced)) && ChildOk(c, AddStep(c, s, i, now, malloced), i)
  {
    hide Log, Stamp;
    assert ChildOk(c, s, i);
    OpensOwn(c, s, i, malloced);
    var Adding(next, entered) := s.children[i];
    var p := c.pids[i];
    assert |Log(s.memory[p])| == s.memory[p].count by { LogLength(s.memory[p]); }
    assert s.memory[p].count == next;
    TimedLater(s.adds[i], s.clock, now);
    if s.memory[p].count < MAX_EVENT_COUNT {
      var e := Event(Script(c, i)[next], Stamp(Script(c, i)[next], entered, now));
      var a := Added(e, entered, now);
      AppendedLog(s.memory[p], e);
      TimedSnoc(s.adds[i], a);
      assert Events(s.adds[i] + [a]) == Events(s.adds[i]) + [e];
    }
  }

  lemma LogLength(s: Segment)
    requires s.count <= MAX_EVENT_COUNT
    ensures |Log(s)| == s.count
  {
  }

  lemma ChildKeepsItself(c: Config, s: State, i: nat, now: Timespec, malloced: int)
    requires Inv(c, s) && Enabled(c, s, ChildMoves(i, now, malloced))
    ensures Shaped(c, ChildStep(c, s, i, now, malloced)) && ChildOk(c, ChildStep(c, s, i, now, malloced), i)
  {
    hide Log, AddStep, ClearStep, Timed, Named;
    assert ChildOk(c, s, i);
    if s.children[i].Clearing? {
      ClearKeepsItself(c, s, i, malloced);
    } else if s.children[i].Adding? {
      AddKeepsItself(c, s, i, now, malloced);
    } else {
      TimedLater(s.adds[i], s.clock, now);
    }
  }

  lemma ChildMovesAlone(c: Config, s: State, i: nat, now: Timespec, malloced: int)
    requires Shaped(c, s) && i < |c.pids|
    ensures var s' := ChildStep(c, s, i, now, malloced);
      && Shaped(c, s') && s'.parent == s.parent && s'.parentCtx == s.parentCtx
      && forall j | 0 <= j < |c.pids| && j != i :: s'.children[j] == s.children[j]
  {
  }

  lemma ChildKeepsParent(c: Config, s: State, i: nat, now: Timespec, malloced: int)
    requires Inv(c, s) && Enabled(c, s, ChildMoves(i, now, malloced))
    ensures Shaped(c, ChildStep(c, s, i, now, malloced)) && ParentOk(c, ChildStep(c, s, i, now, malloced))
  {
    hide ChildOk, ChildStep, ReportText;
    ChildMovesAlone(c, s, i, now, malloced);
    var s' := ChildStep(c, s, i, now, malloced);
    assert !s.parent.Finished? && !s.parent.Printing?;
    if s.parent.Waiting? {
      assert forall j | 0 <= j < s.parent.i :: s'.children[j] == s.children[j];
    }
  }

  lemma AllReadableWhenGone(c: Config, s: State)
    requires Inv(c, s) && forall i | 0 <= i < |c.pids| :: s.children[i].Exited?
    ensures LogsExist(c, s)
  {
    forall i | 0 <= i < |c.pids| ensures c.pids[i] in s.memory && s.memory[c.pids[i]].count <= MAX_EVENT_COUNT {
      assert ChildOk(c, s, i);
    }
  }

  /** With a ctx of NULL the parent prints the log of the child whose turn it is, and makes no segment. */
  lemma PrintsOwn(c: Config, s: State, malloced: int)
    requires Inv(c, s) && s.parent.Printing? && s.parent.i < |c.pids|
    ensures var i := s.parent.i;
      var text := ObjectText(Logs(s.memory, c.pids)[i]) + if i < |c.pids| - 1 then "," else "";
      PrintStep(c, s, malloced) == s.(parent := Printing(i + 1, s.parent.out + text))
  {
    hide ChildOk, ObjectText, ObjectsSoFar, Log;
  }

  /** The parent's steps leave the segments alone. */
  lemma ParentKeepsMemory(c: Config, s: State, malloced: int)
    requires Inv(c, s)
    ensures ParentStep(c, s, malloced).memory == s.memory && ParentStep(c, s, malloced).parentCtx == NoCtx
  {
    hide ChildOk, ObjectText, Log;
    if s.parent.Printing? && s.parent.i < |c.pids| { PrintsOwn(c, s, malloced); }
  }

  lemma ParentKeepsChild(c: Config, s: State, i: nat, malloced: int)
    requires Inv(c, s) && Enabled(c, s, ParentMoves(malloced)) && i < |c.pids|
    ensures Shaped(c, ParentStep(c, s, malloced)) && ChildOk(c, ParentStep(c, s, malloced), i)
  {
    hide Timed, Named, Log, Events, ReportText, PrintStep;
    assert ChildOk(c, s, i);
    if s.parent.Printing? && s.parent.i < |c.pids| { PrintsOwn(c, s, malloced); }
  }

  lemma PrintingKeepsParent(c: Config, s: State, malloced: int)
    requires Inv(c, s) && s.parent.Printing?
    ensures Shaped(c, ParentStep(c, s, malloced)) && ParentOk(c, ParentStep(c, s, malloced))
  {
    hide ChildOk, ObjectsText, ObjectText, PrintStep, Log, ObjectsSoFar;
    var i, logs := s.parent.i, Logs(s.memory, c.pids);
    if i < |c.pids| {
      PrintsOwn(c, s, malloced);
      OneMoreObject(logs, i);
    } else {
      ObjectsSoFarIsAll(logs);
    }
  }

  lemma OneMoreObject(logs: seq<seq<Event>>, i: nat)
    requires i < |logs|
    ensures ("[\n" + ObjectsSoFar(logs, i)) + (ObjectText(logs[i]) + if i < |logs| - 1 then "," else "")
         == "[\n" + ObjectsSoFar(logs, i + 1)
  {
    hide ObjectText;
  }

  lemma ParentKeepsParent(c: Config, s: State, malloced: int)
    requires Inv(c, s) && Enabled(c, s, ParentMoves(malloced))
    ensures Shaped(c, ParentStep(c, s, malloced)) && ParentOk(c, ParentStep(c, s, malloced))
  {
    hide ChildOk, ReportText, ObjectText, PrintStep, Log;
    if s.parent.Printing? {
      PrintingKeepsParent(c, s, malloced);
    } else if s.parent.Waiting? && s.parent.i == |c.pids| {
      AllReadableWhenGone(c, s);
    }
  }

  lemma StepKeepsInv(c: Config, s: State, m: Move)
    requires Inv(c, s) && Enabled(c, s, m)
    ensures Inv(c, Apply(c, s, m))
  {
    hide ChildOk, ParentOk;
    match m
    case ParentMoves(malloced) =>
      ParentKeepsParent(c, s, malloced);
      ParentKeepsMemory(c, s, malloced);
      forall i | 0 <= i < |c.pids| ensures ChildOk(c, ParentStep(c, s, malloced), i) {
        ParentKeepsChild(c, s, i, malloced);
      }
    case ChildMoves(i, now, malloced) =>
      ChildKeepsParent(c, s, i, now, malloced);
      ChildKeepsItself(c, s, i, now, malloced);
      forall other | 0 <= other < |c.pids| ensures ChildOk(c, ChildStep(c, s, i, now, malloced), other) {
        if other != i { ChildKeepsOtherOk(c, s, i, now, malloced, other); }
      }
  }

  lemma {:induction false} EveryRunKeepsInv(c: Config, s: State, moves: seq<Move>)
    requires Shaped(c, s) && Inv(c, s) && Legal(c, s, moves)
    ensures Inv(c, After(c, s, moves))
    decreases |moves|
  {
    hide Inv, Apply, Enabled, Shaped;
    if moves != [] {
      StepKeepsInv(c, s, moves[0]);
      EveryRunKeepsInv(c, Apply(c, s, moves[0]), moves[1..]);
    }
  }

  /** The steps of a child are the calls of SharedEvents.Process; execv starts the program with a process afresh. */
  method ChildCalls(ghost c: Config, ghost s: State, ghost i: nat, child: Child, name: string, p: Process,
                    work: nat, malloced: int)
    returns (q: Process)
    requires Inv(c, s) && i < |c.pids| && child == s.children[i]
    requires child.Closing? || child.Clearing? || child.Execing? || (child.Adding? && child.next < |Script(c, i)|)
    requires child.Adding? ==> name == Script(c, i)[child.next] && p.machine.now == child.entered
    requires p.Valid() && p.pid == c.pids[i] && p.ctx == s.ctxs[i] && p.machine.memory == s.memory
    modifies p`ctx, p.machine
    ensures var s' := ChildStep(c, s, i, p.machine.now, malloced);
            q.machine == p.machine && q.pid == p.pid && q.ctx == s'.ctxs[i] && q.machine.memory == s'.memory
  {
    hide Timed, Named, Log, Stamp;
    assert ChildOk(c, s, i);
    q := p;
    match child
    case Closing => p.Close();
    case Clearing => p.Clear(malloced);
    case Adding(next, entered) =>
      OpensOwn(c, s, i, malloced);
      NamesAreShort(c, i, next);
      var ret := p.Add(name, work, malloced);
    case Execing => q := new Process(p.machine, p.pid);
  }

  /** From its fork to its exit a child can take its next step at any time, wherever the others are. */
  lemma ChildrenRunFreely(c: Config, s: State, i: nat, now: Timespec, malloced: int)
    requires Inv(c, s) && i < |c.pids| && !s.children[i].Unborn? && !s.children[i].Exited?
    requires now.Normal() && s.clock.Nanos() <= now.Nanos()
    ensures Enabled(c, s, ChildMoves(i, now, malloced))
    ensures s.parent.Forking? ==> Enabled(c, s, ParentMoves(malloced))
  {
  }

  lemma NamesAreShort(c: Config, i: nat, k: nat)
    requires WellFormed(c) && i < |c.pids| && k < |Script(c, i)|
    ensures |Script(c, i)[k]| < MAX_EVENT_NAME_LENGTH
  {
  }

  /** A log whose child is gone can be printed: no more events than slots, normal times, names that end. */
  lemma OwnLogReadable(c: Config, s: State, i: nat)
    requires Inv(c, s) && i < |c.pids| && s.children[i].Exited?
    ensures Readable(s.memory, c.pids[i])
  {
    hide Log;
    assert ChildOk(c, s, i);
    var log := Log(s.memory[c.pids[i]]);
    forall k | 0 <= k < |log| ensures log[k].ts.Normal() && |log[k].name| < MAX_EVENT_NAME_LENGTH {
      assert log[k] == s.adds[i][k].event;
      NamesAreShort(c, i, k);
    }
  }

  /** A printing step of the parent is the call of print_events that main makes, and a comma. */
  method ParentPrints(ghost c: Config, ghost s: State, i: nat, nprocs: nat, of: int, p: Process, malloced: int)
    returns (out: string)
    requires Inv(c, s) && s.parent.Printing? && i == s.parent.i < |c.pids| == nprocs && of == c.pids[i]
    requires p.Valid() && p.ctx == s.parentCtx && p.machine.memory == s.memory
    modifies p`ctx, p.machine`memory
    ensures var s' := ParentStep(c, s, malloced);
            p.ctx == s'.parentCtx && p.machine.memory == s'.memory && s'.parent == Printing(i + 1, s.parent.out + out)
  {
    hide ChildOk, ObjectsSoFar, ObjectText, Log;
    assert ParentOk(c, s) && s.children[i] == Exited(0);
    OwnLogReadable(c, s, i);
    var ret, text := PrintEvents(p, of, malloced);
    out := text;
    if i < nprocs - 1 {
      out := out + ",";
    }
  }
}
