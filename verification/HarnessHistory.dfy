/** The harness by the moves of a run: what each child has read from the clock, and so what its log must say. */
module HarnessHistory {
  import opened SharedEvents
  import opened Harness
  import opened Traces

  function MovesOf(i: nat): Move -> bool { (m: Move) => m.ChildMoves? && m.i == i }

  /** How many steps a child has taken. */
  function Steps(moves: seq<Move>, i: nat): nat { |Places(moves, MovesOf(i))| }

  /** The clock at the k-th of them, counted from 0. */
  function Reading(moves: seq<Move>, i: nat, k: nat): Timespec
    requires k < Steps(moves, i)
  {
    moves[Places(moves, MovesOf(i))[k]].now
  }

  lemma OneMoreMove(moves: seq<Move>, m: Move, i: nat)
    ensures var mine := m.ChildMoves? && m.i == i;
      && Steps(moves + [m], i) == Steps(moves, i) + (if mine then 1 else 0)
      && (forall k | 0 <= k < Steps(moves, i) :: Reading(moves + [m], i, k) == Reading(moves, i, k))
      && (mine ==> Reading(moves + [m], i, Steps(moves, i)) == m.now)
  {
    PlacesSnoc(moves, m, MovesOf(i));
  }

  /**
   * The step at which a child enters its k-th call of shared_events_add; it leaves it at its next step. Close and clear
   * are steps 0 and 1, execv is step 4.
   */
  function EnterAt(k: nat): nat { if k == 0 then 2 else 2 * k + 3 }

  /** The steps a child has taken, by where it is. */
  ghost predicate StepsFit(child: Child, script: seq<string>, steps: nat)
  {
    match child
    case Unborn => steps == 0
    case Closing => steps == 0
    case Clearing => steps == 1
    case Ready(next) => steps == EnterAt(next)
    case Adding(next, _) => steps == EnterAt(next) + 1
    case Execing => steps == 4
    case Exited(status) => status == 0 ==> steps == 2 * |script| + 4
  }

  /** Each call in the history of a child was entered and left at the times that two of its steps have read. */
  ghost predicate Seen(child: Child, script: seq<string>, adds: seq<Added>, moves: seq<Move>, i: nat)
  {
    && StepsFit(child, script, Steps(moves, i))
    && (child.Adding? ==> child.entered == Reading(moves, i, EnterAt(child.next)))
    && forall k | 0 <= k < |adds| ::
         && EnterAt(k) + 1 < Steps(moves, i)
         && adds[k].entered == Reading(moves, i, EnterAt(k))
         && adds[k].left == Reading(moves, i, EnterAt(k) + 1)
  }

  ghost predicate History(c: Config, s: State, moves: seq<Move>)
    requires Shaped(c, s)
  {
    forall i | 0 <= i < |c.pids| :: Seen(s.children[i], Script(c, i), s.adds[i], moves, i)
  }

  lemma SeenStays(child: Child, script: seq<string>, adds: seq<Added>, moves: seq<Move>, m: Move, i: nat)
    requires Seen(child, script, adds, moves, i) && !(m.ChildMoves? && m.i == i)
    ensures Seen(child, script, adds, moves + [m], i)
  {
    hide Steps, Reading;
    OneMoreMove(moves, m, i);
  }

  /** What a child gains by leaving a call, or by overrunning its log. */
  lemma SeenLeaves(child: Child, script: seq<string>, adds: seq<Added>, e: Event, moves: seq<Move>, m: Move, i: nat)
    requires Seen(child, script, adds, moves, i) && m.ChildMoves? && m.i == i
    requires child.Adding? && |adds| == child.next
    ensures var left := if child.next == 0 then Execing else Ready(child.next + 1);
      && Seen(left, script, adds + [Added(e, child.entered, m.now)], moves + [m], i)
      && (child.next == 0 ==> Seen(Execing, script, adds, moves + [m], i))
      && Seen(Exited(1), script, adds, moves + [m], i)
  {
    hide Steps, Reading;
    OneMoreMove(moves, m, i);
  }

  lemma SeenMoves(c: Config, s: State, moves: seq<Move>, i: nat, now: Timespec, malloced: int)
    requires Inv(c, s) && Enabled(c, s, ChildMoves(i, now, malloced))
    requires Seen(s.children[i], Script(c, i), s.adds[i], moves, i)
    ensures var s' := ChildStep(c, s, i, now, malloced);
      Shaped(c, s') && Seen(s'.children[i], Script(c, i), s'.adds[i], moves + [ChildMoves(i, now, malloced)], i)
  {
    hide Timed, Named, Log, ParentOk, Stamp, Appended, Events, Steps, Reading;
    assert ChildOk(c, s, i);
    var m := ChildMoves(i, now, malloced);
    if s.children[i].Adding? {
      hide Seen;
      var Adding(next, entered) := s.children[i];
      var e := Event(Script(c, i)[next], Stamp(Script(c, i)[next], entered, now));
      SeenLeaves(s.children[i], Script(c, i), s.adds[i], e, moves, m, i);
    } else {
      OneMoreMove(moves, m, i);
    }
  }

  lemma SeenAtBirth(script: seq<string>, adds: seq<Added>, moves: seq<Move>, i: nat)
    ensures Seen(Unborn, script, adds, moves, i) ==> Seen(Closing, script, adds, moves, i)
  {
    hide Steps, Reading;
  }

  lemma HistoryMovesOne(c: Config, s: State, moves: seq<Move>, m: Move, i: nat)
    requires Inv(c, s) && Enabled(c, s, m) && i < |c.pids|
    requires Seen(s.children[i], Script(c, i), s.adds[i], moves, i)
    ensures var s' := Apply(c, s, m); Seen(s'.children[i], Script(c, i), s'.adds[i], moves + [m], i)
  {
    hide Seen, ChildStep, PrintStep, ParentOk, Script;
    match m
    case ParentMoves(malloced) =>
      SeenStays(s.children[i], Script(c, i), s.adds[i], moves, m, i);
      if s.parent.Printing? && s.parent.i < |c.pids| { PrintsOwn(c, s, malloced); }
      if s.parent == Forking(i) {
        assert ChildOk(c, s, i);
        SeenAtBirth(Script(c, i), s.adds[i], moves + [m], i);
      }
    case ChildMoves(j, now, malloced) =>
      if j == i {
        SeenMoves(c, s, moves, i, now, malloced);
      } else {
        SeenStays(s.children[i], Script(c, i), s.adds[i], moves, m, i);
        ChildKeepsOther(c, s, j, now, malloced, i);
      }
  }

  lemma HistoryMoves(c: Config, s: State, moves: seq<Move>, m: Move)
    requires Shaped(c, s) && Inv(c, s) && Enabled(c, s, m) && History(c, s, moves)
    ensures History(c, Apply(c, s, m), moves + [m])
  {
    hide Inv, Apply, Enabled, Seen, Script;
    forall i | 0 <= i < |c.pids|
      ensures var s' := Apply(c, s, m); Seen(s'.children[i], Script(c, i), s'.adds[i], moves + [m], i)
    {
      HistoryMovesOne(c, s, moves, m, i);
    }
  }

  lemma {:induction false} EveryRunHasHistory(c: Config, s: State, before: seq<Move>, moves: seq<Move>)
    requires Shaped(c, s) && Inv(c, s) && History(c, s, before) && Legal(c, s, moves)
    ensures History(c, After(c, s, moves), before + moves)
    decreases |moves|
  {
    hide Inv, Apply, Enabled, Shaped, History;
    if moves == [] {
      assert before + moves == before;
    } else {
      StepKeepsInv(c, s, moves[0]);
      HistoryMoves(c, s, before, moves[0]);
      EveryRunHasHistory(c, Apply(c, s, moves[0]), before + [moves[0]], moves[1..]);
      assert before + [moves[0]] + moves[1..] == before + moves;
    }
  }

  lemma NothingSeen(c: Config, s: State)
    requires Initial(c, s)
    ensures History(c, s, [])
  {
  }

  /**
   * In every reachable state: the k-th call that a child's history holds was entered at the time its step EnterAt(k)
   * has read, and left at the time its next step has read.
   */
  lemma CallsAreReadings(c: Config, s0: State, moves: seq<Move>)
    requires Initial(c, s0) && Legal(c, s0, moves)
    ensures History(c, After(c, s0, moves), moves)
  {
    hide Inv, History, Legal;
    InitialInv(c, s0);
    NothingSeen(c, s0);
    EveryRunHasHistory(c, s0, [], moves);
    assert [] + moves == moves;
  }
}
