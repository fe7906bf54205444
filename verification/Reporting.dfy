/** print_events and the end of main in lttng-ust-benchmarks.c, run by the parent on shared memory. */
module Reporting {
  import opened Text
  import opened SharedEvents
  import opened Printer

  lemma {:induction false} MoreTextSnoc(log: seq<Event>, e: Event)
    ensures MoreText(log + [e]) == MoreText(log) + ("," + EntryText(e))
  {
    if log == [] {
      assert (log + [e])[1..] == [] && (log + [e])[0] == e;
    } else {
      assert (log + [e])[1..] == log[1..] + [e];
      MoreTextSnoc(log[1..], e);
    }
  }

  /** One turn of the printing loop: a space before the first entry, a comma before the others. */
  lemma EntriesTextSnoc(log: seq<Event>, e: Event)
    ensures EntriesText(log + [e]) == EntriesText(log) + ((if |log| > 0 then "," else " ") + EntryText(e))
  {
    if log == [] {
      assert (log + [e])[1..] == [] && (log + [e])[0] == e;
    } else {
      assert (log + [e])[1..] == log[1..] + [e];
      MoreTextSnoc(log[1..], e);
    }
  }

  /** Every name ends within its slot, as %s needs it. */
  ghost predicate AllTerminated(log: seq<Event>)
  {
    forall i | 0 <= i < |log| :: |log[i].name| < MAX_EVENT_NAME_LENGTH
  }

  ghost predicate Readable(m: Memory, pid: int)
  {
    pid in m && m[pid].count <= MAX_EVENT_COUNT && AllNormal(Log(m[pid])) && AllTerminated(Log(m[pid]))
  }

  /**
   * print_events. Which log is printed rests on ctx: with NULL it is the log of the given process, but a context that
   * is already attached is kept, and its log is printed instead.
   */
  method PrintEvents(p: Process, of: int, malloced: int) returns (ret: int, out: string)
    requires p.Valid()
    requires Readable(OpenedMemory(p.machine.memory, p.ctx, of), Opened(p.ctx, of, malloced).pid)
    modifies p`ctx, p.machine`memory
    ensures p.Valid() && p.ctx == NoCtx
    ensures p.machine.memory == OpenedMemory(old(p.machine.memory), old(p.ctx), of)
    ensures ret == 0 && out == ObjectText(Log(p.machine.memory[Opened(old(p.ctx), of, malloced).pid]))
  {
    hide EntriesText, EntryText;
    p.Open(of, malloced);
    p.Rewind(malloced);
    ghost var at := p.ctx.pid;
    ghost var log := Log(p.machine.memory[at]);
    out := "{";
    var i := 0;
    EmptyEntries();
    var event := p.Read(malloced);
    while event.Some?
      invariant p.Valid() && p.ctx.Attached? && p.ctx.pid == at
      invariant p.machine.memory == OpenedMemory(old(p.machine.memory), old(p.ctx), of)
      invariant 0 <= i <= |log|
      invariant event.Some? ==> i < |log| && event.value == log[i] && p.ctx.rptr == i + 1
      invariant event.None? ==> i == |log|
      invariant out == "{" + EntriesText(log[..i])
      decreases |log| - i
    {
      out := out + (if i != 0 then "," else " ") + EntryText(event.value);
      EntriesTextSnoc(log[..i], log[i]);
      assert log[..i] + [log[i]] == log[..i + 1];
      i := i + 1;
      event := p.Read(malloced);
    }
    assert log[..i] == log;
    out := out + "\n}\n";
    p.Close();
    ret := 0;
  }

  lemma EmptyEntries()
    ensures EntriesText([]) == ""
  {
  }

  /**
   * The child's part of run_child, up to execv: whatever ctx it inherited and whatever its segment held, its log is now
   * the one event "exec", and no other segment has changed.
   */
  method RunChild(p: Process, work: nat, malloced: int) returns (ret: int)
    requires p.machine.now.Normal()
    modifies p`ctx, p.machine
    ensures p.Valid() && ret == 0
    ensures p.pid in p.machine.memory && p.machine.memory[p.pid].count == 1
    ensures Log(p.machine.memory[p.pid]) == [Event("exec", old(p.machine.now))]
    ensures p.machine.memory - {p.pid} == old(p.machine.memory) - {p.pid}
  {
    p.Close();
    p.Clear(malloced);
    ghost var cleared := p.machine.memory[p.pid];
    ret := p.Add("exec", work, malloced);
    AppendedLog(cleared, Event("exec", old(p.machine.now)));
  }

  function Logs(m: Memory, pids: seq<int>): (logs: seq<seq<Event>>)
    requires forall i | 0 <= i < |pids| :: pids[i] in m && m[pids[i]].count <= MAX_EVENT_COUNT
    ensures |logs| == |pids|
    ensures forall i | 0 <= i < |pids| :: logs[i] == Log(m[pids[i]])
  {
    seq(|pids|, i requires 0 <= i < |pids| => Log(m[pids[i]]))
  }

  /** The objects printed so far, with the comma that main prints after each but the last. */
  function ObjectsSoFar(logs: seq<seq<Event>>, n: nat): string
    requires n <= |logs|
  {
    if n == 0 then "" else ObjectsSoFar(logs, n - 1) + (ObjectText(logs[n - 1]) + if n < |logs| then "," else "")
  }

  lemma {:induction false} ObjectsSoFarOfMore(logs: seq<seq<Event>>, n: nat)
    requires 1 <= n <= |logs|
    ensures ObjectsSoFar(logs, n)
         == ObjectText(logs[0]) + (if |logs| > 1 then "," else "") + ObjectsSoFar(logs[1..], n - 1)
  {
    hide ObjectText;
    if n == 1 {
      assert ObjectsSoFar(logs, 0) == "";
    } else {
      ObjectsSoFarOfMore(logs, n - 1);
      assert logs[1..][n - 2] == logs[n - 1];
    }
  }

  lemma {:induction false} ObjectsSoFarIsAll(logs: seq<seq<Event>>)
    ensures ObjectsSoFar(logs, |logs|) == ObjectsText(logs)
  {
    hide ObjectText;
    if |logs| == 1 {
      assert ObjectsSoFar(logs, 0) == "";
    } else if |logs| > 1 {
      ObjectsSoFarOfMore(logs, |logs|);
      ObjectsSoFarIsAll(logs[1..]);
    }
  }

  ghost predicate AllReadable(m: Memory, pids: seq<int>)
  {
    forall i | 0 <= i < |pids| :: Readable(m, pids[i])
  }

  predicate AllZero(statuses: seq<int>)
  {
    forall i | 0 <= i < |statuses| :: statuses[i] == 0
  }

  /** main from the waiting loop on; statuses are the results of wait_child. */
  method Report(p: Process, pids: seq<int>, statuses: seq<int>, malloced: int) returns (ret: int, out: string)
    requires p.Valid() && p.ctx == NoCtx && |statuses| == |pids|
    requires AllReadable(p.machine.memory, pids)
    modifies p`ctx, p.machine`memory
    ensures p.machine.memory == old(p.machine.memory)
    ensures if AllZero(statuses) then ret == 0 && out == ReportText(Logs(p.machine.memory, pids))
            else ret == -1 && out == ""
  {
    hide ObjectText;
    ret, out := 0, "";
    for i := 0 to |pids|
      invariant ret == if AllZero(statuses[..i]) then 0 else -1
    {
      assert AllZero(statuses[..i + 1]) <==> AllZero(statuses[..i]) && statuses[i] == 0 by {
        assert statuses[..i + 1] == statuses[..i] + [statuses[i]];
      }
      if statuses[i] != 0 {
        ret := -1;
      }
    }
    assert statuses[..|pids|] == statuses;
    if ret != -1 {
      out := PrintAll(p, pids, malloced);
    }
  }

  method PrintAll(p: Process, pids: seq<int>, malloced: int) returns (out: string)
    requires p.Valid() && p.ctx == NoCtx && AllReadable(p.machine.memory, pids)
    modifies p`ctx, p.machine`memory
    ensures p.machine.memory == old(p.machine.memory)
    ensures out == ReportText(Logs(p.machine.memory, pids))
  {
    hide ObjectText;
    ghost var logs := Logs(p.machine.memory, pids);
    out := "[\n";
    for i := 0 to |pids|
      invariant p.Valid() && p.ctx == NoCtx && p.machine.memory == old(p.machine.memory)
      invariant out == "[\n" + ObjectsSoFar(logs, i)
    {
      assert Readable(p.machine.memory, pids[i]);
      var r, text := PrintEvents(p, pids[i], malloced);
      out := out + text;
      if i < |pids| - 1 {
        out := out + ",";
      }
    }
    ObjectsSoFarIsAll(logs);
    out := out + "]\n";
  }
}
