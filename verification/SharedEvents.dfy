/** shared_events.c: one log of events per process in shared memory, and each process's own way into it. */
module SharedEvents {
  import opened Text

  const MAX_EVENT_COUNT := 256
  const MAX_EVENT_NAME_LENGTH := 256
  const NSEC_PER_SEC := 1_000_000_000

  /** struct timespec, from a clock that never shows a negative time. */
  datatype Timespec = Timespec(sec: nat, nsec: nat) {
    predicate Normal() { nsec < NSEC_PER_SEC }

    function Nanos(): nat { sec * NSEC_PER_SEC + nsec }
  }

  datatype Event = Event(name: string, ts: Timespec)

  /** struct shared_events: as many slots as there can be events, of which the first count are in use. */
  datatype Slots = Slots(count: nat, slots: seq<Event>)

  type Segment = s: Slots | |s.slots| == MAX_EVENT_COUNT witness Fresh()

  /** A segment as ftruncate makes it. */
  function Fresh(): (s: Slots)
    ensures |s.slots| == MAX_EVENT_COUNT && s.count == 0
  {
    Slots(0, seq(MAX_EVENT_COUNT, _ => Event("", Timespec(0, 0))))
  }

  function Log(s: Segment): seq<Event>
    requires s.count <= MAX_EVENT_COUNT
  {
    s.slots[..s.count]
  }

  /** The segments, by the process id in their names. */
  type Memory = map<int, Segment>

  /** The static ctx of a process: NULL, or attached to a segment, with a read pointer. */
  datatype Ctx = NoCtx | Attached(pid: int, rptr: int)

  // What each call does to the memory and to the caller's ctx

  function Existing(m: Memory, pid: int): Memory
  {
    if pid in m then m else m[pid := Fresh()]
  }

  /** shared_events_open: malloc leaves rptr as it is, so that any value may be there. */
  function Opened(ctx: Ctx, pid: int, rptr: int): Ctx
  {
    if ctx.NoCtx? then Attached(pid, rptr) else ctx
  }

  function OpenedMemory(m: Memory, ctx: Ctx, pid: int): Memory
  {
    if ctx.NoCtx? then Existing(m, pid) else m
  }

  function Appended(s: Segment, e: Event): Segment
    requires s.count < MAX_EVENT_COUNT
  {
    Slots(s.count + 1, s.slots[s.count := e])
  }

  lemma AppendedLog(s: Segment, e: Event)
    requires s.count < MAX_EVENT_COUNT
    ensures Log(Appended(s, e)) == Log(s) + [e]
  {
  }

  /** "start" is stamped on leaving shared_events_add, everything else on entering it. */
  function Stamp(name: string, entered: Timespec, leaving: Timespec): Timespec
  {
    if name == "start" then leaving else entered
  }

  /** What strncpy leaves in the name of a slot: a name that fills it has no terminating zero. */
  function Kept(name: string): string
  {
    if |name| <= MAX_EVENT_NAME_LENGTH then name else name[..MAX_EVENT_NAME_LENGTH]
  }

  lemma KeptIs(name: string)
    ensures Kept(name) <= name && |Kept(name)| == if |name| < 256 then |name| else 256
  {
  }

  /** Shared memory and the monotonic clock. */
  class Machine {
    var memory: Memory
    var now: Timespec

    constructor (memory: Memory, now: Timespec)
      requires now.Normal()
      ensures this.memory == memory && this.now == now
    {
      this.memory := memory;
      this.now := now;
    }

    /** CLOCK_MONOTONIC, after some more nanoseconds. */
    method Tick(d: nat)
      requires now.Normal()
      modifies `now
      ensures now.Normal() && now.Nanos() == old(now.Nanos()) + d
    {
      var n := now.Nanos() + d;
      now := Timespec(n / NSEC_PER_SEC, n % NSEC_PER_SEC);
    }
  }

  class Process {
    const machine: Machine
    const pid: int
    var ctx: Ctx

    constructor (machine: Machine, pid: int)
      ensures this.machine == machine && this.pid == pid && ctx == NoCtx
    {
      this.machine := machine;
      this.pid := pid;
      ctx := NoCtx;
    }

    ghost predicate Valid()
      reads this, machine
    {
      machine.now.Normal() && (ctx.Attached? ==> ctx.pid in machine.memory)
    }

    /** shared_events_close. */
    method Close()
      modifies `ctx
      ensures ctx == NoCtx
    {
      ctx := NoCtx;
    }

    /** shared_events_open; malloced is what rptr happens to hold. */
    method Open(of: int, malloced: int)
      requires Valid()
      modifies `ctx, machine`memory
      ensures Valid() && ctx == Opened(old(ctx), of, malloced)
      ensures machine.memory == OpenedMemory(old(machine.memory), old(ctx), of)
    {
      if ctx != NoCtx {
        return;
      }
      ctx := Attached(of, malloced);
      if of !in machine.memory {
        machine.memory := machine.memory[of := Fresh()];
      }
    }

    /** shared_events_clear: the count only; the read pointer and the slots stay. */
    method Clear(malloced: int)
      requires Valid()
      modifies `ctx, machine`memory
      ensures Valid() && ctx == Opened(old(ctx), pid, malloced)
      ensures var m := OpenedMemory(old(machine.memory), old(ctx), pid);
              machine.memory == m[ctx.pid := Slots(0, m[ctx.pid].slots)]
    {
      Open(pid, malloced);
      machine.memory := machine.memory[ctx.pid := Slots(0, machine.memory[ctx.pid].slots)];
    }

    /** shared_events_add, taking work nanoseconds between its two readings of the clock. */
    method Add(name: string, work: nat, malloced: int) returns (ret: int)
      requires Valid()
      requires var m := OpenedMemory(machine.memory, ctx, pid);
               m[Opened(ctx, pid, malloced).pid].count <= MAX_EVENT_COUNT
      modifies `ctx, machine
      ensures Valid() && ctx == Opened(old(ctx), pid, malloced)
      ensures machine.now.Nanos() == old(machine.now.Nanos()) + work
      ensures var m := OpenedMemory(old(machine.memory), old(ctx), pid);
              var s := m[ctx.pid];
              if s.count == MAX_EVENT_COUNT then ret == -1 && machine.memory == m
              else
                && ret == 0
                && machine.memory
                == m[ctx.pid := Appended(s, Event(Kept(name), Stamp(name, old(machine.now), machine.now)))]
    {
      var tmpts := machine.now;
      Open(pid, malloced);
      var s: Segment := machine.memory[ctx.pid];
      if s.count == MAX_EVENT_COUNT {
        machine.Tick(work);
        return -1;
      }
      ghost var before := s;
      var at := s.count;
      s := Slots(s.count, s.slots[at := Event(Kept(name), s.slots[at].ts)]);
      s := Slots(s.count + 1, s.slots);
      machine.Tick(work);
      if name == "start" {
        s := Slots(s.count, s.slots[at := Event(Kept(name), machine.now)]);
      } else {
        s := Slots(s.count, s.slots[at := Event(Kept(name), tmpts)]);
      }
      assert s.slots == before.slots[at := Event(Kept(name), Stamp(name, tmpts, machine.now))];
      machine.memory := machine.memory[ctx.pid := s];
      ret := 0;
    }

    /** shared_events_rewind. */
    method Rewind(malloced: int)
      requires Valid()
      modifies `ctx, machine`memory
      ensures Valid() && ctx == Attached(Opened(old(ctx), pid, malloced).pid, 0)
      ensures machine.memory == OpenedMemory(old(machine.memory), old(ctx), pid)
    {
      Open(pid, malloced);
      ctx := Attached(ctx.pid, 0);
    }

    /**
     * shared_events_read. The only end it knows is a read pointer equal to count; any other pointer is followed, so
     * that it has to lie within the slots.
     */
    method Read(malloced: int) returns (e: Option<Event>)
      requires Valid()
      requires var rptr := Opened(ctx, pid, malloced).rptr;
               var s := OpenedMemory(machine.memory, ctx, pid)[Opened(ctx, pid, malloced).pid];
               rptr == s.count || 0 <= rptr < MAX_EVENT_COUNT
      modifies `ctx, machine`memory
      ensures Valid() && machine.memory == OpenedMemory(old(machine.memory), old(ctx), pid)
      ensures var was := Opened(old(ctx), pid, malloced);
              var s := machine.memory[was.pid];
              if was.rptr == s.count then e == None && ctx == was
              else e == Some(s.slots[was.rptr]) && ctx == Attached(was.pid, was.rptr + 1)
    {
      Open(pid, malloced);
      var s := machine.memory[ctx.pid];
      if ctx.rptr == s.count {
        return None;
      }
      e := Some(s.slots[ctx.rptr]);
      ctx := Attached(ctx.pid, ctx.rptr + 1);
    }
  }
}
