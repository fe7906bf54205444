/** linux_cpu.py and the CPU loop of benchmarks.py, over the set of CPUs that are online. */
module LinuxCpu {
  import opened Text
  import opened CpuList

  datatype Outcome = Done | TooManyCpus | TooFewCpus | WrongCount | Interrupted

  /** How many of k writes are made, if a KeyboardInterrupt comes after some of them. */
  function Made(k: nat, interrupt: Option<nat>): nat
  {
    if interrupt.Some? && interrupt.value < k then interrupt.value else k
  }

  /** {0, ..., n - 1}. */
  function Below(n: nat): (s: set<nat>)
    ensures forall x: nat :: x in s <==> x < n
    ensures |s| == n
  {
    if n == 0 then {} else Below(n - 1) + {n - 1}
  }

  /** l consists of members of s that are smaller than all other members of s. */
  ghost predicate Lowest(l: set<nat>, s: set<nat>)
  {
    l <= s && forall x, y | x in l && y in s - l :: x < y
  }

  class Cpus {
    /** CPU ids are below limit. */
    const limit: nat
    const present: set<nat>
    var online: set<nat>

    constructor (limit: nat, present: set<nat>, online: set<nat>)
      requires online <= present && forall x | x in present :: x < limit
      ensures Valid() && this.limit == limit && this.present == present && this.online == online
    {
      this.limit := limit;
      this.present := present;
      this.online := online;
    }

    ghost predicate Valid()
      reads this
    {
      online <= present && forall x | x in present :: x < limit
    }

    function OnlineFile(): string
      reads this
    {
      KernelText(online, limit)
    }

    function OfflineFile(): string
      reads this
    {
      KernelText(present - online, limit)
    }

    /** Reading online_cpus. */
    method OnlineCpus() returns (s: set<nat>)
      requires Valid()
      ensures s == online
    {
      ReadsBackKernelText(online, limit);
      var r := ReadCpuFile(OnlineFile());
      s := r.value;
    }

    /** Reading offline_cpus. */
    method OfflineCpus() returns (s: set<nat>)
      requires Valid()
      ensures s == present - online
    {
      ReadsBackKernelText(present - online, limit);
      var r := ReadCpuFile(OfflineFile());
      s := r.value;
    }

    /** Writing "1" or "0" to the online file of one CPU. */
    method SetCpuOnline(cpu: nat, on: bool)
      requires Valid() && cpu in present
      modifies this
      ensures Valid()
      ensures online == if on then old(online) + {cpu} else old(online) - {cpu}
    {
      online := if on then online + {cpu} else online - {cpu};
    }

    method SetCpusOnline(cpus: set<nat>, on: bool)
      requires Valid() && cpus <= present
      modifies this
      ensures Valid()
      ensures online == if on then old(online) + cpus else old(online) - cpus
    {
      var rest := cpus;
      while rest != {}
        invariant Valid() && rest <= cpus
        invariant online == if on then old(online) + (cpus - rest) else old(online) - (cpus - rest)
        decreases |rest|
      {
        var cpu :| cpu in rest;
        SetCpuOnline(cpu, on);
        rest := rest - {cpu};
      }
    }

    /** Assigning online_cpus. */
    method AssignOnline(cpus: set<nat>)
      requires Valid()
      modifies this
      ensures Valid() && online == cpus * present
    {
      var on := OnlineCpus();
      SetCpusOnline(on - cpus, false);
      var off := OfflineCpus();
      SetCpusOnline(off * cpus, true);
    }

    /** Assigning offline_cpus. */
    method AssignOffline(cpus: set<nat>)
      requires Valid()
      modifies this
      ensures Valid() && online == present - cpus
    {
      var on := OnlineCpus();
      SetCpusOnline(on * cpus, false);
      var off := OfflineCpus();
      SetCpusOnline(off - cpus, true);
    }

    /** The for loops of the online_count setter, over a slice of a sorted list, up to an interrupt. */
    method SetEachOnline(ids: seq<nat>, on: bool, interrupt: Option<nat>)
      requires Valid() && forall i | 0 <= i < |ids| :: ids[i] in present
      modifies this
      ensures Valid()
      ensures var made := Members(ids[..Made(|ids|, interrupt)]);
              online == if on then old(online) + made else old(online) - made
    {
      for i := 0 to |ids|
        invariant Valid() && (interrupt.Some? ==> i <= interrupt.value)
        invariant online == if on then old(online) + Members(ids[..i]) else old(online) - Members(ids[..i])
      {
        if interrupt == Some(i) {
          return;
        }
        assert Members(ids[..i + 1]) == Members(ids[..i]) + {ids[i]};
        SetCpuOnline(ids[i], on);
      }
      assert ids[..|ids|] == ids;
    }

    /** for cpu_id in sorted(list(on))[-k:]. */
    method DisableLast(on: set<nat>, k: nat, interrupt: Option<nat>)
      requires Valid() && on == online && k <= |on|
      modifies this
      ensures Valid() && online <= on && |online| == |on| - Made(k, interrupt)
      ensures Made(k, interrupt) == k ==> Lowest(online, on)
    {
      hide Lowest, Ascending, Members;
      var ids := Ascending(on, limit);
      AscendingIsAll(on, limit);
      WithoutLast(ids, on, k, Made(k, interrupt));
      SetEachOnline(ids[|ids| - k..], false, interrupt);
    }

    /** for cpu_id in sorted(list(off))[:k]. */
    method EnableFirst(off: set<nat>, k: nat, interrupt: Option<nat>)
      requires Valid() && off == present - online && k <= |off|
      modifies this
      ensures Valid() && old(online) <= online && |online| == |old(online)| + Made(k, interrupt)
      ensures Lowest(online - old(online), off)
    {
      hide Lowest, Ascending, Members;
      var ids := Ascending(off, limit);
      AscendingIsAll(off, limit);
      OnlyFirst(ids, off, k, Made(k, interrupt));
      DisjointUnion(online, Members(ids[..k][..Made(k, interrupt)]));
      SetEachOnline(ids[..k], true, interrupt);
    }

    /** Assigning online_count; an interrupt comes after so many writes, or after all of them. */
    method AssignOnlineCount(count: int, interrupt: Option<nat>) returns (r: Outcome)
      requires Valid()
      modifies this
      ensures Valid()
      ensures r == if count > |present| then TooManyCpus else if count < 1 then TooFewCpus
                   else if interrupt.Some? then Interrupted else Done
      ensures r.TooManyCpus? || r.TooFewCpus? ==> online == old(online)
      ensures r.Done? ==> |online| == count
      ensures r.Done? && count <= |old(online)| ==> Lowest(online, old(online))
      ensures r.Done? && count >= |old(online)| ==>
                old(online) <= online && Lowest(online - old(online), present - old(online))
      ensures r.Interrupted? && count <= |old(online)| ==>
                online <= old(online) && |online| == |old(online)| - Made(|old(online)| - count, interrupt)
      ensures r.Interrupted? && count >= |old(online)| ==>
                && old(online) <= online && |online| == |old(online)| + Made(count - |old(online)|, interrupt)
                && Lowest(online - old(online), present - old(online))
    {
      var on := OnlineCpus();
      var off := OfflineCpus();
      assert |present| == |on| + |off| by { assert on + off == present; }
      var toEnable := count - |on|;
      if toEnable > |off| {
        return TooManyCpus;
      } else if count < 1 {
        return TooFewCpus;
      } else if toEnable < 0 {
        DisableLast(on, -toEnable, interrupt);
      } else {
        EnableFirst(off, toEnable, interrupt);
        SubsetSize(on, online);
      }
      if interrupt.Some? {
        return Interrupted;
      }
      var now := OnlineCpus();
      r := if |now| != count then WrongCount else Done;
    }
  }

  function Members(q: seq<nat>): set<nat> { set x | x in q }

  lemma {:induction false} AscendingIsAll(s: set<nat>, n: nat)
    requires forall x | x in s :: x < n
    ensures Members(Ascending(s, n)) == s && |Ascending(s, n)| == |s|
  {
    if n > 0 {
      assert Ascending(s, n - 1) == Ascending(s - {n - 1}, n - 1) by { SameBelow(s, s - {n - 1}, n - 1); }
      AscendingIsAll(s - {n - 1}, n - 1);
    }
  }

  lemma {:induction false} SameBelow(s: set<nat>, t: set<nat>, n: nat)
    requires forall x | x < n :: x in s <==> x in t
    ensures Ascending(s, n) == Ascending(t, n)
  {
    if n > 0 { SameBelow(s, t, n - 1); }
  }

  /** Cutting a sorted list in two: the first part has the lowest members, the second part the rest. */
  lemma SliceLowest(q: seq<nat>, s: set<nat>, k: nat)
    requires Members(q) == s && |q| == |s| && k <= |q|
    requires forall i, j | 0 <= i < j < |q| :: q[i] < q[j]
    ensures Members(q[..k]) == s - Members(q[k..]) && Members(q[k..]) == s - Members(q[..k])
    ensures Lowest(Members(q[..k]), s) && |Members(q[..k])| == k
  {
    assert q == q[..k] + q[k..];
    DistinctCount(q[..k]);
  }

  lemma MembersOfPart(q: seq<nat>, s: set<nat>, lo: nat, hi: nat)
    requires Members(q) == s && lo <= hi <= |q|
    ensures Members(q[lo..hi]) <= s && forall i | 0 <= i < hi - lo :: q[lo..hi][i] in s
  {
    forall x | x in q[lo..hi] ensures x in q {}
    forall i | 0 <= i < hi - lo ensures q[lo..hi][i] in s { assert q[lo..hi][i] in q; }
  }

  lemma SizeWithout(part: seq<nat>, s: set<nat>)
    requires Members(part) <= s && forall i, j | 0 <= i < j < |part| :: part[i] < part[j]
    ensures |s - Members(part)| == |s| - |part|
  {
    DistinctCount(part);
    assert s == (s - Members(part)) + Members(part);
  }

  lemma PartOfLast(q: seq<nat>, k: nat, made: nat)
    requires made <= k <= |q| && forall i, j | 0 <= i < j < |q| :: q[i] < q[j]
    ensures q[|q| - k..][..made] == q[|q| - k..|q| - k + made]
    ensures q[|q| - k..][..k] == q[|q| - k..] == q[|q| - k..|q|]
    ensures var part := q[|q| - k..][..made]; forall i, j | 0 <= i < j < |part| :: part[i] < part[j]
  {
  }

  /** What is left when made of the last k members, smallest first, have been taken away. */
  lemma WithoutLast(q: seq<nat>, s: set<nat>, k: nat, made: nat)
    requires Members(q) == s && |q| == |s| && made <= k <= |q|
    requires forall i, j | 0 <= i < j < |q| :: q[i] < q[j]
    ensures var last := q[|q| - k..];
      && (forall i | 0 <= i < k :: last[i] in s)
      && |s - Members(last[..made])| == |s| - made
      && (made == k ==> Lowest(s - Members(last[..made]), s))
  {
    hide Lowest, Members;
    PartOfLast(q, k, made);
    MembersOfPart(q, s, |q| - k, |q|);
    MembersOfPart(q, s, |q| - k, |q| - k + made);
    SizeWithout(q[|q| - k..][..made], s);
    SliceLowest(q, s, |q| - k);
  }

  /** The first made of the first k members. */
  lemma OnlyFirst(q: seq<nat>, s: set<nat>, k: nat, made: nat)
    requires Members(q) == s && |q| == |s| && made <= k <= |q|
    requires forall i, j | 0 <= i < j < |q| :: q[i] < q[j]
    ensures var first := Members(q[..k][..made]);
      && (forall i | 0 <= i < k :: q[..k][i] in s)
      && first <= s && |first| == made && Lowest(first, s)
  {
    MembersOfPart(q, s, 0, k);
    assert q[..k][..made] == q[..made];
    SliceLowest(q, s, made);
  }

  lemma {:induction false} DistinctCount(q: seq<nat>)
    requires forall i, j | 0 <= i < j < |q| :: q[i] < q[j]
    ensures |Members(q)| == |q|
  {
    if q != [] {
      var last := |q| - 1;
      DistinctCount(q[..last]);
      assert Members(q) == Members(q[..last]) + {q[last]};
    }
  }

  // The CPU loop of main, and the restoration around it

  lemma LowestOfBelow(l: set<nat>, n: nat)
    requires Lowest(l, Below(n))
    ensures l == Below(|l|)
  {
    forall y | y in l ensures y in Below(|l|) {
      BelowMember(l, n, y);
    }
    SubsetSize(l, Below(|l|));
  }

  lemma BelowMember(l: set<nat>, n: nat, y: nat)
    requires Lowest(l, Below(n)) && y in l
    ensures y < |l|
  {
    assert y in Below(n);
    forall x | x in Below(y + 1) ensures x in l {
      assert x in l || x in Below(n) - l;
    }
    SubsetSize(Below(y + 1), l);
  }

  lemma DisjointUnion(s: set<nat>, t: set<nat>)
    requires s !! t
    ensures |s + t| == |s| + |t| && (s + t) - s == t
  {
  }

  lemma SubsetSize(s: set<nat>, t: set<nat>)
    requires s <= t
    ensures |s| <= |t| && (|s| == |t| ==> s == t)
  {
    assert t == s + (t - s);
  }

  /** CPU ids are indices into an array sized by the number of online CPUs exactly when they are 0, 1, ... */
  lemma IndexInRangeIffContiguous(online: set<nat>)
    ensures (forall cpu | cpu in online :: cpu < |online|) <==> online == Below(|online|)
  {
    if forall cpu | cpu in online :: cpu < |online| {
      SubsetSize(online, Below(|online|));
    }
  }

  /**
   * The loop of main over descending CPU counts, up to a KeyboardInterrupt after so many turns: between the turns, or
   * within the setter of the next. turns records the set that each turn ran on.
   */
  method CpuLoop(cpus: Cpus, after: nat, inSetter: Option<nat>) returns (turns: seq<set<nat>>)
    requires cpus.Valid()
    modifies cpus
    ensures cpus.Valid()
    ensures |turns| == if after < |old(cpus.online)| then after else |old(cpus.online)|
    ensures AllLowest(turns, old(cpus.online))
  {
    var first := cpus.OnlineCpus();
    var count := |first|;
    turns := [];
    while count >= 1 && (|turns| < after || inSetter.Some?)
      invariant cpus.Valid() && 0 <= count && |turns| <= after
      invariant |turns| == |first| - count
      invariant |cpus.online| >= count && Lowest(cpus.online, first)
      invariant AllLowest(turns, first)
      decreases count
    {
      ghost var before := cpus.online;
      SubsetSize(before, cpus.present);
      var r := cpus.AssignOnlineCount(count, if |turns| == after then inSetter else None);
      if !r.Done? {
        break;
      }
      LowestOfLowest(cpus.online, before, first);
      turns := turns + [cpus.online];
      count := count - 1;
    }
  }

  /** Turn i runs on all but i of the CPUs, the ones with the smallest ids. */
  ghost predicate AllLowest(turns: seq<set<nat>>, first: set<nat>)
  {
    |turns| <= |first| && forall i | 0 <= i < |turns| :: |turns[i]| == |first| - i && Lowest(turns[i], first)
  }

  /** With CPUs 0 to n - 1 online at first, turn i runs on exactly 0 to n - i - 1, and every id is a valid index. */
  lemma TurnsAreContiguous(turns: seq<set<nat>>, n: nat, i: nat)
    requires AllLowest(turns, Below(n)) && i < |turns|
    ensures turns[i] == Below(n - i) && forall cpu | cpu in turns[i] :: cpu < |turns[i]|
  {
    LowestOfBelow(turns[i], n);
    IndexInRangeIffContiguous(turns[i]);
  }

  /** The program: wherever the loop was interrupted, the CPUs online before are the ones online after. */
  method Program(cpus: Cpus, after: nat, inSetter: Option<nat>) returns (turns: seq<set<nat>>)
    requires cpus.Valid()
    modifies cpus
    ensures cpus.Valid() && cpus.online == old(cpus.online)
    ensures AllLowest(turns, old(cpus.online))
  {
    var saved := cpus.OnlineCpus();
    turns := CpuLoop(cpus, after, inSetter);
    cpus.AssignOnline(saved);
    assert saved * cpus.present == saved;
  }

  lemma LowestOfLowest(a: set<nat>, b: set<nat>, s: set<nat>)
    requires Lowest(a, b) && Lowest(b, s)
    ensures Lowest(a, s)
  {
    forall x, y | x in a && y in s - a ensures x < y {
      if y in b { assert y in b - a; } else { assert x in b && y in s - b; }
    }
  }
}
