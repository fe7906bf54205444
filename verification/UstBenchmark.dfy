/** The arithmetic of benchmarks.py: what do_ust_benchmark accumulates, and what main averages. */
module UstBenchmark {
  import opened Text
  import opened Flatten

  /** One process of a run, as json.loads returns it: the time of each of its events. */
  type Events = map<string, real>

  datatype Error = IndexError | KeyError | ZeroDivisionError

  datatype Runs = Runs(base: real, ust: real, ustEn: real, ustNsPerEvent: real, ustEnNsPerEvent: real)

  datatype Result =
    | Raised(error: Error)
    | Report(baseStart: real, ustStart: real, ustOverhead: real, ustOverheadPct: real,
             ustEnStart: real, ustEnOverhead: real, ustEnOverheadPct: real, runs: Option<Runs>)

  // Sums over the first n processes

  function Between(e: Events, from: string, to: string): real
  {
    if from in e && to in e then e[to] - e[from] else 0.0
  }

  function Total(all: seq<Events>, from: string, to: string, n: nat): real
    requires n <= |all|
  {
    if n == 0 then 0.0 else Total(all, from, to, n - 1) + Between(all[n - 1], from, to)
  }

  function StartTotal(all: seq<Events>, n: nat): real
    requires n <= |all|
  {
    Total(all, "exec", "main", n)
  }

  function RunTotal(all: seq<Events>, n: nat): real
    requires n <= |all|
  {
    Total(all, "start", "end", n)
  }

  /** The j-th difference in start time. */
  function StartDifference(base: seq<Events>, ust: seq<Events>, j: nat): real
    requires j < |base| && j < |ust|
  {
    Between(ust[j], "exec", "main") - Between(base[j], "exec", "main")
  }

  function Times(w: int, d: real): real { w as real * d }

  /** The sum over j < k of (c - j) times the j-th difference. */
  function Weighted(base: seq<Events>, ust: seq<Events>, c: int, k: nat): real
    requires k <= |base| && k <= |ust|
  {
    if k == 0 then 0.0
    else Weighted(base, ust, c, k - 1) + Times(c - (k - 1), StartDifference(base, ust, k - 1))
  }

  lemma OneMore(w: int, d: real)
    ensures Times(w + 1, d) == Times(w, d) + d
  {
    assert (w + 1) as real == w as real + 1.0;
    Distribute(w as real, d);
  }

  lemma TimesOne(d: real)
    ensures Times(1, d) == d
  {
  }

  lemma Distribute(x: real, d: real)
    ensures (x + 1.0) * d == x * d + d
  {
  }

  lemma QuotientTimes(x: real, c: real)
    requires c != 0.0
    ensures (x / c) * c == x
  {
  }

  lemma EqualQuotients(x: real, y: real, c: real)
    requires c > 0.0
    ensures x / c == y / c <==> x == y
  {
    QuotientTimes(x, c);
    QuotientTimes(y, c);
  }

  lemma QuotientOfDifference(x: real, y: real, c: real)
    requires c > 0.0
    ensures x / c - y / c == (x - y) / c
  {
  }

  lemma {:induction false} WeightedStep(base: seq<Events>, ust: seq<Events>, c: int, k: nat)
    requires k <= |base| && k <= |ust|
    ensures Weighted(base, ust, c + 1, k) == Weighted(base, ust, c, k) + StartTotal(ust, k) - StartTotal(base, k)
  {
    hide Times, Between;
    if k > 0 {
      WeightedStep(base, ust, c, k - 1);
      OneMore(c - (k - 1), StartDifference(base, ust, k - 1));
    }
  }

  /** An iteration of the overhead accumulator, in closed form: it adds up sums that are themselves running sums. */
  lemma OverheadStep(base: seq<Events>, ust: seq<Events>, n: nat)
    requires n < |base| && n < |ust|
    ensures Weighted(base, ust, n + 1, n + 1)
         == Weighted(base, ust, n, n) + (StartTotal(ust, n + 1) - StartTotal(base, n + 1))
  {
    hide Times, Between;
    WeightedStep(base, ust, n, n);
    TimesOne(StartDifference(base, ust, n));
  }

  /** A start time is "main" minus "exec" and a run time "end" minus "start", added up process by process. */
  lemma TotalsAre(all: seq<Events>, n: nat)
    requires n < |all|
    ensures StartTotal(all, 0) == 0.0 && RunTotal(all, 0) == 0.0
    ensures {"exec", "main"} <= all[n].Keys ==>
              StartTotal(all, n + 1) == StartTotal(all, n) + (all[n]["main"] - all[n]["exec"])
    ensures {"start", "end"} <= all[n].Keys ==>
              RunTotal(all, n + 1) == RunTotal(all, n) + (all[n]["end"] - all[n]["start"])
  {
  }

  predicate HasTimes(e: Events, withRun: bool)
  {
    "main" in e && "exec" in e && (withRun ==> "end" in e && "start" in e)
  }

  /** When no exception is raised: which keys are read depends on whether the benchmark has a number of loops. */
  predicate Computable(base: seq<Events>, ust: seq<Events>, ustEn: seq<Events>, nrLoops: Option<int>, tpPerLoop: int)
  {
    var n := |base|;
    && 0 < n <= |ust| && n <= |ustEn|
    && (forall i | 0 <= i < n :: {"exec", "main"} <= base[i].Keys * ust[i].Keys * ustEn[i].Keys)
    && (nrLoops.Some? ==>
          && nrLoops.value * tpPerLoop != 0
          && forall i | 0 <= i < n :: {"start", "end"} <= base[i].Keys * ust[i].Keys * ustEn[i].Keys)
    && StartTotal(base, n) != 0.0
  }

  datatype Sums = Sums(baseStart: real, ustStart: real, ustOverhead: real, ustEnStart: real, ustEnOverhead: real,
                       baseRun: real, ustRun: real, ustEnRun: real)

  /** What the accumulators hold after n processes. */
  predicate Summed(s: Sums, base: seq<Events>, ust: seq<Events>, ustEn: seq<Events>, withRun: bool, n: nat)
    requires n <= |base| && n <= |ust| && n <= |ustEn|
  {
    && s.baseStart == StartTotal(base, n) && s.ustStart == StartTotal(ust, n) && s.ustEnStart == StartTotal(ustEn, n)
    && s.ustOverhead == Weighted(base, ust, n, n) && s.ustEnOverhead == Weighted(base, ustEn, n, n)
    && (withRun ==>
          s.baseRun == RunTotal(base, n) && s.ustRun == RunTotal(ust, n) && s.ustEnRun == RunTotal(ustEn, n))
  }

  predicate AllHaveTimes(base: seq<Events>, ust: seq<Events>, ustEn: seq<Events>, withRun: bool, n: nat)
    requires n <= |base| && n <= |ust| && n <= |ustEn|
  {
    forall i | 0 <= i < n :: HasTimes(base[i], withRun) && HasTimes(ust[i], withRun) && HasTimes(ustEn[i], withRun)
  }

  /** How many processes have an entry in all three lists. */
  function InAll(base: seq<Events>, ust: seq<Events>, ustEn: seq<Events>): (n: nat)
    ensures n <= |base| && n <= |ust| && n <= |ustEn| && (n == |base| || n == |ust| || n == |ustEn|)
  {
    if |base| <= |ust| && |base| <= |ustEn| then |base| else if |ust| <= |ustEn| then |ust| else |ustEn|
  }

  /** The loop of do_ust_benchmark. */
  method AddUp(base: seq<Events>, ust: seq<Events>, ustEn: seq<Events>, withRun: bool)
    returns (error: Option<Error>, s: Sums)
    ensures withRun ==>
      (error.None? <==>
         && |base| <= |ust| && |base| <= |ustEn|
         && forall i | 0 <= i < |base| ::
              {"exec", "main", "start", "end"} <= base[i].Keys * ust[i].Keys * ustEn[i].Keys)
    ensures !withRun ==>
      (error.None? <==>
         && |base| <= |ust| && |base| <= |ustEn|
         && forall i | 0 <= i < |base| :: {"exec", "main"} <= base[i].Keys * ust[i].Keys * ustEn[i].Keys)
    ensures error == Some(KeyError) <==> !AllHaveTimes(base, ust, ustEn, withRun, InAll(base, ust, ustEn))
    ensures error.None? || error == Some(KeyError) || error == Some(IndexError)
    ensures error.None? ==> Summed(s, base, ust, ustEn, withRun, |base|)
  {
    error, s := None, Sums(0.0, 0.0, 0.0, 0.0, 0.0, 0.0, 0.0, 0.0);
    for i := 0 to |base|
      invariant i <= |ust| && i <= |ustEn|
      invariant AllHaveTimes(base, ust, ustEn, withRun, i)
      invariant Summed(s, base, ust, ustEn, withRun, i)
    {
      if i >= |ust| || i >= |ustEn| {
        return Some(IndexError), s;
      }
      var b, u, e := base[i], ust[i], ustEn[i];
      if !HasTimes(b, withRun) || !HasTimes(u, withRun) || !HasTimes(e, withRun) {
        return Some(KeyError), s;
      }
      OverheadStep(base, ust, i);
      OverheadStep(base, ustEn, i);
      var baseStart := s.baseStart + (b["main"] - b["exec"]);
      var ustStart := s.ustStart + (u["main"] - u["exec"]);
      var ustOverhead := s.ustOverhead + (ustStart - baseStart);
      var ustEnStart := s.ustEnStart + (e["main"] - e["exec"]);
      var ustEnOverhead := s.ustEnOverhead + (ustEnStart - baseStart);
      s := s.(baseStart := baseStart, ustStart := ustStart, ustOverhead := ustOverhead,
              ustEnStart := ustEnStart, ustEnOverhead := ustEnOverhead);
      if withRun {
        s := s.(baseRun := s.baseRun + (b["end"] - b["start"]),
                ustRun := s.ustRun + (u["end"] - u["start"]),
                ustEnRun := s.ustEnRun + (e["end"] - e["start"]));
      }
    }
  }

  /** do_ust_benchmark, after the three runs. */
  method Accumulate(base: seq<Events>, ust: seq<Events>, ustEn: seq<Events>, nrLoops: Option<int>, tpPerLoop: int)
    returns (r: Result)
    ensures r.Report? <==> Computable(base, ust, ustEn, nrLoops, tpPerLoop)
    ensures var inAll := InAll(base, ust, ustEn);
            var complete := AllHaveTimes(base, ust, ustEn, nrLoops.Some?, inAll);
            && (r == Raised(KeyError) <==> !complete)
            && (r == Raised(IndexError) <==> complete && inAll < |base|)
            && (r == Raised(ZeroDivisionError) ==> complete && inAll == |base|)
    ensures r.Report? ==>
      var n := |base|;
      && r.baseStart == StartTotal(base, n) / n as real
      && r.ustStart == StartTotal(ust, n) / n as real
      && r.ustEnStart == StartTotal(ustEn, n) / n as real
      && r.ustOverhead == Weighted(base, ust, n, n) / n as real
      && r.ustEnOverhead == Weighted(base, ustEn, n, n) / n as real
      && r.ustOverheadPct == r.ustOverhead * 100.0 / r.baseStart
      && r.ustEnOverheadPct == r.ustEnOverhead * 100.0 / r.baseStart
      && (r.runs.Some? <==> nrLoops.Some?)
      && (nrLoops.Some? ==>
            var runs, events := r.runs.value, (nrLoops.value * tpPerLoop) as real;
            && runs.base == RunTotal(base, n) / n as real
            && runs.ust == RunTotal(ust, n) / n as real
            && runs.ustEn == RunTotal(ustEn, n) / n as real
            && runs.ustNsPerEvent == (runs.ust - runs.base) * 1000000000.0 / events
            && runs.ustEnNsPerEvent == (runs.ustEn - runs.base) * 1000000000.0 / events)
  {
    var error, sums := AddUp(base, ust, ustEn, nrLoops.Some?);
    if error.Some? {
      return Raised(error.value);
    }
    if |base| == 0 {
      return Raised(ZeroDivisionError);
    }
    r := Finish(|base|, sums, nrLoops, tpPerLoop);
  }

  /** The divisions at the end. */
  function Finish(n: nat, s: Sums, nrLoops: Option<int>, tpPerLoop: int): Result
    requires n > 0
  {
    var c := n as real;
    if nrLoops.Some? && nrLoops.value * tpPerLoop == 0 then Raised(ZeroDivisionError)
    else if s.baseStart == 0.0 then Raised(ZeroDivisionError)
    else
      var runs :=
        if nrLoops.None? then None
        else
          var events := (nrLoops.value * tpPerLoop) as real;
          Some(Runs(s.baseRun / c, s.ustRun / c, s.ustEnRun / c,
                    (s.ustRun / c - s.baseRun / c) * 1000000000.0 / events,
                    (s.ustEnRun / c - s.baseRun / c) * 1000000000.0 / events));
      assert s.baseStart / c != 0.0 by { QuotientTimes(s.baseStart, c); }
      Report(s.baseStart / c, s.ustStart / c, s.ustOverhead / c, (s.ustOverhead / c) * 100.0 / (s.baseStart / c),
             s.ustEnStart / c, s.ustEnOverhead / c, (s.ustEnOverhead / c) * 100.0 / (s.baseStart / c), runs)
  }

  /** A fast pass has no run: "exec" and "main" are all that it needs. */
  method FastPass() returns (r: Result)
    ensures r == Report(1.0, 3.0, 2.0, 200.0, 4.0, 3.0, 300.0, None)
  {
    var base, ust, ustEn := map["exec" := 5.0, "main" := 6.0], map["exec" := 2.0, "main" := 5.0],
                            map["exec" := 1.0, "main" := 5.0];
    ghost var b: seq<Events>, u: seq<Events>, e: seq<Events> := [base], [ust], [ustEn];
    OneProcess(b, u, e);
    r := Accumulate([base], [ust], [ustEn], None, 1);
  }

  /** A full pass of two loops with five events each. */
  method FullPass() returns (r: Result)
    ensures r == Report(1.0, 3.0, 2.0, 200.0, 4.0, 3.0, 300.0, Some(Runs(2.0, 3.0, 7.0, 100000000.0, 500000000.0)))
  {
    var base := map["exec" := 5.0, "main" := 6.0, "start" := 7.0, "end" := 9.0];
    var ust := map["exec" := 2.0, "main" := 5.0, "start" := 6.0, "end" := 9.0];
    var ustEn := map["exec" := 1.0, "main" := 5.0, "start" := 8.0, "end" := 15.0];
    ghost var b: seq<Events>, u: seq<Events>, e: seq<Events> := [base], [ust], [ustEn];
    OneProcess(b, u, e);
    r := Accumulate([base], [ust], [ustEn], Some(2), 5);
  }

  lemma OneProcess(base: seq<Events>, ust: seq<Events>, ustEn: seq<Events>)
    requires |base| == |ust| == |ustEn| == 1
    requires {"exec", "main"} <= base[0].Keys * ust[0].Keys * ustEn[0].Keys
    ensures StartTotal(base, 1) == base[0]["main"] - base[0]["exec"]
    ensures StartTotal(ust, 1) == ust[0]["main"] - ust[0]["exec"]
    ensures StartTotal(ustEn, 1) == ustEn[0]["main"] - ustEn[0]["exec"]
    ensures Weighted(base, ust, 1, 1) == StartTotal(ust, 1) - StartTotal(base, 1)
    ensures Weighted(base, ustEn, 1, 1) == StartTotal(ustEn, 1) - StartTotal(base, 1)
    ensures {"start", "end"} <= base[0].Keys * ust[0].Keys * ustEn[0].Keys ==>
      && RunTotal(base, 1) == base[0]["end"] - base[0]["start"]
      && RunTotal(ust, 1) == ust[0]["end"] - ust[0]["start"]
      && RunTotal(ustEn, 1) == ustEn[0]["end"] - ustEn[0]["start"]
  {
    TotalsAre(base, 0);
    TotalsAre(ust, 0);
    TotalsAre(ustEn, 0);
    OverheadStep(base, ust, 0);
    OverheadStep(base, ustEn, 0);
  }

  /**
   * The overhead reported against the overhead meant. The mean overhead is the difference of the mean start times;
   * what is reported counts the j-th process n - j times, and is the mean overhead exactly when the surplus is nil.
   */
  lemma OverheadIsMeanExactlyWhen(base: seq<Events>, ust: seq<Events>, n: nat)
    requires 0 < n <= |base| && n <= |ust|
    ensures Weighted(base, ust, n, n) / n as real == StartTotal(ust, n) / n as real - StartTotal(base, n) / n as real
       <==> Weighted(base, ust, n - 1, n) == 0.0
    ensures n == 1 ==> Weighted(base, ust, n - 1, n) == 0.0
  {
    WeightedStep(base, ust, n - 1, n);
    var c, w, u, b := n as real, Weighted(base, ust, n, n), StartTotal(ust, n), StartTotal(base, n);
    assert w == Weighted(base, ust, n - 1, n) + u - b;
    QuotientOfDifference(u, b, c);
    EqualQuotients(w, u - b, c);
    if n == 1 { assert Weighted(base, ust, 0, 1) == Weighted(base, ust, 0, 0) + 0.0; }
  }

  /** Two processes with the same nonzero overhead of one second each are reported as one and a half. */
  lemma OverheadIsNotTheMean()
    ensures var base := [map["exec" := 0.0, "main" := 1.0], map["exec" := 0.0, "main" := 1.0]];
            var ust := [map["exec" := 0.0, "main" := 2.0], map["exec" := 0.0, "main" := 2.0]];
      && StartTotal(ust, 2) / 2.0 - StartTotal(base, 2) / 2.0 == 1.0
      && Weighted(base, ust, 2, 2) / 2.0 == 1.5
  {
    var base := [map["exec" := 0.0, "main" := 1.0], map["exec" := 0.0, "main" := 1.0]];
    var ust := [map["exec" := 0.0, "main" := 2.0], map["exec" := 0.0, "main" := 2.0]];
    assert StartTotal(base, 1) == 1.0 && StartTotal(ust, 1) == 2.0;
    assert Weighted(base, ust, 2, 1) == 2.0;
  }

  // The averages of main

  function NumericTotal(passes: seq<map<string, Data>>, key: string): real
  {
    if passes == [] then 0.0
    else
      NumericTotal(passes[..|passes| - 1], key)
      + if IsNumber(passes[|passes| - 1], key) then passes[|passes| - 1][key].r else 0.0
  }

  function NumericCount(passes: seq<map<string, Data>>, key: string): nat
  {
    if passes == [] then 0
    else NumericCount(passes[..|passes| - 1], key) + if IsNumber(passes[|passes| - 1], key) then 1 else 0
  }

  predicate IsNumber(pass: map<string, Data>, key: string) { key in pass && pass[key].Number? }

  /** One more pass: any number moves the total by itself and the count by one; anything else moves nothing. */
  lemma OneMorePass(passes: seq<map<string, Data>>, pass: map<string, Data>, key: string)
    ensures NumericTotal([], key) == 0.0 && NumericCount([], key) == 0
    ensures forall r: real | key in pass && pass[key] == Number(r) ::
      && NumericTotal(passes + [pass], key) == NumericTotal(passes, key) + r
      && NumericCount(passes + [pass], key) == NumericCount(passes, key) + 1
    ensures key !in pass || pass[key].Str? || pass[key].NoneValue? || pass[key].Dict? || pass[key].Items? ==>
      && NumericTotal(passes + [pass], key) == NumericTotal(passes, key)
      && NumericCount(passes + [pass], key) == NumericCount(passes, key)
  {
    assert (passes + [pass])[..|passes|] == passes;
  }

  /** The two loops over the flattened passes of one CPU count. */
  method Average(passes: seq<map<string, Data>>) returns (avg: map<string, real>)
    ensures forall key :: key in avg <==> NumericCount(passes, key) > 0
    ensures forall key | key in avg ::
      avg[key] == NumericTotal(passes, key) / NumericCount(passes, key) as real
  {
    var keys: set<string> := {};
    for i := 0 to |passes|
      invariant forall key :: key in keys <==> exists j | 0 <= j < i :: key in passes[j]
    {
      keys := keys + passes[i].Keys;
    }
    avg := map[];
    var rest := keys;
    while rest != {}
      invariant rest <= keys
      invariant forall key :: key in avg <==> key in keys && key !in rest && NumericCount(passes, key) > 0
      invariant forall key | key in avg :: avg[key] == NumericTotal(passes, key) / NumericCount(passes, key) as real
      decreases |rest|
    {
      var key :| key in rest;
      var total, count := SumKey(passes, key);
      if count > 0 {
        avg := avg[key := total / count as real];
      }
      rest := rest - {key};
    }
    forall key | NumericCount(passes, key) > 0 ensures key in keys {
      CountedIsPresent(passes, key);
    }
  }

  method SumKey(passes: seq<map<string, Data>>, key: string) returns (total: real, count: nat)
    ensures total == NumericTotal(passes, key) && count == NumericCount(passes, key)
  {
    total, count := 0.0, 0;
    for i := 0 to |passes|
      invariant total == NumericTotal(passes[..i], key) && count == NumericCount(passes[..i], key)
    {
      assert passes[..i + 1][..i] == passes[..i];
      if IsNumber(passes[i], key) {
        total := total + passes[i][key].r;
        count := count + 1;
      }
    }
    assert passes[..|passes|] == passes;
  }

  lemma {:induction false} CountedIsPresent(passes: seq<map<string, Data>>, key: string)
    requires NumericCount(passes, key) > 0
    ensures exists j | 0 <= j < |passes| :: key in passes[j]
  {
    var last := |passes| - 1;
    if !IsNumber(passes[last], key) {
      CountedIsPresent(passes[..last], key);
      var j :| 0 <= j < |passes[..last]| && key in passes[..last][j];
      assert key in passes[j];
    }
  }
}
