/** The text of a sysfs CPU list, as the kernel writes it and _read_cpu_file reads it. */
module CpuList {
  import opened Text

  // Reading

  /** What int() takes for white space. */
  predicate IsCSpace(c: char) { c in " \t\n\r" || c as int == 11 || c as int == 12 }

  /** What str.rstrip takes for white space, among ASCII characters. */
  predicate IsSpace(c: char) { IsCSpace(c) || 0x1C <= c as int <= 0x1F }

  /** str.rstrip. */
  function RStrip(s: string): string
  {
    if s != "" && IsSpace(s[|s| - 1]) then RStrip(s[..|s| - 1]) else s
  }

  /** The string without white space at either end. */
  function Trim(s: string): string
    decreases |s|
  {
    if s == "" then s
    else if IsCSpace(s[0]) then Trim(s[1..])
    else if IsCSpace(s[|s| - 1]) then Trim(s[..|s| - 1])
    else s
  }

  predicate AllNumerals(groups: seq<string>)
  {
    forall i | 0 <= i < |groups| :: groups[i] != "" && AllDigits(groups[i])
  }

  function Concat(groups: seq<string>): (s: string)
    ensures AllNumerals(groups) ==> AllDigits(s)
  {
    if groups == [] then "" else groups[0] + Concat(groups[1..])
  }

  /**
   * int(s), for strings without a minus sign: white space around, a plus sign in front and single underscores between
   * digits are accepted; anything else raises.
   */
  function ParseInt(s: string): Option<nat>
  {
    var t := Trim(s);
    var groups := Split(if t != "" && t[0] == '+' then t[1..] else t, '_');
    if AllNumerals(groups) then Some(DigitsValue(Concat(groups))) else None
  }

  /** set(range(l, r + 1)). */
  function Interval(l: nat, r: nat): (s: set<nat>)
    ensures forall x :: x in s <==> l <= x <= r
    decreases r - l
  {
    if l > r then {} else {l} + Interval(l + 1, r)
  }

  /** One element of the list: "l-r", or a single number. */
  function ReadRange(part: string): Option<set<nat>>
  {
    if '-' in part then
      var lr := Split(part, '-');
      if |lr| != 2 then None
      else
        match (ParseInt(lr[0]), ParseInt(lr[1]))
        case (Some(l), Some(r)) => Some(Interval(l, r))
        case _ => None
    else
      match ParseInt(part)
      case Some(n) => Some({n})
      case None => None
  }

  function ReadRanges(parts: seq<string>): Option<set<nat>>
  {
    if parts == [] then Some({})
    else if parts[0] == "" then ReadRanges(parts[1..])
    else
      match ReadRange(parts[0])
      case Some(s) => Plus(s, ReadRanges(parts[1..]))
      case None => None
  }

  function Plus(s: set<nat>, t: Option<set<nat>>): Option<set<nat>>
  {
    match t
    case Some(u) => Some(s + u)
    case None => None
  }

  lemma PlusNothing(t: Option<set<nat>>)
    ensures Plus({}, t) == t
  {
    if t.Some? { assert {} + t.value == t.value; }
  }

  lemma PlusPlus(s: set<nat>, t: set<nat>, u: Option<set<nat>>)
    ensures Plus(s, Plus(t, u)) == Plus(s + t, u)
  {
    if u.Some? { assert s + (t + u.value) == s + t + u.value; }
  }

  // What these functions accept

  lemma SpacesAre(c: char)
    ensures IsSpace(c) <==> c as int in {9, 10, 11, 12, 13, 28, 29, 30, 31, 32}
    ensures IsCSpace(c) <==> c as int in {9, 10, 11, 12, 13, 32}
  {
    assert c in " \t\n\r" <==> c == ' ' || c == '\t' || c == '\n' || c == '\r';
  }

  /** rstrip takes off white space at the end, and all of it. */
  lemma {:induction false} RStripIs(s: string)
    ensures RStrip(s) <= s && forall i | |RStrip(s)| <= i < |s| :: IsSpace(s[i])
    ensures RStrip(s) != "" ==> !IsSpace(RStrip(s)[|RStrip(s)| - 1])
  {
    if s != "" && IsSpace(s[|s| - 1]) { RStripIs(s[..|s| - 1]); }
  }

  ghost predicate AllCSpace(s: string)
  {
    forall i | 0 <= i < |s| :: IsCSpace(s[i])
  }

  lemma AllCSpaceJoins(a: string, b: string)
    requires AllCSpace(a) && AllCSpace(b)
    ensures AllCSpace(a + b)
  {
  }

  /** Trim takes off white space at both ends, and all of it. */
  lemma {:induction false} TrimIs(s: string) returns (left: string, right: string)
    ensures s == left + Trim(s) + right && AllCSpace(left) && AllCSpace(right)
    ensures var t := Trim(s); t != "" ==> !IsCSpace(t[0]) && !IsCSpace(t[|t| - 1])
    decreases |s|
  {
    left, right := "", "";
    if s != "" && IsCSpace(s[0]) {
      left, right := TrimIs(s[1..]);
      assert AllCSpace([s[0]]) && Trim(s) == Trim(s[1..]);
      hide Trim, IsCSpace, AllCSpace;
      assert s == [s[0]] + s[1..];
      Regroup([s[0]], left, Trim(s), right);
      AllCSpaceJoins([s[0]], left);
      left := [s[0]] + left;
    } else if s != "" && IsCSpace(s[|s| - 1]) {
      left, right := TrimIs(s[..|s| - 1]);
      var last := [s[|s| - 1]];
      assert AllCSpace(last) && Trim(s) == Trim(s[..|s| - 1]);
      hide Trim, IsCSpace, AllCSpace;
      assert s == s[..|s| - 1] + last;
      Regroup(left, Trim(s), right, last);
      AllCSpaceJoins(right, last);
      right := right + last;
    } else {
      assert s == "" + Trim(s) + "";
    }
  }

  lemma Regroup(a: string, b: string, c: string, d: string)
    ensures a + (b + c + d) == a + b + c + d == a + b + (c + d)
  {
  }

  /** int() reads groups of digits with single underscores between them, after a plus sign or none, in white space. */
  lemma {:induction false} IntOfGroups(left: string, plus: bool, groups: seq<string>, right: string)
    requires AllCSpace(left) && AllCSpace(right)
    requires groups != [] && AllNumerals(groups)
    ensures var t := (if plus then "+" else "") + Join(groups, '_');
      ParseInt(left + t + right) == Some(DigitsValue(Concat(groups)))
  {
    var j := Join(groups, '_');
    var t := (if plus then "+" else "") + j;
    JoinOfGroups(groups);
    TrimOff(left, t, right);
    forall i | 0 <= i < |groups| ensures Lacks(groups[i], '_') { DigitsLack(groups[i], '_'); }
    SplitOfJoin(groups, '_');
    if plus { assert t[0] == '+' && t[1..] == j; } else { assert t == j; }
  }

  lemma {:induction false} JoinOfGroups(groups: seq<string>)
    requires groups != [] && AllNumerals(groups)
    ensures var j := Join(groups, '_'); j != "" && IsDigit(j[0]) && IsDigit(j[|j| - 1])
  {
    if |groups| > 1 {
      assert AllNumerals(groups[1..]);
      JoinOfGroups(groups[1..]);
    }
  }

  lemma {:induction false} TrimOff(left: string, t: string, right: string)
    requires AllCSpace(left) && AllCSpace(right)
    requires t != "" && !IsCSpace(t[0]) && !IsCSpace(t[|t| - 1])
    ensures Trim(left + t + right) == t
    decreases |left| + |right|
  {
    var s := left + t + right;
    if left != "" {
      assert s[1..] == left[1..] + t + right;
      TrimOff(left[1..], t, right);
    } else if right != "" {
      var last := |right| - 1;
      assert s[..|s| - 1] == left + t + right[..last];
      assert s[|s| - 1] == right[last];
      TrimOff(left, t, right[..last]);
    } else {
      assert s == t;
    }
  }

  /** And nothing else: what it reads is of that form. */
  lemma IntIsOfGroups(s: string)
    returns (left: string, plus: bool, groups: seq<string>, right: string)
    requires ParseInt(s).Some?
    ensures AllCSpace(left) && AllCSpace(right)
    ensures groups != [] && AllNumerals(groups)
    ensures s == left + ((if plus then "+" else "") + Join(groups, '_')) + right
  {
    left, right := TrimIs(s);
    var t := Trim(s);
    plus := t != "" && t[0] == '+';
    var u := if plus then t[1..] else t;
    groups := Split(u, '_');
    JoinOfSplit(u, '_');
    assert t == (if plus then "+" else "") + u;
  }

  /** More than one minus sign is an error. */
  lemma TwoMinusSigns(a: string, b: string, c: string)
    requires Lacks(a, '-') && Lacks(b, '-')
    ensures ReadRange(a + "-" + (b + "-" + c)) == None
  {
    hide ParseInt;
    var t := a + "-" + (b + "-" + c);
    assert t[|a|] == '-';
    SplitAtSep(a, b + "-" + c, '-');
    SplitAtSep(b, c, '-');
  }

  /** With one minus sign there must be a number on both sides of it; without one there must be one number. */
  lemma OneMinusSign(a: string, b: string)
    requires Lacks(a, '-') && Lacks(b, '-')
    ensures ParseInt(a).None? || ParseInt(b).None? <==> ReadRange(a + "-" + b).None?
    ensures ReadRange(a + "-" + b).Some? ==> forall x: nat ::
      x in ReadRange(a + "-" + b).value <==> ParseInt(a).value <= x <= ParseInt(b).value
    ensures ReadRange(a) == if ParseInt(a).None? then None else Some({ParseInt(a).value})
  {
    hide ParseInt;
    var t := a + "-" + b;
    assert t[|a|] == '-' && '-' !in a;
    SplitAtSep(a, b, '-');
    SplitOfPlain(b, '-');
    assert Split(t, '-') == [a, b];
  }

  lemma IntOfNothing()
    ensures ParseInt("") == None && ParseInt("x") == None
  {
    SplitOfPlain("x", '_');
  }

  /** A list is read exactly when each of its nonempty elements is, and covers what they cover together. */
  lemma {:induction false} ListIsUnion(parts: seq<string>)
    ensures ReadRanges(parts).Some? <==> forall i | 0 <= i < |parts| && parts[i] != "" :: ReadRange(parts[i]).Some?
    ensures ReadRanges(parts).Some? ==> forall x: nat ::
      x in ReadRanges(parts).value
      <==> exists i | 0 <= i < |parts| :: parts[i] != "" && ReadRange(parts[i]).Some? && x in ReadRange(parts[i]).value
  {
    hide ReadRange;
    if parts != [] {
      var more := parts[1..];
      ListIsUnion(more);
      assert forall i | 0 <= i < |more| :: more[i] == parts[i + 1];
      assert forall i | 1 <= i < |parts| :: parts[i] == more[i - 1];
    }
  }

  /** _read_cpu_file, on the text of the file; None stands for the exception. */
  method ReadCpuFile(text: string) returns (r: Option<set<nat>>)
    ensures r == ReadRanges(Split(RStrip(text), ','))
  {
    hide ReadRange, Split, RStrip;
    var parts := Split(RStrip(text), ',');
    var cpus: set<nat> := {};
    var i := 0;
    assert parts[0..] == parts;
    PlusNothing(ReadRanges(parts));
    while i < |parts|
      invariant i <= |parts|
      invariant ReadRanges(parts) == Plus(cpus, ReadRanges(parts[i..]))
    {
      assert parts[i..][1..] == parts[i + 1..];
      if parts[i] != "" {
        var s := ReadRange(parts[i]);
        if s.None? {
          return None;
        }
        PlusPlus(cpus, s.value, ReadRanges(parts[i + 1..]));
        cpus := cpus + s.value;
      }
      i := i + 1;
    }
    r := Some(cpus);
  }

  // Writing

  /** The members of s below n, smallest first. */
  function Ascending(s: set<nat>, n: nat): (q: seq<nat>)
    ensures forall x :: x in q <==> x in s && x < n
    ensures forall i, j | 0 <= i < j < |q| :: q[i] < q[j]
  {
    if n == 0 then []
    else
      var q := Ascending(s, n - 1);
      assert forall i | 0 <= i < |q| :: q[i] in q;
      q + if n - 1 in s then [n - 1] else []
  }

  /** Neighbours joined into ranges, first to last. */
  function Runs(q: seq<nat>): seq<(nat, nat)>
  {
    if q == [] then []
    else
      var rest := Runs(q[1..]);
      if rest != [] && rest[0].0 == q[0] + 1 then [(q[0], rest[0].1)] + rest[1..] else [(q[0], q[0])] + rest
  }

  function RangeText(lr: (nat, nat)): string
  {
    if lr.0 == lr.1 then Decimal(lr.0) else Decimal(lr.0) + "-" + Decimal(lr.1)
  }

  function RangeTexts(runs: seq<(nat, nat)>): (ts: seq<string>)
    ensures |ts| == |runs|
  {
    if runs == [] then [] else [RangeText(runs[0])] + RangeTexts(runs[1..])
  }

  /** The contents of /sys/devices/system/cpu/online for a set of CPUs below n. */
  function KernelText(s: set<nat>, n: nat): string
  {
    Join(RangeTexts(Runs(Ascending(s, n))), ',') + "\n"
  }

  // The round trip

  function Covered(runs: seq<(nat, nat)>): set<nat>
  {
    if runs == [] then {} else Interval(runs[0].0, runs[0].1) + Covered(runs[1..])
  }

  ghost predicate Forward(runs: seq<(nat, nat)>)
  {
    forall i | 0 <= i < |runs| :: runs[i].0 <= runs[i].1
  }

  lemma {:induction false} RunsCover(q: seq<nat>)
    ensures Forward(Runs(q)) && forall x :: x in Covered(Runs(q)) <==> x in q
  {
    if q != [] {
      RunsCover(q[1..]);
      assert forall x :: x in q <==> x == q[0] || x in q[1..];
      var rest := Runs(q[1..]);
      if rest != [] && rest[0].0 == q[0] + 1 {
        assert Runs(q)[1..] == rest[1..];
        assert forall x :: x in Interval(q[0], rest[0].1) <==> x == q[0] || x in Interval(rest[0].0, rest[0].1);
      } else {
        assert Runs(q)[1..] == rest;
      }
    }
  }

  lemma IntOfDecimal(n: nat)
    ensures ParseInt(Decimal(n)) == Some(n)
  {
    hide Decimal;
    var s := Decimal(n);
    assert Trim(s) == s && s[0] != '+';
    DigitsLack(s, '_');
    SplitOfPlain(s, '_');
    assert Concat([s]) == s by { assert [s][1..] == []; }
    DecimalValue(n);
  }

  /** The kernel's ranges are as long as they can be: the next one starts after a gap. */
  lemma {:induction false} RunsAreMaximal(q: seq<nat>, i: nat)
    requires forall j, k | 0 <= j < k < |q| :: q[j] < q[k]
    requires i + 1 < |Runs(q)|
    ensures Runs(q)[i].1 + 1 < Runs(q)[i + 1].0
  {
    RunsStart(q);
    var rest := Runs(q[1..]);
    if rest[0].0 == q[0] + 1 {
      RunsAreMaximal(q[1..], i);
    } else if i > 0 {
      RunsAreMaximal(q[1..], i - 1);
    } else {
      RunsStart(q[1..]);
    }
  }

  lemma RunsStart(q: seq<nat>)
    ensures q != [] ==> Runs(q) != [] && Runs(q)[0].0 == q[0]
    ensures q == [] ==> Runs(q) == []
  {
  }

  /** In the kernel's notation: neighbours joined, ranges with a minus sign, commas between. */
  lemma KernelTextIs()
    ensures Join(RangeTexts(Runs([0, 1, 3])), ',') == "0-1,3"
  {
    hide Runs, RangeTexts, Join;
    RunsOfExample();
    TextOfExample();
  }

  lemma RunsOfExample()
    ensures Runs([0, 1, 3]) == [(0, 1), (3, 3)]
  {
    assert Runs([3]) == [(3, 3)] by { assert [3][1..] == []; }
    assert Runs([1, 3]) == [(1, 1), (3, 3)] by { assert [1, 3][1..] == [3]; }
    assert [0, 1, 3][1..] == [1, 3];
  }

  lemma TextOfExample()
    ensures Join(RangeTexts([(0, 1), (3, 3)]), ',') == "0-1,3"
  {
    var runs: seq<(nat, nat)> := [(0, 1), (3, 3)];
    assert RangeText((0, 1)) == "0-1" && RangeText((3, 3)) == "3";
    assert runs[1..] == [(3, 3)] && runs[1..][1..] == [];
    assert RangeTexts(runs) == ["0-1", "3"];
    assert ["0-1", "3"][1..] == ["3"];
  }

  lemma ReadsSingle(n: nat)
    ensures ReadRange(Decimal(n)) == Some({n})
  {
    hide Decimal, ParseInt;
    var a := Decimal(n);
    IntOfDecimal(n);
    DigitsLack(a, '-');
    assert '-' !in a;
  }

  lemma ReadsPair(l: nat, r: nat)
    ensures ReadRange(Decimal(l) + "-" + Decimal(r)) == Some(Interval(l, r))
  {
    hide Decimal, Interval, ParseInt;
    var a, b := Decimal(l), Decimal(r);
    var t := a + "-" + b;
    assert t[|a|] == '-';
    DigitsLack(a, '-');
    DigitsLack(b, '-');
    SplitAtSep(a, b, '-');
    SplitOfPlain(b, '-');
    assert Split(t, '-') == [a, b];
    IntOfDecimal(l);
    IntOfDecimal(r);
  }

  lemma ReadsRange(lr: (nat, nat))
    requires lr.0 <= lr.1
    ensures ReadRange(RangeText(lr)) == Some(Interval(lr.0, lr.1))
  {
    hide ReadRange;
    ReadsSingle(lr.0);
    ReadsPair(lr.0, lr.1);
    if lr.0 == lr.1 { assert Interval(lr.0, lr.1) == {lr.0}; }
  }

  lemma RangeTextShape(lr: (nat, nat))
    ensures var t := RangeText(lr); t != "" && Lacks(t, ',') && !IsSpace(t[|t| - 1])
  {
    hide Decimal;
    DigitsLack(Decimal(lr.0), ',');
    DigitsLack(Decimal(lr.1), ',');
  }

  lemma {:induction false} ReadsRanges(runs: seq<(nat, nat)>)
    requires Forward(runs)
    ensures ReadRanges(RangeTexts(runs)) == Some(Covered(runs))
    ensures forall i | 0 <= i < |runs| :: Lacks(RangeTexts(runs)[i], ',')
  {
    hide RangeText, ReadRange;
    if runs != [] {
      ReadsRange(runs[0]);
      RangeTextShape(runs[0]);
      ReadsRanges(runs[1..]);
      assert RangeTexts(runs)[1..] == RangeTexts(runs[1..]);
    }
  }

  lemma {:induction false} JoinEndsInDigit(runs: seq<(nat, nat)>)
    requires runs != [] && Forward(runs)
    ensures var t := Join(RangeTexts(runs), ','); t != "" && !IsSpace(t[|t| - 1])
  {
    hide RangeText, ReadRange;
    RangeTextShape(runs[0]);
    if |runs| > 1 {
      JoinEndsInDigit(runs[1..]);
      assert RangeTexts(runs)[1..] == RangeTexts(runs[1..]);
    }
  }

  /** Reading back any list of ranges, in the kernel's format, gives exactly the CPUs they cover. */
  lemma ReadsKernelFormat(runs: seq<(nat, nat)>)
    requires Forward(runs)
    ensures ReadRanges(Split(RStrip(Join(RangeTexts(runs), ',') + "\n"), ',')) == Some(Covered(runs))
  {
    hide RangeText, ReadRange;
    var t := Join(RangeTexts(runs), ',');
    assert (t + "\n")[..|t|] == t;
    if runs == [] {
      assert RStrip(t + "\n") == RStrip(t) == "";
      assert Split("", ',') == [""];
      assert ReadRanges([""]) == ReadRanges([""][1..]);
    } else {
      JoinEndsInDigit(runs);
      assert RStrip(t + "\n") == RStrip(t) == t;
      ReadsRanges(runs);
      SplitOfJoin(RangeTexts(runs), ',');
    }
  }

  /** The file of a set of CPUs reads back as that set, however its members lie. */
  lemma ReadsBackKernelText(s: set<nat>, n: nat)
    requires forall x | x in s :: x < n
    ensures ReadRanges(Split(RStrip(KernelText(s, n)), ',')) == Some(s)
  {
    hide ReadRanges, Split, RStrip, RangeTexts, Runs, Covered;
    var q := Ascending(s, n);
    RunsCover(q);
    ReadsKernelFormat(Runs(q));
    assert Covered(Runs(q)) == s;
  }
}
