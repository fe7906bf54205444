/** What print_events and main print, and what a JSON parser makes of it. */
module Printer {
  import opened Text
  import opened Json
  import opened SharedEvents

  /** %lu.%09ld. */
  function TimeText(ts: Timespec): string
  {
    Decimal(ts.sec) + "." + Fixed(ts.nsec, 9)
  }

  /** \n\t"%s": %lu.%09ld. */
  function EntryText(e: Event): string
  {
    "\n\t\"" + e.name + "\": " + TimeText(e.ts)
  }

  function MoreText(log: seq<Event>): string
  {
    if log == [] then "" else "," + EntryText(log[0]) + MoreText(log[1..])
  }

  function EntriesText(log: seq<Event>): string
  {
    if log == [] then "" else " " + EntryText(log[0]) + MoreText(log[1..])
  }

  /** All that print_events prints for a log. */
  function ObjectText(log: seq<Event>): string
  {
    "{" + EntriesText(log) + "\n}\n"
  }

  /** The objects with commas between them. */
  function ObjectsText(logs: seq<seq<Event>>): string
  {
    if logs == [] then ""
    else if |logs| == 1 then ObjectText(logs[0])
    else ObjectText(logs[0]) + "," + ObjectsText(logs[1..])
  }

  /** All that main prints. */
  function ReportText(logs: seq<seq<Event>>): string
  {
    "[\n" + ObjectsText(logs) + "]\n"
  }

  /** The report of two processes, the first with two events and the second with none, written out. */
  lemma PrintedForm(e: Event, f: Event)
    ensures ReportText([[e] + [f]] + [[]])
         == "[\n" + ("{" + (" " + ("\n\t\"" + e.name + "\": " + (Decimal(e.ts.sec) + "." + Fixed(e.ts.nsec, 9)))
                           + ("," + ("\n\t\"" + f.name + "\": " + (Decimal(f.ts.sec) + "." + Fixed(f.ts.nsec, 9)))
                              + "")) + "\n}\n" + "," + "{\n}\n") + "]\n"
  {
    hide EntryText, Decimal, Fixed;
    var first, none: seq<Event> := [e] + [f], [];
    assert first[1..] == [f] && [f][1..] == [];
    assert MoreText([f]) == "," + EntryText(f) + "";
    assert EntriesText(first) == " " + EntryText(e) + MoreText([f]);
    assert ObjectText(none) == "{\n}\n";
    var logs := [first] + [none];
    assert logs[1..] == [none];
    assert ObjectsText([none]) == ObjectText(none);
    assert ObjectsText(logs) == ObjectText(first) + "," + ObjectText(none);
    EntryForm(e);
    EntryForm(f);
  }

  lemma EntryForm(e: Event)
    ensures EntryText(e) == "\n\t\"" + e.name + "\": " + (Decimal(e.ts.sec) + "." + Fixed(e.ts.nsec, 9))
  {
  }

  // What should be read back

  /** tv_sec + tv_nsec / 10^9, exactly. */
  function Seconds(ts: Timespec): real
  {
    ts.sec as real + ts.nsec as real / 1000000000.0
  }

  function MembersOf(log: seq<Event>): (ms: seq<Member>)
    ensures |ms| == |log|
    ensures forall i | 0 <= i < |log| :: ms[i] == Member(log[i].name, Number(Seconds(log[i].ts)))
  {
    seq(|log|, i requires 0 <= i < |log| => Member(log[i].name, Number(Seconds(log[i].ts))))
  }

  function ObjectsOf(logs: seq<seq<Event>>): (vs: seq<Value>)
    ensures |vs| == |logs|
    ensures forall i | 0 <= i < |logs| :: vs[i] == Object(MembersOf(logs[i]))
  {
    seq(|logs|, i requires 0 <= i < |logs| => Object(MembersOf(logs[i])))
  }

  predicate NeedsNoEscape(name: string) { forall i | 0 <= i < |name| :: IsPlain(name[i]) }

  lemma NeedsNoEscapeIs(name: string)
    ensures NeedsNoEscape(name) <==> forall i | 0 <= i < |name| :: name[i] >= ' ' && name[i] != '"' && name[i] != '\\'
    ensures NeedsNoEscape("exec") && NeedsNoEscape("main") && NeedsNoEscape("start") && NeedsNoEscape("end")
  {
  }

  /** A name needs no escape, and the nanoseconds have nine digits. */
  predicate Printable(e: Event) { NeedsNoEscape(e.name) && e.ts.Normal() }

  predicate AllPrintable(log: seq<Event>)
  {
    forall i | 0 <= i < |log| :: Printable(log[i])
  }

  // The round trip, from the inside out

  lemma {:induction false} DigitsTaken(d: string, r: string)
    requires AllDigits(d) && (r == "" || !IsDigit(r[0]))
    ensures Digits(d + r) == d
  {
    if d == "" {
      assert d + r == r;
    } else {
      assert (d + r)[1..] == d[1..] + r;
      DigitsTaken(d[1..], r);
    }
  }

  lemma FractionRead(ts: Timespec, r: string)
    requires ts.Normal() && r != "" && !IsDigit(r[0])
    ensures ParseFraction("." + Fixed(ts.nsec, 9) + r) == Some(Parsed(ts.nsec as real / 1000000000.0, r))
  {
    var f := Fixed(ts.nsec, 9);
    var s := "." + f + r;
    assert s[1..] == f + r;
    DigitsTaken(f, r);
    assert Pow10(9) == 1000000000 by { assert Pow10(4) == 10000; }
    FixedValue(ts.nsec, 9);
    assert s[1 + |f|..] == r;
  }

  lemma ScaleByNothing(x: real)
    ensures Scale(x, 0) == x
  {
  }

  lemma UnsignedRead(d: string, more: string, f: real, r: string)
    requires d != "" && AllDigits(d) && (d[0] == '0' ==> d == "0")
    requires more != "" && !IsDigit(more[0]) && ParseFraction(more) == Some(Parsed(f, r))
    requires r != "" && r[0] !in "eE"
    ensures ParseNumber(d + more) == Some(Parsed(DigitsValue(d) as real + f, r))
  {
    hide Digits, DigitsValue, ParseFraction, Scale;
    DigitsTaken(d, more);
    assert (d + more)[|d|..] == more;
    ScaleByNothing(DigitsValue(d) as real + f);
  }

  lemma NumberRead(ts: Timespec, r: string)
    requires ts.Normal() && r != "" && !IsDigit(r[0]) && r[0] !in "eE"
    ensures ParseNumber(TimeText(ts) + r) == Some(Parsed(Seconds(ts), r))
  {
    hide Decimal, Fixed, ParseFraction, ParseNumber;
    var d, more := Decimal(ts.sec), "." + Fixed(ts.nsec, 9) + r;
    assert TimeText(ts) + r == d + more;
    FractionRead(ts, r);
    UnsignedRead(d, more, ts.nsec as real / 1000000000.0, r);
    DecimalValue(ts.sec);
  }

  lemma {:induction false} NameRead(name: string, r: string)
    requires NeedsNoEscape(name)
    ensures ParseString(name + "\"" + r) == Some(Parsed(name, r))
  {
    var s := name + "\"" + r;
    if name == "" {
      assert s[1..] == r;
    } else {
      assert s[1..] == name[1..] + "\"" + r;
      NameRead(name[1..], r);
      assert [name[0]] + name[1..] == name;
    }
  }

  lemma ValueIsNumber(t: string)
    requires t != "" && IsDigit(t[0])
    ensures ParseValue(" " + t) ==
      match ParseNumber(t) case Some(p) => Some(Parsed(Number(p.value), p.rest)) case None => None
  {
    hide ParseNumber, ParseString, ParseMembers, ParseItems;
    SkipLeading(' ', t);
    SkipNothing(t);
    assert [' '] + t == " " + t;
    assert "true"[0] == 't' && "false"[0] == 'f' && "null"[0] == 'n';
  }

  /** A number after a space is read as a value. */
  lemma TimeRead(ts: Timespec, r: string)
    requires ts.Normal() && r != "" && !IsDigit(r[0]) && r[0] !in "eE"
    ensures ParseValue(" " + TimeText(ts) + r) == Some(Parsed(Number(Seconds(ts)), r))
  {
    hide ParseNumber, ParseValue, Seconds, Decimal, Fixed;
    var t := TimeText(ts) + r;
    assert " " + TimeText(ts) + r == " " + t;
    ValueIsNumber(t);
    NumberRead(ts, r);
  }

  lemma SkipLeading(c: char, s: string)
    requires IsWs(c)
    ensures SkipWs([c] + s) == SkipWs(s)
  {
    assert ([c] + s)[1..] == s;
  }

  lemma SkipNothing(s: string)
    requires s != "" && !IsWs(s[0])
    ensures SkipWs(s) == s
  {
  }

  /** What follows the name of an entry. */
  function AfterName(e: Event, r: string): string { ": " + TimeText(e.ts) + r }

  lemma EntryStart(e: Event, r: string)
    ensures SkipWs(EntryText(e) + r) == "\"" + (e.name + "\"" + AfterName(e, r))
  {
    var t := "\"" + (e.name + "\"" + AfterName(e, r));
    assert EntryText(e) + r == ['\n'] + (['\t'] + t);
    SkipLeading('\n', ['\t'] + t);
    SkipLeading('\t', t);
    SkipNothing(t);
  }

  /** One entry, up to what follows its value. */
  lemma EntryRead(e: Event, r: string)
    requires Printable(e) && r != "" && !IsDigit(r[0]) && r[0] !in "eE"
    ensures var s := SkipWs(EntryText(e) + r);
      && s != "" && s[0] == '"' && ParseString(s[1..]) == Some(Parsed(e.name, AfterName(e, r)))
    ensures SkipWs(AfterName(e, r)) == AfterName(e, r)
    ensures ParseValue(AfterName(e, r)[1..]) == Some(Parsed(Number(Seconds(e.ts)), r))
  {
    hide ParseString, ParseValue, TimeText, Seconds, EntryText;
    var after := AfterName(e, r);
    EntryStart(e, r);
    assert ("\"" + (e.name + "\"" + after))[1..] == e.name + "\"" + after;
    NameRead(e.name, after);
    SkipNothing(after);
    assert after[1..] == " " + TimeText(e.ts) + r;
    TimeRead(e.ts, r);
  }

  /** One entry and what follows it. */
  lemma MemberRead(e: Event, r: string)
    requires Printable(e) && r != "" && !IsDigit(r[0]) && r[0] !in "eE"
    ensures ParseMembers(EntryText(e) + r) == MoreMembers(Member(e.name, Number(Seconds(e.ts))), r)
  {
    hide ParseString, ParseValue, MoreMembers, EntryText, TimeText, Seconds, SkipWs;
    EntryRead(e, r);
  }

  lemma CloseBrace(m: Member, r: string)
    ensures MoreMembers(m, "\n}" + r) == Some(Parsed([m], r))
  {
    assert "\n}" + r == ['\n'] + ("}" + r);
    SkipLeading('\n', "}" + r);
    SkipNothing("}" + r);
    assert ("}" + r)[1..] == r;
  }

  function Before<T>(first: T, p: Option<Parsed<seq<T>>>): Option<Parsed<seq<T>>>
  {
    match p
    case Some(more) => Some(Parsed([first] + more.value, more.rest))
    case None => None
  }

  lemma CommaThenMembers(m: Member, rest: string)
    ensures MoreMembers(m, "," + rest) == Before(m, ParseMembers(rest))
  {
    hide ParseMembers;
    SkipNothing("," + rest);
    assert ("," + rest)[1..] == rest;
  }

  lemma {:induction false} MembersRead(log: seq<Event>, r: string)
    requires log != [] && AllPrintable(log)
    ensures ParseMembers(EntryText(log[0]) + (MoreText(log[1..]) + "\n}" + r)) == Some(Parsed(MembersOf(log), r))
  {
    hide ParseMembers, MoreMembers, EntryText, Seconds;
    var after := MoreText(log[1..]) + "\n}" + r;
    var m := Member(log[0].name, Number(Seconds(log[0].ts)));
    if |log| == 1 {
      assert after == "\n}" + r;
      CloseBrace(m, r);
      assert MembersOf(log) == [m];
    } else {
      var rest := EntryText(log[1]) + (MoreText(log[1..][1..]) + "\n}" + r);
      assert after == "," + rest;
      MembersRead(log[1..], r);
      CommaThenMembers(m, rest);
      assert MembersOf(log) == [m] + MembersOf(log[1..]);
    }
    MemberRead(log[0], after);
  }

  lemma {:induction false} SkipTwice(s: string)
    ensures SkipWs(SkipWs(s)) == SkipWs(s)
  {
    if s != "" && IsWs(s[0]) { SkipTwice(s[1..]); }
  }

  lemma MembersAfterSpace(x: string)
    ensures ParseMembers(SkipWs(x)) == ParseMembers(x)
  {
    hide SkipWs, ParseString, ParseValue, MoreMembers;
    SkipTwice(x);
  }

  function AsObject(p: Option<Parsed<seq<Member>>>): Option<Parsed<Value>>
  {
    match p
    case Some(ms) => Some(Parsed(Object(ms.value), ms.rest))
    case None => None
  }

  /** An opening brace starts an object, which is empty if the closing brace follows. */
  lemma ObjectAfterBrace(x: string)
    ensures var u := SkipWs(x);
      ParseValue("{" + x) ==
        if u != "" && u[0] == '}' then Some(Parsed(Object([]), u[1..])) else AsObject(ParseMembers(u))
  {
    hide ParseMembers, ParseItems, ParseNumber, ParseString;
    SkipNothing("{" + x);
    assert ("{" + x)[1..] == x;
  }

  /** After an opening brace, something that starts a member. */
  lemma BraceThenMembers(x: string)
    requires SkipWs(x) != "" && SkipWs(x)[0] == '"'
    ensures ParseValue("{ " + x) == AsObject(ParseMembers(x))
  {
    hide ParseMembers, ParseValue;
    assert "{ " + x == "{" + ([' '] + x);
    ObjectAfterBrace([' '] + x);
    SkipLeading(' ', x);
    MembersAfterSpace(x);
  }

  lemma EmptyObjectRead(r: string)
    ensures ParseValue("{\n}" + r) == Some(Parsed(Object([]), r))
  {
    hide ParseMembers, ParseValue;
    var x := ['\n'] + ("}" + r);
    assert "{\n}" + r == "{" + x;
    ObjectAfterBrace(x);
    SkipLeading('\n', "}" + r);
    SkipNothing("}" + r);
    assert ("}" + r)[1..] == r;
  }

  /** One printed object is read as the log it was printed from; its last newline is left over. */
  lemma ObjectRead(log: seq<Event>, r: string)
    requires AllPrintable(log)
    ensures ParseValue(ObjectText(log) + r) == Some(Parsed(Object(MembersOf(log)), "\n" + r))
  {
    hide EntryText, ParseValue, ParseMembers, ParseString, Seconds, SkipWs;
    if log == [] {
      assert ObjectText(log) + r == "{\n}" + ("\n" + r);
      EmptyObjectRead("\n" + r);
      assert MembersOf(log) == [];
    } else {
      var after := MoreText(log[1..]) + "\n}" + ("\n" + r);
      assert ObjectText(log) + r == "{ " + (EntryText(log[0]) + after);
      EntryStart(log[0], after);
      MembersRead(log, "\n" + r);
      BraceThenMembers(EntryText(log[0]) + after);
    }
  }

  lemma CloseBracket(v: Value, r: string)
    ensures MoreItems(v, "\n]" + r) == Some(Parsed([v], r))
  {
    assert "\n]" + r == ['\n'] + ("]" + r);
    SkipLeading('\n', "]" + r);
    SkipNothing("]" + r);
    assert ("]" + r)[1..] == r;
  }

  lemma CommaThenItems(v: Value, rest: string)
    ensures MoreItems(v, "\n," + rest) == Before(v, ParseItems(rest))
  {
    hide ParseItems;
    assert "\n," + rest == ['\n'] + ("," + rest);
    SkipLeading('\n', "," + rest);
    SkipNothing("," + rest);
    assert ("," + rest)[1..] == rest;
  }

  lemma ItemThen(s: string, v: Value, rest: string)
    requires ParseValue(s) == Some(Parsed(v, rest))
    ensures ParseItems(s) == MoreItems(v, rest)
  {
    hide ParseValue, MoreItems;
  }

  lemma {:induction false} ObjectsRead(logs: seq<seq<Event>>, r: string)
    requires logs != [] && forall i | 0 <= i < |logs| :: AllPrintable(logs[i])
    ensures ParseItems(ObjectsText(logs) + "]" + r) == Some(Parsed(ObjectsOf(logs), r))
  {
    hide ParseItems, ParseValue, MoreItems, ObjectText, MembersOf, AllPrintable;
    var v := Object(MembersOf(logs[0]));
    var after := if |logs| == 1 then "]" + r else "," + (ObjectsText(logs[1..]) + "]" + r);
    var s := ObjectsText(logs) + "]" + r;
    assert s == ObjectText(logs[0]) + after;
    ObjectRead(logs[0], after);
    ItemThen(s, v, "\n" + after);
    if |logs| == 1 {
      assert "\n" + after == "\n]" + r;
      CloseBracket(v, r);
      assert ObjectsOf(logs) == [v];
    } else {
      var rest := ObjectsText(logs[1..]) + "]" + r;
      assert "\n" + after == "\n," + rest;
      ObjectsRead(logs[1..], r);
      CommaThenItems(v, rest);
      assert ObjectsOf(logs) == [v] + ObjectsOf(logs[1..]);
    }
  }

  /**
   * The whole report is a JSON text: an array with one object per log, and in it one member per event, in order, with
   * the name of the event and its exact time.
   */
  lemma ReportReadsBack(logs: seq<seq<Event>>)
    requires forall i | 0 <= i < |logs| :: AllPrintable(logs[i])
    ensures ParseText(ReportText(logs)) == Some(Array(ObjectsOf(logs)))
  {
    hide ParseItems, MembersOf, ObjectsText, ObjectsOf;
    var inner := ObjectsText(logs) + "]" + "\n";
    var s := ReportText(logs);
    SkipNothing(s);
    assert s[1..] == ['\n'] + inner;
    SkipLeading('\n', inner);
    EndOfText();
    if logs == [] {
      EmptyReport(logs, inner);
    } else {
      ObjectsRead(logs, "\n");
      StartsWithBrace(logs, inner);
      SkipNothing(inner);
    }
  }

  lemma EndOfText()
    ensures SkipWs("\n") == ""
  {
    assert "\n"[1..] == "";
  }

  lemma EmptyReport(logs: seq<seq<Event>>, inner: string)
    requires logs == [] && inner == ObjectsText(logs) + "]" + "\n"
    ensures SkipWs(inner) == "]\n" && ObjectsOf(logs) == [] && "]\n"[1..] == "\n"
  {
    assert inner == "]\n";
  }

  lemma StartsWithBrace(logs: seq<seq<Event>>, inner: string)
    requires logs != [] && inner == ObjectsText(logs) + "]" + "\n"
    ensures inner != "" && inner[0] == '{'
  {
  }

  // And only then

  /** Decoding never lengthens a string, and keeps its length only if there was nothing to decode. */
  lemma {:induction false} DecodingShrinks(s: string)
    requires ParseString(s).Some?
    ensures var p := ParseString(s).value;
      && |s| - |p.rest| >= |p.value| + 1
      && (|s| - |p.rest| == |p.value| + 1 ==> forall i | 0 <= i < |p.value| :: IsPlain(p.value[i]))
  {
    if s[0] != '"' {
      DecodingShrinks(if IsPlain(s[0]) then s[1..] else s[2..]);
    }
  }

  /** A string cannot run into a control character. */
  lemma {:induction false} ControlStops(u: string, c: char, b: string)
    requires Lacks(u, '"') && c as int < 0x20
    ensures ParseString(u + [c] + b) == None
    decreases |u|
  {
    var s := u + [c] + b;
    if u != "" {
      assert s[1..] == u[1..] + [c] + b;
      ControlStops(u[1..], c, b);
      if |u| >= 2 {
        assert s[2..] == u[2..] + [c] + b;
        ControlStops(u[2..], c, b);
      } else {
        assert s[1] == c;
      }
    }
  }

  lemma {:induction false} StringEndsBefore(x: string, u: string, c: char, b: string)
    requires Lacks(u, '"') && c as int < 0x20 && ParseString(x + (u + [c] + b)).Some?
    ensures |ParseString(x + (u + [c] + b)).value.rest| >= |u + [c] + b|
    decreases |x|
  {
    var t := u + [c] + b;
    var s := x + t;
    if x == "" {
      assert s == t;
      ControlStops(u, c, b);
    } else if s[0] != '"' {
      assert s[1..] == x[1..] + t;
      if IsPlain(s[0]) {
        StringEndsBefore(x[1..], u, c, b);
      } else if |x| >= 2 {
        assert s[2..] == x[2..] + t;
        StringEndsBefore(x[2..], u, c, b);
      } else if u != "" {
        assert s[2..] == u[1..] + [c] + b;
        ControlStops(u[1..], c, b);
      }
    }
  }

  /** What follows an entry starts a new line, at once or after a comma. */
  predicate LineEnds(r: string) { "\n" <= r || ",\n" <= r }

  lemma BadNameNotRead(e: Event, r: string)
    requires !NeedsNoEscape(e.name) && LineEnds(r)
    ensures var p := ParseString(e.name + "\"" + AfterName(e, r)); p.Some? ==> p.value.value != e.name
  {
    hide ParseString, TimeText;
    var tail := AfterName(e, r);
    var s := e.name + "\"" + tail;
    if ParseString(s).Some? {
      var comma := if "\n" <= r then "" else ",";
      var u, b := ": " + TimeText(e.ts) + comma, r[|comma| + 1..];
      assert r == comma + "\n" + b;
      assert tail == u + ['\n'] + b;
      TimeTextLacksQuote(e.ts);
      StringEndsBefore(e.name + "\"", u, '\n', b);
      DecodingShrinks(s);
    }
  }

  lemma TimeTextLacksQuote(ts: Timespec)
    ensures Lacks(TimeText(ts), '"')
  {
    hide Decimal, Fixed;
    DigitsLack(Decimal(ts.sec), '"');
    DigitsLack(Fixed(ts.nsec, 9), '"');
  }

  /** The first member that is read has the name that the first string spells. */
  lemma StartOfMembers(s: string)
    requires ParseMembers(s).Some?
    ensures SkipWs(s) != "" && ParseString(SkipWs(s)[1..]).Some?
    ensures ParseMembers(s).value.value != []
    ensures ParseMembers(s).value.value[0].name == ParseString(SkipWs(s)[1..]).value.value
  {
    hide ParseString, ParseValue, SkipWs;
  }

  /** An entry whose name needs an escape is not read as that entry. */
  lemma BadMemberNotRead(e: Event, r: string)
    requires !NeedsNoEscape(e.name) && LineEnds(r)
    ensures var p := ParseMembers(EntryText(e) + r);
      p.Some? ==> p.value.value != [] && p.value.value[0].name != e.name
  {
    hide ParseString, ParseMembers, TimeText, EntryText, NeedsNoEscape, LineEnds;
    EntryStart(e, r);
    BadNameNotRead(e, r);
    var s := e.name + "\"" + AfterName(e, r);
    assert ("\"" + s)[1..] == s;
    if ParseMembers(EntryText(e) + r).Some? { StartOfMembers(EntryText(e) + r); }
  }

  ghost predicate AllNormal(log: seq<Event>)
  {
    forall i | 0 <= i < |log| :: log[i].ts.Normal()
  }

  ghost predicate NeedsNoEscapes(log: seq<Event>)
  {
    forall i | 0 <= i < |log| :: NeedsNoEscape(log[i].name)
  }

  lemma {:induction false} BadMembersNotRead(log: seq<Event>, r: string)
    requires AllNormal(log) && !NeedsNoEscapes(log)
    ensures var p := ParseMembers(EntryText(log[0]) + (MoreText(log[1..]) + "\n}" + r));
      p.Some? ==> p.value.value != MembersOf(log)
  {
    hide ParseMembers, MoreMembers, EntryText, Seconds, NeedsNoEscape;
    var after := MoreText(log[1..]) + "\n}" + r;
    FollowingText(log, r);
    if !NeedsNoEscape(log[0].name) {
      BadMemberNotRead(log[0], after);
    } else {
      var m := Member(log[0].name, Number(Seconds(log[0].ts)));
      assert !NeedsNoEscapes(log[1..]) && |log| > 1;
      MemberRead(log[0], after);
      var rest := EntryText(log[1]) + (MoreText(log[1..][1..]) + "\n}" + r);
      assert after == "," + rest;
      BadMembersNotRead(log[1..], r);
      CommaThenMembers(m, rest);
      assert MembersOf(log)[1..] == MembersOf(log[1..]);
    }
  }

  lemma FollowingText(log: seq<Event>, r: string)
    requires log != []
    ensures var after := MoreText(log[1..]) + "\n}" + r;
      LineEnds(after) && after != "" && !IsDigit(after[0]) && after[0] !in "eE"
  {
  }

  lemma BadObjectNotRead(log: seq<Event>, r: string)
    requires AllNormal(log) && !NeedsNoEscapes(log)
    ensures var p := ParseValue(ObjectText(log) + r); p.Some? ==> p.value.value != Object(MembersOf(log))
  {
    hide EntryText, ParseValue, ParseMembers, ParseString, Seconds, SkipWs, NeedsNoEscape;
    var after := MoreText(log[1..]) + "\n}" + ("\n" + r);
    assert ObjectText(log) + r == "{ " + (EntryText(log[0]) + after);
    EntryStart(log[0], after);
    BadMembersNotRead(log, "\n" + r);
    BraceThenMembers(EntryText(log[0]) + after);
  }

  lemma {:induction false} BadObjectsNotRead(logs: seq<seq<Event>>, r: string)
    requires (forall i | 0 <= i < |logs| :: AllNormal(logs[i]))
    requires exists i | 0 <= i < |logs| :: !NeedsNoEscapes(logs[i])
    ensures var p := ParseItems(ObjectsText(logs) + "]" + r); p.Some? ==> p.value.value != ObjectsOf(logs)
  {
    hide ParseItems, MoreItems, ParseValue, ObjectText, MembersOf, AllNormal, NeedsNoEscapes;
    var s := ObjectsText(logs) + "]" + r;
    var after := if |logs| == 1 then "]" + r else "," + (ObjectsText(logs[1..]) + "]" + r);
    assert s == ObjectText(logs[0]) + after;
    if !NeedsNoEscapes(logs[0]) {
      BadObjectNotRead(logs[0], after);
      StartOfItems(s);
    } else {
      var v := Object(MembersOf(logs[0]));
      assert |logs| > 1 && exists i | 0 <= i < |logs[1..]| :: !NeedsNoEscapes(logs[1..][i]) by {
        var i :| 0 <= i < |logs| && !NeedsNoEscapes(logs[i]);
        assert logs[1..][i - 1] == logs[i];
      }
      var rest := ObjectsText(logs[1..]) + "]" + r;
      AllPrintableWhen(logs[0]);
      ObjectRead(logs[0], after);
      ItemThen(s, v, "\n" + after);
      assert "\n" + ("," + rest) == "\n," + rest;
      BadObjectsNotRead(logs[1..], r);
      CommaThenItems(v, rest);
      assert ObjectsOf(logs)[1..] == ObjectsOf(logs[1..]);
    }
  }

  lemma AllPrintableWhen(log: seq<Event>)
    requires AllNormal(log)
    ensures AllPrintable(log) <==> NeedsNoEscapes(log)
  {
    if AllPrintable(log) {
      forall i | 0 <= i < |log| ensures NeedsNoEscape(log[i].name) { assert Printable(log[i]); }
    }
    if NeedsNoEscapes(log) {
      forall i | 0 <= i < |log| ensures Printable(log[i]) { assert NeedsNoEscape(log[i].name); }
    }
  }

  lemma StartOfItems(s: string)
    ensures ParseItems(s).Some? ==>
      ParseValue(s).Some? && ParseItems(s).value.value != []
      && ParseItems(s).value.value[0] == ParseValue(s).value.value
  {
    hide ParseValue;
  }

  /** The report can be read back exactly when no event name needs an escape: print_events writes none. */
  lemma ReportReadsBackExactlyWhen(logs: seq<seq<Event>>)
    requires forall i | 0 <= i < |logs| :: AllNormal(logs[i])
    ensures ParseText(ReportText(logs)) == Some(Array(ObjectsOf(logs)))
       <==> forall i | 0 <= i < |logs| :: NeedsNoEscapes(logs[i])
  {
    hide ParseItems, MembersOf, ObjectsText, ObjectsOf, AllNormal, NeedsNoEscapes, AllPrintable;
    forall i | 0 <= i < |logs| ensures AllPrintable(logs[i]) <==> NeedsNoEscapes(logs[i]) {
      AllPrintableWhen(logs[i]);
    }
    if forall i | 0 <= i < |logs| :: NeedsNoEscapes(logs[i]) {
      ReportReadsBack(logs);
    } else {
      BadObjectsNotRead(logs, "\n");
      ReportIsItems(logs);
    }
  }

  lemma ReportIsItems(logs: seq<seq<Event>>)
    requires logs != []
    ensures ParseText(ReportText(logs)).Some? ==>
      var p := ParseItems(ObjectsText(logs) + "]" + "\n");
      p.Some? && ParseText(ReportText(logs)) == Some(Array(p.value.value))
  {
    hide ParseItems, ObjectsText;
    var inner := ObjectsText(logs) + "]" + "\n";
    var s := ReportText(logs);
    SkipNothing(s);
    assert s[1..] == ['\n'] + inner;
    SkipLeading('\n', inner);
    StartsWithBrace(logs, inner);
    SkipNothing(inner);
  }
}
