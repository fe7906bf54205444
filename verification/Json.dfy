/** JSON texts: a parser after sections 2 to 7 of RFC 8259, independent of how the harness prints. */
module Json {
  import opened Text

  datatype Value =
    | Null
    | Bool(b: bool)
    | Number(r: real)
    | String(s: string)
    | Array(items: seq<Value>)
    | Object(members: seq<Member>)

  datatype Member = Member(name: string, value: Value)

  /** What is read, and what is left to read. */
  datatype Parsed<T> = Parsed(value: T, rest: string)

  // Section 2: white space

  predicate IsWs(c: char) { c in " \t\n\r" }

  function SkipWs(s: string): (r: string)
    ensures |r| <= |s|
    ensures r != "" ==> !IsWs(r[0])
  {
    if s != "" && IsWs(s[0]) then SkipWs(s[1..]) else s
  }

  // Section 7: strings. Escapes by code point are not part of this model.

  predicate IsPlain(c: char) { c as int >= 0x20 && c != '"' && c != '\\' }

  function Unescape(c: char): Option<char>
  {
    match c
    case '"' => Some('"')
    case '\\' => Some('\\')
    case '/' => Some('/')
    case 'b' => Some(8 as char)
    case 'f' => Some(12 as char)
    case 'n' => Some('\n')
    case 'r' => Some('\r')
    case 't' => Some('\t')
    case _ => None
  }

  /** The rest of a string, after its opening quotation mark. */
  function ParseString(s: string): (p: Option<Parsed<string>>)
    ensures p.Some? ==> |p.value.rest| < |s|
  {
    if s == "" then None
    else if s[0] == '"' then Some(Parsed("", s[1..]))
    else if IsPlain(s[0]) then
      match ParseString(s[1..])
      case Some(p) => Some(Parsed([s[0]] + p.value, p.rest))
      case None => None
    else if s[0] == '\\' && |s| >= 2 && Unescape(s[1]).Some? then
      match ParseString(s[2..])
      case Some(p) => Some(Parsed([Unescape(s[1]).value] + p.value, p.rest))
      case None => None
    else None
  }

  // Section 6: numbers

  /** The digits at the start. */
  function Digits(s: string): (d: string)
    ensures AllDigits(d) && d <= s
    ensures |d| < |s| ==> !IsDigit(s[|d|])
  {
    if s != "" && IsDigit(s[0]) then [s[0]] + Digits(s[1..]) else ""
  }

  function Scale(r: real, exponent: int): real
  {
    if exponent >= 0 then r * Pow10(exponent) as real else r / Pow10(-exponent) as real
  }

  /** int, and then frac and exp if they are there; no leading zeros. */
  function ParseUnsigned(s: string): (p: Option<Parsed<real>>)
    ensures p.Some? ==> |p.value.rest| < |s|
  {
    var d := Digits(s);
    if d == "" || (d[0] == '0' && |d| > 1) then None
    else
      match ParseFraction(s[|d|..])
      case None => None
      case Some(f) =>
        match ParseExponent(f.rest)
        case None => None
        case Some(e) => Some(Parsed(Scale(DigitsValue(d) as real + f.value, e.value), e.rest))
  }

  function ParseFraction(s: string): (p: Option<Parsed<real>>)
    ensures p.Some? ==> |p.value.rest| <= |s|
  {
    if s == "" || s[0] != '.' then Some(Parsed(0.0, s))
    else
      var d := Digits(s[1..]);
      if d == "" then None
      else Some(Parsed(DigitsValue(d) as real / Pow10(|d|) as real, s[1 + |d|..]))
  }

  function ParseExponent(s: string): (p: Option<Parsed<int>>)
    ensures p.Some? ==> |p.value.rest| <= |s|
  {
    if s == "" || s[0] !in "eE" then Some(Parsed(0, s))
    else
      var signed := |s| >= 2 && s[1] in "+-";
      var t := if signed then s[2..] else s[1..];
      var d := Digits(t);
      if d == "" then None
      else Some(Parsed(if signed && s[1] == '-' then -(DigitsValue(d) as int) else DigitsValue(d) as int, t[|d|..]))
  }

  function ParseNumber(s: string): (p: Option<Parsed<real>>)
    ensures p.Some? ==> |p.value.rest| < |s|
  {
    if s != "" && s[0] == '-' then
      match ParseUnsigned(s[1..])
      case Some(p) => Some(Parsed(-p.value, p.rest))
      case None => None
    else ParseUnsigned(s)
  }

  // Section 3 to 5: values, objects, arrays

  function ParseValue(s: string): (p: Option<Parsed<Value>>)
    ensures p.Some? ==> |p.value.rest| < |s|
    decreases |s|, 1
  {
    var t := SkipWs(s);
    if t == "" then None
    else if t[0] == '{' then
      var u := SkipWs(t[1..]);
      if u != "" && u[0] == '}' then Some(Parsed(Object([]), u[1..]))
      else
        match ParseMembers(u)
        case Some(p) => Some(Parsed(Object(p.value), p.rest))
        case None => None
    else if t[0] == '[' then
      var u := SkipWs(t[1..]);
      if u != "" && u[0] == ']' then Some(Parsed(Array([]), u[1..]))
      else
        match ParseItems(u)
        case Some(p) => Some(Parsed(Array(p.value), p.rest))
        case None => None
    else if t[0] == '"' then
      match ParseString(t[1..])
      case Some(p) => Some(Parsed(String(p.value), p.rest))
      case None => None
    else if "true" <= t then Some(Parsed(Bool(true), t[4..]))
    else if "false" <= t then Some(Parsed(Bool(false), t[5..]))
    else if "null" <= t then Some(Parsed(Null, t[4..]))
    else
      match ParseNumber(t)
      case Some(p) => Some(Parsed(Number(p.value), p.rest))
      case None => None
  }

  /** name : value, as often as commas follow, up to the closing brace. */
  function ParseMembers(s: string): (p: Option<Parsed<seq<Member>>>)
    ensures p.Some? ==> |p.value.rest| < |s|
    decreases |s|, 0
  {
    var t := SkipWs(s);
    if t == "" || t[0] != '"' then None
    else
      match ParseString(t[1..])
      case None => None
      case Some(name) =>
        var u := SkipWs(name.rest);
        if u == "" || u[0] != ':' then None
        else
          match ParseValue(u[1..])
          case None => None
          case Some(value) => MoreMembers(Member(name.value, value.value), value.rest)
  }

  /** After a member: the closing brace, or a comma and more members. */
  function MoreMembers(member: Member, s: string): (p: Option<Parsed<seq<Member>>>)
    ensures p.Some? ==> |p.value.rest| < |s|
    decreases |s|, 2
  {
    var w := SkipWs(s);
    if w != "" && w[0] == '}' then Some(Parsed([member], w[1..]))
    else if w != "" && w[0] == ',' then
      match ParseMembers(w[1..])
      case None => None
      case Some(more) => Some(Parsed([member] + more.value, more.rest))
    else None
  }

  /** A value, as often as commas follow, up to the closing bracket. */
  function ParseItems(s: string): (p: Option<Parsed<seq<Value>>>)
    ensures p.Some? ==> |p.value.rest| < |s|
    decreases |s|, 2
  {
    match ParseValue(s)
    case None => None
    case Some(value) => MoreItems(value.value, value.rest)
  }

  /** After an item: the closing bracket, or a comma and more items. */
  function MoreItems(item: Value, s: string): (p: Option<Parsed<seq<Value>>>)
    ensures p.Some? ==> |p.value.rest| < |s|
    decreases |s|, 3
  {
    var w := SkipWs(s);
    if w != "" && w[0] == ']' then Some(Parsed([item], w[1..]))
    else if w != "" && w[0] == ',' then
      match ParseItems(w[1..])
      case None => None
      case Some(more) => Some(Parsed([item] + more.value, more.rest))
    else None
  }

  /** JSON-text: one value, and white space only around it. */
  function ParseText(s: string): Option<Value>
  {
    match ParseValue(s)
    case Some(p) => if SkipWs(p.rest) == "" then Some(p.value) else None
    case None => None
  }
}
