/**
 A reader of JSON texts by the grammar in sections 2 to 7 of RFC 8259. Members stay in the order
 of the text, and a number written without fraction and exponent is read as its value.
 */
module JsonReader {

  import opened Common
  import opened ProbeParse

  datatype Json =
    | Null
    | Bool(b: bool)
    | Int(n: int)
    | Real(lexeme: string)
    | Str(s: string)
    | Arr(elements: seq<Json>)
    | Obj(members: seq<(string, Json)>)

  // ----- section 2: structure and white space -----

  predicate IsWs(c: char) {
    c == ' ' || c == '\t' || c == '\n' || c == '\r'
  }

  function SkipWs(s: string): (r: string)
    ensures |r| <= |s|
    ensures r == [] || !IsWs(r[0])
  {
    if s != [] && IsWs(s[0]) then SkipWs(s[1..]) else s
  }

  // ----- section 7: strings -----

  function Hex(c: char): (r: Option<nat>)
    ensures r.Some? ==> r.value < 16
  {
    if '0' <= c <= '9' then Some(c as int - '0' as int)
    else if 'a' <= c <= 'f' then Some(c as int - 'a' as int + 10)
    else if 'A' <= c <= 'F' then Some(c as int - 'A' as int + 10)
    else None
  }

  function ParseHex4(s: string): (r: Parse<nat>)
    ensures r.Done? ==> r.value < 0x10000 && |r.rest| < |s|
  {
    if |s| < 4 || Hex(s[0]).None? || Hex(s[1]).None? || Hex(s[2]).None? || Hex(s[3]).None? then Fail
    else
      Done(0x1000 * Hex(s[0]).value + 0x100 * Hex(s[1]).value + 0x10 * Hex(s[2]).value + Hex(s[3]).value,
           s[4..])
  }

  /** After the `u`. A leading surrogate stands for a character only with its trailing one. */
  function ParseUnicode(s: string): (r: Parse<char>)
    ensures r.Done? ==> |r.rest| < |s|
  {
    match ParseHex4(s)
    case Fail => Fail
    case Done(u, rest) =>
      if 0xdc00 <= u < 0xe000 then Fail
      else if 0xd800 <= u < 0xdc00 then
        if |rest| < 2 || rest[0] != '\\' || rest[1] != 'u' then Fail
        else
          match ParseHex4(rest[2..])
          case Fail => Fail
          case Done(v, rest') =>
            if 0xdc00 <= v < 0xe000 then Done((0x10000 + 0x400 * (u - 0xd800) + (v - 0xdc00)) as char, rest')
            else Fail
      else Done(u as char, rest)
  }

  /** After the reverse solidus. */
  function ParseEscape(s: string): (r: Parse<char>)
    ensures r.Done? ==> |r.rest| < |s|
  {
    if s == [] then Fail
    else if s[0] == '"' || s[0] == '\\' || s[0] == '/' then Done(s[0], s[1..])
    else if s[0] == 'b' then Done(8 as char, s[1..])
    else if s[0] == 'f' then Done(12 as char, s[1..])
    else if s[0] == 'n' then Done('\n', s[1..])
    else if s[0] == 'r' then Done('\r', s[1..])
    else if s[0] == 't' then Done('\t', s[1..])
    else if s[0] == 'u' then ParseUnicode(s[1..])
    else Fail
  }

  /** After the opening quotation mark, through the closing one. */
  function ParseChars(s: string): (r: Parse<string>)
    ensures r.Done? ==> |r.rest| < |s|
    decreases |s|
  {
    if s == [] then Fail
    else if s[0] == '"' then Done("", s[1..])
    else if s[0] == '\\' then
      match ParseEscape(s[1..])
      case Fail => Fail
      case Done(c, rest) => Prepend(c, ParseChars(rest))
    else if s[0] < 32 as char then Fail
    else Prepend(s[0], ParseChars(s[1..]))
  }

  // ----- section 6: numbers -----

  predicate IsDigit(c: char) {
    '0' <= c <= '9'
  }

  function TakeDigits(s: string): (d: string)
    ensures |d| <= |s| && d == s[..|d|]
    ensures forall i :: 0 <= i < |d| ==> IsDigit(d[i])
  {
    if s != [] && IsDigit(s[0]) then [s[0]] + TakeDigits(s[1..]) else []
  }

  function Digit(c: char): nat
    requires IsDigit(c)
  {
    c as int - '0' as int
  }

  function Value(d: string): nat
    requires forall i :: 0 <= i < |d| ==> IsDigit(d[i])
  {
    if d == [] then 0 else 10 * Value(d[..|d| - 1]) + Digit(d[|d| - 1])
  }

  /** How many characters the fraction takes: none when there is no point. */
  function FracLength(s: string): (r: Option<nat>)
    ensures r.Some? ==> r.value <= |s|
  {
    if s == [] || s[0] != '.' then Some(0)
    else if TakeDigits(s[1..]) == [] then None
    else Some(1 + |TakeDigits(s[1..])|)
  }

  function ExpLength(s: string): (r: Option<nat>)
    ensures r.Some? ==> r.value <= |s|
  {
    if s == [] || (s[0] != 'e' && s[0] != 'E') then Some(0)
    else
      var sign := if |s| > 1 && (s[1] == '+' || s[1] == '-') then 2 else 1;
      if TakeDigits(s[sign..]) == [] then None else Some(sign + |TakeDigits(s[sign..])|)
  }

  /** How many characters follow the integer part. */
  function TailLength(s: string): (r: Option<nat>)
    ensures r.Some? ==> r.value <= |s|
  {
    match FracLength(s)
    case None => None
    case Some(f) =>
      match ExpLength(s[f..])
      case None => None
      case Some(e) => Some(f + e)
  }

  /** The integer part: a lone zero, or digits that do not start with zero. */
  function TakeInteger(s: string): (d: string)
    ensures |d| <= |s| && forall i :: 0 <= i < |d| ==> IsDigit(d[i])
  {
    if s != [] && s[0] == '0' then [s[0]] else TakeDigits(s)
  }

  function ParseUnsigned(s: string, negative: bool): (r: Parse<Json>)
    ensures r.Done? ==> |r.rest| < |s|
  {
    var digits := TakeInteger(s);
    if digits == [] then Fail
    else
      match TailLength(s[|digits|..])
      case None => Fail
      case Some(0) =>
        var value: int := Value(digits);
        Done(Int(if negative then -value else value), s[|digits|..])
      case Some(n) =>
        Done(Real((if negative then "-" else "") + s[..|digits| + n]), s[|digits| + n..])
  }

  function ParseNumber(s: string): (r: Parse<Json>)
    ensures r.Done? ==> |r.rest| < |s|
  {
    if s != [] && s[0] == '-' then ParseUnsigned(s[1..], true) else ParseUnsigned(s, false)
  }

  // ----- sections 3 to 5: values, objects, arrays -----

  predicate StartsWith(s: string, word: string) {
    word <= s
  }

  function ParseValue(s: string): (r: Parse<Json>)
    ensures r.Done? ==> |r.rest| < |s|
    decreases |s|, 0
  {
    ParseToken(SkipWs(s))
  }

  /** A value that starts at once. */
  function ParseToken(t: string): (r: Parse<Json>)
    ensures r.Done? ==> |r.rest| < |t|
    decreases |t|, -1
  {
    if t == [] then Fail
    else if t[0] == '{' then
      var u := SkipWs(t[1..]);
      if u != [] && u[0] == '}' then Done(Obj([]), u[1..])
      else
        match ParseMembers(t[1..])
        case Fail => Fail
        case Done(ms, rest) => Done(Obj(ms), rest)
    else if t[0] == '[' then
      var u := SkipWs(t[1..]);
      if u != [] && u[0] == ']' then Done(Arr([]), u[1..])
      else
        match ParseElements(t[1..])
        case Fail => Fail
        case Done(es, rest) => Done(Arr(es), rest)
    else if t[0] == '"' then
      match ParseChars(t[1..])
      case Fail => Fail
      case Done(chars, rest) => Done(Str(chars), rest)
    else if StartsWith(t, "true") then Done(Bool(true), t[4..])
    else if StartsWith(t, "false") then Done(Bool(false), t[5..])
    else if StartsWith(t, "null") then Done(Null, t[4..])
    else ParseNumber(t)
  }

  /** A name, a colon and a value. */
  function ParseMember(s: string): (r: Parse<(string, Json)>)
    ensures r.Done? ==> |r.rest| < |s|
    decreases |s|, 1
  {
    var t := SkipWs(s);
    if t == [] || t[0] != '"' then Fail
    else
      match ParseChars(t[1..])
      case Fail => Fail
      case Done(name, rest) =>
        var u := SkipWs(rest);
        if u == [] || u[0] != ':' then Fail
        else
          match ParseValue(u[1..])
          case Fail => Fail
          case Done(v, rest') => Done((name, v), rest')
  }

  /** One member or more, through the closing brace. */
  function ParseMembers(s: string): (r: Parse<seq<(string, Json)>>)
    ensures r.Done? ==> |r.rest| < |s|
    decreases |s|, 2
  {
    match ParseMember(s)
    case Fail => Fail
    case Done(m, rest) =>
      var t := SkipWs(rest);
      if t == [] then Fail
      else if t[0] == '}' then Done([m], t[1..])
      else if t[0] == ',' then
        match ParseMembers(t[1..])
        case Fail => Fail
        case Done(ms, rest') => Done([m] + ms, rest')
      else Fail
  }

  /** One element or more, through the closing bracket. */
  function ParseElements(s: string): (r: Parse<seq<Json>>)
    ensures r.Done? ==> |r.rest| < |s|
    decreases |s|, 2
  {
    match ParseValue(s)
    case Fail => Fail
    case Done(e, rest) =>
      var t := SkipWs(rest);
      if t == [] then Fail
      else if t[0] == ']' then Done([e], t[1..])
      else if t[0] == ',' then
        match ParseElements(t[1..])
        case Fail => Fail
        case Done(es, rest') => Done([e] + es, rest')
      else Fail
  }

  /** The whole text is one value with white space around it. */
  function Read(s: string): Option<Json> {
    match ParseValue(s)
    case Fail => None
    case Done(v, rest) => if SkipWs(rest) == [] then Some(v) else None
  }
}
