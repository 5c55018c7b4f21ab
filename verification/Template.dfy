/**
 Placeholder syntax: `Template::parse` and its helpers in
 `crates/core/src/placeholder.rs`.
 */
module Template {
  import opened Basics
  import opened Text
  import Decimal

  datatype Segment =
    | Name(name: string)
    | Quoted(quoted: string)
    | Index(index: nat)
  {
    /** The name in the segment; an index has none. */
    function Key(): Option<string> {
      match this
      case Name(s) => Some(s)
      case Quoted(s) => Some(s)
      case Index(_) => None
    }
  }

  datatype RawPlaceholder = RawPlaceholder(text: string, segments: seq<Segment>) {
    /** What the path starts with, which decides how the placeholder is read. */
    function Root(): string {
      if segments == [] || segments[0].Index? then "" else segments[0].Key().value
    }
  }

  datatype Part =
    | Literal(text: string)
    | Placeholder(raw: RawPlaceholder)

  datatype SyntaxError =
    | UnterminatedPlaceholder
    | EmptyPlaceholder
    | UnterminatedBracket
    | BadBracket
    | EmptySegment
    | Unexpected(c: char)

  // ---- The end of a placeholder ----

  predicate IsQuote(c: char) { c == '\'' || c == '"' }

  /** The quote state after one character that does not end the placeholder. */
  function NextQuote(quote: Option<char>, c: char): Option<char> {
    match quote
    case Some(q) => if c == q then None else quote
    case None => if IsQuote(c) then Some(c) else None
  }

  predicate Ends(quote: Option<char>, c: char) { quote.None? && c == '}' }

  /** Where the first unquoted `}` is. */
  function EndFrom(s: string, quote: Option<char>): (r: Option<nat>)
    ensures r.Some? ==> r.value < |s| && s[r.value] == '}'
  {
    if s == "" then None
    else if Ends(quote, s[0]) then Some(0)
    else
      var rest := EndFrom(s[1..], NextQuote(quote, s[0]));
      if rest.Some? then Some(rest.value + 1) else None
  }

  function PlaceholderEnd(s: string): (r: Option<nat>)
    ensures r.Some? ==> r.value < |s| && s[r.value] == '}'
  {
    EndFrom(s, None)
  }

  /** `find_placeholder_end` */
  method FindPlaceholderEnd(s: string) returns (r: Option<nat>)
    ensures r == PlaceholderEnd(s)
  {
    var quote: Option<char> := None;
    assert s[0..] == s;
    for i := 0 to |s|
      invariant PlaceholderEnd(s) ==
        (var rest := EndFrom(s[i..], quote); if rest.Some? then Some(rest.value + i) else None)
    {
      var c := s[i];
      assert s[i..][1..] == s[i + 1..];
      if quote.Some? {
        if c == quote.value {
          quote := None;
        }
      } else if IsQuote(c) {
        quote := Some(c);
      } else if c == '}' {
        return Some(i);
      }
    }
    return None;
  }

  // ---- Paths ----

  /** Unicode white space. */
  predicate IsWhitespace(c: char) {
    var x := c as int;
    || 9 <= x <= 13 || x == 0x20 || x == 0x85 || x == 0xA0 || x == 0x1680
    || 0x2000 <= x <= 0x200A || x == 0x2028 || x == 0x2029 || x == 0x202F
    || x == 0x205F || x == 0x3000
  }

  predicate IsNameChar(c: char) {
    c != '.' && c != '[' && c != ']' && !IsQuote(c) && !IsWhitespace(c)
  }

  predicate IsName(s: string) {
    s != "" && forall i :: 0 <= i < |s| ==> IsNameChar(s[i])
  }

  /** The length of the name `s` starts with. */
  function NameLength(s: string): (n: nat)
    ensures n <= |s|
    ensures forall i :: 0 <= i < n ==> IsNameChar(s[i])
    ensures n < |s| ==> !IsNameChar(s[n])
  {
    if s == "" || !IsNameChar(s[0]) then 0 else 1 + NameLength(s[1..])
  }

  const USIZE: nat := 0x1_0000_0000_0000_0000

  /** An unsigned integer as `str::parse` accepts it: an optional `+`, then digits. */
  function ParseIndex(s: string): Option<nat> {
    var digits := if |s| > 1 && s[0] == '+' then s[1..] else s;
    if digits != "" && Decimal.AllDigits(digits) && Decimal.ValueOf(digits) < USIZE
    then Some(Decimal.ValueOf(digits))
    else None
  }

  predicate IsQuotedBy(inner: string, q: char) {
    |inner| >= 2 && inner[0] == q && inner[|inner| - 1] == q
  }

  /** What stands between brackets. */
  function BracketSegment(inner: string): Option<Segment> {
    if IsQuotedBy(inner, '\'') || IsQuotedBy(inner, '"') then Some(Quoted(inner[1..|inner| - 1]))
    else
      match ParseIndex(inner)
      case Some(i) => Some(Index(i))
      case None => None
  }

  function Cons(seg: Segment, rest: Result<seq<Segment>, SyntaxError>): Result<seq<Segment>, SyntaxError> {
    match rest
    case Ok(segs) => Ok([seg] + segs)
    case Err(e) => Err(e)
  }

  /** A segment and how many characters it takes. */
  datatype Step = Step(seg: Segment, length: nat)

  /** The segment `s` starts with; `first` while no segment has been read. */
  function NextSegment(s: string, first: bool): (r: Result<Step, SyntaxError>)
    requires s != ""
    ensures r.Ok? ==> 0 < r.value.length <= |s|
  {
    if s[0] == '[' then
      var close := Find(s[1..], ']');
      if close == |s| - 1 then Err(UnterminatedBracket)
      else
        match BracketSegment(s[1..close + 1])
        case None => Err(BadBracket)
        case Some(seg) => Ok(Step(seg, close + 2))
    else if s[0] == '.' && !first then
      var n := NameLength(s[1..]);
      if n == 0 then Err(EmptySegment) else Ok(Step(Name(s[1..n + 1]), n + 1))
    else if first && IsNameChar(s[0]) then
      var n := NameLength(s);
      Ok(Step(Name(s[..n]), n))
    else Err(Unexpected(s[0]))
  }

  function PathFrom(s: string, first: bool): Result<seq<Segment>, SyntaxError>
    decreases |s|
  {
    if s == "" then Ok([])
    else
      match NextSegment(s, first)
      case Err(e) => Err(e)
      case Ok(step) => Cons(step.seg, PathFrom(s[step.length..], false))
  }

  function Path(body: string): Result<seq<Segment>, SyntaxError> {
    if body == "" then Err(EmptyPlaceholder) else PathFrom(body, true)
  }

  function Append<T>(done: seq<T>, rest: Result<seq<T>, SyntaxError>): Result<seq<T>, SyntaxError> {
    match rest
    case Ok(more) => Ok(done + more)
    case Err(e) => Err(e)
  }

  lemma AppendNothing<T>(done: seq<T>, rest: Result<seq<T>, SyntaxError>)
    ensures Append([], rest) == rest
    ensures Append(done, Ok([])) == Ok(done)
  {
    if rest.Ok? {
      assert [] + rest.value == rest.value;
    }
    assert done + [] == done;
  }

  lemma AppendOne(done: seq<Segment>, seg: Segment, rest: Result<seq<Segment>, SyntaxError>)
    ensures Append(done, Cons(seg, rest)) == Append(done + [seg], rest)
  {
    if rest.Ok? {
      assert done + ([seg] + rest.value) == done + [seg] + rest.value;
    }
  }

  /** One turn of the path loop. */
  lemma PathStep(done: seq<Segment>, s: string, first: bool)
    requires s != ""
    ensures match NextSegment(s, first)
      case Err(e) => Append(done, PathFrom(s, first)) == Err(e)
      case Ok(step) =>
        Append(done, PathFrom(s, first)) == Append(done + [step.seg], PathFrom(s[step.length..], false))
  {
    hide NextSegment;
    var step := NextSegment(s, first);
    if step.Ok? {
      AppendOne(done, step.value.seg, PathFrom(s[step.value.length..], false));
    }
  }

  /** `parse_path` */
  method ParsePath(body: string) returns (r: Result<seq<Segment>, SyntaxError>)
    ensures r == Path(body)
  {
    if body == "" {
      return Err(EmptyPlaceholder);
    }
    var segments: seq<Segment> := [];
    var rest := body;
    AppendNothing(segments, PathFrom(body, true));
    while rest != ""
      invariant Path(body) == Append(segments, PathFrom(rest, segments == []))
      decreases |rest|
    {
      hide NextSegment, PathFrom, Append;
      PathStep(segments, rest, segments == []);
      var next := NextSegment(rest, segments == []);
      if next.Err? {
        return Err(next.error);
      }
      segments := segments + [next.value.seg];
      rest := rest[next.value.length..];
    }
    AppendNothing(segments, Ok([]));
    r := Ok(segments);
  }

  // ---- Templates ----

  function Flush(lit: string): seq<Part> {
    if lit == "" then [] else [Literal(lit)]
  }

  /** A placeholder after the literal text `lit`. */
  function Found(lit: string, body: string, segs: seq<Segment>): seq<Part> {
    Flush(lit) + [Placeholder(RawPlaceholder("${" + body + "}", segs))]
  }

  /** The parts of `s` after the literal text `lit`. */
  function PartsFrom(s: string, lit: string): Result<seq<Part>, SyntaxError>
    decreases |s|
  {
    if s == "" then Ok(Flush(lit))
    else if StartsWith(s, "$\\{") then PartsFrom(s[3..], lit + "${")
    else if StartsWith(s, "${") then PlaceholderFrom(s[2..], lit)
    else PartsFrom(s[1..], lit + [s[0]])
  }

  /** The parts of `tail`, which starts inside a placeholder. */
  function PlaceholderFrom(tail: string, lit: string): Result<seq<Part>, SyntaxError>
    decreases |tail|
  {
    match PlaceholderEnd(tail)
    case None => Err(UnterminatedPlaceholder)
    case Some(end) =>
      match Path(tail[..end])
      case Err(e) => Err(e)
      case Ok(segs) => Append(Found(lit, tail[..end], segs), PartsFrom(tail[end + 1..], ""))
  }

  function Parse(s: string): Result<seq<Part>, SyntaxError> { PartsFrom(s, "") }

  lemma DollarCases(s: string, lit: string)
    requires s != ""
    ensures StartsWith(s, "$\\{") ==> PartsFrom(s, lit) == PartsFrom(s[3..], lit + "${")
    ensures StartsWith(s, "${") ==> PartsFrom(s, lit) == PlaceholderFrom(s[2..], lit)
    ensures !StartsWith(s, "$\\{") && !StartsWith(s, "${") ==> PartsFrom(s, lit) == PartsFrom(s[1..], lit + [s[0]])
    ensures s[0] != '$' ==> PartsFrom(s, lit) == PartsFrom(s[1..], lit + [s[0]])
  {
    hide PlaceholderFrom;
    assert "$\\{"[0] == '$' && "$\\{"[1] == '\\' && "${"[0] == '$' && "${"[1] == '{';
    assert StartsWith(s, "$\\{") ==> s[0] == '$' && s[1] == '\\';
    assert StartsWith(s, "${") ==> s[0] == '$' && s[1] == '{';
  }

  /** Text without a `$` is literal. */
  lemma {:induction false} PlainText(s: string, lit: string, i: nat)
    requires i <= |s| && forall j :: 0 <= j < i ==> s[j] != '$'
    ensures PartsFrom(s, lit) == PartsFrom(s[i..], lit + s[..i])
    decreases i
  {
    hide PartsFrom;
    if i == 0 {
      assert s[0..] == s && lit + s[..0] == lit;
    } else {
      DollarCases(s, lit);
      PlainText(s[1..], lit + [s[0]], i - 1);
      assert s[1..][i - 1..] == s[i..];
      assert lit + [s[0]] + s[1..][..i - 1] == lit + s[..i];
    }
  }

  lemma AppendTwice<T>(a: seq<T>, b: seq<T>, rest: Result<seq<T>, SyntaxError>)
    ensures Append(a, Append(b, rest)) == Append(a + b, rest)
  {
    if rest.Ok? {
      assert a + (b + rest.value) == a + b + rest.value;
    }
  }

  /** `Template::parse` */
  method ParseTemplate(s: string) returns (r: Result<seq<Part>, SyntaxError>)
    ensures r == Parse(s)
  {
    var parts: seq<Part> := [];
    var lit := "";
    var rest := s;
    AppendNothing(parts, Parse(s));
    var i := Find(rest, '$');
    while i < |rest|
      invariant i == Find(rest, '$')
      invariant Parse(s) == Append(parts, PartsFrom(rest, lit))
      decreases |rest|
    {
      hide PartsFrom, PlaceholderEnd, Path, Append, Find, Found;
      PlainText(rest, lit, i);
      lit := lit + rest[..i];
      var after := rest[i..];
      DollarCases(after, lit);
      if StartsWith(after, "$\\{") {
        lit := lit + "${";
        rest := after[3..];
      } else if StartsWith(after, "${") {
        var tail := after[2..];
        var end := FindPlaceholderEnd(tail);
        if end.None? {
          return Err(UnterminatedPlaceholder);
        }
        var body := tail[..end.value];
        var segments := ParsePath(body);
        if segments.Err? {
          return Err(segments.error);
        }
        var found := Found(lit, body, segments.value);
        AppendTwice(parts, found, PartsFrom(tail[end.value + 1..], ""));
        parts := parts + found;
        lit := "";
        rest := tail[end.value + 1..];
      } else {
        lit := lit + "$";
        rest := after[1..];
      }
      i := Find(rest, '$');
    }
    PlainText(rest, lit, |rest|);
    assert rest[|rest|..] == "" && rest[..|rest|] == rest;
    lit := lit + rest;
    r := Ok(parts + Flush(lit));
  }
}
