/** Printing placeholder paths and reading them back. */
module PathLaws {
  import opened Basics
  import opened Text
  import opened Template
  import opened TemplateLaws
  import Decimal

  /** `Display` of a segment. */
  function SegmentText(seg: Segment): string {
    match seg
    case Name(s) => "." + s
    case Quoted(s) => "['" + s + "']"
    case Index(i) => "[" + Decimal.Print(i) + "]"
  }

  function PathText(segs: seq<Segment>): string {
    if segs == [] then "" else SegmentText(segs[0]) + PathText(segs[1..])
  }

  /** A segment that parsing can produce. */
  ghost predicate Printable(seg: Segment) {
    match seg
    case Name(s) => IsName(s)
    case Quoted(s) => ']' !in s
    case Index(i) => i < USIZE
  }

  ghost predicate AllPrintable(segs: seq<Segment>) {
    forall i :: 0 <= i < |segs| ==> Printable(segs[i])
  }

  /** What can follow a segment: the end, a dot or a bracket. */
  ghost predicate Follows(rest: string) {
    rest == "" || rest[0] == '.' || rest[0] == '['
  }

  lemma {:induction false} NameLengthIs(name: string, rest: string)
    requires (forall i :: 0 <= i < |name| ==> IsNameChar(name[i])) && Follows(rest)
    ensures NameLength(name + rest) == |name|
  {
    var s := name + rest;
    if name == "" {
      assert s == rest;
    } else {
      assert s[0] == name[0] && s[1..] == name[1..] + rest;
      NameLengthIs(name[1..], rest);
    }
  }

  lemma BracketReads(inner: string, seg: Segment, rest: string, first: bool)
    requires ']' !in inner && BracketSegment(inner) == Some(seg)
    ensures NextSegment("[" + inner + "]" + rest, first) == Ok(Step(seg, |inner| + 2))
  {
    hide BracketSegment;
    var s := "[" + inner + "]" + rest;
    assert s[0] == '[' && s[1..] == inner + "]" + rest;
    FindIs(s[1..], ']', |inner|);
    assert s[1..|inner| + 1] == inner;
  }

  lemma IndexReads(i: nat)
    requires i < USIZE
    ensures BracketSegment(Decimal.Print(i)) == Some(Index(i)) && ']' !in Decimal.Print(i)
  {
    var d := Decimal.Print(i);
    assert Decimal.IsDigit(d[0]) && forall k :: 0 <= k < |d| ==> Decimal.IsDigit(d[k]);
  }

  lemma QuotedReads(s: string)
    requires ']' !in s
    ensures BracketSegment("'" + s + "'") == Some(Quoted(s)) && ']' !in "'" + s + "'"
  {
    var inner := "'" + s + "'";
    assert inner[0] == '\'' && inner[|inner| - 1] == '\'';
    assert inner[1..|inner| - 1] == s;
  }

  lemma NameReads(s: string, rest: string)
    requires IsName(s) && Follows(rest)
    ensures NextSegment("." + s + rest, false) == Ok(Step(Name(s), |s| + 1))
  {
    var t := "." + s + rest;
    assert t[0] == '.' && t[1..] == s + rest;
    NameLengthIs(s, rest);
    assert t[1..|s| + 1] == s;
  }

  lemma SegmentReads(seg: Segment, rest: string)
    requires Printable(seg) && Follows(rest)
    ensures NextSegment(SegmentText(seg) + rest, false) == Ok(Step(seg, |SegmentText(seg)|))
  {
    hide NextSegment, BracketSegment;
    match seg
    case Name(s) => NameReads(s, rest);
    case Quoted(s) =>
      QuotedReads(s);
      BracketReads("'" + s + "'", seg, rest, false);
      assert "[" + ("'" + s + "'") + "]" == SegmentText(seg);
    case Index(i) =>
      IndexReads(i);
      BracketReads(Decimal.Print(i), seg, rest, false);
  }

  lemma PathFollows(segs: seq<Segment>)
    ensures Follows(PathText(segs))
  {
  }

  lemma {:induction false} PathReads(segs: seq<Segment>)
    requires AllPrintable(segs)
    ensures PathFrom(PathText(segs), false) == Ok(segs)
  {
    if segs != [] {
      var first, rest := SegmentText(segs[0]), PathText(segs[1..]);
      PathFollows(segs[1..]);
      SegmentReads(segs[0], rest);
      assert (first + rest)[|first|..] == rest;
      PathReads(segs[1..]);
      assert segs == [segs[0]] + segs[1..];
    }
  }

  lemma RootReads(root: string, rest: string)
    requires IsName(root) && Follows(rest)
    ensures NextSegment(root + rest, true) == Ok(Step(Name(root), |root|))
  {
    var s := root + rest;
    assert s[0] == root[0] && IsNameChar(root[0]);
    NameLengthIs(root, rest);
    assert s[..|root|] == root;
  }

  /** Parsed segments are printable. */
  lemma {:induction false} ParsedArePrintable(s: string, first: bool)
    requires PathFrom(s, first).Ok?
    ensures AllPrintable(PathFrom(s, first).value)
    decreases |s|
  {
    if s != "" {
      var step := NextSegment(s, first).value;
      StepIsPrintable(s, first);
      ParsedArePrintable(s[step.length..], false);
    }
  }

  lemma StepIsPrintable(s: string, first: bool)
    requires s != "" && NextSegment(s, first).Ok?
    ensures Printable(NextSegment(s, first).value.seg)
  {
    var seg := NextSegment(s, first).value.seg;
    if seg.Quoted? {
      var close := Find(s[1..], ']');
      var inner := s[1..close + 1];
      assert forall k :: 0 <= k < |inner| ==> inner[k] == s[1..][k];
    }
  }

  /** A path with a name as its root reads back exactly when its segments are printable. */
  lemma RootedPathReads(root: string, segs: seq<Segment>)
    requires IsName(root)
    ensures Path(root + PathText(segs)) == Ok([Name(root)] + segs) <==> AllPrintable(segs)
  {
    var rest := PathText(segs);
    PathFollows(segs);
    RootReads(root, rest);
    assert (root + rest)[|root|..] == rest;
    if AllPrintable(segs) {
      PathReads(segs);
    }
    if Path(root + rest) == Ok([Name(root)] + segs) {
      ParsedArePrintable(rest, false);
      var parsed := PathFrom(rest, false).value;
      assert ([Name(root)] + parsed)[1..] == parsed && ([Name(root)] + segs)[1..] == segs;
    }
  }

  // ---- Quotes ----

  ghost predicate QuoteFree(s: string) {
    forall i :: 0 <= i < |s| ==> !IsQuote(s[i])
  }

  ghost predicate Unquoted(segs: seq<Segment>) {
    forall i :: 0 <= i < |segs| && segs[i].Quoted? ==> QuoteFree(segs[i].quoted)
  }

  /** No name holds a `}`, which would end the placeholder. */
  ghost predicate BraceFree(segs: seq<Segment>) {
    forall i :: 0 <= i < |segs| && segs[i].Name? ==> '}' !in segs[i].name
  }

  lemma {:induction false} PlainScans(s: string)
    requires QuoteFree(s) && '}' !in s
    ensures Scans(s)
  {
    if s != "" {
      PlainScans(s[1..]);
    }
  }

  lemma {:induction false} QuotedScans(s: string, q: char)
    requires q !in s
    ensures Scan(s, Some(q)) == Some(Some(q))
  {
    if s != "" {
      QuotedScans(s[1..], q);
    }
  }

  lemma BracketScans(s: string, q: char)
    requires IsQuote(q) && q !in s
    ensures Scans("[" + ([q] + s + [q]) + "]")
  {
    var t := [q] + s + [q];
    ScanJoins("[", t + "]", None);
    ScanJoins([q], s + [q] + "]", None);
    QuotedScans(s, q);
    ScanJoins(s, [q] + "]", Some(q));
    ScanJoins([q], "]", Some(q));
    assert "[" + t + "]" == "[" + (t + "]") && t + "]" == [q] + (s + [q] + "]");
    assert s + [q] + "]" == s + ([q] + "]");
    assert "]"[1..] == "" && [q][1..] == "" && "["[1..] == "";
  }

  lemma {:induction false} QuoteFreeScan(s: string)
    requires QuoteFree(s) && Scan(s, None).Some?
    ensures '}' !in s && Scans(s)
  {
    if s != "" {
      QuoteFreeScan(s[1..]);
      assert s == [s[0]] + s[1..];
    }
  }

  /** Reading one segment whose text has no quotes leaves none open. */
  lemma StepScans(s: string, first: bool)
    requires s != "" && NextSegment(s, first).Ok? && Scan(s, None).Some?
    requires var seg := NextSegment(s, first).value.seg; seg.Quoted? ==> QuoteFree(seg.quoted)
    ensures var step := NextSegment(s, first).value;
      && (step.seg.Name? ==> '}' !in step.seg.name)
      && Scan(s[step.length..], None).Some?
  {
    var step := NextSegment(s, first).value;
    var t, rest := s[..step.length], s[step.length..];
    assert s == t + rest;
    ScanJoins(t, rest, None);
    if step.seg.Quoted? {
      QuotedStep(s, first);
    } else {
      PlainStep(s, first);
      QuoteFreeScan(t);
    }
  }

  lemma QuotedStep(s: string, first: bool)
    requires s != "" && NextSegment(s, first).Ok?
    requires var seg := NextSegment(s, first).value.seg; seg.Quoted? && QuoteFree(seg.quoted)
    ensures Scans(s[..NextSegment(s, first).value.length])
  {
    var close := Find(s[1..], ']');
    var inner := s[1..close + 1];
    var text := inner[1..|inner| - 1];
    BracketScans(text, inner[0]);
    assert inner == [inner[0]] + text + [inner[0]];
    BracketSplits(s, close);
  }

  lemma BracketSplits(s: string, close: nat)
    requires s != "" && s[0] == '[' && close < |s[1..]| && s[1..][close] == ']'
    ensures s[..close + 2] == "[" + s[1..close + 1] + "]"
  {
    assert s[1..][close] == s[close + 1];
  }

  lemma PlainStep(s: string, first: bool)
    requires s != "" && NextSegment(s, first).Ok? && !NextSegment(s, first).value.seg.Quoted?
    ensures var step := NextSegment(s, first).value;
      && QuoteFree(s[..step.length])
      && (step.seg.Name? ==> forall c :: c in step.seg.name ==> c in s[..step.length])
  {
    if s[0] == '[' {
      var close := Find(s[1..], ']');
      var inner := s[1..close + 1];
      IndexIsQuoteFree(inner);
      BracketSplits(s, close);
    }
  }

  lemma IndexIsQuoteFree(inner: string)
    requires ParseIndex(inner).Some?
    ensures QuoteFree(inner)
  {
    if |inner| > 1 && inner[0] == '+' {
      assert inner == "+" + inner[1..];
    }
  }

  /** Names read from a placeholder's body have no `}` when nothing in it is misquoted. */
  lemma {:induction false} ParsedAreBraceFree(s: string, first: bool)
    requires Scan(s, None).Some? && PathFrom(s, first).Ok? && Unquoted(PathFrom(s, first).value)
    ensures BraceFree(PathFrom(s, first).value)
    decreases |s|
  {
    hide NextSegment, Scan;
    if s != "" {
      var step := NextSegment(s, first).value;
      var all, rest := PathFrom(s, first).value, PathFrom(s[step.length..], false).value;
      assert all == [step.seg] + rest;
      assert all[0] == step.seg;
      StepScans(s, first);
      assert forall i :: 0 <= i < |rest| ==> rest[i] == all[i + 1];
      ParsedAreBraceFree(s[step.length..], false);
    }
  }

  // ---- The quote that a printed path leaves open ----

  /** The quote open after a segment is printed, unless the segment ends the placeholder. */
  function OpenAfter(seg: Segment, quote: Option<char>): Option<Option<char>> {
    match seg
    case Name(s) => if quote.None? && '}' in s then None else Some(quote)
    case Quoted(s) =>
      var inside := Scan(s, NextQuote(quote, '\''));
      if inside.None? then None else Some(NextQuote(inside.value, '\''))
    case Index(_) => Some(quote)
  }

  function OpenAfterAll(segs: seq<Segment>, quote: Option<char>): Option<Option<char>> {
    if segs == [] then Some(quote)
    else
      var first := OpenAfter(segs[0], quote);
      if first.None? then None else OpenAfterAll(segs[1..], first.value)
  }

  ghost predicate IsOpen(quote: Option<char>) {
    quote.Some? ==> IsQuote(quote.value)
  }

  lemma {:induction false} ScanStaysOpen(s: string, quote: Option<char>)
    requires IsOpen(quote)
    ensures Scan(s, quote).Some? ==> IsOpen(Scan(s, quote).value)
  {
    if s != "" && !Ends(quote, s[0]) {
      ScanStaysOpen(s[1..], NextQuote(quote, s[0]));
    }
  }

  /** Text without quotes leaves the open quote as it is, and may end the placeholder if none is open. */
  lemma {:induction false} QuoteFreeOpens(s: string, quote: Option<char>)
    requires QuoteFree(s) && IsOpen(quote)
    ensures Scan(s, quote) == if quote.None? && '}' in s then None else Some(quote)
  {
    if s != "" && !Ends(quote, s[0]) {
      QuoteFreeOpens(s[1..], quote);
      assert s == [s[0]] + s[1..];
    }
  }

  lemma ScanOne(c: char, quote: Option<char>)
    requires c != '}'
    ensures Scan([c], quote) == Some(NextQuote(quote, c))
  {
    assert [c][1..] == "";
  }

  lemma BracketOpens(s: string, quote: Option<char>)
    requires IsOpen(quote)
    ensures Scan("['" + s + "']", quote) == OpenAfter(Quoted(s), quote)
  {
    hide Scan;
    var t := "['" + s + "']";
    assert t == ['['] + (['\''] + (s + (['\''] + [']'])));
    ScanJoins(['['], ['\''] + (s + (['\''] + [']'])), quote);
    ScanOne('[', quote);
    ScanJoins(['\''], s + (['\''] + [']']), quote);
    ScanOne('\'', quote);
    var inner := NextQuote(quote, '\'');
    ScanJoins(s, ['\''] + [']'], inner);
    ScanStaysOpen(s, inner);
    if Scan(s, inner).Some? {
      var last := Scan(s, inner).value;
      ScanJoins(['\''], [']'], last);
      ScanOne('\'', last);
      ScanOne(']', NextQuote(last, '\''));
    }
  }

  lemma SegmentOpens(seg: Segment, quote: Option<char>)
    requires Printable(seg) && IsOpen(quote)
    ensures Scan(SegmentText(seg), quote) == OpenAfter(seg, quote)
    ensures OpenAfter(seg, quote).Some? ==> IsOpen(OpenAfter(seg, quote).value)
  {
    hide Scan;
    match seg
    case Name(s) => QuoteFreeOpens("." + s, quote);
    case Quoted(s) =>
      BracketOpens(s, quote);
      ScanStaysOpen(SegmentText(seg), quote);
    case Index(i) =>
      assert forall k :: 0 <= k < |Decimal.Print(i)| ==> Decimal.IsDigit(Decimal.Print(i)[k]);
      QuoteFreeOpens("[" + Decimal.Print(i) + "]", quote);
  }

  lemma {:induction false} PathOpens(segs: seq<Segment>, quote: Option<char>)
    requires AllPrintable(segs) && IsOpen(quote)
    ensures Scan(PathText(segs), quote) == OpenAfterAll(segs, quote)
  {
    hide Scan, OpenAfter, SegmentText;
    if segs == [] {
      EmptyScan(quote);
    } else {
      SegmentOpens(segs[0], quote);
      ScanJoins(SegmentText(segs[0]), PathText(segs[1..]), quote);
      var first := OpenAfter(segs[0], quote);
      if first.Some? {
        PathOpens(segs[1..], first.value);
      }
    }
  }

  lemma EmptyScan(quote: Option<char>)
    ensures Scan("", quote) == Some(quote)
  {
  }

  /** No quoted name holds the quote it is printed in. */
  ghost predicate SingleQuoteFree(segs: seq<Segment>) {
    forall i :: 0 <= i < |segs| && segs[i].Quoted? ==> '\'' !in segs[i].quoted
  }

  /** Segments without single quotes or unquoted braces leave nothing open. */
  lemma {:induction false} PlainCloses(segs: seq<Segment>)
    requires SingleQuoteFree(segs) && BraceFree(segs)
    ensures OpenAfterAll(segs, None) == Some(None)
  {
    if segs != [] {
      if segs[0].Quoted? {
        QuotedScans(segs[0].quoted, '\'');
      }
      PlainCloses(segs[1..]);
    }
  }

  /** Brackets may hold a name in double quotes, and an index with a sign. */
  lemma OtherBracketsRead(s: string, i: nat)
    requires i < USIZE
    ensures BracketSegment("\"" + s + "\"") == Some(Quoted(s))
    ensures BracketSegment("+" + Decimal.Print(i)) == Some(Index(i))
  {
    var inner, signed := "\"" + s + "\"", "+" + Decimal.Print(i);
    assert inner[1..|inner| - 1] == s && signed[1..] == Decimal.Print(i);
  }
}
