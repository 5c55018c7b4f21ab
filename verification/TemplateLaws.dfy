/**
 Printing templates, as workload translation does, and parsing them back.
 */
module TemplateLaws {
  import opened Basics
  import opened Text
  import opened Template

  /** Literal text as it is written in a template. */
  function EscapeLiteral(l: string): string {
    ReplaceAll(l, "${", "$\\{")
  }

  function PrintPart(p: Part): string {
    match p
    case Literal(l) => EscapeLiteral(l)
    case Placeholder(raw) => raw.text
  }

  function Print(parts: seq<Part>): string {
    if parts == [] then "" else PrintPart(parts[0]) + Print(parts[1..])
  }

  /** How a placeholder and an escape start. */
  lemma Openings(s: string)
    ensures StartsWith(s, "${") <==> |s| >= 2 && s[0] == '$' && s[1] == '{'
    ensures StartsWith(s, "$\\{") <==> |s| >= 3 && s[0] == '$' && s[1] == '\\' && s[2] == '{'
  {
    if |s| >= 2 {
      assert s[..2] == [s[0], s[1]] && "${" == ['$', '{'];
    }
    if |s| >= 3 {
      assert s[..3] == [s[0], s[1], s[2]] && "$\\{" == ['$', '\\', '{'];
    }
  }

  // ---- Escaping ----

  lemma EscapeCases(l: string)
    ensures l == "" ==> EscapeLiteral(l) == ""
    ensures StartsWith(l, "${") ==> EscapeLiteral(l) == "$\\{" + EscapeLiteral(l[2..])
    ensures l != "" && !StartsWith(l, "${") ==> EscapeLiteral(l) == [l[0]] + EscapeLiteral(l[1..])
  {
    if |l| == 1 {
      assert l == [l[0]] + l[1..];
    }
  }

  predicate EndsWith(s: string, suffix: string) {
    |s| >= |suffix| && s[|s| - |suffix|..] == suffix
  }

  /** Escaping works piece by piece, unless a `${` lies across the pieces. */
  lemma {:induction false} EscapeJoins(a: string, b: string)
    requires !(EndsWith(a, "$") && StartsWith(b, "{"))
    ensures EscapeLiteral(a + b) == EscapeLiteral(a) + EscapeLiteral(b)
    decreases |a|
  {
    hide EscapeLiteral;
    EscapeCases(a);
    EscapeCases(a + b);
    if a == "" {
      assert a + b == b && "" + EscapeLiteral(b) == EscapeLiteral(b);
    } else if StartsWith(a, "${") {
      assert (a + b)[2..] == a[2..] + b && StartsWith(a + b, "${");
      EscapeJoins(a[2..], b);
      Associative("$\\{", EscapeLiteral(a[2..]), EscapeLiteral(b));
    } else {
      NoStraddle(a, b);
      assert (a + b)[1..] == a[1..] + b && (a + b)[0] == a[0];
      EscapeJoins(a[1..], b);
      Associative([a[0]], EscapeLiteral(a[1..]), EscapeLiteral(b));
    }
  }

  lemma NoStraddle(a: string, b: string)
    requires a != "" && !StartsWith(a, "${") && !(EndsWith(a, "$") && StartsWith(b, "{"))
    ensures !StartsWith(a + b, "${")
  {
    if |a| == 1 {
      assert (a + b)[0] == a[0];
      if a == "$" && b != "" {
        assert (a + b)[1] == b[0] && b[..1] == [b[0]];
      }
    } else {
      assert (a + b)[..2] == a[..2];
    }
  }

  // ---- Parsed literals ----

  /** No `$\{`, which would read as an escape. */
  ghost predicate GoodLiteral(l: string) {
    forall i :: 0 <= i <= |l| - 3 ==> !(l[i] == '$' && l[i + 1] == '\\' && l[i + 2] == '{')
  }

  /** No `${` or `$\{` lies across the end of `lit` and the start of `s`. */
  ghost predicate Joint(lit: string, s: string) {
    && (|lit| > 0 && lit[|lit| - 1] == '$' ==>
      !(|s| > 0 && s[0] == '{') && !(|s| > 1 && s[0] == '\\' && s[1] == '{'))
    && (|lit| > 1 && lit[|lit| - 2] == '$' && lit[|lit| - 1] == '\\' ==> !(|s| > 0 && s[0] == '{'))
  }

  lemma LiteralGrows(lit: string, s: string)
    requires s != "" && GoodLiteral(lit) && Joint(lit, s)
    requires !StartsWith(s, "$\\{") && !StartsWith(s, "${")
    ensures GoodLiteral(lit + [s[0]]) && Joint(lit + [s[0]], s[1..])
    ensures EscapeLiteral(lit + [s[0]]) == EscapeLiteral(lit) + [s[0]]
  {
    var c := s[0];
    Openings(s);
    assert !(EndsWith(lit, "$") && StartsWith([c], "{")) by {
      if EndsWith(lit, "$") { assert lit[|lit| - 1] == '$'; }
      assert [c][..1][0] == c && "{"[0] == '{';
    }
    EscapeJoins(lit, [c]);
    EscapeCases([c]);
    EscapeCases("");
    assert !StartsWith([c], "${");
    assert [c][1..] == "" && [c] + "" == [c];
  }

  lemma LiteralTakesEscape(lit: string)
    requires GoodLiteral(lit)
    ensures GoodLiteral(lit + "${") && forall s :: Joint(lit + "${", s)
    ensures EscapeLiteral(lit + "${") == EscapeLiteral(lit) + "$\\{"
  {
    assert "${"[0] == '$' && "${"[1] == '{';
    assert !StartsWith("${", "{");
    EscapeJoins(lit, "${");
    EscapeCases("${");
    EscapeCases("");
    assert "${"[2..] == "" && "$\\{" + "" == "$\\{";
  }

  // ---- Printing inverts parsing ----

  /** The parts of a parsed string. */
  ghost predicate WellFormed(parts: seq<Part>) {
    forall i :: 0 <= i < |parts| ==> WellFormedAt(parts, i)
  }

  ghost predicate WellFormedAt(parts: seq<Part>, i: nat)
    requires i < |parts|
  {
    match parts[i]
    case Literal(l) => l != "" && GoodLiteral(l) && (i + 1 < |parts| ==> parts[i + 1].Placeholder?)
    case Placeholder(raw) => WellFormedPlaceholder(raw)
  }

  /** The placeholder's text ends where it should, and has these segments. */
  ghost predicate WellFormedPlaceholder(raw: RawPlaceholder) {
    exists body :: raw.text == "${" + body + "}" && Scans(body) && Path(body) == Ok(raw.segments)
  }

  /** The quote state after `b`, unless the placeholder ends inside it. */
  function Scan(b: string, quote: Option<char>): Option<Option<char>> {
    if b == "" then Some(quote)
    else if Ends(quote, b[0]) then None
    else Scan(b[1..], NextQuote(quote, b[0]))
  }

  /** `b` leaves no quote open and has no unquoted `}`. */
  predicate Scans(b: string) { Scan(b, None) == Some(None) }

  lemma {:induction false} ScanJoins(a: string, b: string, quote: Option<char>)
    ensures Scan(a + b, quote) == match Scan(a, quote) case Some(q) => Scan(b, q) case None => None
  {
    if a == "" {
      assert a + b == b;
    } else {
      assert (a + b)[0] == a[0] && (a + b)[1..] == a[1..] + b;
      if !Ends(quote, a[0]) {
        ScanJoins(a[1..], b, NextQuote(quote, a[0]));
      }
    }
  }

  /** A placeholder ends right after `b` exactly when `b` scans. */
  lemma {:induction false} EndAfter(b: string, rest: string, quote: Option<char>)
    ensures EndFrom(b + "}" + rest, quote) == Some(|b|) <==> Scan(b, quote) == Some(None)
  {
    var s := b + "}" + rest;
    if b == "" {
      assert s[0] == '}';
    } else {
      assert s[0] == b[0] && s[1..] == b[1..] + "}" + rest;
      if !Ends(quote, b[0]) {
        EndAfter(b[1..], rest, NextQuote(quote, b[0]));
      }
    }
  }

  lemma {:induction false} EndScans(s: string, quote: Option<char>)
    requires EndFrom(s, quote).Some?
    ensures Scan(s[..EndFrom(s, quote).value], quote) == Some(None)
  {
    var end := EndFrom(s, quote).value;
    if end > 0 {
      EndScans(s[1..], NextQuote(quote, s[0]));
      assert s[..end][0] == s[0] && s[..end][1..] == s[1..][..end - 1];
    }
  }

  lemma PrintFlush(lit: string, rest: seq<Part>)
    ensures Print(Flush(lit) + rest) == EscapeLiteral(lit) + Print(rest)
  {
    hide EscapeLiteral;
    EscapeCases("");
    if lit == "" {
      assert [] + rest == rest && "" + Print(rest) == Print(rest);
    } else {
      assert (Flush(lit) + rest)[0] == Literal(lit) && (Flush(lit) + rest)[1..] == rest;
    }
  }

  lemma PrintFound(lit: string, body: string, segs: seq<Segment>, rest: seq<Part>)
    ensures Print(Found(lit, body, segs) + rest) == EscapeLiteral(lit) + ("${" + (body + "}" + Print(rest)))
  {
    hide EscapeLiteral;
    var p := Placeholder(RawPlaceholder("${" + body + "}", segs));
    assert Found(lit, body, segs) + rest == Flush(lit) + ([p] + rest);
    PrintFlush(lit, [p] + rest);
    assert ([p] + rest)[0] == p && ([p] + rest)[1..] == rest;
    assert ("${" + body + "}") + Print(rest) == "${" + (body + "}" + Print(rest));
  }

  lemma WellFormedJoins(a: seq<Part>, b: seq<Part>)
    requires WellFormed(a) && WellFormed(b)
    requires a == [] || a[|a| - 1].Placeholder?
    ensures WellFormed(a + b)
  {
    forall i | 0 <= i < |a + b| ensures WellFormedAt(a + b, i) {
      if i < |a| {
        assert WellFormedAt(a, i) && (a + b)[i] == a[i];
        assert i + 1 < |a| ==> (a + b)[i + 1] == a[i + 1];
      } else {
        assert WellFormedAt(b, i - |a|) && (a + b)[i] == b[i - |a|];
        assert i + 1 < |a + b| ==> (a + b)[i + 1] == b[i + 1 - |a|];
      }
    }
  }

  lemma FoundIsWellFormed(lit: string, tail: string, segs: seq<Segment>)
    requires GoodLiteral(lit) && PlaceholderEnd(tail).Some?
    requires Path(tail[..PlaceholderEnd(tail).value]) == Ok(segs)
    ensures WellFormed(Found(lit, tail[..PlaceholderEnd(tail).value], segs))
  {
    hide Path, GoodLiteral;
    var body := tail[..PlaceholderEnd(tail).value];
    EndScans(tail, None);
    var raw := RawPlaceholder("${" + body + "}", segs);
    assert WellFormedPlaceholder(raw);
    var f := Found(lit, body, segs);
    forall i | 0 <= i < |f| ensures WellFormedAt(f, i) {
      assert f[|f| - 1] == Placeholder(raw);
    }
  }

  /** Parsing keeps the text: the parts print back to what was parsed. */
  lemma {:induction false} PartsPrintBack(s: string, lit: string, parts: seq<Part>)
    requires GoodLiteral(lit) && Joint(lit, s) && PartsFrom(s, lit) == Ok(parts)
    ensures Print(parts) == EscapeLiteral(lit) + s
    ensures WellFormed(parts)
    decreases |s|
  {
    hide EscapeLiteral, GoodLiteral, Joint, PlaceholderFrom;
    if s == "" {
      PrintFlush(lit, []);
      assert Flush(lit) + [] == Flush(lit);
    } else if StartsWith(s, "$\\{") {
      LiteralTakesEscape(lit);
      PartsPrintBack(s[3..], lit + "${", parts);
      assert s == "$\\{" + s[3..];
      Associative(EscapeLiteral(lit), "$\\{", s[3..]);
    } else if StartsWith(s, "${") {
      PlaceholderPrintsBack(s[2..], lit, parts);
      assert s == "${" + s[2..];
    } else {
      LiteralGrows(lit, s);
      PartsPrintBack(s[1..], lit + [s[0]], parts);
      assert s == [s[0]] + s[1..];
      Associative(EscapeLiteral(lit), [s[0]], s[1..]);
    }
  }

  lemma {:induction false} PlaceholderPrintsBack(tail: string, lit: string, parts: seq<Part>)
    requires GoodLiteral(lit) && PlaceholderFrom(tail, lit) == Ok(parts)
    ensures Print(parts) == EscapeLiteral(lit) + ("${" + tail)
    ensures WellFormed(parts)
    decreases |tail|
  {
    hide EscapeLiteral, PartsFrom, Path, WellFormed, GoodLiteral, Found, PlaceholderEnd, Print;
    var end := PlaceholderEnd(tail).value;
    var body := tail[..end];
    var segs := Path(body).value;
    var rest := PartsFrom(tail[end + 1..], "").value;
    NothingIsGood(tail[end + 1..]);
    PartsPrintBack(tail[end + 1..], "", rest);
    EscapeCases("");
    assert "" + tail[end + 1..] == tail[end + 1..];
    PrintFound(lit, body, segs, rest);
    assert tail == body + "}" + tail[end + 1..];
    FoundIsWellFormed(lit, tail, segs);
    FoundEnds(lit, body, segs);
    WellFormedJoins(Found(lit, body, segs), rest);
  }

  lemma NothingIsGood(s: string)
    ensures GoodLiteral("") && Joint("", s)
  {
  }

  lemma FoundEnds(lit: string, body: string, segs: seq<Segment>)
    ensures var f := Found(lit, body, segs); f != [] && f[|f| - 1].Placeholder?
  {
  }

  /** The parts of any string that parses print back to that string. */
  lemma PrintInvertsParse(s: string)
    requires Parse(s).Ok?
    ensures Print(Parse(s).value) == s
    ensures WellFormed(Parse(s).value)
  {
    PartsPrintBack(s, "", Parse(s).value);
    EscapeCases("");
    assert "" + s == s;
  }

  // ---- Parsing inverts printing ----

  lemma {:induction false} LiteralIsRead(l: string, rest: string, lit: string)
    requires GoodLiteral(l) && (rest == "" || StartsWith(rest, "${"))
    ensures PartsFrom(EscapeLiteral(l) + rest, lit) == PartsFrom(rest, lit + l)
    decreases |l|
  {
    hide PartsFrom, EscapeLiteral;
    EscapeCases(l);
    var s := EscapeLiteral(l) + rest;
    if l == "" {
      assert s == rest && lit + l == lit;
    } else if StartsWith(l, "${") {
      assert s == "$\\{" + (EscapeLiteral(l[2..]) + rest);
      assert s[..3] == "$\\{" && s[3..] == EscapeLiteral(l[2..]) + rest;
      DollarCases(s, lit);
      assert GoodLiteral(l[2..]);
      LiteralIsRead(l[2..], rest, lit + "${");
      assert l == "${" + l[2..];
      Associative(lit, "${", l[2..]);
    } else {
      assert s == [l[0]] + (EscapeLiteral(l[1..]) + rest);
      assert s[0] == l[0] && s[1..] == EscapeLiteral(l[1..]) + rest;
      NoPlaceholderHere(l, rest);
      DollarCases(s, lit);
      assert GoodLiteral(l[1..]);
      LiteralIsRead(l[1..], rest, lit + [l[0]]);
      assert l == [l[0]] + l[1..];
      Associative(lit, [l[0]], l[1..]);
    }
  }

  lemma NoPlaceholderHere(l: string, rest: string)
    requires l != "" && GoodLiteral(l) && !StartsWith(l, "${") && (rest == "" || StartsWith(rest, "${"))
    ensures !StartsWith(EscapeLiteral(l) + rest, "${") && !StartsWith(EscapeLiteral(l) + rest, "$\\{")
  {
    hide EscapeLiteral;
    Openings(l);
    Openings(rest);
    var e := EscapeLiteral(l);
    EscapeStart(l);
    Openings(e + rest);
    assert forall i :: 0 <= i < |e| ==> (e + rest)[i] == e[i];
    assert rest != "" ==> (e + rest)[|e|] == '$';
  }

  /** An escaped literal starts like the literal, up to the first `$`. */
  lemma EscapeStart(l: string)
    requires l != "" && !StartsWith(l, "${")
    ensures var e := EscapeLiteral(l);
      && e != "" && e[0] == l[0]
      && (|l| == 1 <==> |e| == 1)
      && (|l| > 1 ==> e[1] == l[1])
      && (|l| > 1 && l[1] != '$' ==> (|l| == 2 <==> |e| == 2))
      && (|l| > 2 && l[1] != '$' ==> e[2] == l[2])
  {
    EscapeCases(l);
    if |l| > 1 {
      var m := l[1..];
      Openings(m);
      EscapeCases(m);
      if |m| > 1 && m[0] != '$' {
        Openings(m[1..]);
        EscapeCases(m[1..]);
      } else {
        EscapeCases("");
      }
    } else {
      EscapeCases("");
      assert l[1..] == "";
    }
  }

  lemma PrintStart(parts: seq<Part>)
    requires WellFormed(parts) && parts != [] && parts[0].Placeholder?
    ensures StartsWith(Print(parts), "${")
  {
    assert WellFormedAt(parts, 0);
    var body :| parts[0].raw.text == "${" + body + "}";
    assert (parts[0].raw.text + Print(parts[1..]))[..2] == "${";
  }

  lemma WellFormedTail(parts: seq<Part>)
    requires WellFormed(parts) && parts != []
    ensures WellFormed(parts[1..])
  {
    forall i | 0 <= i < |parts[1..]| ensures WellFormedAt(parts[1..], i) {
      assert WellFormedAt(parts, i + 1);
    }
  }

  /** After literal text `lit`, parts that start with a placeholder read back. */
  lemma {:induction false} PlaceholderIsRead(parts: seq<Part>, lit: string)
    requires WellFormed(parts) && parts != [] && parts[0].Placeholder?
    requires Parse(Print(parts[1..])) == Ok(parts[1..])
    ensures PartsFrom(Print(parts), lit) == Ok(Flush(lit) + parts)
  {
    hide PartsFrom, PlaceholderFrom, Path, Scan, Print, EscapeLiteral;
    assert WellFormedAt(parts, 0);
    var raw := parts[0].raw;
    var body :| raw.text == "${" + body + "}" && Scans(body) && Path(body) == Ok(raw.segments);
    var rest := Print(parts[1..]);
    var tail := body + "}" + rest;
    PrintPlaceholder(parts, body);
    PrintStart(parts);
    DollarCases(Print(parts), lit);
    BodyIsRead(body, rest, lit, raw.segments);
    assert parts == [parts[0]] + parts[1..];
    Associative(Flush(lit), [parts[0]], parts[1..]);
  }

  lemma PrintPlaceholder(parts: seq<Part>, body: string)
    requires parts != [] && parts[0].Placeholder? && parts[0].raw.text == "${" + body + "}"
    ensures Print(parts)[2..] == body + "}" + Print(parts[1..]) && |Print(parts)| > 2
  {
    var rest := Print(parts[1..]);
    assert Print(parts) == "${" + body + "}" + rest;
    hide Print;
    Associative("${", body, "}");
    Associative("${", body + "}", rest);
    DropOpening(body + "}" + rest);
  }

  lemma DropOpening(s: string)
    ensures ("${" + s)[2..] == s
  {
  }

  lemma BodyIsRead(body: string, rest: string, lit: string, segs: seq<Segment>)
    requires Scans(body) && Path(body) == Ok(segs)
    ensures PlaceholderFrom(body + "}" + rest, lit) == Append(Found(lit, body, segs), PartsFrom(rest, ""))
  {
    hide PartsFrom, Path, Scan;
    var tail := body + "}" + rest;
    EndAfter(body, rest, None);
    assert tail[..|body|] == body && tail[|body| + 1..] == rest;
  }

  /** Well-formed parts read back as they were printed. */
  lemma {:induction false} ParseInvertsPrint(parts: seq<Part>)
    requires WellFormed(parts)
    ensures Parse(Print(parts)) == Ok(parts)
    decreases |parts|, 1
  {
    if parts != [] {
      WellFormedTail(parts);
      if parts[0].Placeholder? {
        ParseInvertsPrint(parts[1..]);
        PlaceholderIsRead(parts, "");
        assert Flush("") + parts == parts;
      } else {
        LiteralFirst(parts);
      }
    }
  }

  lemma {:induction false} LiteralFirst(parts: seq<Part>)
    requires WellFormed(parts) && parts != [] && parts[0].Literal?
    ensures Parse(Print(parts)) == Ok(parts)
    decreases |parts|, 0
  {
    hide PartsFrom, EscapeLiteral, GoodLiteral;
    assert WellFormedAt(parts, 0);
    var l, rest := parts[0].text, parts[1..];
    WellFormedTail(parts);
    if rest == [] {
      assert Print(parts) == EscapeLiteral(l) + "";
      LiteralIsRead(l, "", "");
      EmptyRest(l);
      assert "" + l == l && parts == [Literal(l)];
    } else {
      PrintStart(rest);
      LiteralIsRead(l, Print(rest), "");
      assert "" + l == l;
      WellFormedTail(rest);
      ParseInvertsPrint(rest[1..]);
      PlaceholderIsRead(rest, l);
      assert parts == Flush(l) + rest;
    }
  }

  lemma EmptyRest(lit: string)
    ensures PartsFrom("", lit) == Ok(Flush(lit))
  {
  }

  // ---- What ends a placeholder, and what escapes one ----

  /** Without quotes, a placeholder ends at the first `}`. */
  lemma {:induction false} EndIs(s: string, t: string)
    requires '}' !in s && '\'' !in s && '"' !in s
    ensures PlaceholderEnd(s + "}" + t) == Some(|s|)
  {
    var all := s + "}" + t;
    if s != "" {
      EndIs(s[1..], t);
      assert all[1..] == s[1..] + "}" + t;
    }
  }

  lemma {:induction false} QuoteIsSkipped(inner: string, q: char, t: string)
    requires q !in inner
    ensures EndFrom(inner + [q] + t, Some(q)) ==
      var rest := EndFrom(t, None); if rest.Some? then Some(rest.value + |inner| + 1) else None
  {
    var all := inner + [q] + t;
    if inner == "" {
      assert all[1..] == t;
    } else {
      QuoteIsSkipped(inner[1..], q, t);
      assert all[1..] == inner[1..] + [q] + t;
    }
  }

  /** A `}` between quotes of either kind does not end it. */
  lemma {:induction false} QuotedEndIs(s: string, q: char, inner: string, t: string)
    requires '}' !in s && '\'' !in s && '"' !in s && (q == '\'' || q == '"') && q !in inner
    ensures PlaceholderEnd(s + [q] + (inner + [q] + ("}" + t))) == Some(|s| + |inner| + 2)
  {
    var tail := inner + [q] + ("}" + t);
    var all := s + [q] + tail;
    if s == "" {
      assert all[1..] == tail;
      QuoteIsSkipped(inner, q, "}" + t);
    } else {
      QuotedEndIs(s[1..], q, inner, t);
      assert all[1..] == s[1..] + [q] + tail;
    }
  }

  /** Text without a dollar sign is itself, and an escaped placeholder is the text of the placeholder. */
  lemma LiteralTexts(a: string, b: string)
    requires '$' !in a && '$' !in b
    ensures a != "" ==> Parse(a) == Ok([Literal(a)])
    ensures Parse(a + "$\\{" + b) == Ok([Literal(a + "${" + b)])
  {
    hide Parse, EscapeLiteral;
    var l := a + "${" + b;
    PlainStays(a);
    PlainStays(b);
    Openings("${" + b);
    EscapeCases("${" + b);
    assert ("${" + b)[2..] == b;
    EscapeJoins(a, "${" + b);
    assert a + ("${" + b) == l && a + ("$\\{" + b) == a + "$\\{" + b;
    OneLiteral(l);
    if a != "" {
      OneLiteral(a);
    }
  }

  lemma OneLiteral(l: string)
    requires l != "" && GoodLiteral(l)
    ensures Parse(EscapeLiteral(l)) == Ok([Literal(l)])
  {
    hide Parse, EscapeLiteral;
    var parts := [Literal(l)];
    assert WellFormedAt(parts, 0);
    ParseInvertsPrint(parts);
    assert parts[1..] == [] && Print(parts) == EscapeLiteral(l) + "" == EscapeLiteral(l);
  }

  lemma {:induction false} PlainStays(l: string)
    requires '$' !in l
    ensures EscapeLiteral(l) == l
  {
    hide EscapeLiteral;
    EscapeCases(l);
    if l != "" {
      Openings(l);
      PlainStays(l[1..]);
      assert l == [l[0]] + l[1..];
    }
  }
}
