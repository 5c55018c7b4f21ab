/**
 The redaction layer: `crates/core/src/redact.rs`.

 Texts are sequences of characters. The source's byte offsets always fall on
 character boundaries, so offsets here count characters.
 */
module Redact {
  import opened Basics
  import opened Text
  import Canonical

  const REDACTED := "[REDACTED]"

  /** How often redacted text is gone over again. */
  const PASSES: nat := 8

  // ---- Occurrences ----

  predicate OccursAt(text: string, form: string, i: nat) {
    i + |form| <= |text| && text[i..i + |form|] == form
  }

  predicate Contains(text: string, form: string) {
    exists i :: 0 <= i <= |text| && OccursAt(text, form, i)
  }

  /** No form occurs in `text`. */
  ghost predicate Clean(forms: seq<string>, text: string) {
    forall f :: f in forms ==> !Contains(text, f)
  }

  ghost predicate NonEmpty(forms: seq<string>) {
    forall f :: f in forms ==> f != ""
  }

  /** Whether an occurrence of a form covers position `p`. */
  ghost predicate Covered(forms: seq<string>, text: string, p: int) {
    exists f, i :: f in forms && CoveredBy(text, f, i, p)
  }

  ghost predicate CoveredBy(text: string, f: string, i: nat, p: int) {
    OccursAt(text, f, i) && i <= p < i + |f|
  }

  // ---- One pass ----

  /**
   The first `n` characters of `text` with every maximal covered run replaced
   by one marker.
   */
  ghost function PassTo(forms: seq<string>, text: string, marker: string, n: nat): string
    requires n <= |text|
  {
    if n == 0 then ""
    else if !Covered(forms, text, n - 1) then PassTo(forms, text, marker, n - 1) + [text[n - 1]]
    else if n == 1 || !Covered(forms, text, n - 2) then PassTo(forms, text, marker, n - 1) + marker
    else PassTo(forms, text, marker, n - 1)
  }

  ghost function Pass(forms: seq<string>, text: string, marker: string): string {
    PassTo(forms, text, marker, |text|)
  }

  lemma {:induction false} UncoveredRun(forms: seq<string>, text: string, marker: string, a: nat, b: nat)
    requires a <= b <= |text|
    requires forall p :: a <= p < b ==> !Covered(forms, text, p)
    ensures PassTo(forms, text, marker, b) == PassTo(forms, text, marker, a) + text[a..b]
  {
    if a < b {
      UncoveredRun(forms, text, marker, a, b - 1);
      assert text[a..b] == text[a..b - 1] + [text[b - 1]];
    } else {
      assert text[a..b] == "";
    }
  }

  lemma {:induction false} CoveredRun(forms: seq<string>, text: string, marker: string, a: nat, b: nat)
    requires a < b <= |text|
    requires forall p :: a <= p < b ==> Covered(forms, text, p)
    requires a == 0 || !Covered(forms, text, a - 1)
    ensures PassTo(forms, text, marker, b) == PassTo(forms, text, marker, a) + marker
  {
    if a < b - 1 {
      CoveredRun(forms, text, marker, a, b - 1);
    }
  }

  // ---- Finding every occurrence ----

  /** A match: where it starts and ends. */
  datatype Range = Range(start: nat, end: nat)

  ghost predicate IsMatch(forms: seq<string>, text: string, r: Range) {
    exists f :: f in forms && OccursAt(text, f, r.start) && r.end == r.start + |f|
  }

  predicate Before(a: Range, b: Range) {
    a.start < b.start || (a.start == b.start && a.end <= b.end)
  }

  ghost predicate SortedRanges(rs: seq<Range>) {
    forall i, j :: 0 <= i < j < |rs| ==> rs[i].start <= rs[j].start
  }

  function Insert(r: Range, rs: seq<Range>): (s: seq<Range>)
    ensures forall x :: x in s <==> x == r || x in rs
    ensures |s| == |rs| + 1
  {
    if rs == [] then [r]
    else if Before(r, rs[0]) then [r] + rs
    else [rs[0]] + Insert(r, rs[1..])
  }

  function Sort(rs: seq<Range>): (s: seq<Range>)
    ensures forall x :: x in s <==> x in rs
    ensures |s| == |rs|
  {
    if rs == [] then [] else Insert(rs[0], Sort(rs[1..]))
  }

  lemma {:induction false} InsertKeepsSorted(r: Range, rs: seq<Range>)
    requires SortedRanges(rs)
    ensures SortedRanges(Insert(r, rs))
  {
    if rs != [] && !Before(r, rs[0]) {
      InsertKeepsSorted(r, rs[1..]);
      var rest := Insert(r, rs[1..]);
      forall x | x in rest ensures rs[0].start <= x.start {
        if x != r {
          var k :| 0 <= k < |rs[1..]| && rs[1..][k] == x;
          assert rs[k + 1] == x;
        }
      }
      assert forall i :: 0 <= i < |rest| ==> rest[i] in rest;
    }
  }

  lemma {:induction false} SortIsSorted(rs: seq<Range>)
    ensures SortedRanges(Sort(rs))
  {
    if rs != [] {
      SortIsSorted(rs[1..]);
      InsertKeepsSorted(rs[0], Sort(rs[1..]));
    }
  }

  /** `r` is the first occurrence of `form` at or after `from`, if there is one. */
  ghost predicate IsFirst(text: string, form: string, from: nat, r: Option<nat>) {
    match r
    case Some(k) =>
      from <= k && OccursAt(text, form, k) && forall i: nat :: from <= i < k ==> !OccursAt(text, form, i)
    case None => forall i: nat :: from <= i ==> !OccursAt(text, form, i)
  }

  method FindFrom(text: string, form: string, from: nat) returns (r: Option<nat>)
    requires from <= |text|
    ensures IsFirst(text, form, from, r)
  {
    var i := from;
    while i + |form| <= |text|
      invariant from <= i
      invariant forall k: nat :: from <= k < i ==> !OccursAt(text, form, k)
    {
      if text[i..i + |form|] == form {
        return Some(i);
      }
      i := i + 1;
    }
    return None;
  }

  /** Every occurrence of one form, overlapping ones included. */
  method Occurrences(text: string, form: string) returns (found: seq<Range>)
    requires form != ""
    ensures forall r :: r in found <==> OccursAt(text, form, r.start) && r.end == r.start + |form|
  {
    found := [];
    var from := 0;
    var next := FindFrom(text, form, from);
    while next.Some?
      invariant from <= |text| && IsFirst(text, form, from, next)
      invariant forall r :: r in found <==>
        OccursAt(text, form, r.start) && r.end == r.start + |form| && r.start < from
      decreases |text| - from
    {
      var start := next.value;
      found := found + [Range(start, start + |form|)];
      from := start + 1;
      next := FindFrom(text, form, from);
    }
  }

  // ---- Merging matches ----

  /** `ranges` holds exactly the matches. */
  ghost predicate AllMatches(forms: seq<string>, text: string, ranges: seq<Range>) {
    forall r :: r in ranges <==> IsMatch(forms, text, r)
  }

  ghost predicate InRange(ranges: seq<Range>, j: int, p: int) {
    0 <= j < |ranges| && ranges[j].start <= p < ranges[j].end
  }

  ghost predicate InSome(ranges: seq<Range>, p: int) {
    exists j :: InRange(ranges, j, p)
  }

  lemma RangeIsCovered(ranges: seq<Range>, j: nat)
    requires j < |ranges|
    ensures forall p :: ranges[j].start <= p < ranges[j].end ==> InSome(ranges, p)
  {
    forall p | ranges[j].start <= p < ranges[j].end ensures InSome(ranges, p) {
      assert InRange(ranges, j, p);
    }
  }

  /** A position is covered when a match holds it. */
  lemma CoveredByRange(forms: seq<string>, text: string, ranges: seq<Range>, p: int)
    requires AllMatches(forms, text, ranges)
    ensures Covered(forms, text, p) <==> InSome(ranges, p)
  {
    if Covered(forms, text, p) {
      var f, i: nat :| f in forms && CoveredBy(text, f, i, p);
      var r := Range(i, i + |f|);
      assert IsMatch(forms, text, r);
      var j :| 0 <= j < |ranges| && ranges[j] == r;
      assert InRange(ranges, j, p);
    }
    if InSome(ranges, p) {
      var j :| InRange(ranges, j, p);
      assert IsMatch(forms, text, ranges[j]);
      var f :| f in forms && OccursAt(text, f, ranges[j].start) && ranges[j].end == ranges[j].start + |f|;
      assert CoveredBy(text, f, ranges[j].start, p);
    }
  }

  /** Nothing before the next match, and after all earlier ones, is covered. */
  lemma GapIsUncovered(forms: seq<string>, text: string, ranges: seq<Range>, i: nat, p: int)
    requires AllMatches(forms, text, ranges) && SortedRanges(ranges) && i <= |ranges|
    requires forall j :: 0 <= j < i ==> ranges[j].end <= p
    requires i < |ranges| ==> p < ranges[i].start
    ensures !Covered(forms, text, p)
  {
    CoveredByRange(forms, text, ranges, p);
  }

  lemma MatchIsInside(forms: seq<string>, text: string, r: Range)
    requires IsMatch(forms, text, r) && NonEmpty(forms)
    ensures r.start < r.end <= |text|
  {
  }

  /** `text` with each run of overlapping or adjacent matches replaced by `marker`. */
  method Merge(text: string, marker: string, ranges: seq<Range>, ghost forms: seq<string>) returns (out: string)
    requires NonEmpty(forms) && AllMatches(forms, text, ranges) && SortedRanges(ranges)
    ensures out == Pass(forms, text, marker)
  {
    hide Covered, IsMatch, AllMatches;
    out := "";
    var at: nat := 0;
    var i: nat := 0;
    while i < |ranges|
      invariant 0 <= i <= |ranges| && at <= |text|
      invariant out == PassTo(forms, text, marker, at)
      invariant forall j :: 0 <= j < i ==> ranges[j].end <= at
      invariant i == 0 ==> at == 0
      invariant 0 < i < |ranges| ==> at < ranges[i].start
    {
      ghost var first := i;
      var start, end := ranges[i].start, ranges[i].end;
      RangeIsInside(forms, text, ranges, i);
      RangeIsCovered(ranges, i);
      while i + 1 < |ranges| && ranges[i + 1].start <= end
        invariant first <= i < |ranges| && start < end <= |text|
        invariant forall j :: 0 <= j <= i ==> ranges[j].end <= end
        invariant forall p :: start <= p < end ==> InSome(ranges, p)
        decreases |ranges| - i
      {
        i := i + 1;
        RangeIsInside(forms, text, ranges, i);
        RangeIsCovered(ranges, i);
        if ranges[i].end > end {
          end := ranges[i].end;
        }
      }
      RunReplaced(forms, text, marker, ranges, first, at, end);
      out := out + text[at..start] + marker;
      at := end;
      i := i + 1;
    }
    forall p | at <= p < |text| ensures !Covered(forms, text, p) {
      GapIsUncovered(forms, text, ranges, i, p);
    }
    UncoveredRun(forms, text, marker, at, |text|);
    out := out + text[at..];
  }

  lemma RangeIsInside(forms: seq<string>, text: string, ranges: seq<Range>, i: nat)
    requires NonEmpty(forms) && AllMatches(forms, text, ranges) && i < |ranges|
    ensures ranges[i].start < ranges[i].end <= |text|
  {
    assert ranges[i] in ranges;
    MatchIsInside(forms, text, ranges[i]);
  }

  /** One turn of the merging loop: the gap is kept, the run is replaced. */
  lemma RunReplaced(forms: seq<string>, text: string, marker: string, ranges: seq<Range>, first: nat, at: nat, end: nat)
    requires AllMatches(forms, text, ranges) && SortedRanges(ranges) && first < |ranges|
    requires at <= ranges[first].start < end <= |text|
    requires forall j :: 0 <= j < first ==> ranges[j].end <= at
    requires at == 0 || at < ranges[first].start
    requires forall p :: ranges[first].start <= p < end ==> InSome(ranges, p)
    ensures PassTo(forms, text, marker, end)
      == PassTo(forms, text, marker, at) + text[at..ranges[first].start] + marker
  {
    hide Covered, AllMatches;
    var start := ranges[first].start;
    forall p | at <= p < start ensures !Covered(forms, text, p) {
      GapIsUncovered(forms, text, ranges, first, p);
    }
    UncoveredRun(forms, text, marker, at, start);
    forall p | start <= p < end ensures Covered(forms, text, p) {
      CoveredByRange(forms, text, ranges, p);
    }
    CoveredRun(forms, text, marker, start, end);
  }

  // ---- The whole redaction ----

  ghost function MarkerFor(forms: seq<string>): string {
    if Clean(forms, REDACTED) then REDACTED else ""
  }

  /** Repeats passes until the text is clean, at most `n` times, then gives up. */
  ghost function Settle(forms: seq<string>, text: string, marker: string, n: nat): string
    decreases n
  {
    if n == 0 then marker
    else if Clean(forms, text) then text
    else Settle(forms, Pass(forms, text, marker), marker, n - 1)
  }

  ghost function Redacted(forms: seq<string>, text: string): string {
    if Clean(forms, text) then text
    else Settle(forms, Pass(forms, text, MarkerFor(forms)), MarkerFor(forms), PASSES)
  }

  lemma MarkerIsClean(forms: seq<string>)
    requires NonEmpty(forms)
    ensures Clean(forms, MarkerFor(forms))
  {
  }

  lemma {:induction false} SettleIsClean(forms: seq<string>, text: string, marker: string, n: nat)
    requires Clean(forms, marker)
    ensures Clean(forms, Settle(forms, text, marker, n))
    decreases n
  {
    if n > 0 && !Clean(forms, text) {
      SettleIsClean(forms, Pass(forms, text, marker), marker, n - 1);
    }
  }

  /** No known form is left in redacted text. */
  lemma RedactedIsClean(forms: seq<string>, text: string)
    requires NonEmpty(forms)
    ensures Clean(forms, Redacted(forms, text))
  {
    MarkerIsClean(forms);
    SettleIsClean(forms, Pass(forms, text, MarkerFor(forms)), MarkerFor(forms), PASSES);
  }

  /** Redacting twice changes nothing, and clean text is not touched. */
  lemma RedactIsIdempotent(forms: seq<string>, text: string)
    requires NonEmpty(forms)
    ensures Redacted(forms, Redacted(forms, text)) == Redacted(forms, text)
    ensures Clean(forms, text) <==> Redacted(forms, text) == text
  {
    RedactedIsClean(forms, text);
  }

  /** The characters of the first `n` that no occurrence covers. */
  ghost function Kept(forms: seq<string>, text: string, n: nat): string
    requires n <= |text|
  {
    if n == 0 then ""
    else Kept(forms, text, n - 1) + (if Covered(forms, text, n - 1) then "" else [text[n - 1]])
  }

  /** How many maximal covered runs start in the first `n` characters. */
  ghost function Runs(forms: seq<string>, text: string, n: nat): nat
    requires n <= |text|
  {
    if n == 0 then 0
    else if Covered(forms, text, n - 1) && (n == 1 || !Covered(forms, text, n - 2)) then
      Runs(forms, text, n - 1) + 1
    else Runs(forms, text, n - 1)
  }

  /** A pass keeps exactly the uncovered characters and adds one marker for each run. */
  lemma {:induction false} PassKeepsUncovered(forms: seq<string>, text: string, marker: string, n: nat)
    requires n <= |text|
    ensures PassTo(forms, text, "", n) == Kept(forms, text, n)
    ensures |PassTo(forms, text, marker, n)|
      == |Kept(forms, text, n)| + Runs(forms, text, n) * |marker|
  {
    if n > 0 {
      PassKeepsUncovered(forms, text, marker, n - 1);
      assert (Runs(forms, text, n - 1) + 1) * |marker| == Runs(forms, text, n - 1) * |marker| + |marker|;
    }
  }

  // ---- Forms of a value ----

  function GoEscape(json: string): string {
    var a := ReplaceAll(json, "<", "\\u003c");
    var b := ReplaceAll(a, ">", "\\u003e");
    var c := ReplaceAll(b, "&", "\\u0026");
    var d := ReplaceAll(c, "\U{2028}", "\\u2028");
    ReplaceAll(d, "\U{2029}", "\\u2029")
  }

  function HclEscape(s: string): string {
    ReplaceAll(ReplaceAll(s, "${", "$${"), "%{", "%%{")
  }

  /** The forms a secret takes in JSON and HCL output, and the secret itself. */
  function FormsOf(v: string): seq<string> {
    var json := Canonical.Escape(v);
    var go := GoEscape(json);
    [HclEscape(json), HclEscape(go), json, go, v]
  }

  lemma EscapeIsNonEmpty(v: string)
    requires v != ""
    ensures Canonical.Escape(v) != ""
  {
  }

  lemma FormsAreNonEmpty(v: string)
    requires v != ""
    ensures NonEmpty(FormsOf(v))
  {
    EscapeIsNonEmpty(v);
  }

  /** What to look for in text: the forms of the secrets added so far. */
  class Redactor {
    /** Every form of every value, each once. */
    var forms: seq<string>

    ghost predicate Valid()
      reads this
    {
      NonEmpty(forms) && forall i, j :: 0 <= i < j < |forms| ==> forms[i] != forms[j]
    }

    constructor ()
      ensures Valid() && forms == []
    {
      forms := [];
    }

    /** Adds values to redact. Empty values are skipped. */
    method Add(values: seq<string>)
      requires Valid()
      modifies this
      ensures Valid()
      ensures forall f :: f in forms <==>
        f in old(forms) || exists v :: v in values && v != "" && f in FormsOf(v)
    {
      for i := 0 to |values|
        invariant Valid()
        invariant forall f :: f in forms <==>
          f in old(forms) || exists v :: v in values[..i] && v != "" && f in FormsOf(v)
      {
        assert values[..i + 1] == values[..i] + [values[i]];
        if values[i] != "" {
          FormsAreNonEmpty(values[i]);
          forms := Merged(forms, FormsOf(values[i]));
        }
      }
      assert values[..|values|] == values;
    }

    /** `text` with every match replaced by `marker`, or `None` if nothing matches. */
    method RunPass(text: string, marker: string) returns (r: Option<string>)
      requires Valid()
      ensures r.None? <==> Clean(forms, text)
      ensures r.Some? ==> r.value == Pass(forms, text, marker)
    {
      var ranges: seq<Range> := [];
      for k := 0 to |forms|
        invariant AllMatches(forms[..k], text, ranges)
      {
        assert forms[k] in forms;
        var found := Occurrences(text, forms[k]);
        MatchesOfOneMore(forms, text, ranges, found, k);
        ranges := ranges + found;
      }
      assert forms[..|forms|] == forms;
      NoMatchIffClean(forms, text, ranges);
      if ranges == [] {
        return None;
      }
      SortIsSorted(ranges);
      var out := Merge(text, marker, Sort(ranges), forms);
      return Some(out);
    }

    /** What occurrences are replaced with: nothing, if the usual text would hold a form. */
    method Marker() returns (marker: string)
      ensures marker == MarkerFor(forms)
    {
      marker := if forall f :: f in forms ==> !Contains(REDACTED, f) then REDACTED else "";
    }

    /** `text` with every known value replaced by the marker, or removed. */
    method Redact(text: string) returns (r: string)
      requires Valid()
      ensures r == Redacted(forms, text)
      ensures Clean(forms, r)
    {
      hide Contains, Pass, Clean, NonEmpty;
      var marker := Marker();
      RedactedIsClean(forms, text);
      var first := RunPass(text, marker);
      if first.None? {
        return text;
      }
      var out := first.value;
      for i := 0 to PASSES
        invariant Redacted(forms, text) == Settle(forms, out, marker, PASSES - i)
      {
        var next := RunPass(out, marker);
        match next
        case Some(s) => out := s;
        case None => return out;
      }
      return marker;
    }
  }

  /** `forms` and `more` without repetition. */
  function Merged(forms: seq<string>, more: seq<string>): (r: seq<string>)
    ensures forall f :: f in r <==> f in forms || f in more
    ensures (forall i, j :: 0 <= i < j < |forms| ==> forms[i] != forms[j])
      ==> (forall i, j :: 0 <= i < j < |r| ==> r[i] != r[j])
    decreases more
  {
    if more == [] then forms
    else if more[0] in forms then Merged(forms, more[1..])
    else Merged(forms + [more[0]], more[1..])
  }

  lemma MatchesOfOneMore(forms: seq<string>, text: string, ranges: seq<Range>, found: seq<Range>, k: nat)
    requires k < |forms| && AllMatches(forms[..k], text, ranges)
    requires forall r :: r in found <==> OccursAt(text, forms[k], r.start) && r.end == r.start + |forms[k]|
    ensures AllMatches(forms[..k + 1], text, ranges + found)
  {
    assert forms[..k + 1] == forms[..k] + [forms[k]];
  }

  lemma NoMatchIffClean(forms: seq<string>, text: string, ranges: seq<Range>)
    requires AllMatches(forms, text, ranges)
    ensures ranges == [] <==> Clean(forms, text)
  {
    if ranges != [] {
      assert ranges[0] in ranges;
      var f :| f in forms && OccursAt(text, f, ranges[0].start);
      assert Contains(text, f);
    }
    if !Clean(forms, text) {
      var f :| f in forms && Contains(text, f);
      var i :| 0 <= i <= |text| && OccursAt(text, f, i);
      assert IsMatch(forms, text, Range(i, i + |f|));
    }
  }
}
