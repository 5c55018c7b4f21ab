/** What the forms of a secret are, character by character, and what redacting does to one that occurs in a text. */
module RedactForms {
  import opened Basics
  import opened Text
  import opened Redact
  import C = Canonical
  import JsonPointer
  import JsonReader

  // ---- Go's JSON ----

  /** How Go writes a character of JSON text. */
  function GoChar(c: char): string {
    if c == '<' then "\\u003c"
    else if c == '>' then "\\u003e"
    else if c == '&' then "\\u0026"
    else if c == '\U{2028}' then "\\u2028"
    else if c == '\U{2029}' then "\\u2029"
    else [c]
  }

  function GoEscaped(s: string): string {
    if s == "" then "" else GoChar(s[0]) + GoEscaped(s[1..])
  }

  lemma {:induction false} NothingToReplace(s: string, c: char, r: string)
    requires c !in s
    ensures ReplaceAll(s, [c], r) == s
  {
    if s != "" {
      JsonPointer.ReplaceStep(s, c, r);
      NothingToReplace(s[1..], c, r);
      assert s == [s[0]] + s[1..];
    } else {
      EmptyStays(c, r);
    }
  }

  lemma EmptyStays(c: char, r: string)
    ensures ReplaceAll("", [c], r) == ""
  {
  }

  /** One character, once replaced, is not replaced again. */
  lemma ReplacesOne(d: char, c: char, r: string)
    ensures ReplaceAll([d], [c], r) == if d == c then r else [d]
  {
    JsonPointer.ReplaceStep([d], c, r);
    EmptyStays(c, r);
    assert [d][1..] == "" && r + "" == r && [d] + "" == [d];
  }

  lemma GoEscapesOne(c: char)
    ensures GoEscape([c]) == GoChar(c)
  {
    hide ReplaceAll;
    ReplacesOne(c, '<', "\\u003c");
    var a := if c == '<' then "\\u003c" else [c];
    if c == '<' { NothingToReplace(a, '>', "\\u003e"); } else { ReplacesOne(c, '>', "\\u003e"); }
    var b := if c == '>' then "\\u003e" else a;
    if c == '<' || c == '>' { NothingToReplace(b, '&', "\\u0026"); } else { ReplacesOne(c, '&', "\\u0026"); }
    var d := if c == '&' then "\\u0026" else b;
    if c == '<' || c == '>' || c == '&' {
      NothingToReplace(d, '\U{2028}', "\\u2028");
      NothingToReplace(d, '\U{2029}', "\\u2029");
    } else {
      ReplacesOne(c, '\U{2028}', "\\u2028");
      if c == '\U{2028}' {
        NothingToReplace("\\u2028", '\U{2029}', "\\u2029");
      } else {
        ReplacesOne(c, '\U{2029}', "\\u2029");
      }
    }
  }

  lemma GoEscapeJoins(a: string, b: string)
    ensures GoEscape(a + b) == GoEscape(a) + GoEscape(b)
  {
    hide ReplaceAll;
    JsonPointer.ReplaceJoins(a, b, '<', "\\u003c");
    var a1, b1 := ReplaceAll(a, "<", "\\u003c"), ReplaceAll(b, "<", "\\u003c");
    JsonPointer.ReplaceJoins(a1, b1, '>', "\\u003e");
    var a2, b2 := ReplaceAll(a1, ">", "\\u003e"), ReplaceAll(b1, ">", "\\u003e");
    JsonPointer.ReplaceJoins(a2, b2, '&', "\\u0026");
    var a3, b3 := ReplaceAll(a2, "&", "\\u0026"), ReplaceAll(b2, "&", "\\u0026");
    JsonPointer.ReplaceJoins(a3, b3, '\U{2028}', "\\u2028");
    var a4, b4 := ReplaceAll(a3, "\U{2028}", "\\u2028"), ReplaceAll(b3, "\U{2028}", "\\u2028");
    JsonPointer.ReplaceJoins(a4, b4, '\U{2029}', "\\u2029");
  }

  /** The five replacements, one after another, escape each character once. */
  lemma {:induction false} GoEscapeEscapes(s: string)
    ensures GoEscape(s) == GoEscaped(s)
  {
    hide GoEscape, GoChar;
    if s == "" {
      GoEscapeJoins("", "");
      assert "" + "" == "";
    } else {
      GoEscapeJoins([s[0]], s[1..]);
      assert [s[0]] + s[1..] == s;
      GoEscapesOne(s[0]);
      GoEscapeEscapes(s[1..]);
    }
  }

  lemma {:induction false} GoEscapedJoins(a: string, b: string)
    ensures GoEscaped(a + b) == GoEscaped(a) + GoEscaped(b)
  {
    hide GoChar;
    if a == "" {
      assert a + b == b;
    } else {
      GoEscapedJoins(a[1..], b);
      assert (a + b)[1..] == a[1..] + b;
      Associative(GoChar(a[0]), GoEscaped(a[1..]), GoEscaped(b));
    }
  }

  lemma {:induction false} GoKeeps(s: string)
    requires forall c :: c in s ==> GoChar(c) == [c]
    ensures GoEscaped(s) == s
  {
    if s != "" {
      GoKeeps(s[1..]);
      assert s == [s[0]] + s[1..];
    }
  }

  lemma EscapeIsKept(c: char)
    requires GoChar(c) == [c]
    ensures GoEscaped(C.EscapeChar(c)) == C.EscapeChar(c)
  {
    GoKeeps(C.EscapeChar(c));
  }

  lemma GoEscapeIsRead(c: char, s: string)
    requires GoChar(c) != [c]
    ensures C.EscapeChar(c) == [c] && JsonReader.ReadChar(GoChar(c) + s) == Some((c, s))
  {
    var t := GoChar(c) + s;
    assert t[6..] == s;
  }

  /** What Go writes for a character reads as that character. */
  lemma GoCharIsRead(c: char, s: string)
    ensures var t := GoEscaped(C.EscapeChar(c)) + s;
      t != "" && t[0] != '"' && JsonReader.ReadChar(t) == Some((c, s))
  {
    hide JsonReader.ReadChar, C.EscapeChar;
    if GoChar(c) == [c] {
      EscapeIsKept(c);
      JsonReader.CharIsRead(c, s);
    } else {
      GoEscapeIsRead(c, s);
      assert [c][1..] == "" && GoEscaped([c]) == GoChar(c) + "" == GoChar(c);
    }
  }

  lemma GoSplits(v: string, s: string)
    requires v != ""
    ensures GoEscaped(C.Escape(v)) + s == GoEscaped(C.EscapeChar(v[0])) + (GoEscaped(C.Escape(v[1..])) + s)
  {
    hide GoEscaped, C.EscapeChar;
    GoEscapedJoins(C.EscapeChar(v[0]), C.Escape(v[1..]));
    Associative(GoEscaped(C.EscapeChar(v[0])), GoEscaped(C.Escape(v[1..])), s);
  }

  lemma ReadsOn(t: string, c: char, rest: string, w: string, s: string)
    requires t != "" && t[0] != '"' && JsonReader.ReadChar(t) == Some((c, rest))
    requires JsonReader.ReadString(rest) == Some((w, s))
    ensures JsonReader.ReadString(t) == Some(([c] + w, s))
  {
    hide JsonReader.ReadChar;
  }

  lemma QuoteEnds(s: string)
    ensures JsonReader.ReadString("\"" + s) == Some(("", s))
  {
    assert ("\"" + s)[1..] == s;
  }

  /** Go's JSON for a string reads as that string. */
  lemma {:induction false} GoIsRead(v: string, s: string)
    ensures JsonReader.ReadString(GoEscaped(C.Escape(v)) + ("\"" + s)) == Some((v, s))
  {
    hide C.EscapeChar, JsonReader.ReadChar, JsonReader.ReadString, GoChar;
    var end := "\"" + s;
    if v == "" {
      QuoteEnds(s);
      assert GoEscaped(C.Escape(v)) + end == end;
    } else {
      hide C.Escape, GoEscaped;
      var rest := GoEscaped(C.Escape(v[1..])) + end;
      GoSplits(v, end);
      GoCharIsRead(v[0], rest);
      GoIsRead(v[1..], s);
      ReadsOn(GoEscaped(C.Escape(v)) + end, v[0], rest, v[1..], s);
      assert v == [v[0]] + v[1..];
    }
  }

  // ---- HCL ----

  /** A `${` or `%{` with its first character doubled. */
  function HclEscaped(s: string): string {
    if s == "" then ""
    else if StartsWith(s, "${") then "$${" + HclEscaped(s[2..])
    else if StartsWith(s, "%{") then "%%{" + HclEscaped(s[2..])
    else [s[0]] + HclEscaped(s[1..])
  }

  /** What HCL makes of a template without interpolations. */
  function HclRead(s: string): string {
    if s == "" then ""
    else if StartsWith(s, "$${") then "${" + HclRead(s[3..])
    else if StartsWith(s, "%%{") then "%{" + HclRead(s[3..])
    else [s[0]] + HclRead(s[1..])
  }

  lemma Opening(s: string, c: char)
    ensures StartsWith(s, [c] + "{") <==> |s| >= 2 && s[0] == c && s[1] == '{'
    ensures StartsWith(s, [c, c] + "{") <==> |s| >= 3 && s[0] == c && s[1] == c && s[2] == '{'
  {
    if |s| >= 2 {
      assert s[..2] == [s[0], s[1]] && [c] + "{" == [c, '{'];
    }
    if |s| >= 3 {
      assert s[..3] == [s[0], s[1], s[2]] && [c, c] + "{" == [c, c, '{'];
    }
  }

  lemma Openings(s: string)
    ensures StartsWith(s, "${") <==> |s| >= 2 && s[0] == '$' && s[1] == '{'
    ensures StartsWith(s, "%{") <==> |s| >= 2 && s[0] == '%' && s[1] == '{'
    ensures StartsWith(s, "$${") <==> |s| >= 3 && s[0] == '$' && s[1] == '$' && s[2] == '{'
    ensures StartsWith(s, "%%{") <==> |s| >= 3 && s[0] == '%' && s[1] == '%' && s[2] == '{'
  {
    hide StartsWith;
    Opening(s, '$');
    Opening(s, '%');
    assert ['$'] + "{" == "${" && ['%'] + "{" == "%{" && ['$', '$'] + "{" == "$${" && ['%', '%'] + "{" == "%%{";
  }

  /** Escaped text does not start with an interpolation, and starts with a brace only if the text does. */
  lemma EscapedStarts(s: string)
    ensures !StartsWith(HclEscaped(s), "${") && !StartsWith(HclEscaped(s), "%{")
    ensures HclEscaped(s) != "" && HclEscaped(s)[0] == '{' <==> s != "" && s[0] == '{'
  {
    hide StartsWith;
    Openings(s);
    Openings(HclEscaped(s));
    if s != "" {
      Openings(s[1..]);
    }
  }

  /** HCL reads escaped text as the text. */
  lemma {:induction false} HclReadUndoesEscape(s: string)
    ensures HclRead(HclEscaped(s)) == s
    decreases |s|
  {
    hide StartsWith;
    if s != "" {
      var t := HclEscaped(s);
      Openings(s);
      Openings(t);
      if StartsWith(s, "${") || StartsWith(s, "%{") {
        assert t[3..] == HclEscaped(s[2..]);
        HclReadUndoesEscape(s[2..]);
        assert s == s[..2] + s[2..] && s[..2] == [s[0], s[1]];
      } else {
        assert t[1..] == HclEscaped(s[1..]);
        EscapedStarts(s[1..]);
        Openings(t[1..]);
        HclReadUndoesEscape(s[1..]);
        assert s == [s[0]] + s[1..];
      }
    }
  }

  function DollarsDoubled(s: string): string {
    ReplaceAll(s, "${", "$${")
  }

  function PercentsDoubled(s: string): string {
    ReplaceAll(s, "%{", "%%{")
  }

  lemma DollarCases(s: string)
    ensures s == "" ==> DollarsDoubled(s) == ""
    ensures StartsWith(s, "${") ==> DollarsDoubled(s) == "$${" + DollarsDoubled(s[2..])
    ensures s != "" && !StartsWith(s, "${") ==> DollarsDoubled(s) == [s[0]] + DollarsDoubled(s[1..])
    ensures s != "" ==> DollarsDoubled(s) != "" && DollarsDoubled(s)[0] == s[0]
  {
    if |s| == 1 {
      assert s == [s[0]] + s[1..];
    }
    if StartsWith(s, "${") {
      assert s[0] == s[..2][0] == '$';
    }
  }

  lemma PercentCases(s: string)
    ensures s == "" ==> PercentsDoubled(s) == ""
    ensures StartsWith(s, "%{") ==> PercentsDoubled(s) == "%%{" + PercentsDoubled(s[2..])
    ensures s != "" && !StartsWith(s, "%{") ==> PercentsDoubled(s) == [s[0]] + PercentsDoubled(s[1..])
  {
    if |s| == 1 {
      assert s == [s[0]] + s[1..];
    }
  }

  /** A doubled dollar sign is not touched again. */
  lemma DollarStays(s: string)
    ensures PercentsDoubled("$${" + s) == "$${" + PercentsDoubled(s)
  {
    hide StartsWith, PercentsDoubled;
    var t := "$${" + s;
    Openings(t);
    PercentCases(t);
    Openings(t[1..]);
    PercentCases(t[1..]);
    assert t[1..][1..] == t[2..] && t[1..][0] == '$' && t[2..][0] == '{';
    Openings(t[2..]);
    PercentCases(t[2..]);
    assert t[2..][1..] == s;
    assert ['$'] + (['$'] + (['{'] + PercentsDoubled(s))) == "$${" + PercentsDoubled(s);
  }

  /** The two replacements, one after the other, escape each interpolation once. */
  lemma {:induction false} HclEscapeEscapes(s: string)
    ensures HclEscape(s) == HclEscaped(s)
    decreases |s|
  {
    hide StartsWith, DollarsDoubled, PercentsDoubled;
    assert HclEscape(s) == PercentsDoubled(DollarsDoubled(s)) by { HclEscapeIs(s); }
    Openings(s);
    DollarCases(s);
    var t := DollarsDoubled(s);
    if s == "" {
      PercentCases("");
    } else if StartsWith(s, "${") {
      DollarStays(DollarsDoubled(s[2..]));
      HclEscapeIs(s[2..]);
      HclEscapeEscapes(s[2..]);
    } else if StartsWith(s, "%{") {
      PercentOpens(s);
      HclEscapeIs(s[2..]);
      HclEscapeEscapes(s[2..]);
    } else {
      DollarCases(s[1..]);
      Openings(t);
      PercentCases(t);
      assert t[1..] == DollarsDoubled(s[1..]);
      HclEscapeIs(s[1..]);
      HclEscapeEscapes(s[1..]);
    }
  }

  lemma HclEscapeIs(s: string)
    ensures HclEscape(s) == PercentsDoubled(DollarsDoubled(s))
  {
  }

  lemma PercentOpens(s: string)
    requires StartsWith(s, "%{")
    ensures PercentsDoubled(DollarsDoubled(s)) == "%%{" + PercentsDoubled(DollarsDoubled(s[2..]))
  {
    hide StartsWith, DollarsDoubled, PercentsDoubled;
    Openings(s);
    DollarCases(s);
    Openings(s[1..]);
    DollarCases(s[1..]);
    assert s[1..][1..] == s[2..];
    var t := DollarsDoubled(s);
    assert t[2..] == DollarsDoubled(s[2..]);
    Openings(t);
    PercentCases(t);
  }

  // ---- The forms ----

  /** JSON, or Go's JSON, with or without HCL's escapes. */
  ghost predicate IsFormOf(f: string, v: string) {
    || f == v
    || f == C.Escape(v) || f == GoEscaped(C.Escape(v))
    || f == HclEscaped(C.Escape(v)) || f == HclEscaped(GoEscaped(C.Escape(v)))
  }

  /** The forms of a secret are the secret, its two ways to be written in JSON, and each of these in a template. */
  lemma FormsAre(v: string, f: string)
    ensures f in FormsOf(v) <==> IsFormOf(f, v)
  {
    hide GoEscape, HclEscape, GoEscaped, HclEscaped;
    GoEscapeEscapes(C.Escape(v));
    HclEscapeEscapes(C.Escape(v));
    HclEscapeEscapes(GoEscaped(C.Escape(v)));
  }

  ghost predicate ReadsAs(f: string, v: string) {
    JsonReader.ReadString(f + "\"") == Some((v, ""))
  }

  /** Every form stands for the secret: as it is, read as JSON, or read as a template and then as JSON. */
  lemma FormsStandForSecret(v: string, f: string)
    requires f in FormsOf(v)
    ensures f == v || ReadsAs(f, v) || ReadsAs(HclRead(f), v)
  {
    hide GoEscaped, HclEscaped, HclRead, C.Escape, JsonReader.ReadString;
    var json := C.Escape(v);
    FormsAre(v, f);
    JsonReader.StringIsRead(v, "");
    GoIsRead(v, "");
    HclReadUndoesEscape(json);
    HclReadUndoesEscape(GoEscaped(json));
    assert json + "\"" + "" == json + "\"" && "\"" + "" == "\"";
  }

  // ---- Marking ----

  ghost predicate OnlyThere(forms: seq<string>, text: string, from: nat, to: nat) {
    forall p :: 0 <= p < |text| ==> (Covered(forms, text, p) <==> from <= p < to)
  }

  lemma NothingPassed(forms: seq<string>, text: string, marker: string)
    ensures PassTo(forms, text, marker, 0) == ""
  {
  }

  /** A form whose place is all that is covered is replaced by one marker. */
  lemma OneRun(forms: seq<string>, a: string, f: string, b: string, marker: string)
    requires f != "" && OnlyThere(forms, a + f + b, |a|, |a| + |f|)
    ensures Pass(forms, a + f + b, marker) == a + marker + b
  {
    hide Covered, PassTo;
    var text := a + f + b;
    NothingPassed(forms, text, marker);
    UncoveredRun(forms, text, marker, 0, |a|);
    CoveredRun(forms, text, marker, |a|, |a| + |f|);
    UncoveredRun(forms, text, marker, |a| + |f|, |text|);
    assert text[0..|a|] == a && text[|a| + |f|..|text|] == b;
    assert "" + a == a;
  }

  /** A known secret, alone in a text, becomes the marker, or nothing if a secret occurs in the marker. */
  lemma SecretIsMarked(forms: seq<string>, a: string, f: string, b: string)
    requires NonEmpty(forms) && f in forms && OnlyThere(forms, a + f + b, |a|, |a| + |f|)
    ensures Clean(forms, "[REDACTED]") && Clean(forms, a + "[REDACTED]" + b) ==>
      Redacted(forms, a + f + b) == a + "[REDACTED]" + b
    ensures !Clean(forms, "[REDACTED]") && Clean(forms, a + b) ==> Redacted(forms, a + f + b) == a + b
  {
    hide Clean, Pass, OnlyThere;
    OneRun(forms, a, f, b, MarkerFor(forms));
    assert a + "" + b == a + b;
    NotClean(forms, a, f, b);
  }

  lemma NotClean(forms: seq<string>, a: string, f: string, b: string)
    requires f in forms
    ensures !Clean(forms, a + f + b)
  {
    var text := a + f + b;
    assert text[|a|..|a| + |f|] == f;
    assert OccursAt(text, f, |a|);
    assert Contains(text, f);
  }

  // ---- Passes ----

  /** The text after `n` passes. */
  ghost function Passed(forms: seq<string>, text: string, n: nat): string
    decreases n
  {
    if n == 0 then text else Passed(forms, Pass(forms, text, MarkerFor(forms)), n - 1)
  }

  lemma {:induction false} SettlesAt(forms: seq<string>, text: string, n: nat, k: nat)
    requires forall i :: 0 <= i < k ==> !Clean(forms, Passed(forms, text, i))
    ensures k < n && Clean(forms, Passed(forms, text, k)) ==>
      Settle(forms, text, MarkerFor(forms), n) == Passed(forms, text, k)
    ensures k >= n ==> Settle(forms, text, MarkerFor(forms), n) == MarkerFor(forms)
    decreases n
  {
    hide Clean, Pass, MarkerFor;
    assert Passed(forms, text, 0) == text;
    if n > 0 && k > 0 {
      var next := Pass(forms, text, MarkerFor(forms));
      forall i | 0 <= i < k - 1 ensures !Clean(forms, Passed(forms, next, i)) {
        assert Passed(forms, next, i) == Passed(forms, text, i + 1);
      }
      SettlesAt(forms, next, n - 1, k - 1);
    }
  }

  /** The result is the text after the first pass that leaves it clean, or the marker if nine passes do not. */
  lemma RedactedIs(forms: seq<string>, text: string, k: nat)
    requires forall i :: 0 <= i < k ==> !Clean(forms, Passed(forms, text, i))
    ensures k < 9 && Clean(forms, Passed(forms, text, k)) ==> Redacted(forms, text) == Passed(forms, text, k)
    ensures k >= 9 ==> Redacted(forms, text) == MarkerFor(forms)
  {
    hide Clean, Pass, MarkerFor, Settle;
    assert Passed(forms, text, 0) == text;
    if k > 0 {
      var next := Pass(forms, text, MarkerFor(forms));
      forall i | 0 <= i < k - 1 ensures !Clean(forms, Passed(forms, next, i)) {
        assert Passed(forms, next, i) == Passed(forms, text, i + 1);
      }
      SettlesAt(forms, next, 8, k - 1);
    }
  }
}
