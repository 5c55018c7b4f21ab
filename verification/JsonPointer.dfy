/** JSON pointers into a workload, and which of them may hold a secret: `crates/core/src/workload.rs`. */
module JsonPointer {
  import opened Text

  /** The keys and indices on the way to a value. */
  type KeyPath = seq<string>

  // ---- Escaping ----

  /** `escape_pointer` */
  function EscapeKey(k: string): string {
    ReplaceAll(ReplaceAll(k, "~", "~0"), "/", "~1")
  }

  function EscapedChar(c: char): string {
    if c == '~' then "~0" else if c == '/' then "~1" else [c]
  }

  /** Each `~` and `/` written as a pair (section 3 of RFC 6901). */
  function Escaped(k: string): string {
    if k == "" then "" else EscapedChar(k[0]) + Escaped(k[1..])
  }

  /** Reads the pairs back (section 4 of RFC 6901). */
  function Unescaped(s: string): string {
    if |s| < 2 then s
    else if s[..2] == "~0" then "~" + Unescaped(s[2..])
    else if s[..2] == "~1" then "/" + Unescaped(s[2..])
    else [s[0]] + Unescaped(s[1..])
  }

  lemma ReplaceStep(k: string, c: char, r: string)
    requires k != ""
    ensures ReplaceAll(k, [c], r) == (if k[0] == c then r else [k[0]]) + ReplaceAll(k[1..], [c], r)
  {
  }

  lemma {:induction false} ReplaceJoins(a: string, b: string, c: char, r: string)
    ensures ReplaceAll(a + b, [c], r) == ReplaceAll(a, [c], r) + ReplaceAll(b, [c], r)
  {
    hide ReplaceAll;
    if a == "" {
      assert a + b == b;
      EmptyReplaced(c, r, b);
    } else {
      assert (a + b)[0] == a[0] && (a + b)[1..] == a[1..] + b;
      ReplaceStep(a + b, c, r);
      ReplaceStep(a, c, r);
      ReplaceJoins(a[1..], b, c, r);
      Associative(if a[0] == c then r else [a[0]], ReplaceAll(a[1..], [c], r), ReplaceAll(b, [c], r));
    }
  }

  lemma EmptyReplaced(c: char, r: string, b: string)
    ensures ReplaceAll("", [c], r) + ReplaceAll(b, [c], r) == ReplaceAll(b, [c], r)
  {
  }

  lemma CharReplaced(c: char)
    ensures ReplaceAll(if c == '~' then "~0" else [c], "/", "~1") == EscapedChar(c)
  {
    var s := if c == '~' then "~0" else [c];
    ReplaceStep(s, '/', "~1");
    if c == '~' {
      assert s[1..] == "0";
      ReplaceStep("0", '/', "~1");
    }
  }

  /** Replacing `~` first and `/` second escapes each character once. */
  lemma {:induction false} EscapeKeyEscapes(k: string)
    ensures EscapeKey(k) == Escaped(k)
  {
    hide ReplaceAll, EscapedChar;
    if k == "" {
      EmptyEscapes();
    } else {
      var first := if k[0] == '~' then "~0" else [k[0]];
      ReplaceStep(k, '~', "~0");
      ReplaceJoins(first, ReplaceAll(k[1..], "~", "~0"), '/', "~1");
      CharReplaced(k[0]);
      EscapeKeyEscapes(k[1..]);
    }
  }

  lemma EmptyEscapes()
    ensures EscapeKey("") == "" == Escaped("")
  {
  }

  /** A key is read back from its escaped form, which has no `/`. */
  lemma {:induction false} UnescapeUndoesEscape(k: string)
    ensures Unescaped(Escaped(k)) == k && '/' !in Escaped(k)
  {
    if k != "" {
      UnescapeUndoesEscape(k[1..]);
      var e, rest := EscapedChar(k[0]), Escaped(k[1..]);
      if |e| == 2 {
        assert (e + rest)[..2] == e && (e + rest)[2..] == rest;
      } else {
        assert (e + rest)[1..] == rest;
        assert |rest| > 0 ==> (e + rest)[..2] == [k[0], rest[0]];
        assert |rest| == 0 ==> k[1..] == "";
      }
      assert k == [k[0]] + k[1..];
    }
  }

  lemma EscapeIsInjective(a: string, b: string)
    ensures Escaped(a) == Escaped(b) ==> a == b
    ensures Escaped(a) == "" <==> a == ""
  {
    UnescapeUndoesEscape(a);
    UnescapeUndoesEscape(b);
  }

  // ---- Pointers ----

  /** The pointer to a path, as `translate` builds it. */
  function PointerTo(path: KeyPath): string {
    if path == [] then "" else PointerTo(path[..|path| - 1]) + "/" + EscapeKey(path[|path| - 1])
  }

  /** The escaped keys, with a `/` between. */
  function Joined(path: KeyPath): string {
    if path == [] then ""
    else if |path| == 1 then Escaped(path[0])
    else Escaped(path[0]) + "/" + Joined(path[1..])
  }

  lemma {:induction false} JoinedGrows(path: KeyPath, key: string)
    requires path != []
    ensures Joined(path + [key]) == Joined(path) + "/" + Escaped(key)
  {
    var all := path + [key];
    assert all[1..] == path[1..] + [key];
    if |path| > 1 {
      JoinedGrows(path[1..], key);
      Regroup(Escaped(path[0]), "/", Joined(path[1..]), Escaped(key));
    }
  }

  lemma Regroup(a: string, sep: string, b: string, c: string)
    ensures a + sep + (b + sep + c) == a + sep + b + sep + c
  {
    Associative(a + sep, b + sep, c);
    Associative(a + sep, b, sep);
  }

  lemma {:induction false} PointerIsJoined(path: KeyPath)
    ensures path != [] ==> PointerTo(path) == "/" + Joined(path)
  {
    if path != [] {
      var front, last := path[..|path| - 1], path[|path| - 1];
      EscapeKeyEscapes(last);
      PointerIsJoined(front);
      assert path == front + [last];
      if front != [] {
        JoinedGrows(front, last);
        Associative("/", Joined(front) + "/", Escaped(last));
        Associative("/", Joined(front), "/");
      }
    }
  }

  // ---- Splitting ----

  /** The pieces between the `/`s. */
  function Split(s: string): seq<string>
    decreases |s|
  {
    var i := Find(s, '/');
    if i == |s| then [s] else [s[..i]] + Split(s[i + 1..])
  }

  function Trimmed(s: string): string {
    if s != "" && s[0] == '/' then Trimmed(s[1..]) else s
  }

  function EscapedKeys(path: KeyPath): seq<string> {
    seq(|path|, i requires 0 <= i < |path| => Escaped(path[i]))
  }

  lemma {:induction false} SplitUndoesJoin(path: KeyPath)
    requires path != []
    ensures Split(Joined(path)) == EscapedKeys(path)
  {
    hide Find, Escaped;
    var first := Escaped(path[0]);
    UnescapeUndoesEscape(path[0]);
    var s := Joined(path);
    if |path| == 1 {
      FindIs(s, '/', |s|);
    } else {
      var rest := Joined(path[1..]);
      assert s == first + ("/" + rest);
      FindIs(s, '/', |first|);
      assert s[..|first|] == first && s[|first| + 1..] == rest;
      SplitUndoesJoin(path[1..]);
    }
  }

  /** The path without its leading empty keys. */
  function WithoutEmpty(path: KeyPath): KeyPath {
    if path != [] && path[0] == "" then WithoutEmpty(path[1..]) else path
  }

  /** Trimming a pointer takes its leading empty keys away too. */
  lemma {:induction false} TrimDropsEmptyKeys(path: KeyPath)
    ensures Trimmed(Joined(path)) == Joined(WithoutEmpty(path))
  {
    if path != [] {
      EscapeIsInjective(path[0], "");
      UnescapeUndoesEscape(path[0]);
      if path[0] != "" {
        assert Joined(path)[0] == Escaped(path[0])[0];
      } else if |path| > 1 {
        assert Joined(path)[1..] == Joined(path[1..]);
        TrimDropsEmptyKeys(path[1..]);
      }
    }
  }

  // ---- Secret sinks ----

  /** A container or function variable, or container file content. */
  predicate IsSinkPath(path: KeyPath) {
    || (|path| == 4 && path[0] == "containers" && path[2] == "variables")
    || (|path| == 5 && path[0] == "containers" && path[2] == "files" && path[4] == "content")
    || (|path| == 3 && path[0] == "function" && path[1] == "variables")
  }

  /** `is_secret_sink` */
  predicate IsSecretSink(pointer: string) {
    IsSinkPath(Split(Trimmed(pointer)))
  }

  lemma {:induction false} PlainKey(k: string)
    requires '~' !in k && '/' !in k
    ensures Escaped(k) == k
  {
    if k != "" {
      PlainKey(k[1..]);
      assert k == [k[0]] + k[1..];
    }
  }

  lemma SameKey(path: KeyPath, i: nat, k: string)
    requires i < |path| && '~' !in k && '/' !in k
    ensures EscapedKeys(path)[i] == k <==> path[i] == k
  {
    PlainKey(k);
    EscapeIsInjective(path[i], k);
  }

  lemma SameSink(path: KeyPath)
    ensures IsSinkPath(EscapedKeys(path)) <==> IsSinkPath(path)
  {
    assert |EscapedKeys(path)| == |path|;
    hide EscapedKeys;
    if |path| == 3 {
      SameKey(path, 0, "function");
      SameKey(path, 1, "variables");
    } else if |path| == 4 {
      SameKey(path, 0, "containers");
      SameKey(path, 2, "variables");
    } else if |path| == 5 {
      SameKey(path, 0, "containers");
      SameKey(path, 2, "files");
      SameKey(path, 4, "content");
    }
  }

  /** A pointer is taken for a secret sink exactly when its path, without leading empty keys, is one. */
  lemma SecretSinkIff(path: KeyPath)
    ensures IsSecretSink(PointerTo(path)) <==> IsSinkPath(WithoutEmpty(path))
  {
    hide Joined, EscapedKeys, PointerTo, WithoutEmpty;
    var keys := WithoutEmpty(path);
    TrimmedPointer(path);
    if keys == [] {
      NothingSplits();
    } else {
      SplitUndoesJoin(keys);
      SameSink(keys);
    }
  }

  lemma TrimmedPointer(path: KeyPath)
    ensures Trimmed(PointerTo(path)) == Joined(WithoutEmpty(path))
  {
    PointerIsJoined(path);
    TrimDropsEmptyKeys(path);
    if path != [] {
      assert PointerTo(path)[1..] == Joined(path);
    }
  }

  lemma NothingSplits()
    ensures Joined([]) == "" && |Split("")| == 1
  {
  }

  /** So the test is right, unless the path only becomes a sink without its leading empty keys. */
  lemma SinkTestIsRightIff(path: KeyPath)
    ensures (IsSecretSink(PointerTo(path)) <==> IsSinkPath(path)) <==>
      path == [] || path[0] != "" || !IsSinkPath(WithoutEmpty(path))
  {
    SecretSinkIff(path);
  }

  /** The places of a workload that may hold a secret, key by key. */
  lemma SinksAre(path: KeyPath)
    ensures IsSinkPath(path) <==>
      || (exists c, v :: path == ["containers", c, "variables", v])
      || (exists c, f :: path == ["containers", c, "files", f, "content"])
      || (exists v :: path == ["function", "variables", v])
  {
    if IsSinkPath(path) {
      if |path| == 4 {
        assert path == ["containers", path[1], "variables", path[3]];
      } else if |path| == 5 {
        assert path == ["containers", path[1], "files", path[3], "content"];
      } else {
        assert path == ["function", "variables", path[2]];
      }
    }
  }

  /** A path the test misjudges; no spec holds it, because the members of a spec are named. */
  lemma EmptyKeyMisleads()
    ensures var path := ["", "containers", "web", "variables", "TOKEN"];
      IsSecretSink(PointerTo(path)) && !IsSinkPath(path)
  {
    var path := ["", "containers", "web", "variables", "TOKEN"];
    assert WithoutEmpty(path) == path[1..] == ["containers", "web", "variables", "TOKEN"];
    SecretSinkIff(path);
  }

  /** Different paths have different pointers. */
  lemma PointerIsInjective(a: KeyPath, b: KeyPath)
    requires PointerTo(a) == PointerTo(b)
    ensures a == b
  {
    hide Joined, EscapedKeys;
    PointerIsJoined(a);
    PointerIsJoined(b);
    if a != [] && b != [] {
      assert PointerTo(a)[1..] == Joined(a) && PointerTo(b)[1..] == Joined(b);
      SplitUndoesJoin(a);
      SplitUndoesJoin(b);
      SameKeys(a, b);
    }
  }

  lemma SameKeys(a: KeyPath, b: KeyPath)
    requires EscapedKeys(a) == EscapedKeys(b)
    ensures a == b
  {
    hide Escaped;
    assert |a| == |EscapedKeys(a)| == |b|;
    forall i | 0 <= i < |a| ensures a[i] == b[i] {
      assert EscapedKeys(a)[i] == EscapedKeys(b)[i];
      EscapeIsInjective(a[i], b[i]);
    }
  }
}
