/** The patterns that object IDs follow: the documented rule and the one in the schemas, `crates/core/src/ids.rs`. */
module IdRules {
  import opened Ids
  import opened Text

  /** `[a-z0-9]+` */
  ghost predicate IsRun(s: string) {
    s != "" && forall i :: 0 <= i < |s| ==> 'a' <= s[i] <= 'z' || '0' <= s[i] <= '9'
  }

  /** `-?[a-z0-9]+` */
  ghost predicate IsGroup(s: string) {
    IsRun(s) || (s != "" && s[0] == '-' && IsRun(s[1..]))
  }

  /** `(?:-?[a-z0-9]+)+` */
  ghost predicate IsGroups(s: string)
    decreases |s|
  {
    IsGroup(s) || exists i :: 0 < i < |s| && IsGroup(s[..i]) && IsGroups(s[i..])
  }

  /** The documented rule, `^[a-z0-9](?:-?[a-z0-9]+)+$`. */
  ghost predicate MatchesRule(s: string) {
    s != "" && IsRun(s[..1]) && IsGroups(s[1..])
  }

  /** The schemas' pattern, `^[a-z0-9]+(?:-[a-z0-9]+)*$`. */
  ghost predicate MatchesPattern(s: string)
    decreases |s|
  {
    IsRun(s) || exists i :: 0 < i < |s| && s[i] == '-' && IsRun(s[..i]) && MatchesPattern(s[i + 1..])
  }

  /** Letters, digits and single hyphens, of which none is last. */
  ghost predicate IsTail(s: string) {
    && s != "" && s[|s| - 1] != '-'
    && (forall i :: 0 <= i < |s| ==> IsLowerAlnum(s[i]) || s[i] == '-')
    && (forall i :: 0 < i < |s| ==> !(s[i - 1] == '-' && s[i] == '-'))
  }

  lemma RestIsTail(s: string, i: nat)
    requires IsTail(s) && i < |s|
    ensures IsTail(s[i..])
  {
    var t := s[i..];
    assert forall k :: 0 <= k < |t| ==> t[k] == s[i + k];
  }

  lemma GroupsJoin(a: string, b: string)
    requires IsGroup(a) && IsTail(b)
    ensures IsTail(a + b)
  {
    var s := a + b;
    assert forall k :: 0 <= k < |s| ==> s[k] == if k < |a| then a[k] else b[k - |a|];
    assert forall k :: 1 <= k < |a| ==> a[k] != '-' by {
      assert IsRun(a) || forall k :: 1 <= k < |a| ==> a[k] == a[1..][k - 1];
    }
  }

  lemma GroupIsTail(a: string)
    requires IsGroup(a)
    ensures IsTail(a)
  {
    assert forall k :: 1 <= k < |a| ==> a[k] == a[1..][k - 1];
  }

  lemma {:induction false} GroupsAreTail(s: string)
    requires IsGroups(s)
    ensures IsTail(s)
    decreases |s|
  {
    hide IsGroup, IsTail;
    if IsGroup(s) {
      GroupIsTail(s);
    } else {
      var i :| 0 < i < |s| && IsGroup(s[..i]) && IsGroups(s[i..]);
      GroupsAreTail(s[i..]);
      GroupsJoin(s[..i], s[i..]);
      assert s == s[..i] + s[i..];
    }
  }

  /** Where the first group ends: before the next hyphen. */
  lemma FirstGroup(s: string) returns (i: nat)
    requires IsTail(s)
    ensures 0 < i <= |s| && IsGroup(s[..i])
  {
    var from := if s[0] == '-' then 1 else 0;
    i := from + Find(s[from..], '-');
    assert forall k :: from <= k < i ==> s[k] == s[from..][k - from];
    if from == 1 {
      assert s[..i][1..] == s[1..i];
    }
  }

  lemma {:induction false} TailIsGroups(s: string)
    requires IsTail(s)
    ensures IsGroups(s)
    decreases |s|
  {
    hide IsGroup, IsTail;
    var i := FirstGroup(s);
    if i < |s| {
      RestIsTail(s, i);
      TailIsGroups(s[i..]);
    } else {
      assert s[..i] == s;
    }
  }

  /** An object ID is 2 to 50 characters that match the documented rule. */
  lemma ObjectIdFollowsRule(s: string)
    ensures IsObjectId(s) <==> |s| <= 50 && MatchesRule(s)
  {
    hide IsGroups;
    if IsObjectId(s) {
      assert IsTail(s);
      RestIsTail(s, 1);
      TailIsGroups(s[1..]);
    }
    if |s| <= 50 && MatchesRule(s) {
      GroupsAreTail(s[1..]);
      GroupsJoin(s[..1], s[1..]);
      assert s == s[..1] + s[1..];
    }
  }

  lemma RunIsTail(s: string)
    requires IsRun(s)
    ensures s != "" && IsTail(s) && IsLowerAlnum(s[0])
  {
  }

  lemma {:induction false} PatternIsTail(s: string)
    requires MatchesPattern(s)
    ensures s != "" && IsTail(s) && IsLowerAlnum(s[0])
    decreases |s|
  {
    hide IsRun, IsTail;
    if IsRun(s) {
      RunIsTail(s);
    } else {
      var i :| 0 < i < |s| && s[i] == '-' && IsRun(s[..i]) && MatchesPattern(s[i + 1..]);
      PatternIsTail(s[i + 1..]);
      HyphenJoins(s[..i], s[i + 1..]);
      assert s == s[..i] + "-" + s[i + 1..];
    }
  }

  lemma HyphenJoins(a: string, b: string)
    requires IsRun(a) && IsTail(b) && IsLowerAlnum(b[0])
    ensures IsTail(a + "-" + b) && IsLowerAlnum((a + "-" + b)[0])
  {
    var s := a + "-" + b;
    assert forall k :: 0 <= k < |s| ==>
      s[k] == if k < |a| then a[k] else if k == |a| then '-' else b[k - |a| - 1];
  }

  lemma {:induction false} TailHasPattern(s: string)
    requires s != "" && IsTail(s) && s[0] != '-'
    ensures MatchesPattern(s)
    decreases |s|
  {
    hide IsRun, IsTail;
    var i := FirstRun(s);
    if i < |s| {
      TailHasPattern(s[i + 1..]);
    } else {
      assert s[..i] == s;
    }
  }

  lemma FirstRun(s: string) returns (i: nat)
    requires s != "" && IsTail(s) && s[0] != '-'
    ensures 0 < i <= |s| && IsRun(s[..i])
    ensures i < |s| ==> s[i] == '-' && s[i + 1..] != "" && IsTail(s[i + 1..]) && s[i + 1] != '-'
  {
    i := Find(s, '-');
    if i < |s| {
      RestIsTail(s, i + 1);
    }
  }

  /** And the same 2 to 50 characters match the schemas' pattern. */
  lemma ObjectIdMatchesPattern(s: string)
    ensures IsObjectId(s) <==> 2 <= |s| <= 50 && MatchesPattern(s)
  {
    hide MatchesPattern;
    if IsObjectId(s) {
      assert IsTail(s);
      TailHasPattern(s);
    }
    if 2 <= |s| <= 50 && MatchesPattern(s) {
      PatternIsTail(s);
    }
  }

  // ---- Type IDs ----

  /** `[a-z0-9](?:[a-z0-9-]{0,48}[a-z0-9])?` */
  ghost predicate MatchesTypeName(s: string) {
    && s != "" && IsRun(s[..1])
    && (|s| > 1 ==> |s| <= 50 && IsRun(s[|s| - 1..]))
    && (forall i :: 0 < i < |s| - 1 ==> s[i] == '-' || IsRun([s[i]]))
  }

  /** The schemas' pattern for type IDs: a name, with an organization's ID and a slash before it or not. */
  ghost predicate MatchesTypeId(s: string) {
    || MatchesTypeName(s)
    || exists i :: 0 <= i < |s| && s[i] == '/' && 2 <= i <= 50 && MatchesPattern(s[..i]) && MatchesTypeName(s[i + 1..])
  }

  lemma TypeNameMatches(s: string)
    ensures IsTypeName(s) <==> MatchesTypeName(s)
    ensures IsTypeName(s) ==> '/' !in s
  {
    if MatchesTypeName(s) && |s| > 1 {
      forall i | 0 <= i < |s| ensures IsLowerAlnum(s[i]) || s[i] == '-' {
        assert s[..1] == [s[0]] && s[|s| - 1..] == [s[|s| - 1]];
        if 0 < i < |s| - 1 && s[i] != '-' {
          assert IsRun([s[i]]) && [s[i]][0] == s[i];
        }
      }
    }
  }

  lemma PatternHasNoSlash(s: string)
    requires MatchesPattern(s)
    ensures '/' !in s
  {
    PatternIsTail(s);
  }

  /** A type ID is what the schemas' pattern matches. */
  lemma TypeIdMatchesPattern(s: string)
    ensures IsTypeId(s) <==> MatchesTypeId(s)
  {
    hide IsObjectId, IsTypeName, MatchesTypeName, MatchesPattern;
    var slash := Find(s, '/');
    TypeNameMatches(s);
    if slash < |s| {
      ObjectIdMatchesPattern(s[..slash]);
      TypeNameMatches(s[slash + 1..]);
    }
    if i :| 0 <= i < |s| && s[i] == '/' && 2 <= i <= 50 && MatchesPattern(s[..i]) && MatchesTypeName(s[i + 1..]) {
      PatternHasNoSlash(s[..i]);
      FindIs(s, '/', i);
    }
  }
}
