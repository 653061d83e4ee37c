/** The glob helper of policy.go against the standard meaning of wildcards. */
module Glob {
  import opened Wrappers

  predicate HasPrefix(s: string, p: string) {
    |p| <= |s| && s[..|p|] == p
  }

  predicate HasSuffix(s: string, p: string) {
    |p| <= |s| && s[|s| - |p|..] == p
  }

  predicate OccursAt(s: string, sub: string, i: int) {
    0 <= i <= |s| - |sub| && s[i..i + |sub|] == sub
  }

  predicate Contains(s: string, sub: string) {
    exists i :: 0 <= i <= |s| && OccursAt(s, sub, i)
  }

  /** `matchGlob`. */
  predicate MatchGlob(pattern: string, name: string) {
    if pattern == "*" then true
    else
      var prefixStar, suffixStar := HasPrefix(pattern, "*"), HasSuffix(pattern, "*");
      if prefixStar && suffixStar then Contains(name, pattern[1..|pattern| - 1])
      else if suffixStar then HasPrefix(name, pattern[..|pattern| - 1])
      else if prefixStar then HasSuffix(name, pattern[1..])
      else pattern == name
  }

  /** The usual meaning: a star stands for any string, every other character for itself. */
  predicate Wild(pattern: string, name: string)
    decreases |pattern|, |name|
  {
    if pattern == "" then name == ""
    else if pattern[0] == '*' then Wild(pattern[1..], name) || (name != "" && Wild(pattern, name[1..]))
    else name != "" && name[0] == pattern[0] && Wild(pattern[1..], name[1..])
  }

  predicate StarFree(s: string) {
    forall i :: 0 <= i < |s| ==> s[i] != '*'
  }

  /** Stars occur at most as the first and the last character. */
  predicate StarsAtEnds(pattern: string) {
    forall i :: 0 < i < |pattern| - 1 ==> pattern[i] != '*'
  }

  lemma {:induction false} WildStarFree(p: string, name: string)
    requires StarFree(p)
    ensures Wild(p, name) <==> p == name
  {
    if p != "" && name != "" {
      WildStarFree(p[1..], name[1..]);
      assert p == [p[0]] + p[1..] && name == [name[0]] + name[1..];
    }
  }

  /** A star absorbs some prefix. */
  lemma {:induction false} WildStar(rest: string, name: string)
    ensures Wild("*" + rest, name) <==> exists i :: 0 <= i <= |name| && Wild(rest, name[i..])
    decreases |name|
  {
    assert ("*" + rest)[1..] == rest;
    if name == "" {
      assert name[0..] == name;
    } else {
      WildStar(rest, name[1..]);
      assert name[0..] == name;
      assert forall i :: 0 <= i <= |name| - 1 ==> name[1..][i..] == name[i + 1..];
      if exists i :: 0 <= i <= |name| && Wild(rest, name[i..]) {
        var i :| 0 <= i <= |name| && Wild(rest, name[i..]);
        if i > 0 {
          assert name[1..][i - 1..] == name[i..];
        }
      }
    }
  }

  /** A literal front must be a prefix. */
  lemma {:induction false} WildLiteral(front: string, rest: string, name: string)
    requires StarFree(front)
    ensures Wild(front + rest, name) <==> HasPrefix(name, front) && Wild(rest, name[|front|..])
  {
    if front == "" {
      assert front + rest == rest && name[0..] == name;
    } else {
      assert (front + rest)[1..] == front[1..] + rest;
      if name != "" {
        WildLiteral(front[1..], rest, name[1..]);
        assert front == [front[0]] + front[1..];
        if HasPrefix(name, front) {
          assert name[..|front|] == [name[0]] + name[1..][..|front| - 1];
          assert name[1..][..|front| - 1] == front[1..];
          assert name[|front|..] == name[1..][|front| - 1..];
        }
        if name[0] == front[0] && HasPrefix(name[1..], front[1..]) {
          assert name[..|front|] == [name[0]] + name[1..][..|front| - 1];
          assert name[|front|..] == name[1..][|front| - 1..];
        }
      }
    }
  }

  lemma WildAnything(name: string)
    ensures Wild("*", name)
  {}

  /** prefix-* */
  lemma WildPrefix(front: string, name: string)
    requires StarFree(front)
    ensures Wild(front + "*", name) <==> HasPrefix(name, front)
  {
    WildLiteral(front, "*", name);
    if HasPrefix(name, front) {
      WildAnything(name[|front|..]);
    }
  }

  /** *-suffix */
  lemma WildSuffix(back: string, name: string)
    requires StarFree(back)
    ensures Wild("*" + back, name) <==> HasSuffix(name, back)
  {
    WildStar(back, name);
    forall i | 0 <= i <= |name| ensures Wild(back, name[i..]) <==> name[i..] == back {
      WildStarFree(back, name[i..]);
    }
    if HasSuffix(name, back) {
      assert Wild(back, name[|name| - |back|..]);
    }
  }

  /** *part* */
  lemma WildMiddle(part: string, name: string)
    requires StarFree(part)
    ensures Wild("*" + part + "*", name) <==> Contains(name, part)
  {
    assert "*" + part + "*" == "*" + (part + "*");
    WildStar(part + "*", name);
    forall i | 0 <= i <= |name| ensures Wild(part + "*", name[i..]) <==> OccursAt(name, part, i) {
      WildPrefix(part, name[i..]);
      if |part| <= |name| - i {
        assert name[i..][..|part|] == name[i..i + |part|];
      }
    }
  }

  /** On patterns whose only stars are their first and last characters the glob
      means what wildcards usually mean. */
  lemma MatchesLikeWildcards(pattern: string, name: string)
    requires StarsAtEnds(pattern)
    ensures MatchGlob(pattern, name) <==> Wild(pattern, name)
  {
    hide Wild;
    var n := |pattern|;
    if pattern == "*" {
      WildAnything(name);
    } else if pattern == "" {
      WildStarFree(pattern, name);
    } else {
      StarAt(pattern);
      if pattern[0] == '*' && pattern[n - 1] == '*' {
        var part := pattern[1..n - 1];
        assert pattern == "*" + part + "*";
        WildMiddle(part, name);
      } else if pattern[n - 1] == '*' {
        var front := pattern[..n - 1];
        assert pattern == front + "*";
        WildPrefix(front, name);
      } else if pattern[0] == '*' {
        var back := pattern[1..];
        assert pattern == "*" + back;
        WildSuffix(back, name);
      } else {
        WildStarFree(pattern, name);
      }
    }
  }

  lemma StarAt(pattern: string)
    requires pattern != ""
    ensures HasPrefix(pattern, "*") <==> pattern[0] == '*'
    ensures HasSuffix(pattern, "*") <==> pattern[|pattern| - 1] == '*'
  {}

  /** The pattern without its stars. */
  function Bare(p: string): (r: string)
    ensures StarFree(r)
  {
    if p == "" then "" else if p[0] == '*' then Bare(p[1..]) else [p[0]] + Bare(p[1..])
  }

  lemma {:induction false} WildBare(p: string)
    ensures Wild(p, Bare(p))
  {
    if p != "" {
      WildBare(p[1..]);
      if p[0] != '*' {
        assert ([p[0]] + Bare(p[1..]))[1..] == Bare(p[1..]);
      }
    }
  }

  /** An interior star is matched literally, so a name without stars never matches. */
  lemma InteriorStarIsLiteral(pattern: string, name: string, i: nat)
    requires 0 < i < |pattern| - 1 && pattern[i] == '*' && StarFree(name)
    ensures !MatchGlob(pattern, name)
  {
    var n := |pattern|;
    StarAt(pattern);
    if pattern[0] == '*' && pattern[n - 1] == '*' {
      var part := pattern[1..n - 1];
      assert part[i - 1] == '*';
      forall j | 0 <= j <= |name| ensures !OccursAt(name, part, j) {
        if j <= |name| - |part| {
          assert name[j..j + |part|][i - 1] == name[j + i - 1];
        }
      }
    } else if pattern[n - 1] == '*' {
      var front := pattern[..n - 1];
      assert front[i] == '*';
      assert |front| <= |name| ==> name[..|front|][i] == name[i];
    } else if pattern[0] == '*' {
      var back := pattern[1..];
      assert back[i - 1] == '*';
      assert |back| <= |name| ==> name[|name| - |back|..][i - 1] == name[|name| - |back| + i - 1];
    }
  }

  /** The glob agrees with the usual wildcards on all names exactly when the pattern
      has no star in its interior. ("*" anywhere, as the comment on `matchGlob` has
      it, is not supported.) */
  lemma MatchesLikeWildcardsIff(pattern: string)
    ensures (forall name :: MatchGlob(pattern, name) <==> Wild(pattern, name)) <==> StarsAtEnds(pattern)
  {
    if StarsAtEnds(pattern) {
      forall name ensures MatchGlob(pattern, name) <==> Wild(pattern, name) {
        MatchesLikeWildcards(pattern, name);
      }
    } else {
      var i :| 0 < i < |pattern| - 1 && pattern[i] == '*';
      WildBare(pattern);
      InteriorStarIsLiteral(pattern, Bare(pattern), i);
    }
  }

  // ---- any pattern at all ----

  predicate Joins(s: string, a: string, part: string, b: string) {
    s == a + part + b
  }

  ghost predicate Within(s: string, part: string) {
    exists a, b :: Joins(s, a, part, b)
  }

  ghost predicate BeginsWith(s: string, front: string) {
    exists b :: Joins(s, "", front, b)
  }

  ghost predicate EndsWith(s: string, back: string) {
    exists a :: Joins(s, a, back, "")
  }

  /** What a glob means when stars inside it are taken for themselves: with a star at both
      ends the rest occurs somewhere, with one at the end or the front the rest begins or
      ends the name, and otherwise pattern and name are the same. */
  lemma MatchSays(pattern: string, name: string)
    ensures var n := |pattern|;
            MatchGlob(pattern, name) <==>
              if pattern == "*" then true
              else if n >= 2 && pattern[0] == '*' && pattern[n - 1] == '*' then
                Within(name, pattern[1..n - 1])
              else if n >= 2 && pattern[n - 1] == '*' then BeginsWith(name, pattern[..n - 1])
              else if n >= 2 && pattern[0] == '*' then EndsWith(name, pattern[1..])
              else pattern == name
  {
    if pattern != "" {
      StarAt(pattern);
    }
    var n := |pattern|;
    if n >= 2 {
      ContainsIff(name, pattern[1..n - 1]);
      PrefixIff(name, pattern[..n - 1]);
      SuffixIff(name, pattern[1..]);
    }
  }

  lemma ContainsIff(s: string, part: string)
    ensures Contains(s, part) <==> Within(s, part)
  {
    if Contains(s, part) {
      var i :| 0 <= i <= |s| && OccursAt(s, part, i);
      assert Joins(s, s[..i], part, s[i + |part|..]);
    }
    if Within(s, part) {
      var a, b :| Joins(s, a, part, b);
      assert OccursAt(s, part, |a|);
    }
  }

  lemma PrefixIff(s: string, front: string)
    ensures HasPrefix(s, front) <==> BeginsWith(s, front)
  {
    if HasPrefix(s, front) {
      assert Joins(s, "", front, s[|front|..]);
    }
  }

  lemma SuffixIff(s: string, back: string)
    ensures HasSuffix(s, back) <==> EndsWith(s, back)
  {
    if HasSuffix(s, back) {
      assert Joins(s, s[..|s| - |back|], back, "");
    }
  }

  // ---- allow and deny lists ----

  datatype Refusal = DeniedBy(pattern: string) | NoAllowPatterns | NotAllowed

  /** Some pattern of the list matches. */
  predicate AnyMatch(patterns: seq<string>, name: string) {
    exists i :: 0 <= i < |patterns| && MatchGlob(patterns[i], name)
  }

  /** The verdict in terms of the two sets of patterns only. */
  predicate Permits(name: string, allow: set<string>, deny: set<string>) {
    (exists p <- allow :: MatchGlob(p, name)) && !exists p <- deny :: MatchGlob(p, name)
  }

  method AuthorizeGlobPatternStrict(name: string, allow: seq<string>, deny: seq<string>)
    returns (refusal: Option<Refusal>)
    ensures refusal.None? <==> Permits(name, set p | p in allow, set p | p in deny)
    ensures refusal.Some? && refusal.value.DeniedBy? ==>
              exists i :: 0 <= i < |deny| && deny[i] == refusal.value.pattern && MatchGlob(deny[i], name)
                          && !AnyMatch(deny[..i], name)
    ensures AnyMatch(deny, name) <==> refusal.Some? && refusal.value.DeniedBy?
    ensures allow == [] && !AnyMatch(deny, name) <==> refusal == Some(NoAllowPatterns)
  {
    for i := 0 to |deny|
      invariant !AnyMatch(deny[..i], name)
    {
      if MatchGlob(deny[i], name) {
        return Some(DeniedBy(deny[i]));
      }
    }
    assert deny[..|deny|] == deny;
    if |allow| == 0 {
      return Some(NoAllowPatterns);
    }
    for i := 0 to |allow|
      invariant !AnyMatch(allow[..i], name)
    {
      if MatchGlob(allow[i], name) {
        assert allow[i] in (set p | p in allow);
        assert forall p :: p in deny ==> exists j :: 0 <= j < |deny| && deny[j] == p;
        return None;
      }
    }
    assert allow[..|allow|] == allow;
    assert forall p :: p in allow ==> exists j :: 0 <= j < |allow| && allow[j] == p;
    return Some(NotAllowed);
  }

  method AuthorizeGlobPattern(name: string, allow: seq<string>, deny: seq<string>)
    returns (refusal: Option<Refusal>)
    ensures allow != [] ==> (refusal.None? <==> Permits(name, set p | p in allow, set p | p in deny))
    ensures allow == [] ==> (refusal.None? <==> !AnyMatch(deny, name))
    ensures refusal.Some? && refusal.value.DeniedBy? ==>
              exists i :: 0 <= i < |deny| && deny[i] == refusal.value.pattern && MatchGlob(deny[i], name)
                          && !AnyMatch(deny[..i], name)
    ensures AnyMatch(deny, name) <==> refusal.Some? && refusal.value.DeniedBy?
    ensures refusal != Some(NoAllowPatterns)
  {
    for i := 0 to |deny|
      invariant !AnyMatch(deny[..i], name)
    {
      if MatchGlob(deny[i], name) {
        return Some(DeniedBy(deny[i]));
      }
    }
    assert deny[..|deny|] == deny;
    if |allow| == 0 {
      return None;
    }
    for i := 0 to |allow|
      invariant !AnyMatch(allow[..i], name)
    {
      if MatchGlob(allow[i], name) {
        assert allow[i] in (set p | p in allow);
        assert forall p :: p in deny ==> exists j :: 0 <= j < |deny| && deny[j] == p;
        return None;
      }
    }
    assert allow[..|allow|] == allow;
    assert forall p :: p in allow ==> exists j :: 0 <= j < |allow| && allow[j] == p;
    return Some(NotAllowed);
  }

  /** The strict form allows exactly the names in the language of the allow list and
      outside the language of the deny list. */
  lemma PermitsIsLanguageDifference(name: string, allow: set<string>, deny: set<string>)
    requires forall p :: p in allow + deny ==> StarsAtEnds(p)
    ensures Permits(name, allow, deny) <==>
              (exists p <- allow :: Wild(p, name)) && !exists p <- deny :: Wild(p, name)
  {
    forall p | p in allow + deny ensures MatchGlob(p, name) <==> Wild(p, name) {
      MatchesLikeWildcards(p, name);
    }
  }
}
