/** Check-name patterns (crates/javelin-node/src/checks.rs): `*` stands for any run of bytes. */
module Wildcards {
  import opened Names

  const STAR: Byte := 42

  /** The language of a pattern. */
  predicate Matches(pattern: Name, name: Name)
    decreases |pattern|, 0, 0
  {
    if pattern == [] then name == []
    else if pattern[0] == STAR then MatchesFrom(pattern[1..], name, 0)
    else name != [] && name[0] == pattern[0] && Matches(pattern[1..], name[1..])
  }

  /** The pattern matches some suffix that starts at or after `k`. */
  predicate MatchesFrom(pattern: Name, name: Name, k: nat)
    decreases |pattern|, 1, if k <= |name| then |name| - k + 1 else 0
  {
    k <= |name| && (Matches(pattern, name[k..]) || MatchesFrom(pattern, name, k + 1))
  }

  lemma {:induction false} MatchesAt(pattern: Name, name: Name, k: nat)
    ensures MatchesFrom(pattern, name, k) <==> exists j :: k <= j <= |name| && Matches(pattern, name[j..])
    decreases |name| - k
  {
    hide Matches;
    if k <= |name| {
      MatchesAt(pattern, name, k + 1);
    }
  }

  /** Plain bytes of a pattern that a stretch of the name repeats. */
  predicate Literal(pattern: Name, name: Name) {
    |pattern| == |name| && forall i :: 0 <= i < |pattern| ==> pattern[i] != STAR && pattern[i] == name[i]
  }

  /** A pattern that begins with plain bytes matches exactly the names that repeat them and then match the rest. */
  lemma {:induction false} LiteralFirst(plain: Name, rest: Name, name: Name)
    requires forall i :: 0 <= i < |plain| ==> plain[i] != STAR
    ensures Matches(plain + rest, name) <==>
      |plain| <= |name| && Literal(plain, name[..|plain|]) && Matches(rest, name[|plain|..])
  {
    if plain == [] {
      assert plain + rest == rest && name[0..] == name;
    } else {
      assert (plain + rest)[1..] == plain[1..] + rest;
      if name != [] {
        LiteralFirst(plain[1..], rest, name[1..]);
        if |plain| <= |name| {
          assert name[1..][..|plain| - 1] == name[..|plain|][1..];
          assert name[1..][|plain| - 1..] == name[|plain|..];
          LiteralHead(plain, name[..|plain|]);
        }
      }
    }
  }

  lemma {:induction false} LiteralHead(plain: Name, name: Name)
    requires plain != [] && |name| == |plain|
    ensures Literal(plain, name) <==> plain[0] != STAR && plain[0] == name[0] && Literal(plain[1..], name[1..])
  {
    if Literal(plain[1..], name[1..]) {
      forall i | 0 < i < |plain| ensures plain[i] != STAR && plain[i] == name[i]
      {
        assert plain[1..][i - 1] == plain[i] && name[1..][i - 1] == name[i];
      }
    }
  }

  lemma {:induction false} StarFirst(rest: Name, name: Name)
    ensures Matches([STAR] + rest, name) <==> exists k :: 0 <= k <= |name| && Matches(rest, name[k..])
  {
    assert ([STAR] + rest)[1..] == rest;
    MatchesAt(rest, name, 0);
  }

  /** Only stars match nothing. */
  lemma {:induction false} StarsMatchNothing(pattern: Name)
    ensures Matches(pattern, []) <==> forall i :: 0 <= i < |pattern| ==> pattern[i] == STAR
  {
    if pattern != [] {
      StarsMatchNothing(pattern[1..]);
      assert pattern == [pattern[0]] + pattern[1..];
      var none: Name := [];
      assert none[0..] == none;
      MatchesAt(pattern[1..], none, 0);
    }
  }

  /**
   What is still to be decided: without a star, the rest; after one, whether the pattern behind it matches from
   `resume` on.
   */
  ghost predicate Undecided(pattern: Name, name: Name, p: nat, n: nat, star: Option<nat>, resume: nat) {
    && p <= |pattern| && n <= |name| && resume <= n
    && (star.None? ==> (Matches(pattern, name) <==> Matches(pattern[p..], name[n..])))
    && (star.Some? ==>
          && star.value < p && n - resume == p - star.value - 1
          && Literal(pattern[star.value + 1..p], name[resume..n])
          && (Matches(pattern, name) <==>
            exists k :: resume <= k <= |name| && Matches(pattern[star.value + 1..], name[k..])))
  }

  /** The whole pattern matches exactly if the current attempt does, or a later one after the last star. */
  lemma {:induction false} AttemptDecides(pattern: Name, name: Name, p: nat, n: nat, star: nat, resume: nat, k: nat)
    requires star < p <= |pattern| && resume <= n <= |name| && n - resume == p - star - 1 && k <= |name|
    requires Literal(pattern[star + 1..p], name[resume..n])
    ensures Matches(pattern[star + 1..], name[resume..]) <==> Matches(pattern[p..], name[n..])
    ensures Matches(pattern[star + 1..], name[k..]) ==>
      k + (n - resume) <= |name| && Matches(pattern[p..], name[k + (n - resume)..])
  {
    hide Matches, Literal;
    var plain, rest := pattern[star + 1..p], pattern[p..];
    assert pattern[star + 1..] == plain + rest;
    assert forall i :: 0 <= i < |plain| ==> plain[i] != STAR by { LiteralPlain(plain, name[resume..n]); }
    LiteralFirst(plain, rest, name[resume..]);
    assert name[resume..][..|plain|] == name[resume..n] && name[resume..][|plain|..] == name[n..];
    LiteralFirst(plain, rest, name[k..]);
    if |plain| <= |name[k..]| {
      assert name[k..][|plain|..] == name[k + |plain|..];
    }
  }

  lemma {:induction false} LiteralPlain(plain: Name, name: Name)
    requires Literal(plain, name)
    ensures forall i :: 0 <= i < |plain| ==> plain[i] != STAR
  {
  }

  /** A second star settles the first: whatever a later attempt could reach, the new star reaches too. */
  lemma {:induction false} NewStar(pattern: Name, name: Name, p: nat, n: nat, star: Option<nat>, resume: nat)
    requires Undecided(pattern, name, p, n, star, resume) && p < |pattern| && pattern[p] == STAR
    ensures Undecided(pattern, name, p + 1, n, Some(p), n)
  {
    assert Matches(pattern, name) <==> Matches(pattern[p..], name[n..]) by {
      hide Matches, Literal;
      if star.Some? {
        if k :| resume <= k <= |name| && Matches(pattern[star.value + 1..], name[k..]) {
          LaterReach(pattern, name, p, n, star.value, resume, k);
        }
        AttemptDecides(pattern, name, p, n, star.value, resume, resume);
      }
    }
    hide Matches;
    assert pattern[p..] == [STAR] + pattern[p + 1..];
    StarWithin(pattern[p + 1..], name, n);
  }

  lemma {:induction false} LaterReach(pattern: Name, name: Name, p: nat, n: nat, star: nat, resume: nat, k: nat)
    requires star < p < |pattern| && pattern[p] == STAR && resume <= n <= |name| && n - resume == p - star - 1
    requires Literal(pattern[star + 1..p], name[resume..n])
    requires resume <= k <= |name| && Matches(pattern[star + 1..], name[k..])
    ensures Matches(pattern[p..], name[n..])
  {
    hide Matches, Literal;
    assert pattern[p..] == [STAR] + pattern[p + 1..];
    AttemptDecides(pattern, name, p, n, star, resume, k);
    LaterSuffix(pattern[p + 1..], name, n, k + (n - resume));
  }

  lemma {:induction false} StarWithin(rest: Name, name: Name, n: nat)
    requires n <= |name|
    ensures Matches([STAR] + rest, name[n..]) <==> exists k :: n <= k <= |name| && Matches(rest, name[k..])
  {
    hide Matches;
    StarFirst(rest, name[n..]);
    if k :| 0 <= k <= |name[n..]| && Matches(rest, name[n..][k..]) {
      assert name[n..][k..] == name[n + k..];
    }
    if k :| n <= k <= |name| && Matches(rest, name[k..]) {
      assert name[n..][k - n..] == name[k..];
    }
  }

  lemma {:induction false} LaterSuffix(rest: Name, name: Name, n: nat, later: nat)
    requires n <= later <= |name| && Matches([STAR] + rest, name[later..])
    ensures Matches([STAR] + rest, name[n..])
  {
    hide Matches;
    StarFirst(rest, name[later..]);
    StarFirst(rest, name[n..]);
    var k :| 0 <= k <= |name[later..]| && Matches(rest, name[later..][k..]);
    assert name[later..][k..] == name[n..][later - n + k..];
  }

  lemma {:induction false} SameByte(pattern: Name, name: Name, p: nat, n: nat, star: Option<nat>, resume: nat)
    requires Undecided(pattern, name, p, n, star, resume)
    requires p < |pattern| && n < |name| && pattern[p] != STAR && pattern[p] == name[n]
    ensures Undecided(pattern, name, p + 1, n + 1, star, resume)
  {
    if star.None? {
      assert pattern[p..][1..] == pattern[p + 1..] && name[n..][1..] == name[n + 1..];
    } else {
      assert pattern[star.value + 1..p + 1] == pattern[star.value + 1..p] + [pattern[p]];
      assert name[resume..n + 1] == name[resume..n] + [name[n]];
    }
    hide Matches;
  }

  /** A mismatch rules the current attempt out. */
  lemma {:induction false} Mismatch(pattern: Name, name: Name, p: nat, n: nat, star: Option<nat>, resume: nat)
    requires Undecided(pattern, name, p, n, star, resume)
    requires n < |name| && (p < |pattern| ==> pattern[p] != STAR && pattern[p] != name[n])
    ensures star.None? ==> !Matches(pattern, name)
    ensures star.Some? ==> Undecided(pattern, name, star.value + 1, resume + 1, star, resume + 1)
  {
    assert !Matches(pattern[p..], name[n..]);
    hide Matches;
    if star.Some? {
      AttemptDecides(pattern, name, p, n, star.value, resume, resume);
      assert (exists k :: resume <= k <= |name| && Matches(pattern[star.value + 1..], name[k..]))
        <==> exists k :: resume + 1 <= k <= |name| && Matches(pattern[star.value + 1..], name[k..]);
    }
  }

  /** At the end of the name, the rest of the pattern must match nothing; no later attempt has room. */
  lemma {:induction false} NameEnds(pattern: Name, name: Name, p: nat, star: Option<nat>, resume: nat)
    requires Undecided(pattern, name, p, |name|, star, resume)
    ensures Matches(pattern, name) <==> Matches(pattern[p..], [])
  {
    hide Matches;
    assert name[|name|..] == [];
    if star.Some? {
      AttemptDecides(pattern, name, p, |name|, star.value, resume, resume);
      if k :| resume <= k <= |name| && Matches(pattern[star.value + 1..], name[k..]) {
        AttemptDecides(pattern, name, p, |name|, star.value, resume, k);
      }
    }
  }

  /** Matches a name, backtracking only to the last star. */
  method Glob(pattern: Name, name: Name) returns (matched: bool)
    ensures matched <==> Matches(pattern, name)
  {
    hide Matches, Undecided;
    var p, n := 0, 0;
    var star: Option<nat>, resume := None, 0;
    assert Undecided(pattern, name, p, n, star, resume) by { Start(pattern, name); }
    while n < |name|
      invariant 0 <= p <= |pattern| && 0 <= resume <= n <= |name|
      invariant star.Some? ==> star.value < |pattern| && star.value < p
      invariant Undecided(pattern, name, p, n, star, resume)
      decreases |name| - resume, if star.Some? then |pattern| - star.value else |pattern| + 1, |name| - n
    {
      Bounds(pattern, name, p, n, star, resume);
      if p < |pattern| && pattern[p] == STAR {
        NewStar(pattern, name, p, n, star, resume);
        star := Some(p);
        resume := n;
        p := p + 1;
      } else if p < |pattern| && pattern[p] == name[n] {
        SameByte(pattern, name, p, n, star, resume);
        p := p + 1;
        n := n + 1;
      } else {
        Mismatch(pattern, name, p, n, star, resume);
        if star.None? {
          return false;
        }
        p := star.value + 1;
        resume := resume + 1;
        n := resume;
      }
    }
    NameEnds(pattern, name, p, star, resume);
    StarsMatchNothing(pattern[p..]);
    assert (forall i :: 0 <= i < |pattern[p..]| ==> pattern[p..][i] == STAR) <==> forall i :: p <= i < |pattern| ==>
      pattern[i] == STAR by {
      assert forall i :: p <= i < |pattern| ==> pattern[i] == pattern[p..][i - p];
    }
    return forall i :: p <= i < |pattern| ==> pattern[i] == STAR;
  }

  lemma {:induction false} Start(pattern: Name, name: Name)
    ensures Undecided(pattern, name, 0, 0, None, 0)
  {
    hide Matches;
    assert pattern[0..] == pattern && name[0..] == name;
  }

  lemma {:induction false} Bounds(pattern: Name, name: Name, p: nat, n: nat, star: Option<nat>, resume: nat)
    requires Undecided(pattern, name, p, n, star, resume)
    ensures star.Some? ==> star.value < p && n - resume == p - star.value - 1
  {
    hide Matches, Literal;
  }
}
