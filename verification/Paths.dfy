/**
 Repository paths as strings (src/domain.rs): parsing, ancestors, and the string range that holds
 exactly a path's descendants.
 */
module Paths {
  import opened Names
  import opened Chunks
  import opened Directories

  const SLASH: Byte := 47
  const DOT: Byte := 46
  const MAX_DEPTH: nat := 256
  /** Backslash, colon, NUL and slash, which no name contains. */
  const FORBIDDEN: set<Byte> := {92, 58, 0, 47}
  /** ".javelin" */
  const RESERVED: Name := [46, 106, 97, 118, 101, 108, 105, 110]

  function LowerByte(c: Byte): Byte {
    if 65 <= c <= 90 then c + 32 else c
  }

  /** ASCII lower case. */
  function Lower(s: Name): (lower: Name)
    ensures |lower| == |s|
  {
    if s == [] then [] else [LowerByte(s[0])] + Lower(s[1..])
  }

  predicate Plain(name: Name) {
    forall c :: c in name ==> c !in FORBIDDEN
  }

  predicate ValidName(name: Name) {
    name != [] && name != [DOT] && name != [DOT, DOT] && Lower(name) != RESERVED && Plain(name)
  }

  predicate Joinable(path: Path) {
    path != [] && forall n :: n in path ==> SLASH !in n
  }

  /** A path as the store keeps it: names joined by slashes. */
  function Join(path: Path): Name
    requires path != []
  {
    if |path| == 1 then path[0] else path[0] + [SLASH] + Join(path[1..])
  }

  /** The components between slashes. */
  function Split(s: Name): (path: Path)
    ensures path != []
  {
    if SLASH !in s then [s]
    else
      var i := FirstSlash(s);
      [s[..i]] + Split(s[i + 1..])
  }

  function FirstSlash(s: Name): (i: nat)
    requires SLASH in s
    ensures i < |s| && s[i] == SLASH && SLASH !in s[..i]
  {
    if s[0] == SLASH then 0
    else
      assert s == [s[0]] + s[1..];
      var i := 1 + FirstSlash(s[1..]);
      assert s[..i] == [s[0]] + s[1..][..i - 1];
      i
  }

  predicate ValidPath(path: Path) {
    path != [] && |path| <= MAX_DEPTH && (forall n :: n in path ==> ValidName(n)) && |Join(path)| <= MAX_PATH
  }

  /** Parses a path string. */
  function Parse(s: Name): Option<Path> {
    var path := Split(s);
    if s == [] || |s| > MAX_PATH || |path| > MAX_DEPTH || exists n :: n in path && !ValidName(n) then None
      else Some(path)
  }

  lemma {:induction false} FirstSlashAt(name: Name, rest: Name)
    requires SLASH !in name
    ensures SLASH in name + [SLASH] + rest && FirstSlash(name + [SLASH] + rest) == |name|
  {
    var s := name + [SLASH] + rest;
    assert s[|name|] == SLASH;
    assert forall j :: 0 <= j < |name| ==> s[j] != SLASH;
    var i := FirstSlash(s);
    assert forall j :: 0 <= j < i ==> s[..i][j] == s[j] && s[j] != SLASH;
  }

  /** Splitting undoes joining. */
  lemma {:induction false} SplitJoin(path: Path)
    requires Joinable(path)
    ensures Split(Join(path)) == path
  {
    hide Split;
    assert path[0] in path;
    if |path| == 1 {
      assert path == [path[0]];
      SplitOne(path[0]);
    } else {
      assert Joinable(path[1..]);
      SplitJoin(path[1..]);
      SplitStep(path[0], Join(path[1..]));
      assert path == [path[0]] + path[1..];
    }
  }

  lemma {:induction false} SplitOne(name: Name)
    requires SLASH !in name
    ensures Split(name) == [name]
  {
  }

  lemma {:induction false} SplitStep(name: Name, rest: Name)
    requires SLASH !in name
    ensures Split(name + [SLASH] + rest) == [name] + Split(rest)
  {
    hide FirstSlash;
    var s := name + [SLASH] + rest;
    FirstSlashAt(name, rest);
    assert s[..|name|] == name && s[|name| + 1..] == rest;
  }

  /** Joining undoes splitting. */
  lemma {:induction false} JoinSplit(s: Name)
    ensures Joinable(Split(s)) && Join(Split(s)) == s
  {
    if SLASH in s {
      var i := FirstSlash(s);
      JoinSplit(s[i + 1..]);
      var path := Split(s);
      assert path[1..] == Split(s[i + 1..]) && path[0] == s[..i];
      assert s == s[..i] + [SLASH] + s[i + 1..];
    }
  }

  lemma {:induction false} ValidJoinable(path: Path)
    requires ValidPath(path)
    ensures Joinable(path)
  {
    forall n | n in path ensures SLASH !in n
    {
      assert ValidName(n);
    }
  }

  /** Parsing and joining are inverse: each valid path has one string, and a string names at most one path. */
  lemma {:induction false} ParseExact(s: Name, path: Path)
    ensures Parse(s) == Some(path) <==> ValidPath(path) && Join(path) == s
  {
    JoinSplit(s);
    if ValidPath(path) && Join(path) == s {
      ValidJoinable(path);
      SplitJoin(path);
      assert ValidName(path[0]);
      JoinFilled(path);
    }
  }

  lemma {:induction false} JoinFilled(path: Path)
    requires path != [] && path[0] != []
    ensures Join(path) != []
  {
  }

  // --------------------------------------------------------------------------- descendants

  /** The string range `[path + "/", path + "0")`. */
  predicate InRange(s: Name, path: Name) {
    !Less(s, path + [SLASH]) && Less(s, path + [SLASH + 1])
  }

  /** The range holds exactly the strings that extend the path by a slash: '0' follows '/' in byte order. */
  lemma {:induction false} RangeIsPrefix(s: Name, path: Name)
    ensures InRange(s, path) <==> path + [SLASH] <= s
  {
    LessIsByteOrder(s, path + [SLASH]);
    LessIsByteOrder(s, path + [SLASH + 1]);
    PrecedesRange(s, path);
  }

  lemma {:induction false} PrecedesRange(s: Name, path: Name)
    ensures (!Precedes(s, path + [SLASH]) && Precedes(s, path + [SLASH + 1])) <==> path + [SLASH] <= s
  {
    if s == [] {
    } else if path == [] {
      assert path + [SLASH] == [SLASH] && path + [SLASH + 1] == [SLASH + 1];
      assert [SLASH][1..] == [] && [SLASH + 1][1..] == [];
      assert !Precedes(s[1..], []);
      PrefixHead([SLASH], s);
    } else {
      assert (path + [SLASH])[1..] == path[1..] + [SLASH];
      assert (path + [SLASH + 1])[1..] == path[1..] + [SLASH + 1];
      PrecedesRange(s[1..], path[1..]);
      PrefixHead(path + [SLASH], s);
    }
  }

  lemma {:induction false} PrefixHead(a: Name, c: Name)
    requires a != [] && c != []
    ensures a <= c <==> a[0] == c[0] && a[1..] <= c[1..]
  {
    if a[0] == c[0] && a[1..] <= c[1..] {
      assert a == [a[0]] + a[1..] && c == [c[0]] + c[1..];
    }
  }

  /** A path lies in another's range exactly when it is a proper descendant. */
  lemma {:induction false} RangeIsDescendants(q: Path, p: Path)
    requires Joinable(q) && Joinable(p)
    ensures InRange(Join(q), Join(p)) <==> p < q
  {
    RangeIsPrefix(Join(q), Join(p));
    JoinPrefix(q, p);
  }

  lemma {:induction false} JoinPrefix(q: Path, p: Path)
    requires Joinable(q) && Joinable(p)
    ensures Join(p) + [SLASH] <= Join(q) <==> p < q
  {
    assert q[0] in q && p[0] in p;
    if |q| == 1 {
      assert forall i :: 0 <= i < |Join(q)| ==> Join(q)[i] != SLASH;
      assert (Join(p) + [SLASH])[|Join(p)|] == SLASH;
    } else {
      var tail := Join(q[1..]);
      var rest := if |p| == 1 then [] else Join(p[1..]) + [SLASH];
      assert Join(p) + [SLASH] == p[0] + [SLASH] + rest;
      HeadsMatch(p[0], rest, q[0], tail);
      if |p| > 1 {
        JoinPrefix(q[1..], p[1..]);
      }
      assert p == [p[0]] + p[1..] && q == [q[0]] + q[1..];
      assert p < q <==> p[0] == q[0] && p[1..] < q[1..];
    }
  }

  /** Slash-free heads of two strings in prefix relation are the same. */
  lemma {:induction false} HeadsMatch(a: Name, x: Name, c: Name, y: Name)
    requires SLASH !in a && SLASH !in c
    ensures a + [SLASH] + x <= c + [SLASH] + y <==> a == c && x <= y
  {
    var s, t := a + [SLASH] + x, c + [SLASH] + y;
    assert s[|a|] == SLASH && t[|c|] == SLASH;
    assert forall i :: 0 <= i < |a| ==> s[i] == a[i] && a[i] != SLASH;
    assert forall i :: 0 <= i < |c| ==> t[i] == c[i] && c[i] != SLASH;
    if s <= t {
      assert |a| == |c|;
      assert a == s[..|a|] && c == t[..|c|];
      assert x == s[|a| + 1..] && y == t[|a| + 1..];
    }
    if a == c && x <= y {
      assert s <= t by { assert y == x + y[|x|..]; assert t == s + y[|x|..]; }
    }
  }

  // ----------------------------------------------------------------------------- ancestors

  /** The proper ancestors of a path string: what comes before each slash. */
  function AncestorStrings(s: Name): set<Name> {
    set i | 0 <= i < |s| && s[i] == SLASH :: s[..i]
  }

  /** They are the joined proper prefixes. */
  lemma {:induction false} AncestorsArePrefixes(q: Path, s: Name)
    requires Joinable(q)
    ensures s in AncestorStrings(Join(q)) <==> exists p :: p != [] && p < q && Join(p) == s
  {
    var whole := Join(q);
    assert s in AncestorStrings(whole) <==> s + [SLASH] <= whole by {
      if s + [SLASH] <= whole {
        assert whole[|s|] == SLASH && whole[..|s|] == s;
      }
    }
    if s + [SLASH] <= whole {
      JoinSplit(s);
      JoinPrefix(q, Split(s));
    }
    if p :| p != [] && p < q && Join(p) == s {
      assert forall n :: n in p ==> n in q;
      JoinPrefix(q, p);
    }
  }
}
