/** Byte strings and the order the store keeps names in: plain byte order, as Rust's `str`. */
module Names {

  type Byte = b: nat | b < 256
  type Name = seq<Byte>

  datatype Option<+T> = None | Some(value: T)

  /** Byte order, as `str` compares: the first differing byte decides, and a prefix comes first. */
  predicate Precedes(a: Name, b: Name) {
    b != [] && (a == [] || a[0] < b[0] || (a[0] == b[0] && Precedes(a[1..], b[1..])))
  }

  /** A name's place in byte order, read as a fraction in base 257 whose digits are the bytes plus one. */
  function Rank(a: Name): (r: real)
    ensures 0.0 <= r < 1.0
  {
    if a == [] then 0.0 else (a[0] as real + 1.0 + Rank(a[1..])) / 257.0
  }

  /** `a` comes strictly before `b`. `LessIsByteOrder` shows that this is byte order. */
  predicate Less(a: Name, b: Name) {
    Rank(a) < Rank(b)
  }

  predicate AtMost(a: Name, b: Name) {
    a == b || Less(a, b)
  }

  lemma {:induction false} LessIsByteOrder(a: Name, b: Name)
    ensures Less(a, b) <==> Precedes(a, b)
  {
    if a != [] && b != [] {
      LessIsByteOrder(a[1..], b[1..]);
    }
  }

  /** Different names have different places. */
  lemma {:induction false} LessTotal(a: Name, b: Name)
    ensures Less(a, b) || a == b || Less(b, a)
  {
    if a != [] && b != [] && a[0] == b[0] {
      LessTotal(a[1..], b[1..]);
      assert a == [a[0]] + a[1..] && b == [b[0]] + b[1..];
    }
  }

  lemma {:induction false} LessTransitive(a: Name, b: Name, c: Name)
    requires Less(a, b) && Less(b, c)
    ensures Less(a, c)
  {
  }

  /** Byte order is a strict total order, in the form that proofs over sorted names use. */
  lemma {:induction false} ByteOrder()
    ensures forall a: Name, b: Name {:trigger Less(a, b)} :: Less(a, b) || a == b || Less(b, a)
  {
    forall a: Name, b: Name ensures Less(a, b) || a == b || Less(b, a)
    {
      LessTotal(a, b);
    }
  }

  /** Every nonempty finite set of names has a first one. */
  lemma {:induction false} FirstExists(names: set<Name>) returns (first: Name)
    requires names != {}
    ensures first in names && forall n :: n in names ==> AtMost(first, n)
  {
    var any :| any in names;
    var rest := names - {any};
    if rest == {} {
      assert names == {any};
      first := any;
    } else {
      var least := FirstExists(rest);
      LessTotal(any, least);
      first := if Less(any, least) then any else least;
      forall n | n in names ensures AtMost(first, n)
      {
        assert n != any ==> AtMost(least, n);
      }
    }
  }
}
