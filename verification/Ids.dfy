/**
 * Connection identifiers. The server pages by `c.id > ?` and both sides compare
 * identifiers as strings, so the order here is the lexicographic one and the empty
 * string, which never names a connection, is below every identifier.
 */
module Ids {

  type Id = string

  predicate Less(a: Id, b: Id)
    decreases |a|
  {
    && b != ""
    && (a == "" || a[0] < b[0] || (a[0] == b[0] && Less(a[1..], b[1..])))
  }

  lemma {:induction false} Irreflexive(a: Id)
    ensures !Less(a, a)
    decreases |a|
  {
    if a != "" {
      Irreflexive(a[1..]);
    }
  }

  lemma {:induction false} Transitive(a: Id, b: Id, c: Id)
    requires Less(a, b) && Less(b, c)
    ensures Less(a, c)
    decreases |a|
  {
    if a != "" && a[0] == b[0] && b[0] == c[0] {
      Transitive(a[1..], b[1..], c[1..]);
    }
  }

  lemma {:induction false} Total(a: Id, b: Id)
    ensures Less(a, b) || a == b || Less(b, a)
    decreases |a|
  {
    if a != "" && b != "" && a[0] == b[0] {
      Total(a[1..], b[1..]);
      assert a == [a[0]] + a[1..] && b == [b[0]] + b[1..];
    }
  }

  /** Identifiers are strictly and totally ordered, the empty one first. */
  lemma StrictTotalOrder()
    ensures forall a: Id :: !Less(a, a)
    ensures forall a: Id, b: Id, c: Id :: Less(a, b) && Less(b, c) ==> Less(a, c)
    ensures forall a: Id, b: Id {:trigger Less(a, b)} :: Less(a, b) || a == b || Less(b, a)
    ensures forall a: Id :: Less("", a) <==> a != ""
  {
    forall a: Id ensures !Less(a, a) { Irreflexive(a); }
    forall a: Id, b: Id, c: Id | Less(a, b) && Less(b, c) ensures Less(a, c) { Transitive(a, b, c); }
    forall a: Id, b: Id ensures Less(a, b) || a == b || Less(b, a) { Total(a, b); }
  }
}
