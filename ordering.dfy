/** The values the list view sorts by and the `<` that its comparator applies to them:
    numbers by magnitude, strings lexicographically by character. */
module Ordering {

  /** A sort key: a number (dates, quantities, creation times) or a string (names). */
  datatype KeyValue = Num(n: int) | Text(t: string)

  /** JavaScript's `<` on two strings: lexicographic, a proper prefix first. */
  predicate TextLess(a: string, b: string)
    ensures |a| < |b| && a == b[..|a|] ==> TextLess(a, b)
    ensures |b| <= |a| && b == a[..|b|] ==> !TextLess(a, b)
  {
    if a == [] then b != []
    else if b == [] then false
    else if a[0] != b[0] then a[0] < b[0]
    else TextLess(a[1..], b[1..])
  }

  /** `<` on keys. One sort only ever compares keys of one kind; a number is placed before
      a string only so that the relation is total. */
  predicate Less(a: KeyValue, b: KeyValue)
    ensures a.Num? && b.Num? ==> (Less(a, b) <==> a.n < b.n)
    ensures a.Text? && b.Text? ==> (Less(a, b) <==> TextLess(a.t, b.t))
    ensures Less(a, b) && a.Text? ==> b.Text?
  {
    match (a, b)
    case (Num(x), Num(y)) => x < y
    case (Text(x), Text(y)) => TextLess(x, y)
    case (Num(_), Text(_)) => true
    case (Text(_), Num(_)) => false
  }

  lemma {:induction false} TextLessIrreflexive(a: string)
    ensures !TextLess(a, a)
  {
    if a != [] {
      TextLessIrreflexive(a[1..]);
    }
  }

  lemma {:induction false} TextLessTransitive(a: string, b: string, c: string)
    requires TextLess(a, b) && TextLess(b, c)
    ensures TextLess(a, c)
  {
    if a != [] && b != [] && c != [] && a[0] == b[0] && b[0] == c[0] {
      TextLessTransitive(a[1..], b[1..], c[1..]);
    }
  }

  lemma {:induction false} TextLessTotal(a: string, b: string)
    ensures a == b || TextLess(a, b) || TextLess(b, a)
  {
    if a != [] && b != [] && a[0] == b[0] {
      TextLessTotal(a[1..], b[1..]);
      if a[1..] == b[1..] {
        assert a == [a[0]] + a[1..] && b == [b[0]] + b[1..];
      }
    }
  }

  /** `Less` is a strict total order on keys: irreflexive, transitive, and any two distinct
      keys are comparable. */
  lemma LessStrictTotal(a: KeyValue, b: KeyValue, c: KeyValue)
    ensures !Less(a, a)
    ensures Less(a, b) && Less(b, c) ==> Less(a, c)
    ensures a == b || Less(a, b) || Less(b, a)
  {
    if a.Text? {
      TextLessIrreflexive(a.t);
    }
    if a.Text? && b.Text? && c.Text? && Less(a, b) && Less(b, c) {
      TextLessTransitive(a.t, b.t, c.t);
    }
    if a.Text? && b.Text? {
      TextLessTotal(a.t, b.t);
    }
  }
}
