/**
 * The order pandas sorts `groupby` keys in: Python's comparison of the key
 * values. Strings compare lexicographically by code point, numbers by value.
 */
module Ordering {
  import opened Dataset

  /** Python's `a < b` on strings: lexicographic by code point, a proper prefix first. */
  predicate StrBefore(a: string, b: string) {
    if a == [] then b != []
    else b != [] && (a[0] < b[0] || (a[0] == b[0] && StrBefore(a[1..], b[1..])))
  }

  /** Two distinct strings are ordered one way, and never both ways. */
  lemma {:induction false} StrBeforeTotal(a: string, b: string)
    ensures a != b ==> StrBefore(a, b) || StrBefore(b, a)
    ensures !(StrBefore(a, b) && StrBefore(b, a))
  {
    if a != [] && b != [] && a[0] == b[0] {
      StrBeforeTotal(a[1..], b[1..]);
      assert a == [a[0]] + a[1..] && b == [b[0]] + b[1..];
    }
  }

  /** The string order is transitive. */
  lemma {:induction false} StrBeforeTransitive(a: string, b: string, c: string)
    requires StrBefore(a, b) && StrBefore(b, c)
    ensures StrBefore(a, c)
  {
    if a != [] && a[0] == b[0] && b[0] == c[0] {
      StrBeforeTransitive(a[1..], b[1..], c[1..]);
    }
  }

  /**
   * The order of group keys. Numbers are ordered by value and strings by
   * `StrBefore`; on a key column that mixes both, numbers come before strings,
   * as pandas' mixed-type sort orders them.
   */
  predicate KeyBefore(a: Value, b: Value) {
    if a.Num? && b.Num? then a.x < b.x
    else if a.Str? && b.Str? then StrBefore(a.s, b.s)
    else a.Num?
  }

  /** Key order is total on distinct keys, and asymmetric (so irreflexive). */
  lemma KeyBeforeTotal(a: Value, b: Value)
    ensures a != b ==> KeyBefore(a, b) || KeyBefore(b, a)
    ensures !(KeyBefore(a, b) && KeyBefore(b, a))
  {
    if a.Str? && b.Str? {
      StrBeforeTotal(a.s, b.s);
    }
  }

  /** Key order is transitive: with `KeyBeforeTotal`, a strict total order. */
  lemma KeyBeforeTransitive(a: Value, b: Value, c: Value)
    requires KeyBefore(a, b) && KeyBefore(b, c)
    ensures KeyBefore(a, c)
  {
    if a.Str? && b.Str? && c.Str? {
      StrBeforeTransitive(a.s, b.s, c.s);
    }
  }
}
