/** Regrouping lemmas for sequence concatenation. */
module Seqs {
  /** Concatenation is associative. */
  lemma AppendAssoc<T>(a: seq<T>, b: seq<T>, c: seq<T>)
    ensures a + (b + c) == a + b + c
  {
  }

  /** Regrouping a concatenation of four sequences. */
  lemma AppendAssoc4<T>(a: seq<T>, b: seq<T>, c: seq<T>, d: seq<T>)
    ensures a + b + c + d == a + (b + c + d)
  {
  }

  /** The empty sequence is a right unit. */
  lemma AppendEmpty<T>(a: seq<T>)
    ensures a + [] == a
  {
  }

  /** The empty sequence is a left unit. */
  lemma AppendEmptyLeft<T>(a: seq<T>)
    ensures [] + a == a
  {
  }

  /** Dropping the first element of a concatenation whose left part is not empty. */
  lemma DropFirstOfAppend<T>(a: seq<T>, b: seq<T>)
    requires |a| >= 1
    ensures (a + b)[1..] == a[1..] + b
  {
  }
}
