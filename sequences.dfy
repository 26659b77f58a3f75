/** Regrouping facts about sequence concatenation, used where a proof appends block after block. */
module Sequences {
  /** Appending nothing, at either end, changes nothing. */
  lemma EmptyAppend<T>(s: seq<T>)
    ensures [] + s == s && s + [] == s
  {
  }

  lemma AppendAssoc<T>(a: seq<T>, b: seq<T>, c: seq<T>)
    ensures a + b + c == a + (b + c)
  {
  }

  /** Appending three blocks one after the other appends their concatenation. */
  lemma AppendThree<T>(s: seq<T>, b1: seq<T>, b2: seq<T>, b3: seq<T>)
    ensures s + b1 + b2 + b3 == s + (b1 + b2 + b3)
  {
  }

  /** Appending four blocks one after the other appends their concatenation. */
  lemma AppendFour<T>(s: seq<T>, b1: seq<T>, b2: seq<T>, b3: seq<T>, b4: seq<T>)
    ensures s + b1 + b2 + b3 + b4 == s + (b1 + b2 + b3 + b4)
  {
  }
}
