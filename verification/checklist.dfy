/** The checklist toggle shared by the step list and the ingredient list:
    copy the set, then delete the key if present, add it otherwise. */
module Checklist {

  /** The set after toggling `key`: `key` changes membership and every
      other key keeps it. */
  function Flip<T(!new)>(s: set<T>, key: T): (r: set<T>)
    ensures key in r <==> key !in s
    ensures forall k | k != key :: k in r <==> k in s
  {
    if key in s then s - {key} else s + {key}
  }

  /** Toggling the same key twice gives back the original set. */
  lemma {:induction false} FlipTwice<T(!new)>(s: set<T>, key: T)
    ensures Flip(Flip(s, key), key) == s
  {
    assert forall k :: k in Flip(Flip(s, key), key) <==> k in s;
  }
}
