/** The answers an environment object gives, as a list that is used up call by call. */
module Scripts {
  /** `now` is what is left of `was`. */
  predicate LeftOf<T(==)>(was: seq<T>, now: seq<T>) {
    |now| <= |was| && was[|was| - |now|..] == now
  }

  function Used<T>(was: seq<T>, now: seq<T>): seq<T>
    requires |now| <= |was|
  {
    was[..|was| - |now|]
  }

  function Tail<T>(s: seq<T>): seq<T> { if s == [] then [] else s[1..] }

  lemma UsedThen<T>(was: seq<T>, mid: seq<T>, now: seq<T>)
    requires LeftOf(was, mid) && LeftOf(mid, now)
    ensures LeftOf(was, now) && Used(was, now) == Used(was, mid) + Used(mid, now)
  {
    assert was[|was| - |mid|..][|mid| - |now|..] == was[|was| - |now|..];
    assert was == Used(was, mid) + mid && mid == Used(mid, now) + now;
    assert was[..|was| - |now|] == Used(was, mid) + Used(mid, now);
  }

  lemma UsedIn<T>(was: seq<T>, now: seq<T>, x: T)
    requires LeftOf(was, now) && x in Used(was, now)
    ensures x in was
  {
  }
}
