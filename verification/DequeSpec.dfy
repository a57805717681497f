/** The abstract container that a worker's Chase-Lev deque refines: the owner works at the back,
    thieves at the front. */
module DequeSpec {

  function PushBack<T>(s: seq<T>, t: T): seq<T> {
    s + [t]
  }

  function TakeBack<T>(s: seq<T>): (seq<T>, T)
    requires s != []
  {
    (s[..|s| - 1], s[|s| - 1])
  }

  function StealFront<T>(s: seq<T>): (seq<T>, T)
    requires s != []
  {
    (s[1..], s[0])
  }
}
