/** The abstract container that the shard ring of the thread pool refines. */
module RingSpec {

  /** `log[p]` is the task whose producer reserved position `p`, `pub` the positions whose
      producer has published, `head` the first position no consumer has claimed. */
  datatype Shard<T> = Shard(head: nat, log: seq<T>, pub: set<nat>)

  predicate Valid<T>(r: Shard<T>) {
    && r.head <= |r.log|
    && (forall p {:trigger p in r.pub} :: p in r.pub ==> p < |r.log|)
    && (forall p {:trigger p in r.pub} :: 0 <= p < r.head ==> p in r.pub)
  }

  function Reserve<T>(r: Shard<T>, t: T): Shard<T> {
    r.(log := r.log + [t])
  }

  function Publish<T>(r: Shard<T>, p: nat): Shard<T> {
    r.(pub := r.pub + {p})
  }

  /** What a consumer that tests position `p` may conclude: exact from the head on, and anything
      at all below the head, where the position is stale. */
  predicate MaySee<T>(r: Shard<T>, p: nat, ready: bool) {
    p >= r.head ==> (ready <==> p in r.pub)
  }

  predicate Claimable<T>(r: Shard<T>, pos: nat, n: nat) {
    && r.head == pos
    && pos + n <= |r.log|
    && (forall p {:trigger p in r.pub} :: pos <= p < pos + n ==> p in r.pub)
  }

  function Claim<T>(r: Shard<T>, n: nat): Shard<T> {
    r.(head := r.head + n)
  }
}
