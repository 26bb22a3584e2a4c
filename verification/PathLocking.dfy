// The per-path mutexes every vault writer shares.
module PathLocking {
  import opened Text

  // LockTwo's global order: the smaller path first.
  function First(a: string, b: string): string { if Less(b, a) then b else a }
  function Second(a: string, b: string): string { if Less(b, a) then a else b }

  // Both argument orders lock the same two paths in the same order.
  lemma OrderIsGlobal(a: string, b: string)
    ensures First(a, b) == First(b, a) && Second(a, b) == Second(b, a)
    ensures {First(a, b), Second(a, b)} == {a, b}
    ensures a != b ==> Less(First(a, b), Second(a, b))
  {
    LessIsTotal(a, b);
    if Less(a, b) && Less(b, a) {
      LessIsTransitive(a, b, a);
      LessIsStrict(a);
    }
  }

  class Mutex {
    constructor () {}
  }

  class PathLocks {
    var locks: map<string, Mutex>

    // One mutex per path, never shared between two paths.
    ghost predicate Valid() reads this {
      forall p, q | p in locks && q in locks && p != q :: locks[p] != locks[q]
    }

    constructor ()
      ensures Valid() && locks == map[]
    {
      locks := map[];
    }

    // Creates the path's mutex on first use; a mutex once handed out stays the
    // path's only one, which is what lets two writers meet on it.
    method LockFor(rel: string) returns (l: Mutex)
      requires Valid()
      modifies this
      ensures Valid()
      ensures locks == old(locks)[rel := l]
      ensures rel in old(locks) ==> l == old(locks)[rel]
      ensures rel !in old(locks) ==> fresh(l)
    {
      if rel in locks {
        l := locks[rel];
      } else {
        l := new Mutex();
        locks := locks[rel := l];
      }
    }

    // The mutexes LockTwo locks, in the order it locks them.
    method LockTwo(a: string, b: string) returns (order: seq<Mutex>)
      requires Valid()
      modifies this
      ensures Valid()
      ensures locks.Keys == old(locks).Keys + {a, b}
      ensures forall p | p in old(locks) :: locks[p] == old(locks)[p]
      ensures order == if a == b then [locks[a]] else [locks[First(a, b)], locks[Second(a, b)]]
      ensures a != b ==> order[0] != order[1]
    {
      if a == b {
        var only := LockFor(a);
        return [only];
      }
      var lo, hi := a, b;
      if Less(b, a) {
        lo, hi := b, a;
      }
      var first := LockFor(lo);
      var second := LockFor(hi);
      order := [first, second];
    }
  }
}
