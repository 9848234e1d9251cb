/** Counting the threads of an interleaved system that are at points with some property. */
module Counting {

  /** The threads whose program counter satisfies `p`. */
  function Where<T, Pc>(threads: map<T, Pc>, p: Pc -> bool): set<T> {
    set t | t in threads && p(threads[t])
  }

  function Count<T, Pc>(threads: map<T, Pc>, p: Pc -> bool): nat {
    |Where(threads, p)|
  }

  /** One thread moving changes a count by at most one. */
  lemma CountMove<T, Pc>(threads: map<T, Pc>, t: T, pc: Pc, p: Pc -> bool)
    ensures Count(threads[t := pc], p)
         == Count(threads, p) + (if p(pc) then 1 else 0) - (if t in threads && p(threads[t]) then 1 else 0)
  {
    var before, after := Where(threads, p), Where(threads[t := pc], p);
    Toggle(before, t);
    Toggle(after, t);
    assert t in after <==> p(pc);
    assert t in before <==> t in threads && p(threads[t]);
    assert after - {t} == before - {t} by {
      forall x ensures x in after - {t} <==> x in before - {t} {
        if x != t { assert x in threads[t := pc] <==> x in threads; }
      }
    }
  }

  lemma Toggle<T>(s: set<T>, t: T)
    ensures |s| == |s - {t}| + (if t in s then 1 else 0)
  {
    if t in s {
      assert s == (s - {t}) + {t};
    } else {
      assert s == s - {t};
    }
  }

  lemma CountZero<T, Pc>(threads: map<T, Pc>, p: Pc -> bool)
    requires forall t :: t in threads ==> !p(threads[t])
    ensures Count(threads, p) == 0
  {
    assert Where(threads, p) == {};
  }

  lemma CountPositive<T, Pc>(threads: map<T, Pc>, t: T, p: Pc -> bool)
    requires t in threads && p(threads[t])
    ensures Count(threads, p) >= 1
  {
    assert t in Where(threads, p);
  }

  /** If every thread is at a `p` point or at a `q` point and at no point that is both, the counts add up. */
  lemma CountPartition<T, Pc>(threads: map<T, Pc>, p: Pc -> bool, q: Pc -> bool)
    requires forall t :: t in threads ==> (p(threads[t]) <==> !q(threads[t]))
    ensures Count(threads, p) + Count(threads, q) == |threads|
  {
    assert Where(threads, p) + Where(threads, q) == threads.Keys;
    assert Where(threads, p) !! Where(threads, q);
  }
}
