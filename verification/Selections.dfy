// Filtering, and what it comes to.
module Selections {
  /** The elements that `keep` accepts, in order. */
  function Filter<T>(all: seq<T>, keep: T -> bool): seq<T> {
    if all == [] then [] else (if keep(all[0]) then [all[0]] else []) + Filter(all[1..], keep)
  }

  /** Each accepted element is there as often as before, and no other one. */
  lemma {:induction false} FilterCounts<T>(all: seq<T>, keep: T -> bool, x: T)
    ensures multiset(Filter(all, keep))[x] == if keep(x) then multiset(all)[x] else 0
  {
    if all != [] {
      FilterCounts(all[1..], keep, x);
      assert all == [all[0]] + all[1..];
    }
  }

  lemma {:induction false} FilterConcat<T>(a: seq<T>, b: seq<T>, keep: T -> bool)
    ensures Filter(a + b, keep) == Filter(a, keep) + Filter(b, keep)
  {
    if a == [] {
      assert a + b == b;
    } else {
      FilterFirst(a[0], a[1..], keep);
      FilterFirst(a[0], a[1..] + b, keep);
      FilterConcat(a[1..], b, keep);
      hide Filter;
      assert a == [a[0]] + a[1..] && a + b == [a[0]] + (a[1..] + b);
    }
  }

  lemma FilterFirst<T>(x: T, rest: seq<T>, keep: T -> bool)
    ensures Filter([x] + rest, keep) == (if keep(x) then [x] else []) + Filter(rest, keep)
  {
    assert ([x] + rest)[1..] == rest;
  }

  /** And each stands where as many are accepted before it. */
  lemma FilterAt<T>(all: seq<T>, keep: T -> bool, i: nat)
    requires i < |all| && keep(all[i])
    ensures var rank := |Filter(all[..i], keep)|;
            rank < |Filter(all, keep)| && Filter(all, keep)[rank] == all[i]
  {
    assert all == all[..i] + ([all[i]] + all[i + 1..]);
    FilterConcat(all[..i], [all[i]] + all[i + 1..], keep);
    FilterConcat([all[i]], all[i + 1..], keep);
    assert [all[i]][1..] == [];
  }

  /** When a stretch is accepted and nothing else, filtering cuts it out. */
  lemma {:induction false} FilterRange<T>(all: seq<T>, keep: T -> bool, from: nat, to: nat)
    requires from <= to <= |all| && forall i :: 0 <= i < |all| ==> (keep(all[i]) <==> from <= i < to)
    ensures Filter(all, keep) == all[from..to]
  {
    if all != [] {
      var (f, t) := (if from == 0 then 0 else from - 1, if to == 0 then 0 else to - 1);
      forall i | 0 <= i < |all[1..]| ensures keep(all[1..][i]) <==> f <= i < t {
        assert keep(all[i + 1]) <==> from <= i + 1 < to;
      }
      FilterRange(all[1..], keep, f, t);
      assert all[1..][f..t] == all[f + 1..t + 1];
      if to > 0 {
        assert from == 0 ==> all[0..to] == [all[0]] + all[1..to];
      }
    }
  }
}
