/** Per-key totals kept as a dictionary in insertion order: the
    `totals[k] += v` loops of the reports and the `GROUP BY key` / `SUM(amount)`
    queries of the ledger. A dictionary is a sequence of (key, total) pairs. */
module Grouping {
  import opened Collections

  function Keys<K>(ps: seq<(K, int)>): (ks: seq<K>)
    ensures |ks| == |ps|
  {
    if |ps| == 0 then [] else [ps[0].0] + Keys(ps[1..])
  }

  lemma {:induction false} KeysAt<K>(ps: seq<(K, int)>, i: nat)
    requires i < |ps|
    ensures Keys(ps)[i] == ps[i].0
  {
    if i > 0 {
      KeysAt(ps[1..], i - 1);
    }
  }

  function PairValue<K>(p: (K, int)): int {
    p.1
  }

  /** `d.get(k, 0)`: the total of the first pair with key `k`, or 0. */
  function ValueOf<K(==)>(ps: seq<(K, int)>, k: K): int {
    if |ps| == 0 then 0 else if ps[0].0 == k then ps[0].1 else ValueOf(ps[1..], k)
  }

  /** `if k not in d: d[k] = 0` followed by `d[k] += v`. */
  function AddTo<K(==)>(ps: seq<(K, int)>, k: K, v: int): (r: seq<(K, int)>)
    ensures k in Keys(ps) ==> Keys(r) == Keys(ps)
    ensures k !in Keys(ps) ==> Keys(r) == Keys(ps) + [k]
  {
    if |ps| == 0 then [(k, v)]
    else if ps[0].0 == k then
      var r := [(k, ps[0].1 + v)] + ps[1..];
      assert r[1..] == ps[1..];
      r
    else
      var rest := AddTo(ps[1..], k, v);
      var r := [ps[0]] + rest;
      assert r[1..] == rest;
      r
  }

  /** Adding to one key changes that key's total by `v` and no other. */
  lemma {:induction false} AddToValue<K>(ps: seq<(K, int)>, k: K, v: int, j: K)
    ensures ValueOf(AddTo(ps, k, v), j) == ValueOf(ps, j) + (if j == k then v else 0)
  {
    if |ps| > 0 && ps[0].0 != k {
      AddToValue(ps[1..], k, v, j);
    }
  }

  /** Adding to one key adds `v` to the grand total. */
  lemma {:induction false} AddToSum<K>(ps: seq<(K, int)>, k: K, v: int)
    ensures SumOf(AddTo(ps, k, v), PairValue) == SumOf(ps, PairValue) + v
  {
    if |ps| == 0 {
      SumOfCons((k, v), [], PairValue);
    } else {
      assert ps == [ps[0]] + ps[1..];
      SumOfCons(ps[0], ps[1..], PairValue);
      if ps[0].0 == k {
        SumOfCons((k, ps[0].1 + v), ps[1..], PairValue);
      } else {
        AddToSum(ps[1..], k, v);
        SumOfCons(ps[0], AddTo(ps[1..], k, v), PairValue);
      }
    }
  }

  /** The totals per key of `s`, accumulated element by element. */
  function Totals<T, K(==)>(s: seq<T>, key: T -> K, val: T -> int): seq<(K, int)> {
    if |s| == 0 then [] else AddTo(Totals(s[..|s| - 1], key, val), key(s[|s| - 1]), val(s[|s| - 1]))
  }

  /** The keys of the totals are the keys of `s` in first-seen order, each
      once. */
  lemma {:induction false} TotalsKeys<T, K(!new)>(s: seq<T>, key: T -> K, val: T -> int)
    ensures Keys(Totals(s, key, val)) == FirstSeenKeys(s, key)
  {
    if |s| > 0 {
      TotalsKeys(s[..|s| - 1], key, val);
    }
  }

  /** The total of a key is the sum over the elements with that key (0 for a
      key that does not occur). */
  lemma {:induction false} TotalsValue<T(!new), K(!new)>(s: seq<T>, key: T -> K, val: T -> int, k: K)
    ensures ValueOf(Totals(s, key, val), k) == SumOf(WithKey(s, key, k), val)
  {
    if |s| > 0 {
      var init, x := s[..|s| - 1], s[|s| - 1];
      TotalsValue(init, key, val, k);
      AddToValue(Totals(init, key, val), key(x), val(x), k);
      assert s == init + [x];
      FilterSnoc(init, x, HasKey(key, k));
      SumOfSnoc(WithKey(init, key, k), x, val);
    }
  }

  /** The totals add up to the sum over all elements. */
  lemma {:induction false} TotalsSum<T, K(!new)>(s: seq<T>, key: T -> K, val: T -> int)
    ensures SumOf(Totals(s, key, val), PairValue) == SumOf(s, val)
  {
    if |s| > 0 {
      TotalsSum(s[..|s| - 1], key, val);
      AddToSum(Totals(s[..|s| - 1], key, val), key(s[|s| - 1]), val(s[|s| - 1]));
    }
  }

  /** A key without a pair reads as 0. */
  lemma {:induction false} ValueOfAbsent<K>(ps: seq<(K, int)>, k: K)
    ensures k !in Keys(ps) ==> ValueOf(ps, k) == 0
  {
    if |ps| > 0 {
      ValueOfAbsent(ps[1..], k);
    }
  }

  /** With distinct keys, the first match is the only one. */
  lemma {:induction false} ValueOfAt<K>(ps: seq<(K, int)>, i: nat)
    requires i < |ps| && NoDups(Keys(ps))
    ensures ValueOf(ps, ps[i].0) == ps[i].1
  {
    KeysAt(ps, 0);
    KeysAt(ps, i);
    if i > 0 {
      assert Keys(ps)[0] != Keys(ps)[i];
      assert Keys(ps[1..]) == Keys(ps)[1..];
      ValueOfAt(ps[1..], i - 1);
    }
  }

  /** Every entry of the totals is a key of `s` with the sum over the
      elements bearing it. */
  lemma TotalsEntry<T(!new), K(!new)>(s: seq<T>, key: T -> K, val: T -> int, i: nat)
    requires i < |FirstSeenKeys(s, key)|
    ensures |Totals(s, key, val)| == |FirstSeenKeys(s, key)|
    ensures Totals(s, key, val)[i] ==
              (FirstSeenKeys(s, key)[i], SumOf(WithKey(s, key, FirstSeenKeys(s, key)[i]), val))
  {
    var ps := Totals(s, key, val);
    TotalsKeys(s, key, val);
    KeysAt(ps, i);
    ValueOfAt(ps, i);
    TotalsValue(s, key, val, ps[i].0);
  }

  /** Any reordering of the totals (an ORDER BY over the groups) lists each
      key of `s` once, with the sum over the elements bearing it, and adds up
      to the sum over all of `s`. */
  lemma TotalsPermuted<T(!new), K(!new)>(s: seq<T>, key: T -> K, val: T -> int, r: seq<(K, int)>)
    requires multiset(r) == multiset(Totals(s, key, val))
    ensures forall p :: p in r <==> (exists x :: x in s && key(x) == p.0) && p.1 == SumOf(WithKey(s, key, p.0), val)
    ensures NoDups(Keys(r))
    ensures SumOf(r, PairValue) == SumOf(s, val)
  {
    TotalsEntries(s, key, val);
    TotalsMembers(s, key, val, r);
    PermutedKeys(s, key, val, r);
    TotalsSum(s, key, val);
    SumOfPermutation(r, Totals(s, key, val), PairValue);
  }

  /** The totals, entry by entry. */
  lemma TotalsEntries<T(!new), K(!new)>(s: seq<T>, key: T -> K, val: T -> int)
    ensures var ps, ks := Totals(s, key, val), FirstSeenKeys(s, key);
            |ps| == |ks| && forall i :: 0 <= i < |ps| ==> ps[i] == (ks[i], SumOf(WithKey(s, key, ks[i]), val))
  {
    var ps, ks := Totals(s, key, val), FirstSeenKeys(s, key);
    TotalsKeys(s, key, val);
    forall i | 0 <= i < |ps| ensures ps[i] == (ks[i], SumOf(WithKey(s, key, ks[i]), val)) {
      TotalsEntry(s, key, val, i);
    }
  }

  lemma TotalsMembers<T(!new), K(!new)>(s: seq<T>, key: T -> K, val: T -> int, r: seq<(K, int)>)
    requires multiset(r) == multiset(Totals(s, key, val))
    requires var ps, ks := Totals(s, key, val), FirstSeenKeys(s, key);
             |ps| == |ks| && forall i :: 0 <= i < |ps| ==> ps[i] == (ks[i], SumOf(WithKey(s, key, ks[i]), val))
    ensures forall p :: p in r <==> (exists x :: x in s && key(x) == p.0) && p.1 == SumOf(WithKey(s, key, p.0), val)
  {
    forall p ensures p in r <==> (exists x :: x in s && key(x) == p.0) && p.1 == SumOf(WithKey(s, key, p.0), val) {
      TotalsMember(s, key, val, p);
      assert p in r <==> p in multiset(r);
      assert p in Totals(s, key, val) <==> p in multiset(Totals(s, key, val));
    }
  }

  /** The pairs of the totals are the keys of `s` with their sums. */
  lemma TotalsMember<T(!new), K(!new)>(s: seq<T>, key: T -> K, val: T -> int, p: (K, int))
    requires var ps, ks := Totals(s, key, val), FirstSeenKeys(s, key);
             |ps| == |ks| && forall i :: 0 <= i < |ps| ==> ps[i] == (ks[i], SumOf(WithKey(s, key, ks[i]), val))
    ensures p in Totals(s, key, val) <==> (exists x :: x in s && key(x) == p.0) && p.1 == SumOf(WithKey(s, key, p.0), val)
  {
    var ps, ks := Totals(s, key, val), FirstSeenKeys(s, key);
    assert p.0 in ks <==> exists x :: x in s && key(x) == p.0 by {
      if p.0 in ks {
        var i :| 0 <= i < |s| && key(s[i]) == p.0;
        assert s[i] in s;
      }
    }
    if p.0 in ks && p.1 == SumOf(WithKey(s, key, p.0), val) {
      var i :| 0 <= i < |ks| && ks[i] == p.0;
      assert ps[i] == p;
    }
  }

  lemma PermutedKeys<T(!new), K(!new)>(s: seq<T>, key: T -> K, val: T -> int, r: seq<(K, int)>)
    requires multiset(r) == multiset(Totals(s, key, val))
    requires var ps, ks := Totals(s, key, val), FirstSeenKeys(s, key);
             |ps| == |ks| && forall i :: 0 <= i < |ps| ==> ps[i] == (ks[i], SumOf(WithKey(s, key, ks[i]), val))
    ensures NoDups(Keys(r))
  {
    var ps, ks := Totals(s, key, val), FirstSeenKeys(s, key);
    assert NoDups(ps) by {
      forall i, j | 0 <= i < j < |ps| ensures ps[i] != ps[j] {
        assert ks[i] != ks[j];
      }
    }
    PermutationKeepsNoDups(ps, r);
    forall i, j | 0 <= i < j < |r| ensures Keys(r)[i] != Keys(r)[j] {
      KeysAt(r, i);
      KeysAt(r, j);
      assert r[i] in multiset(ps) && r[j] in multiset(ps);
      var a :| 0 <= a < |ps| && ps[a] == r[i];
      var b :| 0 <= b < |ps| && ps[b] == r[j];
      assert r[i] != r[j];
      assert a != b;
      assert ks[a] != ks[b];
    }
  }

  /** `dict(rows)` for rows with distinct keys. */
  function ToMap<K(==,!new)>(ps: seq<(K, int)>): (m: map<K, int>)
    ensures forall k :: k in m <==> k in Keys(ps)
    ensures forall k :: k in m ==> m[k] == ValueOf(ps, k)
  {
    if |ps| == 0 then map[]
    else
      assert Keys(ps) == [ps[0].0] + Keys(ps[1..]);
      ToMap(ps[1..])[ps[0].0 := ps[0].1]
  }
}
