/**
 Worker selection: `itertools.cycle` over the key order of the worker map.
 The iterator is the saved key order plus the index of the key it yields next.
 */
module RoundRobin {
  import opened Wrappers

  datatype Cycle<K> = Cycle(keys: seq<K>, pos: nat)

  /** The index points into the keys (and is 0 when there are none). */
  predicate Valid<K>(c: Cycle<K>)
  {
    if |c.keys| == 0 then c.pos == 0 else c.pos < |c.keys|
  }

  /** `cycle(keys)`: a fresh iterator, positioned on the first key. */
  function Fresh<K>(keys: seq<K>): (c: Cycle<K>)
    ensures Valid(c) && c.keys == keys && c.pos == 0
  {
    Cycle(keys, 0)
  }

  /**
   `next(iterator)`: the key at the cursor and the iterator moved one place on,
   wrapping after the last key; `None` stands for the `StopIteration` that an
   iterator over no keys raises on every call.
   */
  function Next<K>(c: Cycle<K>): (r: Option<(K, Cycle<K>)>)
    requires Valid(c)
    ensures r.None? <==> |c.keys| == 0
    ensures r.Some? ==>
      && r.value.0 == c.keys[c.pos]
      && Valid(r.value.1) && r.value.1.keys == c.keys
      && r.value.1.pos == (c.pos + 1) % |c.keys|
  {
    if |c.keys| == 0 then None
    else
      var n := |c.keys|;
      assert Wrap(c.pos, n) == (c.pos + 1) % n by {
        DivModUnique(c.pos, n, 0, c.pos);
        WrapIsMod(c.pos, n);
      }
      Some((c.keys[c.pos], Cycle(c.keys, Wrap(c.pos, n))))
  }

  /** The index after `pos`, restarting from 0 after the last of `n` keys. */
  function Wrap(pos: nat, n: nat): (r: nat)
    requires pos < n
    ensures r < n
  {
    if pos + 1 < n then pos + 1 else 0
  }

  /** Wrapping the index agrees with counting modulo n. */
  lemma WrapIsMod(a: nat, n: nat)
    requires n > 0
    ensures Wrap(a % n, n) == (a + 1) % n
  {
    var q, r := a / n, a % n;
    assert a == q * n + r;
    if r + 1 < n {
      DivModUnique(a + 1, n, q, r + 1);
    } else {
      MulSub(q + 1, 1, n);
      DivModUnique(a + 1, n, q + 1, 0);
    }
  }

  /** The iterator after `m` calls of `Next`. */
  function Advance<K>(c: Cycle<K>, m: nat): (c': Cycle<K>)
    requires Valid(c) && |c.keys| > 0
    ensures Valid(c') && c'.keys == c.keys
    decreases m
  {
    if m == 0 then c else Advance(Next(c).value.1, m - 1)
  }

  /** The keys yielded by `m` successive calls of `Next`, in order. */
  function Take<K>(c: Cycle<K>, m: nat): (s: seq<K>)
    requires Valid(c) && |c.keys| > 0
    ensures |s| == m
    decreases m
  {
    if m == 0 then [] else [Next(c).value.0] + Take(Next(c).value.1, m - 1)
  }

  /** Number of occurrences of `k` in `s`. */
  function Count<K(==)>(s: seq<K>, k: K): nat
    decreases |s|
  {
    if |s| == 0 then 0 else (if s[|s| - 1] == k then 1 else 0) + Count(s[..|s| - 1], k)
  }

  predicate Distinct<K(==)>(s: seq<K>)
  {
    forall i, j :: 0 <= i < j < |s| ==> s[i] != s[j]
  }

  /** Quotient and remainder are determined by `a == q * n + r` with `0 <= r < n`. */
  lemma DivModUnique(a: int, n: int, q: int, r: int)
    requires n > 0 && 0 <= r < n && a == q * n + r
    ensures a / n == q && a % n == r
  {
    var q0, r0 := a / n, a % n;
    assert a == q0 * n + r0;
    MulSub(q, q0, n);
    if q > q0 {
      MulAtLeast(q - q0, n);
    } else if q < q0 {
      MulSub(q0, q, n);
      MulAtLeast(q0 - q, n);
    }
  }

  lemma MulSub(x: int, y: int, n: int)
    ensures (x - y) * n == x * n - y * n
  {
  }

  lemma {:induction false} MulAtLeast(x: int, n: int)
    requires x >= 1 && n >= 1
    ensures x * n >= n
    decreases x
  {
    if x > 1 {
      MulAtLeast(x - 1, n);
      MulSub(x, 1, n);
    }
  }

  /** The index reached from `pos` after `i` wraps. */
  function Shift(pos: nat, i: nat, n: nat): (r: nat)
    requires pos < n
    ensures r < n
    decreases i
  {
    if i == 0 then pos else Shift(Wrap(pos, n), i - 1, n)
  }

  lemma WrapShift(pos: nat, i: nat, n: nat)
    requires pos < n && i > 0
    ensures (Wrap(pos, n) + (i - 1)) % n == (pos + i) % n
  {
    if pos + 1 == n {
      var q, r := (i - 1) / n, (i - 1) % n;
      assert i - 1 == q * n + r;
      DivModUnique(n + (i - 1), n, q + 1, r);
    }
  }

  /** Wrapping `i` times from `pos` lands on index (pos + i) mod n. */
  lemma {:induction false} ShiftIsMod(pos: nat, i: nat, n: nat)
    requires pos < n
    ensures Shift(pos, i, n) == (pos + i) % n
    decreases i
  {
    if i == 0 {
      DivModUnique(pos, n, 0, pos);
    } else {
      ShiftIsMod(Wrap(pos, n), i - 1, n);
      WrapShift(pos, i, n);
    }
  }

  /** After `m` calls the cursor has wrapped `m` times. */
  lemma {:induction false} AdvanceShift<K>(c: Cycle<K>, m: nat)
    requires Valid(c) && |c.keys| > 0
    ensures Advance(c, m).pos == Shift(c.pos, m, |c.keys|)
    decreases m
  {
    if m > 0 {
      AdvanceShift(Next(c).value.1, m - 1);
    }
  }

  /** After `m` calls the cursor has moved `m` places, modulo the number of keys. */
  lemma AdvancePos<K>(c: Cycle<K>, m: nat)
    requires Valid(c) && |c.keys| > 0
    ensures Advance(c, m).pos == (c.pos + m) % |c.keys|
  {
    AdvanceShift(c, m);
    ShiftIsMod(c.pos, m, |c.keys|);
  }

  /** The i-th key yielded is the one reached by wrapping `i` times from the cursor. */
  lemma {:induction false} TakeShift<K>(c: Cycle<K>, m: nat, i: nat)
    requires Valid(c) && |c.keys| > 0 && i < m
    ensures Take(c, m)[i] == c.keys[Shift(c.pos, i, |c.keys|)]
    decreases m
  {
    if i > 0 {
      var c1 := Next(c).value.1;
      assert Take(c, m)[i] == Take(c1, m - 1)[i - 1];
      TakeShift(c1, m - 1, i - 1);
    }
  }

  /** The i-th key yielded is the one `i` places past the starting cursor, modulo the key count. */
  lemma TakeIndex<K>(c: Cycle<K>, m: nat, i: nat)
    requires Valid(c) && |c.keys| > 0 && i < m
    ensures Take(c, m)[i] == c.keys[(c.pos + i) % |c.keys|]
  {
    TakeShift(c, m, i);
    ShiftIsMod(c.pos, i, |c.keys|);
  }

  /** The k-th call (0-based) on a fresh iterator yields the key at index k mod N. */
  lemma KthSelection<K>(keys: seq<K>, m: nat, k: nat)
    requires |keys| > 0 && k < m
    ensures Take(Fresh(keys), m)[k] == keys[k % |keys|]
  {
    TakeIndex(Fresh(keys), m, k);
  }

  /** The selection sequence is periodic with period N. */
  lemma Periodic<K>(c: Cycle<K>, m: nat, i: nat)
    requires Valid(c) && |c.keys| > 0 && i + |c.keys| < m
    ensures Take(c, m)[i + |c.keys|] == Take(c, m)[i]
  {
    var n := |c.keys|;
    TakeIndex(c, m, i);
    TakeIndex(c, m, i + n);
    ModPlusN(c.pos + i, n);
  }

  lemma ModPlusN(a: nat, n: nat)
    requires n > 0
    ensures (a + n) % n == a % n
  {
    var q, r := a / n, a % n;
    assert a == q * n + r;
    DivModUnique(a + n, n, q + 1, r);
  }

  /** Taking one more key appends the key yielded by the next call. */
  lemma TakeSnoc<K>(c: Cycle<K>, m: nat)
    requires Valid(c) && |c.keys| > 0
    ensures Take(c, m + 1) == Take(c, m) + [c.keys[Shift(c.pos, m, |c.keys|)]]
  {
    var a, b := Take(c, m + 1), Take(c, m) + [c.keys[Shift(c.pos, m, |c.keys|)]];
    forall i | 0 <= i < m + 1
      ensures a[i] == b[i]
    {
      TakeShift(c, m + 1, i);
      if i < m {
        TakeShift(c, m, i);
      }
    }
  }

  /** How many of the first `m` cursor positions from 0 are `j`. */
  function Hits(m: nat, n: nat, j: nat): nat
    requires n > 0
    decreases m
  {
    if m == 0 then 0 else Hits(m - 1, n, j) + (if Shift(0, m - 1, n) == j then 1 else 0)
  }

  /** The arithmetic step of `HitsFormula`: one more call adds one to the share of key `(m - 1) mod n`. */
  lemma FairStep(m: nat, n: nat, j: nat)
    requires m > 0 && n > 0 && j < n
    ensures m / n + (if j < m % n then 1 else 0)
         == (m - 1) / n + (if j < (m - 1) % n then 1 else 0) + (if (m - 1) % n == j then 1 else 0)
  {
    var q, r := (m - 1) / n, (m - 1) % n;
    assert m - 1 == q * n + r;
    if r + 1 < n {
      DivModUnique(m, n, q, r + 1);
    } else {
      DivModUnique(m, n, q + 1, 0);
    }
  }

  /** Position j comes up m div n times in m steps, plus once more when j < m mod n. */
  lemma {:induction false} HitsFormula(m: nat, n: nat, j: nat)
    requires n > 0 && j < n
    ensures Hits(m, n, j) == m / n + (if j < m % n then 1 else 0)
    decreases m
  {
    if m == 0 {
      DivModUnique(0, n, 0, 0);
    } else {
      HitsFormula(m - 1, n, j);
      ShiftIsMod(0, m - 1, n);
      FairStep(m, n, j);
    }
  }

  /** Key j is yielded exactly as often as its index comes up under the cursor. */
  lemma {:induction false} CountHits<K>(keys: seq<K>, m: nat, j: nat)
    requires |keys| > 0 && Distinct(keys) && j < |keys|
    ensures Count(Take(Fresh(keys), m), keys[j]) == Hits(m, |keys|, j)
    decreases m
  {
    var n := |keys|;
    if m == 0 {
      assert Take(Fresh(keys), 0) == [];
    } else {
      var c := Fresh(keys);
      var prev := Take(c, m - 1);
      var r := Shift(0, m - 1, n);
      CountHits(keys, m - 1, j);
      TakeSnoc(c, m - 1);
      CountSnoc(prev, keys[r], keys[j]);
      DistinctIndex(keys, r, j);
    }
  }

  /**
   Fairness: over M calls on a fresh iterator, the key at index j is chosen
   M div N times, plus once more when j < M mod N.
   */
  lemma Fairness<K>(keys: seq<K>, m: nat, j: nat)
    requires |keys| > 0 && Distinct(keys) && j < |keys|
    ensures Count(Take(Fresh(keys), m), keys[j]) == m / |keys| + (if j < m % |keys| then 1 else 0)
  {
    CountHits(keys, m, j);
    HitsFormula(m, |keys|, j);
  }

  lemma CountSnoc<K>(s: seq<K>, x: K, k: K)
    ensures Count(s + [x], k) == Count(s, k) + (if x == k then 1 else 0)
  {
    assert (s + [x])[..|s|] == s;
  }

  lemma DistinctIndex<K>(s: seq<K>, a: nat, b: nat)
    requires Distinct(s) && a < |s| && b < |s|
    ensures s[a] == s[b] <==> a == b
  {
  }

  lemma CeilBound(m: nat, n: nat, j: nat)
    requires n > 0 && j < n
    ensures m / n <= m / n + (if j < m % n then 1 else 0) <= (m + n - 1) / n
  {
    var q, r := m / n, m % n;
    assert m == q * n + r;
    if r == 0 {
      DivModUnique(m + n - 1, n, q, n - 1);
    } else {
      DivModUnique(m + n - 1, n, q + 1, r - 1);
    }
  }

  /** Every key is chosen either floor(M/N) or ceil(M/N) times over M calls. */
  lemma FairnessBounds<K>(keys: seq<K>, m: nat, j: nat)
    requires |keys| > 0 && Distinct(keys) && j < |keys|
    ensures var count := Count(Take(Fresh(keys), m), keys[j]);
            m / |keys| <= count <= (m + |keys| - 1) / |keys|
  {
    Fairness(keys, m, j);
    CeilBound(m, |keys|, j);
  }

  /** Three keys and nine selections from a fresh cycle: the keys in order, three times over. */
  lemma NineSelections<K>(k0: K, k1: K, k2: K)
    ensures Take(Fresh([k0, k1, k2]), 9) == [k0, k1, k2, k0, k1, k2, k0, k1, k2]
  {
    var keys := [k0, k1, k2];
    var s := Take(Fresh(keys), 9);
    assert s[0] == k0 by { KthSelection(keys, 9, 0); }
    assert s[1] == k1 by { KthSelection(keys, 9, 1); }
    assert s[2] == k2 by { KthSelection(keys, 9, 2); }
    assert s[3] == k0 by { KthSelection(keys, 9, 3); }
    assert s[4] == k1 by { KthSelection(keys, 9, 4); }
    assert s[5] == k2 by { KthSelection(keys, 9, 5); }
    assert s[6] == k0 by { KthSelection(keys, 9, 6); }
    assert s[7] == k1 by { KthSelection(keys, 9, 7); }
    assert s[8] == k2 by { KthSelection(keys, 9, 8); }
  }
}
