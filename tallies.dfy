/**
 * The value-level meaning of an index map: the insertion-ordered counter of
 * transformed keys with its set of skipped raw keys (what `add` and `sub` change),
 * and the dense 1-based numbering `build_map` compiles from it.
 */
module Tallies {
  import opened Wrappers
  import opened Keys

  /** A mode's key transform; `None` stands for "raised, or returned None". */
  type Transform = string -> Option<Key>

  /** The `OrderedDict` of counts (`order` is its key order) and the `skipped` set. */
  datatype Tally = Tally(order: seq<Key>, counts: map<Key, int>, skipped: set<string>)

  const Empty: Tally := Tally([], map[], {})

  /** No key occurs twice. */
  predicate Distinct(s: seq<Key>)
  {
    forall i, j :: 0 <= i < j < |s| ==> s[i] != s[j]
  }

  /** The key order lists every counted key exactly once. */
  ghost predicate WellFormed(t: Tally)
  {
    Distinct(t.order) && forall k :: k in t.counts <==> k in t.order
  }

  /** Every stored count is at least 1. */
  ghost predicate AllPositive(t: Tally)
  {
    forall k :: k in t.counts ==> t.counts[k] >= 1
  }

  /** The stored count of a key, 0 when it is absent. */
  function Count(t: Tally, k: Key): int
  {
    if k in t.counts then t.counts[k] else 0
  }

  /** The effect of one `add(key)`. */
  function Step(t: Tally, tf: Transform, key: string): (r: Tally)
    requires WellFormed(t)
    ensures WellFormed(r)
    ensures forall k :: Count(r, k) == Count(t, k) + (if tf(key) == Some(k) then 1 else 0)
    ensures r.counts.Keys == t.counts.Keys + (if tf(key).Some? then {tf(key).value} else {})
    ensures tf(key).None? ==> r.order == t.order && r.skipped == t.skipped + {key}
    ensures tf(key).Some? ==> r.skipped == t.skipped
    ensures tf(key).Some? ==>
      r.order == if tf(key).value in t.counts then t.order else t.order + [tf(key).value]
  {
    match tf(key)
    case None => t.(skipped := t.skipped + {key})
    case Some(k) =>
      if k in t.counts then t.(counts := t.counts[k := t.counts[k] + 1])
      else t.(order := t.order + [k], counts := t.counts[k := 1])
  }

  /** The effect of one `sub(key)`: no entry is created or removed, and there is no clamp at 0. */
  function Retract(t: Tally, tf: Transform, key: string): (r: Tally)
    requires WellFormed(t)
    ensures WellFormed(r)
    ensures r.order == t.order && r.skipped == t.skipped && r.counts.Keys == t.counts.Keys
    ensures forall k :: k in t.counts ==>
      r.counts[k] == t.counts[k] - (if tf(key) == Some(k) then 1 else 0)
  {
    match tf(key)
    case None => t
    case Some(k) => if k in t.counts then t.(counts := t.counts[k := t.counts[k] - 1]) else t
  }

  /** `add` called on every value of `vs`, in order, starting from `t`. */
  function Tallied(t: Tally, tf: Transform, vs: seq<string>): (r: Tally)
    requires WellFormed(t)
    ensures WellFormed(r)
    decreases |vs|
  {
    if |vs| == 0 then t else Step(Tallied(t, tf, vs[..|vs| - 1]), tf, vs[|vs| - 1])
  }

  /** How many values of `vs` transform to `k`. */
  function Occurrences(vs: seq<string>, tf: Transform, k: Key): nat
    decreases |vs|
  {
    if |vs| == 0 then 0
    else Occurrences(vs[..|vs| - 1], tf, k) + (if tf(vs[|vs| - 1]) == Some(k) then 1 else 0)
  }

  /** The raw values of `vs` whose transform fails. */
  function Unparsable(vs: seq<string>, tf: Transform): set<string>
  {
    set v | v in vs && tf(v).None?
  }

  /** The first position of `k` in `s`, `|s|` when it does not occur. */
  function Position(s: seq<Key>, k: Key): (p: nat)
    ensures p <= |s| && (p < |s| <==> k in s)
    ensures p < |s| ==> s[p] == k
    ensures forall j :: 0 <= j < p ==> s[j] != k
  {
    if |s| == 0 then 0 else if s[0] == k then 0 else 1 + Position(s[1..], k)
  }

  /** The keys of `order` whose count is positive, in the same order. */
  function Survivors(order: seq<Key>, counts: map<Key, int>): (u: seq<Key>)
    requires forall k :: k in order ==> k in counts
    ensures forall k :: k in u <==> k in order && counts[k] > 0
    ensures Distinct(order) ==> Distinct(u)
  {
    if |order| == 0 then []
    else (if counts[order[0]] > 0 then [order[0]] else []) + Survivors(order[1..], counts)
  }

  /** Strictly ascending in the key order. */
  predicate Ascending(s: seq<Key>)
  {
    forall i, j :: 0 <= i < j < |s| ==> Below(s[i], s[j])
  }

  /** A key below the head of an ascending list extends it. */
  lemma AscendingPrepend(x: Key, s: seq<Key>)
    requires Ascending(s)
    requires |s| > 0 ==> Below(x, s[0])
    ensures Ascending([x] + s)
  {
    forall j | 0 < j < |s| {
      BelowTransitive(x, s[0], s[j]);
    }
  }

  /** An ascending list has no repeats. */
  lemma AscendingDistinct(s: seq<Key>)
    requires Ascending(s)
    ensures Distinct(s)
  {
    forall i, j | 0 <= i < j < |s|
      ensures s[i] != s[j]
    {
      if s[i] == s[j] {
        BelowIrreflexive(s[i]);
      }
    }
  }

  /** One insertion step of sorting `s` with `Below`. */
  function Insert(x: Key, s: seq<Key>): (r: seq<Key>)
    requires Ascending(s) && x !in s
    ensures Ascending(r) && |r| == |s| + 1
    ensures multiset(r) == multiset(s) + multiset{x}
    ensures forall y :: y in r <==> y == x || y in s
  {
    if |s| == 0 || Below(x, s[0]) then
      AscendingPrepend(x, s);
      [x] + s
    else
      BelowTotal(x, s[0]);
      var rest := Insert(x, s[1..]);
      assert s == [s[0]] + s[1..];
      AscendingPrepend(s[0], rest);
      [s[0]] + rest
  }

  /** `list.sort()` of a list of distinct keys. */
  function SortKeys(s: seq<Key>): (r: seq<Key>)
    requires Distinct(s)
    ensures Ascending(r) && |r| == |s|
    ensures multiset(r) == multiset(s)
    ensures forall y :: y in r <==> y in s
  {
    if |s| == 0 then []
    else
      assert s == [s[0]] + s[1..];
      Insert(s[0], SortKeys(s[1..]))
  }

  /** The keys in the order they are numbered: insertion order, or ascending when `sort`. */
  function Ordered(u: seq<Key>, sort: bool): (r: seq<Key>)
    requires Distinct(u)
    ensures Distinct(r) && |r| == |u|
    ensures forall y :: y in r <==> y in u
    ensures sort ==> Ascending(r)
    ensures !sort ==> r == u
  {
    if sort then
      var r := SortKeys(u);
      AscendingDistinct(r);
      r
    else u
  }

  /** The map the numbering loop of `build_map` fills: `u[i]` gets `i + 1`. */
  function Enumerate(u: seq<Key>): (m: map<Key, int>)
    ensures forall k :: k in m <==> k in u
    ensures forall k :: k in m ==> 1 <= m[k] <= |u|
    decreases |u|
  {
    if |u| == 0 then map[] else Enumerate(u[..|u| - 1])[u[|u| - 1] := |u|]
  }

  /** One more turn of the numbering loop numbers `u[i]` with `i + 1`. */
  lemma EnumerateSnoc(m: map<Key, int>, m0: map<Key, int>, u: seq<Key>, i: nat)
    requires i < |u| && m == m0 + Enumerate(u[..i])
    ensures m[u[i] := i + 1] == m0 + Enumerate(u[..i + 1])
  {
    assert u[..i + 1][..i] == u[..i];
  }

  /** A bijection from its keys onto `1..|m|`. */
  predicate IsDense(m: map<Key, int>)
  {
    && (forall k :: k in m ==> 1 <= m[k] <= |m|)
    && (forall a, b :: a in m && b in m && m[a] == m[b] ==> a == b)
    && (forall i :: 1 <= i <= |m| ==> i in m.Values)
  }

  /** The numbering `build_map` compiles from a counter. */
  function DenseMap(t: Tally, sort: bool): map<Key, int>
    requires WellFormed(t)
  {
    Enumerate(Ordered(Survivors(t.order, t.counts), sort))
  }

  // ---------------------------------------------------------------------------
  // Counting

  /** After a run of `add` calls, a key's count is its old count plus its occurrences. */
  lemma {:induction false} TalliedCount(t: Tally, tf: Transform, vs: seq<string>, k: Key)
    requires WellFormed(t)
    ensures Count(Tallied(t, tf, vs), k) == Count(t, k) + Occurrences(vs, tf, k)
    decreases |vs|
  {
    if |vs| > 0 {
      TalliedCount(t, tf, vs[..|vs| - 1], k);
    }
  }

  /** A run of `add` calls records exactly the values whose transform fails as skipped. */
  lemma {:induction false} TalliedSkipped(t: Tally, tf: Transform, vs: seq<string>)
    requires WellFormed(t)
    ensures Tallied(t, tf, vs).skipped == t.skipped + Unparsable(vs, tf)
    decreases |vs|
  {
    if |vs| > 0 {
      var init := vs[..|vs| - 1];
      TalliedSkipped(t, tf, init);
      assert vs == init + [vs[|vs| - 1]];
      assert Unparsable(vs, tf) == Unparsable(init, tf) + Unparsable([vs[|vs| - 1]], tf);
    }
  }

  /** Counting `a + b` is counting `a`, then `b`. */
  lemma {:induction false} TalliedAppend(t: Tally, tf: Transform, a: seq<string>, b: seq<string>)
    requires WellFormed(t)
    ensures Tallied(t, tf, a + b) == Tallied(Tallied(t, tf, a), tf, b)
    decreases |b|
  {
    if |b| == 0 {
      assert a + b == a;
    } else {
      TalliedAppend(t, tf, a, b[..|b| - 1]);
      assert (a + b)[..|a + b| - 1] == a + b[..|b| - 1];
    }
  }

  /** Keys are only ever appended to the insertion order. */
  lemma {:induction false} TalliedOrderGrows(t: Tally, tf: Transform, vs: seq<string>)
    requires WellFormed(t)
    ensures t.order <= Tallied(t, tf, vs).order
    decreases |vs|
  {
    if |vs| > 0 {
      TalliedOrderGrows(t, tf, vs[..|vs| - 1]);
    }
  }

  /** Without `sub`, every stored count is at least 1. */
  lemma {:induction false} TalliedPositive(t: Tally, tf: Transform, vs: seq<string>)
    requires WellFormed(t)
    requires AllPositive(t)
    ensures AllPositive(Tallied(t, tf, vs))
    decreases |vs|
  {
    if |vs| > 0 {
      TalliedPositive(t, tf, vs[..|vs| - 1]);
      var p := Tallied(t, tf, vs[..|vs| - 1]);
      var r := Tallied(t, tf, vs);
      assert r == Step(p, tf, vs[|vs| - 1]);
      forall k | k in r.counts
        ensures r.counts[k] >= 1
      {
        assert Count(r, k) == r.counts[k];
        if k in p.counts {
          assert Count(p, k) == p.counts[k];
        }
      }
    }
  }

  /**
   * For a counting pass from scratch: a key is present iff some value transforms to
   * it, and its count is the number of such values.
   */
  lemma CountingPass(tf: Transform, vs: seq<string>, k: Key)
    ensures var r := Tallied(Empty, tf, vs);
      && (k in r.counts <==> Occurrences(vs, tf, k) > 0)
      && Count(r, k) == Occurrences(vs, tf, k)
  {
    TalliedCount(Empty, tf, vs, k);
    TalliedPositive(Empty, tf, vs);
  }

  /** Without `sub`, no counted key is dropped: every counted key survives. */
  lemma {:induction false} SurvivorsOfPositive(order: seq<Key>, counts: map<Key, int>)
    requires forall k :: k in order ==> k in counts && counts[k] >= 1
    ensures Survivors(order, counts) == order
    decreases |order|
  {
    if |order| > 0 {
      SurvivorsOfPositive(order[1..], counts);
      assert order == [order[0]] + order[1..];
    }
  }

  /** A key of a prefix comes before any key appended after it. */
  lemma PrefixPositions(o1: seq<Key>, o: seq<Key>, a: Key, b: Key)
    requires o1 <= o && a in o1 && b in o && b !in o1
    ensures a in o && Position(o, a) < Position(o, b)
  {
    var pa := Position(o1, a);
    assert o[pa] == a;
    assert o[..|o1|] == o1;
  }

  /** Counting more values only extends the insertion order. */
  lemma OrderExtends(tf: Transform, vs: seq<string>, n: nat)
    requires n <= |vs|
    ensures Tallied(Empty, tf, vs[..n]).order <= Tallied(Empty, tf, vs).order
  {
    var p, rest := vs[..n], vs[n..];
    SplitAt(vs, n);
    TalliedAppend(Empty, tf, p, rest);
    TalliedOrderGrows(Tallied(Empty, tf, p), tf, rest);
  }

  /** A sequence is its prefix followed by its suffix. */
  lemma SplitAt(vs: seq<string>, n: nat)
    requires n <= |vs|
    ensures vs[..n] + vs[n..] == vs
  {
  }

  /** After counting from scratch, a key is in the order iff some value transforms to it. */
  lemma InOrderIffOccurs(tf: Transform, vs: seq<string>, k: Key)
    ensures k in Tallied(Empty, tf, vs).order <==> Occurrences(vs, tf, k) > 0
  {
    CountingPass(tf, vs, k);
  }

  /**
   * Insertion order is the order of first appearance: if `vs[i]` is the first value
   * that brings in `a` and no value up to it transforms to `b`, `a` comes before `b`.
   */
  lemma InsertionOrder(tf: Transform, vs: seq<string>, i: nat, a: Key, b: Key)
    requires i < |vs| && tf(vs[i]) == Some(a)
    requires Occurrences(vs[..i + 1], tf, b) == 0
    requires b in Tallied(Empty, tf, vs).counts
    ensures var o := Tallied(Empty, tf, vs).order;
      a in o && b in o && Position(o, a) < Position(o, b)
  {
    var p := vs[..i + 1];
    assert p[..i] == vs[..i] && p[i] == vs[i];
    assert Occurrences(p, tf, a) >= 1;
    InOrderIffOccurs(tf, p, a);
    InOrderIffOccurs(tf, p, b);
    InOrderIffOccurs(tf, vs, b);
    CountingPass(tf, vs, b);
    OrderExtends(tf, vs, i + 1);
    PrefixPositions(Tallied(Empty, tf, p).order, Tallied(Empty, tf, vs).order, a, b);
  }

  // ---------------------------------------------------------------------------
  // The dense numbering

  /** On a list without repeats, `Enumerate` numbers `u[i]` with `i + 1` and is dense. */
  lemma {:induction false} EnumerateNumbers(u: seq<Key>)
    requires Distinct(u)
    ensures |Enumerate(u)| == |u|
    ensures forall i :: 0 <= i < |u| ==> Enumerate(u)[u[i]] == i + 1
    decreases |u|
  {
    if |u| > 0 {
      var init := u[..|u| - 1];
      EnumerateNumbers(init);
      var m0 := Enumerate(init);
      assert u[|u| - 1] !in m0;
      forall i | 0 <= i < |u|
        ensures Enumerate(u)[u[i]] == i + 1
      {
        if i < |u| - 1 {
          assert u[i] == init[i];
        }
      }
    }
  }

  lemma EnumerateIsDense(u: seq<Key>, m: map<Key, int>)
    requires Distinct(u) && m == Enumerate(u)
    ensures IsDense(m)
    ensures |m| == |u|
  {
    EnumerateNumbers(u);
    NumberingIsDense(u, m);
  }

  /** A map numbering the `i`-th key of `u` with `i + 1`, and nothing else, is dense. */
  lemma NumberingIsDense(u: seq<Key>, m: map<Key, int>)
    requires |m| == |u| && forall k :: k in m <==> k in u
    requires forall i :: 0 <= i < |u| ==> m[u[i]] == i + 1
    ensures IsDense(m)
  {
    forall a, b | a in m && b in m && m[a] == m[b]
      ensures a == b
    {
      var i := Position(u, a);
      var j := Position(u, b);
      assert m[u[i]] == i + 1 && m[u[j]] == j + 1;
    }
    forall i | 1 <= i <= |m|
      ensures i in m.Values
    {
      assert m[u[i - 1]] == i;
    }
  }

  /** The position of a key found after the head, counted from the head. */
  lemma PositionInTail(s: seq<Key>, x: Key)
    requires Distinct(s) && |s| > 0 && x in s[1..]
    ensures Position(s, x) == 1 + Position(s[1..], x)
  {
    assert x != s[0];
  }

  /** Every key of `u` occurs in `order`, and in the same relative order. */
  ghost predicate Follows(u: seq<Key>, order: seq<Key>)
  {
    && (forall k :: k in u ==> k in order)
    && (forall i, j :: 0 <= i < j < |u| ==> Position(order, u[i]) < Position(order, u[j]))
  }

  /** A sequence that follows the tail of `order` follows `order` itself. */
  lemma FollowsTail(u: seq<Key>, order: seq<Key>)
    requires Distinct(order) && |order| > 0 && Follows(u, order[1..])
    ensures Follows(u, order)
  {
    forall i, j | 0 <= i < j < |u|
      ensures Position(order, u[i]) < Position(order, u[j])
    {
      assert u[i] in order[1..] && u[j] in order[1..];
      PositionInTail(order, u[i]);
      PositionInTail(order, u[j]);
    }
  }

  /** Putting the head of `order` in front keeps following `order`. */
  lemma FollowsCons(u: seq<Key>, order: seq<Key>)
    requires Distinct(order) && |order| > 0 && Follows(u, order)
    requires forall k :: k in u ==> k in order[1..]
    ensures Follows([order[0]] + u, order)
  {
    var v := [order[0]] + u;
    forall i, j | 0 <= i < j < |v|
      ensures Position(order, v[i]) < Position(order, v[j])
    {
      assert v[j] == u[j - 1] && u[j - 1] in u;
      PositionInTail(order, v[j]);
      if i > 0 {
        var x, y := u[i - 1], u[j - 1];
        assert v[i] == x;
        assert Position(order, u[i - 1]) < Position(order, u[j - 1]);
      }
    }
    assert Follows(v, order);
  }

  /** Filtering keeps the relative order of the surviving keys. */
  lemma {:induction false} SurvivorsKeepOrder(order: seq<Key>, counts: map<Key, int>)
    requires Distinct(order)
    requires forall k :: k in order ==> k in counts
    ensures Follows(Survivors(order, counts), order)
    decreases |order|
  {
    if |order| > 0 {
      var tail := Survivors(order[1..], counts);
      SurvivorsKeepOrder(order[1..], counts);
      FollowsTail(tail, order);
      if counts[order[0]] > 0 {
        FollowsCons(tail, order);
      } else {
        assert Survivors(order, counts) == tail;
      }
    }
  }

  /** The numbering covers exactly the keys with a positive count, densely. */
  lemma DenseMapDomain(t: Tally, sort: bool)
    requires WellFormed(t)
    ensures var m := DenseMap(t, sort);
      && (forall k :: k in m <==> k in t.counts && t.counts[k] > 0)
      && IsDense(m)
      && |m| == |Survivors(t.order, t.counts)|
  {
    var v := Survivors(t.order, t.counts);
    var u := Ordered(v, sort);
    var m := Enumerate(u);
    EnumerateIsDense(u, m);
    assert forall k :: k in m <==> k in v;
  }

  /** On an ascending list, numbers follow the key order. */
  lemma AscendingNumbering(u: seq<Key>, a: Key, b: Key)
    requires Ascending(u) && Distinct(u) && a in u && b in u
    ensures Enumerate(u)[a] < Enumerate(u)[b] <==> Below(a, b)
  {
    EnumerateNumbers(u);
    var i, j := Position(u, a), Position(u, b);
    assert Enumerate(u)[u[i]] == i + 1 && Enumerate(u)[u[j]] == j + 1;
    if j < i {
      BelowAsymmetric(b, a);
    } else if i == j {
      BelowIrreflexive(a);
    }
  }

  /** With `sort`, smaller keys get smaller numbers, and only they do. */
  lemma DenseMapSorted(t: Tally)
    requires WellFormed(t)
    ensures var m := DenseMap(t, true);
      forall a, b :: a in m && b in m ==> (m[a] < m[b] <==> Below(a, b))
  {
    var u := Ordered(Survivors(t.order, t.counts), true);
    forall a, b | a in Enumerate(u) && b in Enumerate(u)
      ensures Enumerate(u)[a] < Enumerate(u)[b] <==> Below(a, b)
    {
      AscendingNumbering(u, a, b);
    }
  }

  /** Two positions of a list that follows `order` keep their relative order there. */
  lemma FollowsAt(u: seq<Key>, order: seq<Key>, i: nat, j: nat)
    requires Follows(u, order) && i < j < |u|
    ensures Position(order, u[i]) < Position(order, u[j])
  {
  }

  /** On a list that follows `order`, numbers follow positions in `order`. */
  lemma OrderNumbering(order: seq<Key>, u: seq<Key>, a: Key, b: Key)
    requires Distinct(u) && a in u && b in u
    requires Follows(u, order)
    ensures Enumerate(u)[a] < Enumerate(u)[b] <==> Position(order, a) < Position(order, b)
  {
    EnumerateNumbers(u);
    var e := Enumerate(u);
    var i, j := Position(u, a), Position(u, b);
    assert e[u[i]] == i + 1 && e[u[j]] == j + 1;
    if j < i {
      FollowsAt(u, order, j, i);
    } else if i < j {
      FollowsAt(u, order, i, j);
    }
  }

  /** Without `sort`, numbers follow the insertion order of the counter. */
  lemma DenseMapInsertionOrder(t: Tally)
    requires WellFormed(t)
    ensures var m := DenseMap(t, false);
      forall a, b :: a in m && b in m ==>
        (m[a] < m[b] <==> Position(t.order, a) < Position(t.order, b))
  {
    var u := Survivors(t.order, t.counts);
    SurvivorsKeepOrder(t.order, t.counts);
    forall a, b | a in Enumerate(u) && b in Enumerate(u)
      ensures Enumerate(u)[a] < Enumerate(u)[b] <==> Position(t.order, a) < Position(t.order, b)
    {
      OrderNumbering(t.order, u, a, b);
    }
  }

  /** A `sub` that takes a key's count from 1 to 0 removes it from the numbering. */
  lemma RetractToZero(t: Tally, tf: Transform, key: string, sort: bool)
    requires WellFormed(t) && tf(key).Some? && Count(t, tf(key).value) == 1
    ensures tf(key).value in DenseMap(t, sort)
    ensures tf(key).value !in DenseMap(Retract(t, tf, key), sort)
  {
    DenseMapDomain(t, sort);
    DenseMapDomain(Retract(t, tf, key), sort);
  }
}
