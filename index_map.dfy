/**
 * The per-mode index map: counts transformed keys in insertion order, records the
 * raw keys whose transform fails, and compiles, once, a dense 1-based numbering
 * of the keys whose count is positive.
 */
module IndexMaps {
  import opened Wrappers
  import opened Keys
  import opened Strings
  import opened Tallies

  /** Raised by a lookup before `build_map`. */
  datatype MapError = NotMapped

  /**
   * The default `type_func` is the string 'lamba x : x'. Calling a string raises, and
   * the bare `except` turns that into a failed transform, so every key is skipped.
   */
  function DefaultTransform(key: string): Option<Key>
  {
    None
  }

  /** The diagnostic written to stderr the first time a raw key is skipped. */
  function SkipMessage(name: string, key: string): string
  {
    "Mode " + name + " skipping key: \"" + key + "\""
  }

  class IndexMap {
    const name: string
    const transform: Transform
    const sort: bool

    /** `_keys`: the key order of the OrderedDict and its counts. */
    var order: seq<Key>
    var counts: map<Key, int>
    var skipped: set<string>
    /** `_map` and `_is_mapped`. */
    var mapping: map<Key, int>
    var isMapped: bool

    /** The counter is well formed: every counted key is listed once in the order. */
    ghost predicate Valid()
      reads this
    {
      WellFormed(Contents())
    }

    /** The counter and the skipped set as one value. */
    function Contents(): Tally
      reads this
    {
      Tally(order, counts, skipped)
    }

    constructor (name: string, transform: Transform := DefaultTransform, sort: bool := true)
      ensures Valid() && Contents() == Empty
      ensures mapping == map[] && !isMapped
      ensures this.name == name && this.transform == transform && this.sort == sort
    {
      this.name := name;
      this.transform := transform;
      this.sort := sort;
      order, counts, skipped := [], map[], {};
      mapping, isMapped := map[], false;
    }

    /** `__access_key`: the transformed key, `None` when the transform fails. */
    function AccessKey(key: string): Option<Key>
    {
      transform(key)
    }

    /** Counts one occurrence of `key`; returns the diagnostic printed, if any. */
    method Add(key: string) returns (diag: Option<string>)
      requires Valid()
      modifies this
      ensures Valid()
      ensures Contents() == Step(old(Contents()), transform, key)
      ensures diag == if transform(key).None? && key !in old(skipped)
                      then Some(SkipMessage(name, key)) else None
      ensures mapping == old(mapping) && isMapped == old(isMapped)
    {
      diag := None;
      var newKey := AccessKey(key);
      if newKey.None? {
        if key !in skipped {
          diag := Some(SkipMessage(name, key));
          skipped := skipped + {key};
        }
        return;
      }
      var k := newKey.value;
      if k in counts {
        counts := counts[k := counts[k] + 1];
      } else {
        order := order + [k];
        counts := counts[k := 1];
      }
    }

    /** Retracts one occurrence of `key` if its transformed key is present. */
    method Sub(key: string)
      requires Valid()
      modifies this
      ensures Valid()
      ensures Contents() == Retract(old(Contents()), transform, key)
      ensures mapping == old(mapping) && isMapped == old(isMapped)
    {
      var newKey := AccessKey(key);
      if newKey.Some? && newKey.value in counts {
        counts := counts[newKey.value := counts[newKey.value] - 1];
      }
    }

    /** The stored count of `key`'s transformed key; 0 when absent or untransformable. */
    function GetCount(key: string): (c: int)
      reads this
      ensures transform(key).None? ==> c == 0
      ensures transform(key).Some? ==> c == Count(Contents(), transform(key).value)
    {
      var newKey := AccessKey(key);
      if newKey.Some? && newKey.value in counts then counts[newKey.value] else 0
    }

    /**
     * Numbers the keys with a positive count 1, 2, ... in insertion order, or in
     * ascending key order when `sort`. Entries already in `_map` are overwritten,
     * never removed.
     */
    method BuildMap()
      requires Valid()
      modifies this
      ensures Valid() && Contents() == old(Contents())
      ensures mapping == old(mapping) + DenseMap(old(Contents()), sort)
      ensures isMapped
    {
      var uniques := Survivors(order, counts);
      if sort {
        uniques := SortKeys(uniques);
      }
      assert uniques == Ordered(Survivors(order, counts), sort);
      mapping := NumberKeys(mapping, uniques);
      isMapped := true;
    }

    function IsMapped(): bool
      reads this
    {
      isMapped
    }

    /**
     * The key listing written by `write_file`: the key numbered `i` on line `i`.
     * Keys are placed by their number, which for a dense map is the order
     * sorting by number gives.
     */
    method WriteFile() returns (lines: seq<string>)
      requires IsDense(mapping)
      ensures |lines| == |mapping|
      ensures forall k :: k in mapping ==> lines[mapping[k] - 1] == KeyText(k)
    {
      lines := seq(|mapping|, _ => "");
      var pending := mapping.Keys;
      while pending != {}
        invariant pending <= mapping.Keys
        invariant |lines| == |mapping|
        invariant forall k :: k in mapping && k !in pending ==> lines[mapping[k] - 1] == KeyText(k)
        decreases |pending|
      {
        var k :| k in pending;
        lines := lines[mapping[k] - 1 := KeyText(k)];
        pending := pending - {k};
      }
    }

    /** `self[key]`: the number of `key`'s transformed key, `None` when it has none. */
    function GetItem(key: string): (r: Result<Option<int>, MapError>)
      reads this
      ensures r.Failure? <==> !isMapped
      ensures r.Success? ==>
        (r.value.Some? <==> transform(key).Some? && transform(key).value in mapping)
      ensures r.Success? && r.value.Some? ==> r.value.value == mapping[transform(key).value]
    {
      if !isMapped then Failure(NotMapped)
      else
        var newKey := AccessKey(key);
        if newKey.None? || newKey.value !in mapping then Success(None)
        else Success(Some(mapping[newKey.value]))
    }

    /** `len(self)`: the number of numbered keys, which bounds every number of a dense map. */
    function Len(): (n: nat)
      reads this
      ensures IsDense(mapping) ==> forall k :: k in mapping ==> 1 <= mapping[k] <= n
    {
      |mapping|
    }
  }

  /** The numbering loop of `build_map`: `uniques[i]` gets `i + 1`, over what is there. */
  method NumberKeys(base: map<Key, int>, uniques: seq<Key>) returns (m: map<Key, int>)
    ensures m == base + Enumerate(uniques)
  {
    m := base;
    for i := 0 to |uniques|
      invariant m == base + Enumerate(uniques[..i])
    {
      EnumerateSnoc(m, base, uniques, i);
      m := m[uniques[i] := i + 1];
    }
    assert uniques[..|uniques|] == uniques;
  }

  /** Two raw keys with the same transformed key share one count and one number. */
  lemma SharedKey(m: IndexMap, a: string, b: string)
    requires m.transform(a) == m.transform(b)
    ensures m.GetCount(a) == m.GetCount(b)
    ensures m.GetItem(a) == m.GetItem(b)
  {
  }

  /**
   * After `build_map` on a map whose `_map` was empty, a lookup succeeds and yields
   * a number in `1..len` exactly for keys that transform to a key with a positive count.
   */
  lemma BuiltLookup(m: IndexMap, key: string)
    requires m.Valid() && m.isMapped && m.mapping == DenseMap(m.Contents(), m.sort)
    ensures m.GetItem(key).Success?
    ensures m.GetItem(key).value.Some? <==> m.transform(key).Some? && m.GetCount(key) > 0
    ensures m.GetItem(key).value.Some? ==> 1 <= m.GetItem(key).value.value <= m.Len()
    ensures IsDense(m.mapping)
    ensures m.Len() == |Survivors(m.order, m.counts)|
  {
    DenseMapDomain(m.Contents(), m.sort);
  }

  /** With the default transform nothing is ever counted: every key is skipped. */
  lemma {:induction false} DefaultSkipsEverything(vs: seq<string>)
    ensures Tallied(Empty, DefaultTransform, vs) == Tally([], map[], set v | v in vs)
    decreases |vs|
  {
    if |vs| > 0 {
      var init := vs[..|vs| - 1];
      DefaultSkipsEverything(init);
      assert vs == init + [vs[|vs| - 1]];
      assert (set v | v in vs) == (set v | v in init) + {vs[|vs| - 1]};
    }
  }
}
