/**
 * Transformed keys. A mode's transform turns the raw string read from a column
 * into a value that is counted, compared and sorted; the two kinds here stand for
 * the `str` and `int` results transforms produce, ordered as Python orders them.
 */
module Keys {
  import opened Strings

  datatype Key = Text(s: string) | Number(n: int)

  /** Python's `<` on `str`: code-point lexicographic order, a proper prefix first. */
  predicate TextBelow(a: string, b: string)
    decreases |a|
  {
    if |a| == 0 then |b| > 0
    else if |b| == 0 then false
    else if a[0] == b[0] then TextBelow(a[1..], b[1..])
    else a[0] < b[0]
  }

  /** The natural order `list.sort()` uses on transformed keys. */
  predicate Below(a: Key, b: Key)
  {
    match (a, b)
    case (Number(x), Number(y)) => x < y
    case (Number(_), Text(_)) => true
    case (Text(_), Number(_)) => false
    case (Text(x), Text(y)) => TextBelow(x, y)
  }

  /** `str(key)`, the text `write_file` prints for a key. */
  function KeyText(k: Key): string
  {
    match k
    case Text(s) => s
    case Number(n) => IntToString(n)
  }

  /** No string is below itself. */
  lemma {:induction false} TextBelowIrreflexive(a: string)
    ensures !TextBelow(a, a)
    decreases |a|
  {
    if |a| > 0 {
      TextBelowIrreflexive(a[1..]);
    }
  }

  /** The string order is transitive. */
  lemma {:induction false} TextBelowTransitive(a: string, b: string, c: string)
    requires TextBelow(a, b) && TextBelow(b, c)
    ensures TextBelow(a, c)
    decreases |a|
  {
    if |a| > 0 && a[0] == b[0] && b[0] == c[0] {
      TextBelowTransitive(a[1..], b[1..], c[1..]);
    }
  }

  /** Two different strings are ordered one way or the other. */
  lemma {:induction false} TextBelowTotal(a: string, b: string)
    requires a != b
    ensures TextBelow(a, b) || TextBelow(b, a)
    decreases |a|
  {
    if |a| > 0 && |b| > 0 && a[0] == b[0] {
      assert a == [a[0]] + a[1..] && b == [b[0]] + b[1..];
      TextBelowTotal(a[1..], b[1..]);
    }
  }

  /** No key is below itself. */
  lemma BelowIrreflexive(a: Key)
    ensures !Below(a, a)
  {
    if a.Text? {
      TextBelowIrreflexive(a.s);
    }
  }

  lemma BelowTransitive(a: Key, b: Key, c: Key)
    requires Below(a, b) && Below(b, c)
    ensures Below(a, c)
  {
    if a.Text? && b.Text? && c.Text? {
      TextBelowTransitive(a.s, b.s, c.s);
    }
  }

  lemma BelowTotal(a: Key, b: Key)
    requires a != b
    ensures Below(a, b) || Below(b, a)
  {
    if a.Text? && b.Text? {
      TextBelowTotal(a.s, b.s);
    }
  }

  /** Two keys are never below each other. */
  lemma BelowAsymmetric(a: Key, b: Key)
    requires Below(a, b)
    ensures !Below(b, a)
  {
    if Below(b, a) {
      BelowTransitive(a, b, a);
      BelowIrreflexive(a);
    }
  }
}
