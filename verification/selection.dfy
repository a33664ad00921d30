/** The membership toggle that the style wizard (`toggleStyle`,
    `toggleLifestyle`) and the outfit screen (`toggleLike`) apply to their
    multi-select lists: if the value is in the list, every occurrence is
    filtered out; otherwise it is appended at the end. */
module Selection {
  import opened Sequences

  /** `list.filter(v => v !== x)`. */
  function Without<T(==)>(s: seq<T>, x: T): (r: seq<T>)
    ensures x !in r
    ensures forall y | y in r :: y in s
    ensures forall y | y in s && y != x :: y in r
    ensures IsSubsequence(r, s)
  {
    Filter(s, y => y != x)
  }

  /** `list.includes(x) ? list.filter(v => v !== x) : [...list, x]`. */
  function Toggle<T(==)>(s: seq<T>, x: T): (r: seq<T>)
    ensures x in r <==> x !in s
    ensures forall y | y in r && y != x :: y in s
    ensures forall y | y in s && y != x :: y in r
    ensures x !in s ==> r == s + [x]
    ensures x in s ==> IsSubsequence(r, s)
  {
    if x in s then Without(s, x) else s + [x]
  }

  /** Toggling keeps a duplicate-free list duplicate-free. */
  lemma ToggleNoDuplicates<T>(s: seq<T>, x: T)
    requires NoDuplicates(s)
    ensures NoDuplicates(Toggle(s, x))
  {
    if x in s {
      FilterNoDuplicates(s, y => y != x);
    } else {
      SnocNoDuplicates(s, x);
    }
  }

  /** Filtering out a value the list does not hold changes nothing. */
  lemma WithoutAbsent<T>(s: seq<T>, x: T)
    requires x !in s
    ensures Without(s, x) == s
  {
    FilterKeepsAll(s, y => y != x);
  }

  /** Toggling an absent value twice restores the original list exactly. */
  lemma ToggleTwiceRestores<T>(s: seq<T>, x: T)
    requires x !in s
    ensures Toggle(Toggle(s, x), x) == s
  {
    var p := y => y != x;
    FilterAppend(s, [x], p);
    WithoutAbsent(s, x);
    assert Filter([x], p) == [];
  }

  /** In a duplicate-free list, toggling a present value removes exactly the
      entry that holds it; the others keep their order. */
  lemma ToggleRemovesOneEntry<T>(s: seq<T>, i: nat)
    requires NoDuplicates(s) && i < |s|
    ensures Toggle(s, s[i]) == s[..i] + s[i + 1..]
    ensures |Toggle(s, s[i])| == |s| - 1
  {
    var x := s[i];
    var p := y => y != x;
    assert s == s[..i] + ([x] + s[i + 1..]);
    FilterAppend(s[..i], [x] + s[i + 1..], p);
    FilterAppend([x], s[i + 1..], p);
    assert x !in s[..i] by {
      forall k | 0 <= k < i ensures s[..i][k] != x { assert s[..i][k] == s[k]; }
    }
    var post := s[i + 1..];
    assert x !in post by {
      forall k | 0 <= k < |post| ensures post[k] != x { assert post[k] == s[i + 1 + k]; }
    }
    FilterKeepsAll(s[..i], p);
    FilterKeepsAll(s[i + 1..], p);
    assert Filter([x], p) == [];
  }

  /** The list after the same value has been toggled `n` times in a row. */
  function ToggleTimes<T(==)>(s: seq<T>, x: T, n: nat): seq<T>
  {
    if n == 0 then s else Toggle(ToggleTimes(s, x, n - 1), x)
  }

  /** After `n` toggles of `x`, `x` is present iff it was present initially
      XOR `n` is odd. */
  lemma {:induction false} ToggleParity<T>(s: seq<T>, x: T, n: nat)
    ensures x in ToggleTimes(s, x, n) <==> (x in s) != (n % 2 == 1)
  {
    if n > 0 {
      ToggleParity(s, x, n - 1);
    }
  }

  /** Toggling `x` any number of times leaves the membership of every other
      value as it was. */
  lemma {:induction false} ToggleTimesOthers<T>(s: seq<T>, x: T, y: T, n: nat)
    requires y != x
    ensures y in ToggleTimes(s, x, n) <==> y in s
  {
    if n > 0 {
      ToggleTimesOthers(s, x, y, n - 1);
    }
  }
}
