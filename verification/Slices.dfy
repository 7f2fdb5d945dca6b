/** Parts of sequences. */
module Slices {
  /** The given part is found at position `k`. */
  predicate At<T(==)>(s: seq<T>, k: nat, part: seq<T>) {
    k + |part| <= |s| && forall i {:trigger part[i]} | 0 <= i < |part| :: s[k + i] == part[i]
  }

  lemma AtSplit<T>(s: seq<T>, k: nat, a: seq<T>, b: seq<T>)
    ensures At(s, k, a + b) <==> At(s, k, a) && At(s, k + |a|, b)
  {
    var all := a + b;
    assert forall i | 0 <= i < |a| :: a[i] == all[i];
    assert forall i | 0 <= i < |b| :: b[i] == all[|a| + i];
  }

  lemma AtOne<T>(s: seq<T>, k: nat, x: T)
    ensures At(s, k, [x]) <==> k < |s| && s[k] == x
  {
    assert [x][0] == x;
  }

  lemma Associate<T>(a: seq<T>, b: seq<T>, c: seq<T>)
    ensures a + b + c == a + (b + c)
  {
  }

  lemma Grown<T>(s: seq<T>, i: nat)
    requires i < |s|
    ensures s[..i + 1] == s[..i] + [s[i]]
  {
  }
}
