/** Items that are read one after the other from positions of some input. */
module Streams {
  /** `item(p, x, q)`: item `x` is at position `p`, and `q` is the position behind it. */
  type Reader<!T> = (nat, T, nat) -> bool

  /** At every position there is at most one item, and reading it moves on, but not beyond the end. */
  ghost predicate Sound<T(!new)>(item: Reader<T>, end: nat) {
    && (forall p: nat, x, q: nat | item(p, x, q) :: p < q <= end)
    && forall p: nat, x, q: nat, y, r: nat | item(p, x, q) && item(p, y, r) :: x == y && q == r
  }

  /** The items from `positions[0]` on, one behind the other. */
  ghost predicate Follow<T>(item: Reader<T>, positions: seq<nat>, items: seq<T>) {
    |positions| == |items| + 1 && forall i | 0 <= i < |items| :: item(positions[i], items[i], positions[i + 1])
  }

  /** All the items that can be read from a position on. */
  ghost predicate All<T(!new)>(item: Reader<T>, positions: seq<nat>, items: seq<T>) {
    Follow(item, positions, items) && forall x, q: nat :: !item(positions[|items|], x, q)
  }

  lemma {:induction false} AllExist<T(!new)>(item: Reader<T>, end: nat, position: nat)
    returns (positions: seq<nat>, items: seq<T>)
    requires Sound(item, end) && position <= end
    ensures All(item, positions, items) && positions[0] == position
    decreases end - position
  {
    if x, q :| item(position, x, q) {
      positions, items := AllExist(item, end, q);
      PrependItem(item, position, x, positions, items);
      positions, items := [position] + positions, [x] + items;
    } else {
      positions, items := [position], [];
    }
  }

  lemma PrependItem<T>(item: Reader<T>, position: nat, x: T, positions: seq<nat>, items: seq<T>)
    requires Follow(item, positions, items) && item(position, x, positions[0])
    ensures Follow(item, [position] + positions, [x] + items)
  {
    var ps, xs := [position] + positions, [x] + items;
    forall i | 0 <= i < |xs| ensures item(ps[i], xs[i], ps[i + 1]) {
      if i > 0 {
        assert item(positions[i - 1], items[i - 1], positions[i - 1 + 1]);
      }
    }
  }

  /** Items that follow each other from the same position are the first of all. */
  lemma {:induction false} FollowFirst<T(!new)>(
    item: Reader<T>, end: nat, positions: seq<nat>, items: seq<T>, ps: seq<nat>, xs: seq<T>, k: nat)
    requires Sound(item, end) && All(item, positions, items) && Follow(item, ps, xs) && ps[0] == positions[0]
    requires k <= |xs|
    ensures k <= |items| && items[..k] == xs[..k] && positions[k] == ps[k]
    decreases k
  {
    if k > 0 {
      FollowFirst(item, end, positions, items, ps, xs, k - 1);
      assert item(ps[k - 1], xs[k - 1], ps[k - 1 + 1]);
      assert k - 1 < |items|;
      assert item(positions[k - 1], items[k - 1], positions[k - 1 + 1]);
      assert items[..k] == items[..k - 1] + [items[k - 1]] && xs[..k] == xs[..k - 1] + [xs[k - 1]];
    }
  }

  lemma {:induction false} PositionsBounded<T(!new)>(
    item: Reader<T>, end: nat, positions: seq<nat>, items: seq<T>, k: nat)
    requires Sound(item, end) && Follow(item, positions, items) && positions[0] <= end && k <= |items|
    ensures positions[k] <= end && (k > 0 ==> positions[k - 1] < positions[k])
  {
    if k > 0 {
      assert item(positions[k - 1], items[k - 1], positions[k - 1 + 1]);
    }
  }
}
