/**
 * The touch trail of `TouchTexture` in src/_utils/touchTexture.ts: points
 * are appended on touch moves and aged once per frame; a point older than
 * `maxAge` is spliced out while the array is being walked by `forEach`.
 * Drawing on the canvas is not part of this model.
 */
module Touch {
  import opened Base

  datatype TrailPoint = TrailPoint(x: real, y: real, age: int, force: real)

  /** The force of a new point: 0 on an empty trail, else `min(dd * 10000, 1)` for the squared distance `dd`. */
  function Force(trail: seq<TrailPoint>, x: real, y: real): (force: real)
    ensures 0.0 <= force <= 1.0
    ensures trail == [] ==> force == 0.0
  {
    if trail == [] then 0.0
    else
      var last := trail[|trail| - 1];
      var dx, dy := last.x - x, last.y - y;
      var dd := dx * dx + dy * dy;
      assert dx * dx >= 0.0 && dy * dy >= 0.0;
      if dd * 10000.0 < 1.0 then dd * 10000.0 else 1.0
  }

  /**
   * `trail.forEach((point, i) => { point.age++; if (point.age > maxAge) trail.splice(i, 1); })`
   * from index `i` on. The walk moves to `i + 1` after a splice too, so the point that
   * slid into position `i` is neither visited nor aged this round.
   */
  function Sweep(t: seq<TrailPoint>, i: nat, maxAge: int): (r: seq<TrailPoint>)
    ensures |r| <= |t|
    decreases |t| - i
  {
    if i >= |t| then t
    else
      var aged := t[i := t[i].(age := t[i].age + 1)];
      if aged[i].age > maxAge then Sweep(aged[..i] + aged[i + 1..], i + 1, maxAge)
      else Sweep(aged, i + 1, maxAge)
  }

  /**
   * The trail after the ageing pass of `update`: never longer, the survivors in their old
   * order, and no point over age if none was before. When no point expires, every point
   * is visited and one frame older.
   */
  function Aged(t: seq<TrailPoint>, maxAge: int): (r: seq<TrailPoint>)
    ensures (forall k :: 0 <= k < |t| ==> t[k].age < maxAge) ==> r == Older(t, 0)
    ensures |r| <= |t|
    ensures Subsequence(Unaged(r), Unaged(t))
    ensures (forall k :: 0 <= k < |t| ==> t[k].age <= maxAge) ==> forall k :: 0 <= k < |r| ==> r[k].age <= maxAge
  {
    SweepKeepsOrder(t, 0, maxAge);
    SweepAgesUnexpired(t, 0, maxAge);
    if forall k :: 0 <= k < |t| ==> t[k].age <= maxAge then
      SweepKeepsAgeBound(t, 0, maxAge);
      Sweep(t, 0, maxAge)
    else Sweep(t, 0, maxAge)
  }

  /** `t` with every point from position `i` on one frame older. */
  function Older(t: seq<TrailPoint>, i: nat): (r: seq<TrailPoint>)
    requires i <= |t|
    ensures |r| == |t|
  {
    t[..i] + seq(|t| - i, k requires 0 <= k < |t| - i => t[i + k].(age := t[i + k].age + 1))
  }

  /** While no point from `i` on expires, the sweep ages each of them by one and removes none. */
  lemma {:induction false} SweepAgesUnexpired(t: seq<TrailPoint>, i: nat, maxAge: int)
    requires i <= |t|
    ensures (forall k :: i <= k < |t| ==> t[k].age < maxAge) ==> Sweep(t, i, maxAge) == Older(t, i)
    decreases |t| - i
  {
    if i < |t| && forall k :: i <= k < |t| ==> t[k].age < maxAge {
      var aged := t[i := t[i].(age := t[i].age + 1)];
      assert forall k :: i + 1 <= k < |aged| ==> aged[k] == t[k];
      SweepAgesUnexpired(aged, i + 1, maxAge);
      assert Older(aged, i + 1) == Older(t, i) by {
        var a, b := Older(aged, i + 1), Older(t, i);
        forall k | 0 <= k < |t| ensures a[k] == b[k] {
          if k > i {
            assert a[k] == aged[k].(age := aged[k].age + 1);
          }
        }
      }
    }
  }

  /** A point without its age: what `update` never changes. */
  function Unaged(t: seq<TrailPoint>): (r: seq<TrailPoint>)
    ensures |r| == |t|
  {
    seq(|t|, k requires 0 <= k < |t| => t[k].(age := 0))
  }

  /** Leaving out one more element of `b` keeps `a` a subsequence of it. */
  lemma {:induction false} SubsequenceOfRemoval<T>(a: seq<T>, b: seq<T>, i: nat)
    requires i < |b| && Subsequence(a, b[..i] + b[i + 1..])
    ensures Subsequence(a, b)
    decreases i
  {
    var c := b[..i] + b[i + 1..];
    if a == [] {
    } else if i == 0 {
      assert c == b[1..];
    } else {
      assert c[0] == b[0];
      assert c[1..] == b[1..][..i - 1] + b[1..][i..];
      if a[0] == c[0] && Subsequence(a[1..], c[1..]) {
        SubsequenceOfRemoval(a[1..], b[1..], i - 1);
      } else {
        SubsequenceOfRemoval(a, b[1..], i - 1);
      }
    }
  }

  /** Survivors keep their relative order: without ages, the result is a subsequence of the input. */
  lemma {:induction false} SweepKeepsOrder(t: seq<TrailPoint>, i: nat, maxAge: int)
    ensures Subsequence(Unaged(Sweep(t, i, maxAge)), Unaged(t))
    decreases |t| - i
  {
    if i >= |t| {
      SubsequenceRefl(Unaged(t));
    } else {
      var aged := t[i := t[i].(age := t[i].age + 1)];
      assert Unaged(aged) == Unaged(t);
      if aged[i].age > maxAge {
        var rest := aged[..i] + aged[i + 1..];
        SweepKeepsOrder(rest, i + 1, maxAge);
        assert Unaged(rest) == Unaged(t)[..i] + Unaged(t)[i + 1..];
        SubsequenceOfRemoval(Unaged(Sweep(rest, i + 1, maxAge)), Unaged(t), i);
      } else {
        SweepKeepsOrder(aged, i + 1, maxAge);
      }
    }
  }

  /** If no point is over age before the pass, none is after it. */
  lemma {:induction false} SweepKeepsAgeBound(t: seq<TrailPoint>, i: nat, maxAge: int)
    requires forall k :: 0 <= k < |t| ==> t[k].age <= maxAge
    ensures forall k :: 0 <= k < |Sweep(t, i, maxAge)| ==> Sweep(t, i, maxAge)[k].age <= maxAge
    decreases |t| - i
  {
    if i < |t| {
      var aged := t[i := t[i].(age := t[i].age + 1)];
      if aged[i].age > maxAge {
        SweepKeepsAgeBound(aged[..i] + aged[i + 1..], i + 1, maxAge);
      } else {
        SweepKeepsAgeBound(aged, i + 1, maxAge);
      }
    }
  }

  /** The pass never touches the positions it has already walked past. */
  lemma {:induction false} SweepKeepsPrefix(t: seq<TrailPoint>, i: nat, maxAge: int)
    requires i <= |t|
    ensures i <= |Sweep(t, i, maxAge)| && Sweep(t, i, maxAge)[..i] == t[..i]
    decreases |t| - i
  {
    if i < |t| {
      var aged := t[i := t[i].(age := t[i].age + 1)];
      if aged[i].age > maxAge {
        var rest := aged[..i] + aged[i + 1..];
        if i + 1 <= |rest| {
          SweepKeepsPrefix(rest, i + 1, maxAge);
        }
        assert rest[..i] == t[..i];
      } else {
        SweepKeepsPrefix(aged, i + 1, maxAge);
        assert aged[..i] == t[..i];
      }
    }
  }

  /** After a splice at `i`, the next point lands at `i` and keeps its old age: it was skipped. */
  lemma SpliceSkipsNext(t: seq<TrailPoint>, i: nat, maxAge: int)
    requires i + 1 < |t| && t[i].age + 1 > maxAge
    ensures i < |Sweep(t, i, maxAge)| && Sweep(t, i, maxAge)[i] == t[i + 1]
  {
    var aged := t[i := t[i].(age := t[i].age + 1)];
    var rest := aged[..i] + aged[i + 1..];
    SweepKeepsPrefix(rest, i + 1, maxAge);
    assert rest[i] == t[i + 1];
  }

  /** Two expired points in a row: the first is removed, the second survives unaged. */
  lemma SkipExample(p: TrailPoint, q: TrailPoint)
    requires p.age == 120 && q.age == 120
    ensures Aged([p, q], 120) == [q]
  {
    var aged := [p, q][0 := p.(age := 121)];
    assert aged[0].age > 120;
    assert aged[..0] + aged[1..] == [q];
    assert Sweep([q], 1, 120) == [q];
  }

  class TouchTexture {
    const size: int
    const maxAge: int
    const radius: real
    var trail: seq<TrailPoint>

    constructor (size: int)
      ensures this.size == size && maxAge == 120 && radius == 0.15 && trail == []
    {
      this.size := size;
      maxAge := 120;
      radius := 0.15;
      trail := [];
    }

    /** `addTouch({x, y})`. */
    method AddTouch(x: real, y: real)
      modifies this`trail
      ensures trail == old(trail) + [TrailPoint(x, y, 0, Force(old(trail), x, y))]
    {
      var force := 0.0;
      if |trail| > 0 {
        var last := trail[|trail| - 1];
        var dx := last.x - x;
        var dy := last.y - y;
        var dd := dx * dx + dy * dy;
        force := if dd * 10000.0 < 1.0 then dd * 10000.0 else 1.0;
        assert force == Force(trail, x, y);
      }
      trail := trail + [TrailPoint(x, y, 0, force)];
    }

    /** The ageing loop of `update`, with `forEach`'s rule of skipping indices past the current end. */
    method Update()
      modifies this`trail
      ensures trail == Aged(old(trail), maxAge)
      ensures (forall k :: 0 <= k < |old(trail)| ==> old(trail)[k].age < maxAge) ==> trail == Older(old(trail), 0)
      ensures |trail| <= |old(trail)|
      ensures Subsequence(Unaged(trail), Unaged(old(trail)))
      ensures (forall k :: 0 <= k < |old(trail)| ==> old(trail)[k].age <= maxAge) ==>
              forall k :: 0 <= k < |trail| ==> trail[k].age <= maxAge
    {
      var n := |trail|;
      for i := 0 to n
        invariant |trail| <= n
        invariant Sweep(trail, i, maxAge) == Aged(old(trail), maxAge)
      {
        if i < |trail| {
          trail := trail[i := trail[i].(age := trail[i].age + 1)];
          if trail[i].age > maxAge {
            trail := trail[..i] + trail[i + 1..];
          }
        }
      }
    }
  }
}
