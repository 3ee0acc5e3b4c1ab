/** The earth's trail in main.js: a list of past earth positions that is
    redrawn as a line every frame. It is a bounded FIFO: when it already
    holds more than 1000 points the oldest is dropped, then the new position
    is appended, so it never holds more than 1001 points. */
module Trajectories {
  import opened Vectors

  /** The length above which update_trajectory drops the oldest point. */
  const Limit: nat := 1000

  /** The last `n` elements of `s`, or all of `s` when it is shorter. */
  function Window<T>(s: seq<T>, n: nat): (w: seq<T>)
    ensures |w| == if |s| <= n then |s| else n
    ensures w == s[|s| - |w|..]
  {
    if |s| <= n then s else s[|s| - n..]
  }

  /** One update_trajectory: the new trail ends with `p` and is a suffix of
      the old trail followed by `p`; it drops exactly one old point when the
      old trail held more than Limit points and none otherwise, so a trail
      of at most Limit + 1 points stays within Limit + 1. */
  function Recorded(trail: seq<Vec3>, p: Vec3): (r: seq<Vec3>)
    ensures |r| <= |trail| + 1
    ensures r == (trail + [p])[|trail| + 1 - |r|..]
    ensures 0 < |r| && r[|r| - 1] == p
    ensures |r| == |trail| <==> |trail| > Limit
    ensures |r| == |trail| + 1 <==> |trail| <= Limit
    ensures |trail| <= Limit + 1 ==> |r| <= Limit + 1
  {
    var kept := if |trail| > Limit then trail[1..] else trail;
    assert (trail + [p])[|trail| + 1 - |kept + [p]|..] == kept + [p];
    kept + [p]
  }

  /** update_trajectory applied to each point of `ps` in turn. */
  function RecordedAll(trail: seq<Vec3>, ps: seq<Vec3>): seq<Vec3>
    decreases |ps|
  {
    if ps == [] then trail else RecordedAll(Recorded(trail, ps[0]), ps[1..])
  }

  /** On a trail within the bound, one update keeps exactly the newest
      Limit + 1 points of the trail followed by the new one. */
  lemma RecordedIsWindow(trail: seq<Vec3>, p: Vec3)
    requires |trail| <= Limit + 1
    ensures Recorded(trail, p) == Window(trail + [p], Limit + 1)
  {
  }

  /** Taking the newest n elements, appending, and taking the newest n again
      is the same as appending first. */
  lemma WindowOfWindow<T>(s: seq<T>, t: seq<T>, n: nat)
    ensures Window(Window(s, n) + t, n) == Window(s + t, n)
  {
    if |s| <= n {
      assert Window(s, n) == s;
    } else {
      WindowOfDropped(s, t, n);
    }
  }

  lemma WindowOfDropped<T>(s: seq<T>, t: seq<T>, n: nat)
    requires n < |s|
    ensures Window(s[|s| - n..] + t, n) == Window(s + t, n)
  {
    var w := s[|s| - n..];
    DropThenAppend(s, t, |s| - n);
    DropTwice(s + t, |s| - n, |t|);
    assert Window(w + t, n) == (w + t)[|t|..];
    assert Window(s + t, n) == (s + t)[|s| - n + |t|..];
  }

  lemma DropThenAppend<T>(s: seq<T>, t: seq<T>, i: nat)
    requires i <= |s|
    ensures s[i..] + t == (s + t)[i..]
  {
  }

  lemma DropTwice<T>(s: seq<T>, i: nat, j: nat)
    requires i + j <= |s|
    ensures s[i..][j..] == s[i + j..]
  {
  }

  /** Recording `p` and then windowing the points that follow is windowing
      the whole sequence: the FIFO never keeps a point it should have dropped. */
  lemma RecordThenWindow(trail: seq<Vec3>, p: Vec3, rest: seq<Vec3>)
    requires |trail| <= Limit + 1
    ensures Window(Recorded(trail, p) + rest, Limit + 1) == Window(trail + ([p] + rest), Limit + 1)
  {
    RecordedIsWindow(trail, p);
    WindowOfWindow(trail + [p], rest, Limit + 1);
    assert trail + [p] + rest == trail + ([p] + rest);
  }

  /** From a trail within the bound (in main.js, the empty one), a run of
      updates leaves the newest Limit + 1 of all the points seen: the FIFO
      forgets the oldest first and nothing else. */
  lemma {:induction false} RecordedAllIsWindow(trail: seq<Vec3>, ps: seq<Vec3>)
    requires |trail| <= Limit + 1
    ensures RecordedAll(trail, ps) == Window(trail + ps, Limit + 1)
    decreases |ps|
  {
    if ps != [] {
      RecordedAllIsWindow(Recorded(trail, ps[0]), ps[1..]);
      RecordThenWindow(trail, ps[0], ps[1..]);
      assert [ps[0]] + ps[1..] == ps;
    }
  }

  /** `earth_trajectory`: the points of the trail, oldest first. */
  class Trajectory {
    var points: seq<Vec3>

    constructor ()
      ensures points == []
    {
      points := [];
    }

    /** update_trajectory: shift when over the limit, then push. The scene
        line that is rebuilt from the points is not modelled. */
    method Update(p: Vec3)
      modifies this
      ensures points == Recorded(old(points), p)
    {
      if |points| > Limit {
        points := points[1..];
      }
      points := points + [p];
    }
  }
}
