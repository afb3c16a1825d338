/**
 * Fixed-length sliding windows of per-frame samples (`blinks`, `hand_on_face`,
 * `hr_values`, `gaze_values`), updated by the FIFO idiom `xs[1:] + [v]`, and
 * the counting (`sum` over booleans, `list.count`) the detectors do over them.
 */
module Windows {
  /** Number of samples every window holds (`MAX_FRAMES`). */
  const MaxFrames: nat := 120
  /** Size of the "recent" sub-window of the blink detector (`int(MAX_FRAMES / 10)`). */
  const RecentFrames: nat := MaxFrames / 10

  /** Python's `xs[1:]`: everything but the first element, empty for an empty list. */
  function Tail<T>(xs: seq<T>): seq<T> {
    if xs == [] then [] else xs[1..]
  }

  /** The window push `xs[1:] + [v]`: drop the oldest sample, append the newest. */
  function Push<T>(xs: seq<T>, v: T): (r: seq<T>)
    ensures |r| == if xs == [] then 1 else |xs|
    ensures r[|r| - 1] == v
    ensures forall i :: 0 <= i < |r| - 1 ==> r[i] == xs[i + 1]
  {
    Tail(xs) + [v]
  }

  /** The window after pushing every element of `vs`, first to last. */
  function PushAll<T>(xs: seq<T>, vs: seq<T>): seq<T>
    decreases |vs|
  {
    if vs == [] then xs else PushAll(Push(xs, vs[0]), vs[1..])
  }

  /** A non-empty window after a run of pushes is the tail of all samples ever seen. */
  lemma {:induction false} PushAllShifts<T>(xs: seq<T>, vs: seq<T>)
    requires |xs| > 0
    ensures PushAll(xs, vs) == (xs + vs)[|vs|..]
    ensures |PushAll(xs, vs)| == |xs|
    decreases |vs|
  {
    if vs != [] {
      var pushed := Push(xs, vs[0]);
      PushAllShifts(pushed, vs[1..]);
      assert pushed + vs[1..] == (xs + vs)[1..];
      assert (xs + vs)[1..][|vs| - 1..] == (xs + vs)[|vs|..];
    }
  }

  /** After at least as many pushes as the window holds, it holds exactly the last pushed values, in order. */
  lemma WindowHoldsLastPushes<T>(xs: seq<T>, vs: seq<T>)
    requires |xs| > 0 && |vs| >= |xs|
    ensures |PushAll(xs, vs)| == |xs|
    ensures PushAll(xs, vs) == vs[|vs| - |xs|..]
  {
    PushAllShifts(xs, vs);
    assert (xs + vs)[|vs|..] == vs[|vs| - |xs|..];
  }

  /** Number of elements equal to `v`: `list.count(v)`, and `sum` for a list of booleans with `v == true`. */
  function Count<T(==)>(s: seq<T>, v: T): (n: nat)
    ensures n <= |s|
  {
    if s == [] then 0 else (if s[0] == v then 1 else 0) + Count(s[1..], v)
  }

  lemma {:induction false} CountAppend<T>(a: seq<T>, b: seq<T>, v: T)
    ensures Count(a + b, v) == Count(a, v) + Count(b, v)
  {
    if a == [] {
      assert a + b == b;
    } else {
      assert (a + b)[1..] == a[1..] + b;
      CountAppend(a[1..], b, v);
    }
  }

  /** A slice never holds more occurrences than the whole sequence. */
  lemma CountSlice<T>(s: seq<T>, i: nat, j: nat, v: T)
    requires i <= j <= |s|
    ensures Count(s[i..j], v) <= Count(s, v)
  {
    CountSplit(s, j, v);
    CountSplit(s[..j], i, v);
    assert s[..j][i..] == s[i..j];
  }

  lemma CountSplit<T>(s: seq<T>, k: nat, v: T)
    requires k <= |s|
    ensures Count(s, v) == Count(s[..k], v) + Count(s[k..], v)
  {
    assert s == s[..k] + s[k..];
    CountAppend(s[..k], s[k..], v);
  }

  /** `v` occurs nowhere exactly when it is counted zero times. */
  lemma {:induction false} CountZero<T>(s: seq<T>, v: T)
    ensures Count(s, v) == 0 <==> forall i :: 0 <= i < |s| ==> s[i] != v
  {
    if s != [] {
      CountZero(s[1..], v);
      assert forall i :: 1 <= i < |s| ==> s[i] == s[1..][i - 1];
    }
  }

  /** A sequence made only of `v` counts `v` once per element. */
  lemma {:induction false} CountAll<T>(s: seq<T>, v: T)
    requires forall i :: 0 <= i < |s| ==> s[i] == v
    ensures Count(s, v) == |s|
  {
    if s != [] {
      CountAll(s[1..], v);
    }
  }
}
