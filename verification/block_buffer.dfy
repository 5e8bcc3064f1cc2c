/** The interpreter's block buffer: a bounded FIFO that drops its oldest
    element to make room for a new one once it holds `cap` elements. */
module BlockBuffer {

  /** The last `n` elements of `s`, or all of `s` when it is shorter. This is
      the reference for what a bounded FIFO holds after a run of arrivals. */
  function LastN<T>(s: seq<T>, n: nat): seq<T>
  {
    if |s| <= n then s else s[|s| - n..]
  }

  /** Stores one element: when the buffer is full its first (oldest) element
      is erased before the new one is appended at the back. */
  function Push<T>(buf: seq<T>, x: T, cap: nat): (r: seq<T>)
    requires 0 < cap
    ensures |r| > 0 && r[|r| - 1] == x
    ensures |buf| <= cap ==> |r| <= cap
    ensures |buf| <= cap ==> r == LastN(buf + [x], cap)
  {
    if |buf| == cap then buf[1..] + [x] else buf + [x]
  }

  /** Stores the elements of `xs` one at a time, first to last. Starting from
      a buffer within capacity, the result is exactly the last `cap` elements
      of the old contents followed by `xs`, in arrival order. */
  function Append<T>(buf: seq<T>, xs: seq<T>, cap: nat): (r: seq<T>)
    requires 0 < cap
    ensures |buf| <= cap ==> |r| <= cap
    ensures |buf| <= cap ==> r == LastN(buf + xs, cap)
    decreases |xs|
  {
    if xs == [] then
      assert buf + xs == buf;
      buf
    else
      var r := Append(Push(buf, xs[0], cap), xs[1..], cap);
      if |buf| <= cap then
        AppendStep(buf, xs, cap, r);
        r
      else
        r
  }

  /** One arrival followed by the rest is the whole run at once. */
  lemma AppendStep<T>(buf: seq<T>, xs: seq<T>, cap: nat, r: seq<T>)
    requires 0 < cap && |buf| <= cap && xs != []
    requires r == LastN(LastN(buf + [xs[0]], cap) + xs[1..], cap)
    ensures r == LastN(buf + xs, cap)
  {
    LastNAbsorbs(buf + [xs[0]], xs[1..], cap);
    assert buf + [xs[0]] + xs[1..] == buf + xs;
  }

  /** Trimming to the last `n` elements before appending more and trimming
      again is the same as trimming once at the end. */
  lemma LastNAbsorbs<T>(u: seq<T>, v: seq<T>, n: nat)
    ensures LastN(LastN(u, n) + v, n) == LastN(u + v, n)
  {
    if |u| > n {
      var w := LastN(u, n) + v;
      assert |w| == n + |v|;
      if |v| == 0 {
        assert w == LastN(u, n);
        assert u + v == u;
      } else {
        assert LastN(w, n) == w[|v|..];
        forall i | 0 <= i < n
          ensures w[|v|..][i] == (u + v)[|u| + |v| - n..][i]
        {
          if i + |v| < n {
            assert w[|v| + i] == u[|u| - n + |v| + i];
          } else {
            assert w[|v| + i] == v[|v| + i - n];
          }
        }
      }
    }
  }
}
