/** Circular byte buffers: the two-part copies both rings of the driver are made of. */
module Ring {
  import opened Bytes

  /** An offset past the end continues at the front. */
  function Wrap(x: nat, cap: nat): (w: nat)
    requires x < 2 * cap
    ensures w < cap
  {
    if x < cap then x else x - cap
  }

  lemma ModIsWrap(x: nat, cap: nat)
    requires x < 2 * cap
    ensures x % cap == Wrap(x, cap)
  {
    if x < cap {
      assert x == 0 * cap + x;
    } else {
      assert x == 1 * cap + (x - cap);
    }
  }

  /** The `n` bytes from `head`, across the end if need be. */
  function Span(buf: seq<byte>, head: nat, n: nat): (s: seq<byte>)
    requires head < |buf| && n <= |buf|
    ensures |s| == n
  {
    seq(n, k requires 0 <= k < n => buf[Wrap(head + k, |buf|)])
  }

  lemma SpanSplits(buf: seq<byte>, head: nat, m: nat, n: nat)
    requires head < |buf| && m <= n <= |buf|
    ensures Span(buf, head, n) == Span(buf, head, m) + Span(buf, Wrap(head + m, |buf|), n - m)
  {
    var whole, rest := Span(buf, head, n), Span(buf, Wrap(head + m, |buf|), n - m);
    forall k | 0 <= k < n ensures whole[k] == (Span(buf, head, m) + rest)[k] {
      assert k >= m ==> Wrap(Wrap(head + m, |buf|) + (k - m), |buf|) == Wrap(head + k, |buf|);
    }
  }

  /** How far behind `at` the offset `i` lies, going round. */
  function Behind(i: nat, at: nat, cap: nat): nat
    requires i < cap && at < cap
  {
    if i >= at then i - at else i + cap - at
  }

  /** `after` is `before` with `src` copied in at `at`. */
  predicate Written(before: seq<byte>, after: seq<byte>, at: nat, src: seq<byte>)
    requires at < |before|
  {
    && |after| == |before|
    && forall i | 0 <= i < |after| ::
         after[i] == if Behind(i, at, |after|) < |src| then src[Behind(i, at, |after|)] else before[i]
  }

  /** Copying in behind a span extends the span. */
  lemma SpanGrows(before: seq<byte>, after: seq<byte>, head: nat, used: nat, src: seq<byte>)
    requires head < |before| && used + |src| <= |before|
    requires Written(before, after, Wrap(head + used, |before|), src)
    ensures Span(after, head, used + |src|) == Span(before, head, used) + src
  {
    var cap, at := |before|, Wrap(head + used, |before|);
    forall k | 0 <= k < used + |src|
      ensures Span(after, head, used + |src|)[k] == (Span(before, head, used) + src)[k]
    {
      var i := Wrap(head + k, cap);
      assert Behind(i, at, cap) == if k >= used then k - used else k + cap - used;
    }
  }

  /** memcpy of `src` to offset `at`, the part past the end going to the front. */
  method CopyIn(ring: array<byte>, at: nat, src: seq<byte>)
    requires at < ring.Length && |src| <= ring.Length
    modifies ring
    ensures Written(old(ring[..]), ring[..], at, src)
  {
    var n, first := |src|, ring.Length - at;
    if first > n { first := n; }
    forall i | 0 <= i < first { ring[at + i] := src[i]; }
    assert forall i | 0 <= i < ring.Length && !(at <= i < at + first) :: ring[i] == old(ring[i]);
    forall i | 0 <= i < n - first { ring[i] := src[first + i]; }
  }

  /** memcpy of `n` bytes from offset `at`, the part past the end coming from the front. */
  method CopyOut(ring: array<byte>, at: nat, n: nat) returns (dst: seq<byte>)
    requires at < ring.Length && n <= ring.Length
    ensures dst == Span(ring[..], at, n)
  {
    var first := ring.Length - at;
    if first > n { first := n; }
    dst := ring[at..at + first] + ring[..n - first];
    forall k | 0 <= k < n ensures dst[k] == Span(ring[..], at, n)[k] {
      assert dst[k] == ring[Wrap(at + k, ring.Length)];
    }
  }
}
