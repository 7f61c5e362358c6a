/** The two-phase progress formula of the transfer callback (backend.py:376-380). */
module Progress {

  /** One invocation of the progress callback by the provider: bytes done, bytes total. */
  datatype Callback = Callback(current: int, total: int)

  /** `0.2 + (current / total) * 0.8`, in exact rationals. */
  function ProgressFor(current: int, total: int): real
    requires total > 0
  {
    0.2 + (current as real / total as real) * 0.8
  }

  /** The progress after one callback, starting from `p`: the callback writes only when
      `total > 0`. */
  function Reported(p: real, cb: Callback): real
  {
    if cb.total > 0 then ProgressFor(cb.current, cb.total) else p
  }

  /** The progress after a run of callbacks, applied in order. */
  function ProgressAfter(p: real, cbs: seq<Callback>): real
  {
    if cbs == [] then p else Reported(ProgressAfter(p, cbs[..|cbs| - 1]), cbs[|cbs| - 1])
  }

  /** A callback that reports no more than the total. */
  predicate InRange(cb: Callback)
  {
    cb.total > 0 ==> 0 <= cb.current <= cb.total
  }

  /** For `0 <= current <= total` the value lies in [0.2, 1.0], with both ends reached. */
  lemma ProgressBounds(current: int, total: int)
    requires total > 0 && 0 <= current <= total
    ensures 0.2 <= ProgressFor(current, total) <= 1.0
    ensures ProgressFor(current, total) == 0.2 <==> current == 0
    ensures ProgressFor(current, total) == 1.0 <==> current == total
  {
    var f := current as real / total as real;
    assert f * total as real == current as real;
    assert 0.0 <= f;
    assert f <= 1.0;
  }

  /** More bytes done never gives less progress. */
  lemma ProgressMonotone(current1: int, current2: int, total: int)
    requires total > 0 && current1 <= current2
    ensures ProgressFor(current1, total) <= ProgressFor(current2, total)
  {
    var t := total as real;
    assert current1 as real / t <= current2 as real / t by {
      assert (current2 as real - current1 as real) / t >= 0.0;
    }
  }

  /** Starting in [0.2, 1.0], callbacks that stay within their totals keep progress there. */
  lemma {:induction false} ProgressAfterBounded(p: real, cbs: seq<Callback>)
    requires 0.2 <= p <= 1.0
    requires forall i :: 0 <= i < |cbs| ==> InRange(cbs[i])
    ensures 0.2 <= ProgressAfter(p, cbs) <= 1.0
  {
    if cbs != [] {
      ProgressAfterBounded(p, cbs[..|cbs| - 1]);
      var last := cbs[|cbs| - 1];
      if last.total > 0 {
        assert InRange(last);
        ProgressBounds(last.current, last.total);
      }
    }
  }

  /** Callbacks for one transfer (one positive total, non-decreasing byte counts, none
      negative), applied from at most 0.2, give a non-decreasing run of observed progress. */
  lemma {:induction false} ProgressAfterMonotone(p: real, cbs: seq<Callback>, total: int, i: nat, j: nat)
    requires total > 0 && p <= 0.2
    requires forall k :: 0 <= k < |cbs| ==> cbs[k].total == total && 0 <= cbs[k].current
    requires forall k, l :: 0 <= k < l < |cbs| ==> cbs[k].current <= cbs[l].current
    requires i <= j <= |cbs|
    ensures ProgressAfter(p, cbs[..i]) <= ProgressAfter(p, cbs[..j])
    decreases j
  {
    if i < j {
      ProgressAfterMonotone(p, cbs, total, i, j - 1);
      var prefix := cbs[..j];
      assert prefix[..j - 1] == cbs[..j - 1];
      var last := cbs[j - 1];
      assert ProgressAfter(p, prefix) == ProgressFor(last.current, total);
      if j - 1 == 0 {
        assert ProgressAfter(p, cbs[..0]) == p;
        ProgressMonotone(0, last.current, total);
        assert ProgressFor(0, total) == 0.2;
      } else {
        var prev := cbs[j - 2];
        assert cbs[..j - 1][..j - 2] == cbs[..j - 2];
        assert ProgressAfter(p, cbs[..j - 1]) == ProgressFor(prev.current, total);
        ProgressMonotone(prev.current, last.current, total);
      }
    }
  }
}
