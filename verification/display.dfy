/** The arithmetic behind the status line and the progress bar. */
module Display {

  /** The character inserted where the middle of a long status is cut. */
  const Ellipsis: char := '…'
  const DefaultEllipsisLimit: int := 72
  const MinEllipsisLimit: int := 10

  /** `Math.max(10, Number(maxLen) || 72)` on integers: zero falls back to the
      default, and nothing below ten is accepted. */
  function EllipsisLimit(maxLen: int): (limit: int)
    ensures limit >= MinEllipsisLimit
    ensures maxLen >= MinEllipsisLimit ==> limit == maxLen
    ensures maxLen == 0 ==> limit == DefaultEllipsisLimit
    ensures maxLen != 0 && maxLen < MinEllipsisLimit ==> limit == MinEllipsisLimit
  {
    var n := if maxLen == 0 then DefaultEllipsisLimit else maxLen;
    if n >= MinEllipsisLimit then n else MinEllipsisLimit
  }

  /** `ellipsizeMiddle`: a text that fits is returned as is; a longer one keeps
      its first ceil((limit-1)/2) and last floor((limit-1)/2) characters around
      one ellipsis, so the result is exactly `limit` long. */
  function EllipsizeMiddle(s: string, maxLen: int): (r: string)
    ensures var limit := EllipsisLimit(maxLen);
            |s| <= limit ==> r == s
    ensures var limit := EllipsisLimit(maxLen);
            |s| > limit ==>
              var left := limit / 2;
              var right := (limit - 1) / 2;
              |r| == limit
              && left + 1 + right == limit
              && (left == right || left == right + 1)
              && r[..left] == s[..left]
              && r[left] == Ellipsis
              && r[left + 1..] == s[|s| - right..]
  {
    var limit := EllipsisLimit(maxLen);
    if |s| <= limit then s
    else
      var keep := limit - 1;
      var left := (keep + 1) / 2;
      var right := keep / 2;
      s[..left] + [Ellipsis] + s[|s| - right..]
  }

  /** The result is never longer than the limit, and never shorter than the
      text unless the text had to be cut. */
  lemma EllipsizeLength(s: string, maxLen: int)
    ensures |EllipsizeMiddle(s, maxLen)| == if |s| <= EllipsisLimit(maxLen) then |s| else EllipsisLimit(maxLen)
  {
  }

  /** Floor division pins the percentage between its neighbours. */
  lemma PercentBounds(done: int, total: int)
    requires 0 <= done <= total && total > 0
    ensures var pct := (done * 100) / total;
            0 <= pct <= 100
            && pct * total <= done * 100 < (pct + 1) * total
            && (pct == 100 <==> done == total)
  {
    var x := done * 100;
    var pct := x / total;
    var rem := x % total;
    assert x == pct * total + rem && 0 <= rem < total;
    assert (pct + 1) * total == pct * total + total;
    assert x <= total * 100 by {
      MulMonotone(done, total, 100);
    }
    if pct > 100 {
      MulMonotone(101, pct, total);
      assert false;
    }
    if pct < 0 {
      MulMonotone(pct, -1, total);
      assert false;
    }
    if done == total {
      if pct < 100 {
        MulMonotone(pct + 1, 100, total);
        assert false;
      }
    }
    if pct == 100 {
      if done < total {
        MulMonotone(done, total - 1, 100);
        assert false;
      }
    }
  }

  lemma MulMonotone(a: int, b: int, c: int)
    requires a <= b && c >= 0
    ensures a * c <= b * c
  {
  }

  /** What `setProgress` shows: the clamped counts and the whole percentage. */
  datatype Progress = Progress(done: int, total: int, pct: int)

  /** `setProgress`: the total is clamped at zero, the count done into
      [0, total], and the percentage is rounded down (zero for an empty total). */
  function SetProgress(done: int, total: int): (p: Progress)
    ensures 0 <= p.done <= p.total
    ensures p.total == if total > 0 then total else 0
    ensures 0 <= done <= total ==> p.done == done
    ensures done > total ==> p.done == p.total
    ensures 0 <= p.pct <= 100
    ensures p.total > 0 ==> p.pct * p.total <= p.done * 100 < (p.pct + 1) * p.total
    ensures p.total == 0 ==> p.pct == 0
    ensures p.pct == 100 <==> p.total > 0 && done >= total
  {
    var safeTotal := if total > 0 then total else 0;
    var safeDone := if done < 0 then 0 else if done > safeTotal then safeTotal else done;
    var pct := if safeTotal > 0 then (safeDone * 100) / safeTotal else 0;
    if safeTotal > 0 then
      PercentBounds(safeDone, safeTotal);
      Progress(safeDone, safeTotal, pct)
    else
      Progress(safeDone, safeTotal, pct)
  }
}
