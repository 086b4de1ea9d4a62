/** Restart bookkeeping of one process, in milliseconds. */
module RestartBackoff {
  import opened Folds

  datatype Backoff = Backoff(lastStart: int, earliestNext: int, delay: int, restarts: nat)

  const FRESH := Backoff(0, 0, 1000, 0)

  function Min(a: int, b: int): int {
    if a < b then a else b
  }

  /** A start at `now`. A process that lasted over a minute is forgiven first. */
  function Book(b: Backoff, now: int): Backoff {
    var forgiven := b.restarts > 0 && now - b.lastStart > 60000;
    var delay := if forgiven then 1000 else b.delay;
    var restarts := if forgiven then 0 else b.restarts;
    Backoff(now, now + delay, Min(delay * 2, 30000), restarts + 1)
  }

  /** The bookkeeping after starts at the given times, from the fresh state. */
  function After(starts: seq<int>): Backoff {
    Fold(Book, FRESH, starts)
  }

  /** Every start after the first waited for the moment that the one before it set. */
  ghost predicate Gated(starts: seq<int>) {
    forall k | 0 < k < |starts| :: starts[k] >= After(starts[..k]).earliestNext
  }

  lemma GatedSnoc(starts: seq<int>, at: int)
    requires Gated(starts)
    requires starts == [] || at >= After(starts).earliestNext
    ensures Gated(starts + [at]) && After(starts + [at]) == Book(After(starts), at)
  {
    var all := starts + [at];
    FoldSnoc(Book, FRESH, starts, at);
    forall k | 0 < k < |all| ensures all[k] >= After(all[..k]).earliestNext {
      assert all[..k] == starts[..k];
      assert k == |starts| ==> starts[..k] == starts;
    }
  }

  function Pow2(n: nat): nat {
    if n == 0 then 1 else 2 * Pow2(n - 1)
  }

  function Cap(n: nat): nat {
    Min(1000 * Pow2(n), 30000)
  }

  lemma CapValues(n: nat)
    ensures Cap(n) == if n == 0 then 1000 else if n == 1 then 2000 else if n == 2 then 4000
                      else if n == 3 then 8000 else if n == 4 then 16000 else 30000
  {
    assert Pow2(1) == 2 && Pow2(2) == 4 && Pow2(3) == 8 && Pow2(4) == 16 && Pow2(5) == 32;
    Pow2Grows(5, n);
  }

  lemma {:induction false} Pow2Grows(m: nat, n: nat)
    ensures m <= n ==> Pow2(m) <= Pow2(n)
  {
    if m < n { Pow2Grows(m, n - 1); }
  }

  lemma CapGrows(m: nat, n: nat)
    ensures m <= n ==> Cap(m) <= Cap(n)
  {
    Pow2Grows(m, n);
  }

  /** The state after start `k` follows from the one before it. */
  lemma Unfold(starts: seq<int>, k: nat)
    requires k < |starts|
    ensures After(starts[..k + 1]) == Book(After(starts[..k]), starts[k])
  {
    FoldSnoc(Book, FRESH, starts[..k], starts[k]);
    assert starts[..k + 1] == starts[..k] + [starts[k]];
  }

  /** The delay is a function of the restart count alone: doubling, capped. */
  lemma {:induction false} DelayClosedForm(starts: seq<int>)
    ensures After(starts).delay == Cap(After(starts).restarts)
    ensures starts != [] ==>
      && After(starts).restarts > 0
      && After(starts).lastStart == starts[|starts| - 1]
      && After(starts).earliestNext == After(starts).lastStart + Cap(After(starts).restarts - 1)
  {
    CapValues(0);
    if starts != [] {
      var n := |starts| - 1;
      DelayClosedForm(starts[..n]);
      Unfold(starts, n);
      assert starts[..n + 1] == starts;
      CapValues(After(starts[..n]).restarts);
      CapValues(After(starts[..n]).restarts + 1);
      CapValues(1);
    }
  }

  /** From one start to the next: either the pause was over a minute and counting
      began anew, or it was at least the capped delay and the count went up. */
  lemma Gap(starts: seq<int>, k: nat)
    requires Gated(starts) && k + 1 < |starts|
    ensures var r, gap := After(starts[..k + 1]).restarts, starts[k + 1] - starts[k];
      && r > 0
      && After(starts[..k + 2]).restarts == (if gap > 60000 then 1 else r + 1)
      && gap >= Cap(r - 1)
  {
    DelayClosedForm(starts[..k + 1]);
    Unfold(starts, k + 1);
  }

  /** How far above the line of 15 seconds per start the next starts may still fall. */
  function Slack(restarts: nat): int {
    if restarts <= 1 then 45000 else if restarts == 2 then 31000 else if restarts == 3 then 18000
    else if restarts == 4 then 7000 else 0
  }

  lemma {:induction false} Spread(starts: seq<int>, i: nat, j: nat)
    requires Gated(starts) && i <= j < |starts|
    ensures starts[j] - starts[i] >= 15000 * (j - i + 1) - 60000 + Slack(After(starts[..j + 1]).restarts)
    decreases j
  {
    if i < j {
      Spread(starts, i, j - 1);
      Gap(starts, j - 1);
      CapValues(After(starts[..j]).restarts - 1);
    }
  }

  /** Any n starts in a row span at least 15 n - 60 seconds. */
  lemma AmortisedBound(starts: seq<int>, i: nat, n: nat)
    requires Gated(starts) && 0 < n && i + n <= |starts|
    ensures starts[i + n - 1] - starts[i] >= 15000 * n - 60000
  {
    Spread(starts, i, i + n - 1);
  }

  function Climb(m: nat): nat {
    if m == 0 then 0 else Climb(m - 1) + Cap(m - 1)
  }

  /** From start `i` to start `j` a minute has passed, or the delays have climbed. */
  lemma {:induction false} SlowOrClimbing(starts: seq<int>, i: nat, j: nat)
    requires Gated(starts) && i <= j < |starts|
    ensures
      || starts[j] - starts[i] > 60000
      || (starts[j] - starts[i] >= Climb(j - i) && After(starts[..j + 1]).restarts > j - i)
    decreases j
  {
    if i == j {
      DelayClosedForm(starts[..j + 1]);
    } else {
      hide After, Gated, Cap;
      SlowOrClimbing(starts, i, j - 1);
      Gap(starts, j - 1);
      CapGrows(j - 1 - i, After(starts[..j]).restarts - 1);
    }
  }

  /** No window of 60 seconds holds more than six starts. */
  lemma AtMostSixPerMinute(starts: seq<int>, i: nat, j: nat)
    requires Gated(starts) && i <= j < |starts|
    requires starts[j] - starts[i] <= 60000
    ensures j - i + 1 <= 6
  {
    if j - i >= 6 {
      SlowOrClimbing(starts, i, i + 6);
      CapValues(0); CapValues(1); CapValues(2); CapValues(3); CapValues(4); CapValues(5);
      assert Climb(1) == 1000 && Climb(2) == 3000 && Climb(3) == 7000 && Climb(4) == 15000 && Climb(5) == 31000;
      assert Climb(6) == 61000;
      Increasing(starts, i + 6, j);
    }
  }

  lemma {:induction false} Increasing(starts: seq<int>, i: nat, j: nat)
    requires Gated(starts) && i <= j < |starts|
    ensures starts[i] <= starts[j]
    decreases j
  {
    if i < j {
      Increasing(starts, i, j - 1);
      Gap(starts, j - 1);
      CapValues(After(starts[..j]).restarts - 1);
    }
  }
}
