/**
 * The reconnect loop of a channel (ingest in internal/realtime/ingest.go): how long it waits between
 * sessions. A session of at least healthyAfter (one minute in the source) resets the wait.
 */
module Ingest {
  import opened Sequences

  /**
   * How one turn of the loop went: the session's length, and whether the context ended in it or in the wait
   * after it.
   */
  datatype Turn = Turn(began: int, ended: int, cancelled: bool, cancelledInSleep: bool)

  datatype Config = Config(minBackoff: int, maxBackoff: int, healthyAfter: int)

  predicate Healthy(cfg: Config, t: Turn) {
    t.ended - t.began >= cfg.healthyAfter
  }

  function Min(a: int, b: int): int {
    if a < b then a else b
  }

  function Pow2(j: nat): (p: nat)
    ensures p >= 1
  {
    if j == 0 then 1 else 2 * Pow2(j - 1)
  }

  /** x * 2^j, by doubling. */
  function Doubled(x: int, j: nat): int {
    if j == 0 then x else 2 * Doubled(x, j - 1)
  }

  lemma {:induction false} DoubledIsProduct(x: int, j: nat)
    ensures Doubled(x, j) == x * Pow2(j)
  {
    if j > 0 {
      DoubledIsProduct(x, j - 1);
      assert x * Pow2(j) == 2 * (x * Pow2(j - 1));
    }
  }

  /** The turns that end in a wait: all before the first one cancelled, and not past a cancelled wait. */
  function Waiting(turns: seq<Turn>): (n: nat)
    ensures n <= |turns|
  {
    if turns == [] || turns[0].cancelled then 0
    else if turns[0].cancelledInSleep then 1
    else 1 + Waiting(turns[1..])
  }

  /** How many waits were done between the last reset and wait k; healthy sessions reset, and so does the start. */
  function SinceReset(cfg: Config, turns: seq<Turn>, k: nat): (j: nat)
    requires k < |turns|
    ensures j <= k
  {
    if k == 0 || Healthy(cfg, turns[k]) then 0 else 1 + SinceReset(cfg, turns, k - 1)
  }

  /**
   * Which sessions reset: SinceReset counts from the last turn whose session lasted healthyAfter or longer, or
   * from the start, and every session after that one was shorter.
   */
  lemma {:induction false} LastReset(cfg: Config, turns: seq<Turn>, k: nat)
    requires k < |turns|
    ensures var r := k - SinceReset(cfg, turns, k);
            && (r == 0 || turns[r].ended - turns[r].began >= cfg.healthyAfter)
            && forall i :: r < i <= k ==> turns[i].ended - turns[i].began < cfg.healthyAfter
  {
    if k > 0 && turns[k].ended - turns[k].began < cfg.healthyAfter {
      LastReset(cfg, turns, k - 1);
    }
  }

  /** How many turns end in a wait: none is cancelled before it, and the loop ends in the first that is. */
  lemma {:induction false} WaitingIs(turns: seq<Turn>)
    ensures forall i :: 0 <= i < Waiting(turns) ==> !turns[i].cancelled
    ensures forall i :: 0 <= i < Waiting(turns) - 1 ==> !turns[i].cancelledInSleep
    ensures Waiting(turns) < |turns| ==>
              turns[Waiting(turns)].cancelled || (Waiting(turns) > 0 && turns[Waiting(turns) - 1].cancelledInSleep)
    decreases |turns|
  {
    if turns != [] && !turns[0].cancelled && !turns[0].cancelledInSleep {
      WaitingIs(turns[1..]);
    }
  }

  /** Wait number j after a reset. */
  function Backoff(cfg: Config, j: nat): int {
    if j == 0 then cfg.minBackoff else Min(Doubled(cfg.minBackoff, j), cfg.maxBackoff)
  }

  lemma BackoffDoubles(cfg: Config, j: nat)
    requires 0 <= cfg.minBackoff && 0 <= cfg.maxBackoff
    ensures Min(Backoff(cfg, j) * 2, cfg.maxBackoff) == Backoff(cfg, j + 1)
  {
  }

  /** The loop: waits lists what it sleeps, in order. */
  method Loop(cfg: Config, turns: seq<Turn>) returns (waits: seq<int>)
    requires 0 <= cfg.minBackoff && 0 <= cfg.maxBackoff
    ensures |waits| == Waiting(turns)
    ensures forall k :: 0 <= k < |waits| ==> waits[k] == Backoff(cfg, SinceReset(cfg, turns, k))
  {
    var backoff := cfg.minBackoff;
    waits := [];
    var i := 0;
    while i < |turns|
      invariant 0 <= i <= |turns| && |waits| == i
      invariant Waiting(turns) == i + Waiting(turns[i..])
      invariant forall k :: 0 <= k < i ==> waits[k] == Backoff(cfg, SinceReset(cfg, turns, k))
      invariant backoff == Backoff(cfg, if i == 0 then 0 else 1 + SinceReset(cfg, turns, i - 1))
    {
      var turn := turns[i];
      assert turns[i..][1..] == turns[i + 1..];
      if turn.cancelled {
        return;
      }
      if turn.ended - turn.began >= cfg.healthyAfter {
        backoff := cfg.minBackoff;
      }
      waits := waits + [backoff];
      BackoffDoubles(cfg, SinceReset(cfg, turns, i));
      backoff := Min(backoff * 2, cfg.maxBackoff);
      if turn.cancelledInSleep {
        return;
      }
      i := i + 1;
    }
  }

  /**
   * Each wait is min(minBackoff * 2^j, maxBackoff), with j the waits since the last reset; right
   * after a reset this needs minBackoff <= maxBackoff, because a reset is not capped.
   */
  lemma WaitClosedForm(cfg: Config, j: nat)
    ensures Backoff(cfg, j) == Min(cfg.minBackoff * Pow2(j), cfg.maxBackoff) <==>
            j > 0 || cfg.minBackoff <= cfg.maxBackoff
  {
    DoubledIsProduct(cfg.minBackoff, j);
  }

  /** The first n waits after a reset, together. */
  function Total(cfg: Config, n: nat): int {
    if n == 0 then 0 else Total(cfg, n - 1) + Backoff(cfg, n - 1)
  }

  lemma {:induction false} DoublingGrows(x: int, i: nat, j: nat)
    requires 0 <= x && i <= j
    ensures x <= Doubled(x, i) <= Doubled(x, j)
    decreases j
  {
    if i < j {
      DoublingGrows(x, i, j - 1);
    } else if i > 0 {
      DoublingGrows(x, i - 1, j - 1);
    }
  }

  lemma OneMore(x: int, k: int)
    ensures x * (k + 1) == x * k + x
  {
  }

  lemma OneMoreDoubling(x: int, j: nat)
    ensures x * (Pow2(j) - 1) + x * Pow2(j) == x * (Pow2(j + 1) - 1)
  {
    assert Pow2(j + 1) == 2 * Pow2(j);
    assert x * (Pow2(j) - 1) + x * Pow2(j) == x * (Pow2(j) - 1 + Pow2(j));
  }

  /** The sum in closed form, with the first a waits doubling. */
  function Closed(cfg: Config, a: nat, n: int): int {
    cfg.minBackoff * (Pow2(a) - 1) + cfg.maxBackoff * (n - a)
  }

  lemma CappedWait(cfg: Config, a: nat, n: nat)
    requires 0 < a <= n && 0 <= cfg.minBackoff && cfg.minBackoff * Pow2(a) >= cfg.maxBackoff
    ensures Closed(cfg, a, n + 1) == Closed(cfg, a, n) + Backoff(cfg, n)
  {
    DoubledIsProduct(cfg.minBackoff, a);
    DoublingGrows(cfg.minBackoff, a, n);
    assert Backoff(cfg, n) == cfg.maxBackoff;
    OneMore(cfg.maxBackoff, n - a);
  }

  lemma DoubledWait(cfg: Config, n: nat)
    requires n > 0 && cfg.minBackoff * Pow2(n) < cfg.maxBackoff
    ensures Closed(cfg, n + 1, n + 1) == Closed(cfg, n, n) + Backoff(cfg, n)
  {
    DoubledIsProduct(cfg.minBackoff, n);
    OneMoreDoubling(cfg.minBackoff, n);
  }

  /**
   * n waits in a row without a reset: a geometric sum of a waits, and then the cap each time, where a is
   * the first positive number of doublings that reaches the cap, or n if that is not met before.
   */
  lemma {:induction false} TotalClosedForm(cfg: Config, n: nat) returns (a: nat)
    requires 0 <= cfg.minBackoff && 0 <= cfg.maxBackoff
    ensures a <= n && (n > 0 ==> a > 0)
    ensures forall j :: 0 < j < a ==> cfg.minBackoff * Pow2(j) < cfg.maxBackoff
    ensures a < n ==> cfg.minBackoff * Pow2(a) >= cfg.maxBackoff
    ensures Total(cfg, n) == cfg.minBackoff * (Pow2(a) - 1) + cfg.maxBackoff * (n - a)
  {
    if n <= 1 {
      a := n;
      assert n == 1 ==> Pow2(1) == 2 && Total(cfg, 1) == Total(cfg, 0) + cfg.minBackoff;
    } else {
      a := TotalClosedForm(cfg, n - 1);
      if cfg.minBackoff * Pow2(a) >= cfg.maxBackoff {
        CappedWait(cfg, a, n - 1);
      } else {
        DoubledWait(cfg, n - 1);
        a := n;
      }
      assert Total(cfg, n) == Closed(cfg, a, n);
    }
  }

  /** The n waits from a reset at turn from on, none of whose later turns resets again, sum to that. */
  lemma {:induction false} StretchTotals(cfg: Config, turns: seq<Turn>, from: nat, waits: seq<int>)
    requires from + |waits| <= |turns|
    requires forall k :: 0 <= k < |waits| ==> waits[k] == Backoff(cfg, SinceReset(cfg, turns, from + k))
    requires from < |turns| ==> SinceReset(cfg, turns, from) == 0
    requires forall k :: from < k < from + |waits| ==> !Healthy(cfg, turns[k])
    ensures Sum(waits) == Total(cfg, |waits|)
  {
    if waits != [] {
      var n := |waits| - 1;
      StretchTotals(cfg, turns, from, waits[..n]);
      SinceResetCounts(cfg, turns, from, n);
      assert waits == waits[..n] + [waits[n]];
      SumConcat(waits[..n], [waits[n]]);
      assert Sum([waits[n]]) == waits[n];
    }
  }

  lemma {:induction false} SinceResetCounts(cfg: Config, turns: seq<Turn>, from: nat, j: nat)
    requires from + j < |turns| && SinceReset(cfg, turns, from) == 0
    requires forall k :: from < k <= from + j ==> !Healthy(cfg, turns[k])
    ensures SinceReset(cfg, turns, from + j) == j
  {
    if j > 0 {
      SinceResetCounts(cfg, turns, from, j - 1);
    }
  }
}
