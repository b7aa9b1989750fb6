/** The retransmission schedule of an unanswered client transaction (transaction.go, startRetransmit).
    Durations are whole ticks. */
module Retransmission {

  function Pow2(k: nat): nat { if k == 0 then 1 else 2 * Pow2(k - 1) }

  function Min(a: nat, b: nat): nat { if a <= b then a else b }

  function Max(a: nat, b: nat): nat { if a <= b then b else a }

  /** The wait before the k-th resend, as the loop computes it from the one before. */
  function Wait(t1: nat, cap: nat, k: nat): nat {
    if k == 0 then t1 else Min(2 * Wait(t1, cap, k - 1), cap)
  }

  /** Time slept through before and during the k-th resend's predecessor: the sum of the first k waits. */
  function Elapsed(t1: nat, cap: nat, k: nat): nat {
    if k == 0 then 0 else Elapsed(t1, cap, k - 1) + Wait(t1, cap, k - 1)
  }

  /** The loop of startRetransmit when no response ever comes. */
  method Unanswered(t1: nat, cap: nat, timerF: nat) returns (resent: nat, elapsed: nat)
    requires t1 > 0 && cap > 0
    ensures resent >= 1 && elapsed == Elapsed(t1, cap, resent)
    ensures timerF <= elapsed < timerF + Max(t1, cap) || (timerF == 0 && elapsed == t1)
    ensures forall k :: 0 < k < resent ==> Elapsed(t1, cap, k) < timerF
  {
    var interval := t1;
    resent, elapsed := 0, 0;
    while true
      invariant interval == Wait(t1, cap, resent)
      invariant 0 < interval <= Max(t1, cap)
      invariant elapsed == Elapsed(t1, cap, resent)
      invariant resent > 0 ==> elapsed < timerF
      invariant forall k :: 0 < k <= resent ==> Elapsed(t1, cap, k) < timerF
      decreases timerF - elapsed
    {
      resent := resent + 1;
      elapsed := elapsed + interval;
      if elapsed >= timerF {
        return;
      }
      interval := interval * 2;
      if interval > cap {
        interval := cap;
      }
    }
  }

  /** Exponential backoff up to the cap. The first wait is T1 even when the cap is smaller. */
  lemma {:induction false} WaitIsCappedDoubling(t1: nat, cap: nat, k: nat)
    ensures k > 0 || t1 <= cap ==> Wait(t1, cap, k) == Min(Pow2(k) * t1, cap)
  {
    if k == 1 {
      assert Pow2(1) == 2;
    } else if k > 1 {
      WaitIsCappedDoubling(t1, cap, k - 1);
      var p := Pow2(k - 1);
      assert Pow2(k) * t1 == 2 * (p * t1);
    }
  }

  lemma {:induction false} ElapsedGrows(t1: nat, cap: nat, k: nat)
    requires t1 > 0 && cap > 0
    ensures Elapsed(t1, cap, k) >= k && Wait(t1, cap, k) > 0
  {
    if k > 0 {
      ElapsedGrows(t1, cap, k - 1);
    }
  }

  lemma {:induction false} ElapsedStalls(t1: nat, cap: nat, k: nat)
    requires (t1 == 0 || cap == 0) && k > 0
    ensures Elapsed(t1, cap, k) == t1 && Wait(t1, cap, k) == 0
  {
    if k == 1 {
      assert Elapsed(t1, cap, 1) == Elapsed(t1, cap, 0) + Wait(t1, cap, 0);
      assert Wait(t1, cap, 1) == Min(2 * Wait(t1, cap, 0), cap);
    } else {
      ElapsedStalls(t1, cap, k - 1);
    }
  }

  /** An unanswered transaction ever times out exactly when both intervals are positive or the first wait
      already reaches Timer F. */
  lemma TimesOutExactlyWhen(t1: nat, cap: nat, timerF: nat)
    ensures (exists k: nat :: k > 0 && Elapsed(t1, cap, k) >= timerF) <==> (t1 > 0 && cap > 0) || timerF <= t1
  {
    if t1 > 0 && cap > 0 {
      ElapsedGrows(t1, cap, timerF + 1);
      assert Elapsed(t1, cap, timerF + 1) >= timerF;
    } else {
      if timerF <= t1 {
        ElapsedStalls(t1, cap, 1);
        assert Elapsed(t1, cap, 1) >= timerF;
      }
      if k: nat :| k > 0 && Elapsed(t1, cap, k) >= timerF {
        ElapsedStalls(t1, cap, k);
      }
    }
  }

  // ------------------------------------------------------------------ INVITE: the cap is 2*T1

  lemma {:induction false} InviteElapsed(t1: nat, k: nat)
    requires k > 0
    ensures Wait(t1, 2 * t1, k) == 2 * t1
    ensures Elapsed(t1, 2 * t1, k) == t1 + (k - 1) * (2 * t1)
  {
    if k == 1 {
      assert Elapsed(t1, 2 * t1, 1) == Elapsed(t1, 2 * t1, 0) + Wait(t1, 2 * t1, 0);
      assert Wait(t1, 2 * t1, 1) == Min(2 * Wait(t1, 2 * t1, 0), 2 * t1);
    } else {
      InviteElapsed(t1, k - 1);
      calc {
        Elapsed(t1, 2 * t1, k);
        t1 + (k - 2) * (2 * t1) + 2 * t1;
        t1 + ((k - 2) + 1) * (2 * t1);
      }
    }
  }

  lemma {:induction false} Pow2Positive(k: nat)
    ensures Pow2(k) >= 1 && (k >= 2 ==> Pow2(k) >= 4)
  {
    if k > 0 {
      Pow2Positive(k - 1);
      if k == 2 {
        assert Pow2(1) == 2 * Pow2(0);
      }
    }
  }

  /** The waits of an INVITE double without bound, as Timer A does, exactly up to the first doubling. */
  lemma DoublesExactlyWhen(t1: nat, k: nat)
    ensures Wait(t1, 2 * t1, k) == Pow2(k) * t1 <==> k <= 1 || t1 == 0
  {
    Pow2Positive(k);
    if k == 0 {
      assert Pow2(0) * t1 == t1;
    } else {
      InviteElapsed(t1, k);
      if k == 1 {
        assert Pow2(1) == 2 * Pow2(0);
      } else {
        MulMonotone(4, Pow2(k), t1);
      }
    }
  }

  function CeilDiv(x: nat, d: nat): nat
    requires d > 0
  {
    (x + d - 1) / d
  }

  lemma MulMonotone(a: nat, b: nat, d: nat)
    requires a <= b
    ensures a * d <= b * d
  {
  }

  lemma QuotientsApart(q: nat, r: nat, q': nat, r': nat, d: nat)
    requires q < q' && r < d
    ensures q * d + r < q' * d + r'
  {
    MulMonotone(q + 1, q', d);
    assert (q + 1) * d == q * d + d;
  }

  lemma CeilIsLeast(x: nat, d: nat, m: nat)
    requires d > 0 && m > 0 && m * d >= x && (m - 1) * d < x
    ensures m == CeilDiv(x, d)
  {
    assert (m - 1) * d == m * d - d;
    var q, r := (x + d - 1) / d, (x + d - 1) % d;
    var r' := x + d - 1 - m * d;
    assert q * d + r == m * d + r';
    if q < m {
      QuotientsApart(q, r, m, r', d);
    } else if m < q {
      QuotientsApart(m, r', q, r, d);
    }
  }

  /** An unanswered INVITE is resent exactly 1 + ceil((TimerF - T1) / (2*T1)) times before it times out. */
  method UnansweredInvite(t1: nat, timerF: nat) returns (resent: nat, elapsed: nat)
    requires t1 > 0
    ensures resent == if timerF > t1 then 1 + CeilDiv(timerF - t1, 2 * t1) else 1
    ensures elapsed == t1 + (resent - 1) * (2 * t1) && elapsed >= timerF
  {
    resent, elapsed := Unanswered(t1, 2 * t1, timerF);
    InviteElapsed(t1, resent);
    if resent == 1 {
      assert (resent - 1) * (2 * t1) == 0;
    } else {
      InviteElapsed(t1, resent - 1);
      var m, d := resent - 1, 2 * t1;
      assert (m - 1) * d == (resent - 2) * (2 * t1);
      assert timerF > t1 by {
        InviteElapsed(t1, 1);
        assert Elapsed(t1, 2 * t1, 1) < timerF;
      }
      CeilIsLeast(timerF - t1, d, m);
    }
  }
}
