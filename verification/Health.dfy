/** Active health checking: when a server is taken out, and when it comes back. */
module Health {
  import opened Balancer

  const FAILURES_THRESHOLD := 3

  /** One check: the failures counted so far go in, the new count comes out, and the server's health is set. */
  method CheckServerHealth(ok: bool, s: BackendServer, failures: nat) returns (count: nat)
    modifies s`health
    ensures (count, s.health) == Check(failures, old(s.health), ok)
    ensures ok ==> count == 0 && s.health
    ensures !ok ==> count == failures + 1 && (s.health <==> count < 3 && old(s.health))
  {
    count := failures;
    if !ok {
      count := count + 1;
      if count >= FAILURES_THRESHOLD {
        s.health := false;
      }
    } else {
      s.health := true;
      count := 0;
    }
  }

  function Check(failures: nat, health: bool, ok: bool): (nat, bool) {
    if ok then (0, true)
    else (failures + 1, if failures + 1 >= FAILURES_THRESHOLD then false else health)
  }

  /** The checker's count and the server's health after some checks of a server whose health was `begun`. */
  function Checks(begun: bool, oks: seq<bool>): (nat, bool) {
    if oks == [] then (0, begun) else
    var (failures, health) := Checks(begun, oks[..|oks| - 1]);
    Check(failures, health, oks[|oks| - 1])
  }

  /** The failures that the checks end with. */
  function TrailingFailures(oks: seq<bool>): nat {
    if oks == [] || oks[|oks| - 1] then 0 else 1 + TrailingFailures(oks[..|oks| - 1])
  }

  lemma {:induction false} TrailingFailuresAre(oks: seq<bool>, k: nat)
    requires k <= |oks|
    ensures TrailingFailures(oks) >= k <==> forall i | |oks| - k <= i < |oks| :: !oks[i]
  {
    var n := |oks| - 1;
    if k > 0 && !oks[n] {
      TrailingFailuresAre(oks[..n], k - 1);
      assert forall i | 0 <= i < n :: oks[..n][i] == oks[i];
    }
  }

  lemma {:induction false} ChecksCount(begun: bool, oks: seq<bool>)
    ensures var trailing := TrailingFailures(oks);
            && trailing <= |oks|
            && Checks(begun, oks) == (trailing, trailing < FAILURES_THRESHOLD && (begun || trailing < |oks|))
  {
    if oks != [] {
      ChecksCount(begun, oks[..|oks| - 1]);
    }
  }

  /** A server is out exactly when its last three checks have all failed, or it was out and no check has passed yet. */
  lemma UnhealthyIffThreeInARow(begun: bool, oks: seq<bool>)
    ensures !Checks(begun, oks).1 <==>
              || (|oks| >= 3 && !oks[|oks| - 1] && !oks[|oks| - 2] && !oks[|oks| - 3])
              || (!begun && forall i | 0 <= i < |oks| :: !oks[i])
  {
    ChecksCount(begun, oks);
    TrailingFailuresAre(oks, |oks|);
    if |oks| >= FAILURES_THRESHOLD {
      TrailingFailuresAre(oks, FAILURES_THRESHOLD);
    }
  }

  /** The checker's loop over its ticks, the first check made at once. */
  method Checker(s: BackendServer, oks: seq<bool>) returns (failures: nat)
    modifies s`health
    ensures (failures, s.health) == Checks(old(s.health), oks)
  {
    failures := 0;
    var tick := 0;
    while tick < |oks|
      invariant 0 <= tick <= |oks|
      invariant (failures, s.health) == Checks(old(s.health), oks[..tick])
    {
      assert oks[..tick + 1][..tick] == oks[..tick];
      failures := CheckServerHealth(oks[tick], s, failures);
      tick := tick + 1;
    }
    assert oks[..|oks|] == oks;
  }
}
