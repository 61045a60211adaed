/** The reserved 404 name of the dashboard's state directory (dashboard/serve_dashboard.py). */
module StateMissProbe {
  import opened Common
  import opened Text

  const BASENAME := ".vnx-state-miss"

  function Candidate(suffix: nat): string {
    if suffix == 0 then BASENAME else BASENAME + "-" + Decimal(suffix)
  }

  /** Suffix n > 0 is written in digits that denote n. */
  lemma {:induction false} CandidateIs(n: nat)
    ensures Candidate(0) == ".vnx-state-miss"
    ensures n > 0 ==>
              exists s :: AllDigits(s) && NumberOf(s) == n && Candidate(n) == ".vnx-state-miss-" + s
  {
    DecimalIs(n);
    assert BASENAME + "-" == ".vnx-state-miss-";
  }

  lemma {:induction false} CandidateInjective(m: nat, n: nat)
    requires Candidate(m) == Candidate(n)
    ensures m == n
  {
    var head := BASENAME + "-";
    assert forall k: nat :: k > 0 ==> |Candidate(k)| > |BASENAME|;
    if m > 0 && n > 0 {
      assert Candidate(m)[|head|..] == Decimal(m) && Candidate(n)[|head|..] == Decimal(n);
      DecimalInjective(m, n);
    }
  }

  ghost predicate AllOccupied(occupied: set<string>, n: nat) {
    forall j: nat :: j < n ==> Candidate(j) in occupied
  }

  /** Pigeonhole: distinct suffixes give distinct names, so n occupied candidates need n names. */
  lemma {:induction false} Pigeonhole(occupied: set<string>, n: nat)
    requires AllOccupied(occupied, n)
    ensures n <= |occupied|
  {
    if n > 0 {
      var last := Candidate(n - 1);
      forall j: nat | j < n - 1 ensures Candidate(j) in occupied - {last} {
        if Candidate(j) == last {
          CandidateInjective(j, n - 1);
        }
      }
      Pigeonhole(occupied - {last}, n - 1);
    }
  }

  /** `_state_miss_path`: for every finite set of occupied names the probe ends, after at most one
      look more than there are occupied names, at the free candidate with the least suffix. */
  method StateMissPath(occupied: set<string>) returns (name: string, suffix: nat)
    ensures name == Candidate(suffix) && name !in occupied
    ensures AllOccupied(occupied, suffix)
    ensures suffix <= |occupied|
  {
    suffix := 0;
    while true
      invariant AllOccupied(occupied, suffix)
      invariant suffix <= |occupied|
      decreases |occupied| - suffix
    {
      name := if suffix == 0 then BASENAME else BASENAME + "-" + Decimal(suffix);
      if name !in occupied {
        return;
      }
      Pigeonhole(occupied, suffix + 1);
      suffix := suffix + 1;
    }
  }
}
