/** Settling file-not-found candidates and accounting for every candidate seen. */
module CodeMatchSettlement {
  import opened CodeMatch

  const USIZE_MAX: nat := 0xFFFF_FFFF_FFFF_FFFF
  const I64_MAX: nat := 0x7FFF_FFFF_FFFF_FFFF

  function SaturatingAdd(a: nat, b: nat, max: nat): nat {
    if a + b <= max then a + b else max
  }

  function Bounded(n: nat, max: nat): nat {
    if n <= max then n else max
  }

  method SettleCandidates(candidates: seq<Candidate>, before: nat) returns (kept: seq<Candidate>, dropped: nat)
    requires before <= USIZE_MAX
    ensures kept == KeepVerified(candidates)
    ensures dropped == Bounded(before + Absent(candidates), USIZE_MAX)
  {
    kept, dropped := [], before;
    ghost var gone: nat, whole, all := 0, KeepVerified(candidates), Absent(candidates);
    assert candidates[0..] == candidates;
    for i := 0 to |candidates|
      invariant kept + KeepVerified(candidates[i..]) == whole
      invariant gone + Absent(candidates[i..]) == all
      invariant dropped == Bounded(before + gone, USIZE_MAX)
    {
      assert candidates[i..][1..] == candidates[i + 1..];
      if candidates[i].verification != FileNotFound {
        kept := kept + [candidates[i]];
      } else {
        dropped := SaturatingAdd(dropped, 1, USIZE_MAX);
        gone := gone + 1;
      }
    }
    assert candidates[|candidates|..] == [];
  }

  /** Keeps what was found and counts what was not. */
  method SettleFileNotFound(matches: seq<Matches>) returns (settled: seq<Matches>, dropped: nat)
    ensures settled == Settled(matches)
    ensures dropped == Bounded(TotalAbsent(matches), USIZE_MAX)
  {
    settled, dropped := [], 0;
    ghost var gone: nat, whole, all := 0, Settled(matches), TotalAbsent(matches);
    assert matches[0..] == matches;
    for i := 0 to |matches|
      invariant settled + Settled(matches[i..]) == whole
      invariant gone + TotalAbsent(matches[i..]) == all
      invariant dropped == Bounded(gone, USIZE_MAX)
    {
      assert matches[i..][1..] == matches[i + 1..];
      var kept, total := SettleCandidates(matches[i].candidates, dropped);
      settled := settled + [Matches(matches[i].query, kept)];
      gone, dropped := gone + Absent(matches[i].candidates), total;
    }
    assert matches[|matches|..] == [];
  }

  // ------------------------------------------------------------------ accounting

  datatype Outcome = Outcome(candidatesSeen: nat, droppedAsAbsent: nat, keptVerified: nat, keptUnverified: nat)

  /** The running counts of one resolution. */
  class Tracker {
    var candidatesSeen: nat
    var droppedAsAbsent: nat

    constructor ()
      ensures candidatesSeen == droppedAsAbsent == 0
    {
      candidatesSeen, droppedAsAbsent := 0, 0;
    }

    method ObserveCandidates(count: nat)
      modifies this`candidatesSeen
      ensures candidatesSeen == SaturatingAdd(old(candidatesSeen), count, USIZE_MAX)
    {
      candidatesSeen := SaturatingAdd(candidatesSeen, count, USIZE_MAX);
    }

    method ObserveAbsent(count: nat)
      modifies this`droppedAsAbsent
      ensures droppedAsAbsent == SaturatingAdd(old(droppedAsAbsent), count, USIZE_MAX)
    {
      droppedAsAbsent := SaturatingAdd(droppedAsAbsent, count, USIZE_MAX);
    }

    /** The counts as reported; file-not-found candidates must have been settled before. */
    method Finish(matches: seq<Matches>) returns (outcome: Outcome)
      requires TotalAbsent(matches) == 0
      ensures outcome == Outcome(Bounded(candidatesSeen, I64_MAX), Bounded(droppedAsAbsent, I64_MAX),
                                 Bounded(Total(matches), I64_MAX), 0)
    {
      var keptVerified := 0;
      assert matches[0..] == matches;
      for i := 0 to |matches|
        invariant keptVerified + Total(matches[i..]) == Total(matches)
      {
        assert matches[i..][1..] == matches[i + 1..];
        for j := 0 to |matches[i].candidates|
          invariant keptVerified + (|matches[i].candidates| - j) + Total(matches[i + 1..]) == Total(matches)
        {
          keptVerified := keptVerified + 1;
        }
      }
      assert matches[|matches|..] == [];
      outcome := Outcome(Bounded(candidatesSeen, I64_MAX), Bounded(droppedAsAbsent, I64_MAX),
                         Bounded(keptVerified, I64_MAX), 0);
    }
  }
}
