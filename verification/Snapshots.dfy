/**
  How long a staking snapshot is kept, and what the proposals submitted meanwhile get from it.
 */
module Snapshots {
  import opened Common
  import opened Governance

  /** The snapshot kept for a height. */
  function Kept(g: Gov, height: u64): Option<map<string, u64>> {
    if height in g.snapshots then Some(g.snapshots[height]) else None
  }

  predicate ReplacesIt(e: GovEvent, height: u64) {
    e.SnapshotEvent? && e.height == height
  }

  /** Taking a snapshot this high drops those more than a voting period below. */
  predicate DropsIt(e: GovEvent, height: u64) {
    e.SnapshotEvent? && e.height > height + VOTING_PERIOD_BLOCKS
  }

  ghost predicate Dropped(events: seq<GovEvent>, height: u64) {
    exists i :: 0 <= i < |events| && DropsIt(events[i], height)
  }

  ghost predicate NeverReplaced(events: seq<GovEvent>, height: u64) {
    forall i :: 0 <= i < |events| ==> !ReplacesIt(events[i], height)
  }

  /** A snapshot can be read back, replaces what its height had, and drops exactly the heights too far below. */
  lemma TakingIsExact(g: Gov, height: u64, snapshot: map<string, u64>, other: u64)
    ensures var g' := SetSnapshot(g, height, snapshot);
            && Kept(g', height) == Some(snapshot)
            && (other != height ==>
                  Kept(g', other) == if height > other + VOTING_PERIOD_BLOCKS then None else Kept(g, other))
            && g'.(snapshots := g.snapshots) == g
  {
  }

  /** No other event touches a snapshot. */
  lemma StepOnSnapshot(g: Gov, e: GovEvent, height: u64)
    requires !ReplacesIt(e, height)
    ensures Kept(GovStep(g, e), height) == if DropsIt(e, height) then None else Kept(g, height)
  {
    if e.SnapshotEvent? {
      TakingIsExact(g, e.height, e.snapshot, height);
    }
  }

  /** Over any run that does not take it again, a snapshot is kept exactly until one is taken more than a voting period above. */
  lemma {:induction false} SnapshotLasts(g: Gov, height: u64, events: seq<GovEvent>)
    requires NeverReplaced(events, height)
    ensures Kept(GovRun(g, events), height) == if Dropped(events, height) then None else Kept(g, height)
  {
    if events != [] {
      var before, last := events[..|events| - 1], events[|events| - 1];
      SnapshotLasts(g, height, before);
      StepOnSnapshot(GovRun(g, before), last, height);
      assert Dropped(events, height) <==> Dropped(before, height) || DropsIt(last, height) by {
        assert forall i :: 0 <= i < |before| ==> before[i] == events[i];
        if Dropped(before, height) {
          var i :| 0 <= i < |before| && DropsIt(before[i], height);
          assert DropsIt(events[i], height);
        }
      }
    }
  }

  /**
    What taking a snapshot is for. A proposal submitted at its height after any run without another one for
    that height carries it, and a vote weighs at most what the voter holds in it, exactly when no snapshot
    was taken more than a voting period above meanwhile. Otherwise claimed power counts in full.
   */
  lemma ProposalCarriesSnapshot(g: Gov, height: u64, snapshot: map<string, u64>, events: seq<GovEvent>, s: Submission,
                                voter: string, power: u64)
    requires NeverReplaced(events, height)
    requires var end := GovRun(SetSnapshot(g, height, snapshot), events);
             end.height == height && Submit(end, s).1.Done?
    ensures var end := GovRun(SetSnapshot(g, height, snapshot), events);
            var p := Submit(end, s).0.proposals[end.nextId];
            && p.snapshot == (if Dropped(events, height) then None else Some(snapshot))
            && CappedPower(p, voter, power) ==
                 if Dropped(events, height) then power else Min(power, if voter in snapshot then snapshot[voter] else 0)
  {
    TakingIsExact(g, height, snapshot, height);
    SnapshotLasts(SetSnapshot(g, height, snapshot), height, events);
  }
}
