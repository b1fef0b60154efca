/** One heartbeat round for one registration: up to three probes of its
    heartbeat URL, eviction on the first failure and re-admission on a later
    success within the same round. Probe results are an input. */
module Heartbeat {
  import opened Records
  import opened Patches
  import opened Membership

  const MaxAttempts: nat := 3

  /** A store operation issued by a heartbeat round. */
  datatype Call = RemoveCall(url: string) | AddCall(registration: Registration)

  /** What a round did: how many probes it made and which store calls. */
  datatype Round = Round(probes: nat, calls: seq<Call>)

  /** Index of the first successful probe among the first `n`, or `n`. */
  function FirstSuccess(outcomes: seq<bool>, n: nat): (k: nat)
    requires n <= |outcomes|
    ensures k <= n
    ensures forall j :: 0 <= j < k ==> !outcomes[j]
    ensures k < n ==> outcomes[k]
  {
    if n == 0 then 0
    else
      var k := FirstSuccess(outcomes, n - 1);
      if k < n - 1 then k
      else if outcomes[n - 1] then n - 1
      else n
  }

  /** The rules of a heartbeat round for `reg`, given the probe outcomes and
      whether its URL is stored when the round starts. */
  predicate FollowsRoundRules(reg: Registration, outcomes: seq<bool>, stored: bool, r: Round)
    requires |outcomes| >= MaxAttempts
  {
    // at most three probes, and every probe but the last one failed
    1 <= r.probes <= MaxAttempts &&
    (forall j :: 0 <= j < r.probes - 1 ==> !outcomes[j]) &&
    // the round stops early only at a success, or when the removal fails
    (r.probes < MaxAttempts ==> outcomes[r.probes - 1] || (!stored && r.probes == 1)) &&
    // it does stop at the first success, unless a failed removal ended it before
    ((stored || outcomes[0]) && (exists j :: 0 <= j < MaxAttempts && outcomes[j]) ==>
       outcomes[r.probes - 1]) &&
    // a failed removal ends the round after its one probe
    (!stored && !outcomes[0] ==> r.probes == 1 && r.calls == [RemoveCall(reg.serviceURL)]) &&
    // a first success changes nothing
    (r.calls == [] <==> outcomes[0]) &&
    // otherwise remove is called once, first, with the registration's URL
    (!outcomes[0] ==> r.calls[0] == RemoveCall(reg.serviceURL) && RemoveCall(reg.serviceURL) !in r.calls[1..]) &&
    // add is called only after a failure followed by a success
    (AddCall(reg) in r.calls <==>
       stored && !outcomes[0] && exists j :: 0 < j < MaxAttempts && outcomes[j]) &&
    // the only store calls are removing the registration's URL and adding it back
    (forall c :: c in r.calls ==> c == RemoveCall(reg.serviceURL) || c == AddCall(reg)) &&
    |r.calls| <= 2
  }

  /** The round a registration gets: it follows the round rules. */
  function PlannedRound(reg: Registration, outcomes: seq<bool>, stored: bool): (r: Round)
    requires |outcomes| >= MaxAttempts
    ensures FollowsRoundRules(reg, outcomes, stored, r)
  {
    var k := FirstSuccess(outcomes, MaxAttempts);
    if k == 0 then Round(1, [])
    else if !stored then Round(1, [RemoveCall(reg.serviceURL)])
    else if k < MaxAttempts then Round(k + 1, [RemoveCall(reg.serviceURL), AddCall(reg)])
    else Round(MaxAttempts, [RemoveCall(reg.serviceURL)])
  }

  /** The round rules leave no freedom: the only round that follows them is
      `PlannedRound`, so they fix both the probe count and the store calls. */
  lemma RoundRulesDetermineRound(reg: Registration, outcomes: seq<bool>, stored: bool, r: Round)
    requires |outcomes| >= MaxAttempts
    requires FollowsRoundRules(reg, outcomes, stored, r)
    ensures r == PlannedRound(reg, outcomes, stored)
  {
    var k := FirstSuccess(outcomes, MaxAttempts);
    var p := PlannedRound(reg, outcomes, stored);
    assert |r.calls| > 1 ==> r.calls[1] in r.calls && r.calls[1] in r.calls[1..];
    if !outcomes[0] && stored {
      assert r.calls == [r.calls[0]] + r.calls[1..];
      if k < MaxAttempts {
        assert outcomes[r.probes - 1];
        assert AddCall(reg) in r.calls[1..];
        assert r.calls[1..] == [AddCall(reg)];
      } else {
        assert AddCall(reg) !in r.calls;
      }
      assert r.calls == p.calls;
    }
  }

  /** The store after performing `calls` in order. */
  function Replay(st: Store, calls: seq<Call>, reachable: set<string>): Store
    decreases |calls|
  {
    if calls == [] then st
    else
      var next := match calls[0]
        case RemoveCall(url) => Removed(st, url, reachable)
        case AddCall(reg) => Appended(st, reg, reachable);
      Replay(next, calls[1..], reachable)
  }

  /** The effect of one round on the table: untouched when the first probe
      succeeds or the URL is no longer stored; the first entry under the URL
      evicted when every probe fails; and when a later probe succeeds, the
      entry evicted and the registration appended again, so it moves to the
      end of the table. */
  lemma RoundEffect(st: Store, reg: Registration, outcomes: seq<bool>, reachable: set<string>)
    requires |outcomes| >= MaxAttempts
    ensures var stored := Stored(st.registrations, reg.serviceURL);
      var after := Replay(st, PlannedRound(reg, outcomes, stored).calls, reachable);
      var evicted := Removed(st, reg.serviceURL, reachable);
      (outcomes[0] || !stored ==> after == st) &&
      (!outcomes[0] && stored && (forall j :: 0 <= j < MaxAttempts ==> !outcomes[j]) ==>
         after == evicted && |after.registrations| == |st.registrations| - 1) &&
      (!outcomes[0] && stored && (exists j :: 0 < j < MaxAttempts && outcomes[j]) ==>
         after == Appended(evicted, reg, reachable) &&
         after.registrations == evicted.registrations + [reg] &&
         |after.registrations| == |st.registrations|)
  {
    var stored := Stored(st.registrations, reg.serviceURL);
    var calls := PlannedRound(reg, outcomes, stored).calls;
    var evicted := Removed(st, reg.serviceURL, reachable);
    if stored {
      RemoveDeletesFirstMatch(st, reg.serviceURL, reachable);
    }
    if !outcomes[0] {
      assert Replay(st, [RemoveCall(reg.serviceURL)], reachable) == evicted;
      if calls == [RemoveCall(reg.serviceURL), AddCall(reg)] {
        assert calls[1..] == [AddCall(reg)];
        assert Replay(evicted, [AddCall(reg)], reachable) == Appended(evicted, reg, reachable);
      }
    }
  }
}
