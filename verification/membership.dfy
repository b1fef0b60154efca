/** The membership table as a value: the stored registrations together with
    the POSTs sent so far, and the effect of `add` and `remove` on both. */
module Membership {
  import opened Records
  import opened Patches

  datatype Error = NotFound(url: string) | DeliveryFailed(url: string)

  /** The registry's observable state: its registrations in insertion order
      and the log of webhook POSTs it has attempted. */
  datatype Store = Store(registrations: seq<Registration>, outbox: seq<Send>)

  /** Index of the first registration stored under `url`, if any. */
  function FirstMatch(regs: seq<Registration>, url: string): (r: Option<nat>)
    ensures r.Some? ==> r.value < |regs| && regs[r.value].serviceURL == url
    ensures r.Some? ==> forall k :: 0 <= k < r.value ==> regs[k].serviceURL != url
    ensures r.None? <==> forall k :: 0 <= k < |regs| ==> regs[k].serviceURL != url
  {
    if regs == [] then None
    else if regs[0].serviceURL == url then Some(0)
    else match FirstMatch(regs[1..], url)
      case None => None
      case Some(i) => Some(i + 1)
  }

  predicate Stored(regs: seq<Registration>, url: string) {
    FirstMatch(regs, url).Some?
  }

  /** `add`: append `reg`, send it the bootstrap patch computed over the
      table that already holds it, then broadcast its arrival. */
  function Appended(st: Store, reg: Registration, reachable: set<string>): Store
  {
    var regs := st.registrations + [reg];
    var seed := Send(reg.serviceUpdateURL, Patch(SeedEntries(regs, reg.requiredServices), []));
    Store(regs, st.outbox + [seed] + FanOut(regs, Patch([EntryOf(reg)], []), reachable))
  }

  /** `add` fails exactly when the bootstrap patch cannot be delivered. */
  function AddError(reg: Registration, reachable: set<string>): Option<Error>
  {
    if reg.serviceUpdateURL in reachable then None else Some(DeliveryFailed(reg.serviceUpdateURL))
  }

  /** `remove`: broadcast the removal over the table as it is, then splice
      out the first registration stored under `url`; nothing when none is. */
  function Removed(st: Store, url: string, reachable: set<string>): Store
  {
    match FirstMatch(st.registrations, url)
    case None => st
    case Some(i) =>
      var gone := st.registrations[i];
      Store(st.registrations[..i] + st.registrations[i + 1..],
            st.outbox + FanOut(st.registrations, Patch([], [EntryOf(gone)]), reachable))
  }

  function RemoveError(regs: seq<Registration>, url: string): Option<Error>
  {
    if Stored(regs, url) then None else Some(NotFound(url))
  }

  /** `add` keeps every stored registration in place, puts `reg` last and
      only extends the log; it never rejects a URL that is already stored,
      so afterwards two entries can share it. */
  lemma AddAppends(st: Store, reg: Registration, reachable: set<string>)
    ensures var after := Appended(st, reg, reachable);
      |after.registrations| == |st.registrations| + 1 &&
      after.registrations[..|st.registrations|] == st.registrations &&
      after.registrations[|st.registrations|] == reg &&
      after.outbox[..|st.outbox|] == st.outbox
    ensures Stored(st.registrations, reg.serviceURL) ==>
      var after := Appended(st, reg, reachable).registrations;
      exists i, j :: 0 <= i < j < |after| && after[i].serviceURL == reg.serviceURL && after[j].serviceURL == reg.serviceURL
  {
  }

  /** The first new POST of `add` is the bootstrap patch to the newcomer: no
      removals, and an addition for exactly the stored providers it requires,
      the newcomer itself included when it requires its own name. */
  lemma AddSeedsNewcomer(st: Store, reg: Registration, reachable: set<string>)
    ensures var after := Appended(st, reg, reachable);
      |after.outbox| > |st.outbox| &&
      after.outbox[|st.outbox|].url == reg.serviceUpdateURL &&
      after.outbox[|st.outbox|].patch.removed == [] &&
      forall x :: x in after.outbox[|st.outbox|].patch.added <==>
        exists r :: r in after.registrations && r.serviceName in reg.requiredServices && x == EntryOf(r)
    ensures reg.serviceName in reg.requiredServices ==>
      EntryOf(reg) in Appended(st, reg, reachable).outbox[|st.outbox|].patch.added
  {
    var regs := st.registrations + [reg];
    SeedEntriesExact(regs, reg.requiredServices);
    assert reg in regs;
  }

  /** When every registration lists each required name once, `add`
      broadcasts the newcomer's arrival as a one-entry patch to every
      registration that requires its name, itself included, in store order. */
  lemma AddBroadcast(st: Store, reg: Registration, reachable: set<string>)
    requires forall r :: r in st.registrations + [reg] ==> NoDuplicates(r.requiredServices)
    ensures var after := Appended(st, reg, reachable);
      var regs := st.registrations + [reg];
      after.outbox == st.outbox
        + [Send(reg.serviceUpdateURL, Patch(SeedEntries(regs, reg.requiredServices), []))]
        + Deliveries(regs, Patch([EntryOf(reg)], []), reg.serviceName)
  {
    SingleChangeFanOut(st.registrations + [reg], Patch([EntryOf(reg)], []), reg.serviceName, reachable);
  }

  /** `remove` of a stored URL deletes only its first entry: one entry less,
      the others keep their relative order, and the failure is `None`. */
  lemma RemoveDeletesFirstMatch(st: Store, url: string, reachable: set<string>)
    requires Stored(st.registrations, url)
    ensures var before := st.registrations;
      var after := Removed(st, url, reachable).registrations;
      var i := FirstMatch(before, url).value;
      |after| == |before| - 1 &&
      before[i].serviceURL == url &&
      (forall k :: 0 <= k < i ==> before[k].serviceURL != url && after[k] == before[k]) &&
      (forall k :: i <= k < |after| ==> after[k] == before[k + 1]) &&
      multiset(after) + multiset{before[i]} == multiset(before)
    ensures RemoveError(st.registrations, url) == None
  {
    var before := st.registrations;
    var i := FirstMatch(before, url).value;
    assert before == before[..i] + [before[i]] + before[i + 1..];
  }

  /** `remove` of a URL that is not stored fails with `NotFound` and changes
      neither the table nor the log. */
  lemma RemoveUnknown(st: Store, url: string, reachable: set<string>)
    requires forall k :: 0 <= k < |st.registrations| ==> st.registrations[k].serviceURL != url
    ensures Removed(st, url, reachable) == st
    ensures RemoveError(st.registrations, url) == Some(NotFound(url))
  {
  }

  /** When every registration lists each required name once, `remove`
      broadcasts a one-entry removal patch to every registration requiring
      the removed name, computed over the table before the splice, so the
      removed registration itself is among the candidates. */
  lemma RemoveBroadcast(st: Store, url: string, reachable: set<string>)
    requires Stored(st.registrations, url)
    requires forall r :: r in st.registrations ==> NoDuplicates(r.requiredServices)
    ensures var gone := st.registrations[FirstMatch(st.registrations, url).value];
      Removed(st, url, reachable).outbox ==
        st.outbox + Deliveries(st.registrations, Patch([], [EntryOf(gone)]), gone.serviceName)
  {
    var gone := st.registrations[FirstMatch(st.registrations, url).value];
    SingleChangeFanOut(st.registrations, Patch([], [EntryOf(gone)]), gone.serviceName, reachable);
  }
}
