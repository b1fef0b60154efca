/** The registry service: the single membership table with its store
    operations, patch fan-out, heartbeat round and HTTP verb dispatch.
    Each operation runs as one atomic step; POSTs to update URLs are
    appended to `outbox`, and `reachable` says which URLs accept them. */
module Server {
  import opened Records
  import opened Patches
  import opened Membership
  import opened Heartbeat

  /** The entries of `entries` named `name`, and whether there were any. */
  method Select(entries: seq<PatchEntry>, name: ServiceName) returns (picked: seq<PatchEntry>, matched: bool)
    ensures picked == Filter(entries, name)
    ensures matched <==> picked != []
  {
    picked, matched := [], false;
    for i := 0 to |entries|
      invariant picked == Filter(entries[..i], name)
      invariant matched <==> picked != []
    {
      if entries[i].name == name {
        picked := picked + [entries[i]];
        matched := true;
      }
      assert entries[..i + 1][..i] == entries[..i];
    }
    assert entries[..|entries|] == entries;
  }

  /** The POSTs one consumer receives for `change`: for each required name,
      the part of the change with that name when non-empty; a failed
      delivery ends the consumer's pass. */
  method ConsumerPushes(consumer: Registration, change: Patch, reachable: set<string>) returns (pushes: seq<Send>)
    ensures pushes == ConsumerSends(consumer.requiredServices, change, consumer.serviceUpdateURL,
                                    consumer.serviceUpdateURL in reachable)
  {
    var required, url := consumer.requiredServices, consumer.serviceUpdateURL;
    ghost var all := ConsumerSends(required, change, url, url in reachable);
    pushes := [];
    var i := 0;
    while i < |required|
      invariant 0 <= i <= |required|
      invariant pushes + ConsumerSends(required[i..], change, url, url in reachable) == all
    {
      ghost var p := FilterPatch(change, required[i]);
      ghost var later := ConsumerSends(required[i + 1..], change, url, url in reachable);
      assert required[i..][1..] == required[i + 1..];
      assert ConsumerSends(required[i..], change, url, url in reachable) ==
             if p.IsEmpty() then later else if url !in reachable then [Send(url, p)] else [Send(url, p)] + later;
      var added, addedAny := Select(change.added, required[i]);
      var removed, removedAny := Select(change.removed, required[i]);
      var sendUpdate := addedAny || removedAny;
      assert Patch(added, removed) == p && (sendUpdate <==> !p.IsEmpty());
      if sendUpdate {
        pushes := pushes + [Send(url, Patch(added, removed))];
        if url !in reachable {
          return;
        }
      }
      i := i + 1;
    }
  }

  class Registry {
    var registrations: seq<Registration>
    var outbox: seq<Send>

    constructor ()
      ensures registrations == [] && outbox == []
    {
      registrations, outbox := [], [];
    }

    function Snapshot(): Store
      reads this
    {
      Store(registrations, outbox)
    }

    /** Push the relevant part of `change` to every stored registration. */
    method Notify(change: Patch, reachable: set<string>)
      modifies this`outbox
      ensures outbox == old(outbox) + FanOut(registrations, change, reachable)
    {
      var i := 0;
      while i < |registrations|
        invariant 0 <= i <= |registrations|
        invariant outbox == old(outbox) + FanOut(registrations[..i], change, reachable)
      {
        var pushes := ConsumerPushes(registrations[i], change, reachable);
        outbox := outbox + pushes;
        assert registrations[..i + 1][..i] == registrations[..i];
        i := i + 1;
      }
      assert registrations[..i] == registrations;
    }

    /** The bootstrap patch for `newcomer`: an addition per stored
        registration and per required name that it matches. */
    method BootstrapPatch(newcomer: Registration) returns (p: Patch)
      ensures p.removed == []
      ensures p.added == SeedEntries(registrations, newcomer.requiredServices)
    {
      var required := newcomer.requiredServices;
      var added: seq<PatchEntry> := [];
      for i := 0 to |registrations|
        invariant added == SeedEntries(registrations[..i], required)
      {
        var provider := registrations[i];
        for j := 0 to |required|
          invariant added == SeedEntries(registrations[..i], required) + SeedFor(provider, required[..j])
        {
          if provider.serviceName == required[j] {
            added := added + [EntryOf(provider)];
          }
          assert required[..j + 1][..j] == required[..j];
        }
        assert required[..|required|] == required;
        assert registrations[..i + 1][..i] == registrations[..i];
      }
      assert registrations[..|registrations|] == registrations;
      p := Patch(added, []);
    }

    /** Send the bootstrap patch to the newcomer's update URL, even when it is
        empty; fails when that URL cannot be reached. */
    method SendRequiredServices(newcomer: Registration, reachable: set<string>) returns (err: Option<Error>)
      modifies this`outbox
      ensures outbox == old(outbox) + [Send(newcomer.serviceUpdateURL,
                                            Patch(SeedEntries(registrations, newcomer.requiredServices), []))]
      ensures err == AddError(newcomer, reachable)
    {
      var p := BootstrapPatch(newcomer);
      outbox := outbox + [Send(newcomer.serviceUpdateURL, p)];
      if newcomer.serviceUpdateURL !in reachable {
        return Some(DeliveryFailed(newcomer.serviceUpdateURL));
      }
      return None;
    }

    /** Append `reg` (duplicates are not rejected), seed it, and broadcast its
        arrival; the error is the bootstrap delivery's. */
    method Add(reg: Registration, reachable: set<string>) returns (err: Option<Error>)
      modifies this
      ensures Snapshot() == Appended(old(Snapshot()), reg, reachable)
      ensures err == AddError(reg, reachable)
    {
      registrations := registrations + [reg];
      err := SendRequiredServices(reg, reachable);
      Notify(Patch([EntryOf(reg)], []), reachable);
    }

    /** Find the first entry stored under `url`, broadcast its removal, then
        splice it out; `NotFound` when there is none. */
    method Remove(url: string, reachable: set<string>) returns (err: Option<Error>)
      modifies this
      ensures Snapshot() == Removed(old(Snapshot()), url, reachable)
      ensures err == RemoveError(old(registrations), url)
    {
      var i := 0;
      while i < |registrations|
        invariant 0 <= i <= |registrations|
        invariant registrations == old(registrations) && outbox == old(outbox)
        invariant forall k :: 0 <= k < i ==> registrations[k].serviceURL != url
      {
        if registrations[i].serviceURL == url {
          assert FirstMatch(registrations, url) == Some(i);
          Notify(Patch([], [EntryOf(registrations[i])]), reachable);
          registrations := registrations[..i] + registrations[i + 1..];
          return None;
        }
        i := i + 1;
      }
      return Some(NotFound(url));
    }

    /** One heartbeat round for `reg`, `outcomes[k]` being whether probe k
        answered with status 200. The first failure removes the registration's
        URL; a later success in the same round adds it back. */
    method Heartbeat(reg: Registration, outcomes: seq<bool>, reachable: set<string>)
      returns (probes: nat, calls: seq<Call>)
      requires |outcomes| >= MaxAttempts
      modifies this
      ensures Round(probes, calls) == PlannedRound(reg, outcomes, Stored(old(registrations), reg.serviceURL))
      ensures Snapshot() == Replay(old(Snapshot()), calls, reachable)
    {
      ghost var start := Snapshot();
      ghost var stored := Stored(registrations, reg.serviceURL);
      var successFlag := true;
      probes, calls := 0, [];
      var attempts := 0;
      while attempts < MaxAttempts
        invariant 0 <= attempts <= MaxAttempts && probes == attempts
        invariant forall j :: 0 <= j < attempts ==> !outcomes[j]
        invariant successFlag <==> attempts == 0
        invariant attempts == 0 ==> calls == [] && Snapshot() == start
        invariant attempts > 0 ==> stored && calls == [RemoveCall(reg.serviceURL)] &&
                                   Snapshot() == Removed(start, reg.serviceURL, reachable)
      {
        probes := probes + 1;
        if outcomes[attempts] {
          if !successFlag {
            var err := Add(reg, reachable);
            calls := calls + [AddCall(reg)];
            ghost var evicted := Removed(start, reg.serviceURL, reachable);
            assert calls[1..] == [AddCall(reg)] && calls[0] == RemoveCall(reg.serviceURL);
            assert Replay(evicted, [AddCall(reg)], reachable) == Appended(evicted, reg, reachable);
            assert Replay(start, calls, reachable) == Replay(evicted, [AddCall(reg)], reachable);
          }
          assert FirstSuccess(outcomes, MaxAttempts) == attempts;
          return;
        }
        if successFlag {
          successFlag := false;
          var err := Remove(reg.serviceURL, reachable);
          calls := calls + [RemoveCall(reg.serviceURL)];
          if err.Some? {
            assert !stored && FirstSuccess(outcomes, MaxAttempts) != 0;
            assert calls[1..] == [];
            return;
          }
        }
        attempts := attempts + 1;
      }
      assert FirstSuccess(outcomes, MaxAttempts) == MaxAttempts;
    }
  }

  const MethodPost := "POST"
  const MethodDelete := "DELETE"

  const StatusOK := 200
  const StatusBadRequest := 400
  const StatusMethodNotAllowed := 405
  const StatusInternalServerError := 500

  /** An HTTP request to the services endpoint. `body` is the raw body, or
      `None` when reading it fails; `decoded` is what the JSON decoder makes
      of it, or `None` when it is not a registration. */
  datatype Request = Request(verb: string, body: Option<string>, decoded: Option<Registration>)

  /** POST registers the decoded registration, DELETE deregisters the URL the
      body holds, any other verb is refused. The status is 200 unless a
      branch writes another. */
  method ServeHTTP(registry: Registry, req: Request, reachable: set<string>) returns (status: int)
    modifies registry
    ensures req.verb == MethodPost && req.decoded.None? ==>
              status == StatusBadRequest && registry.Snapshot() == old(registry.Snapshot())
    ensures req.verb == MethodPost && req.decoded.Some? ==>
              registry.Snapshot() == Appended(old(registry.Snapshot()), req.decoded.value, reachable) &&
              status == if AddError(req.decoded.value, reachable).Some? then StatusBadRequest else StatusOK
    ensures req.verb == MethodDelete && req.body.None? ==>
              status == StatusInternalServerError && registry.Snapshot() == old(registry.Snapshot())
    ensures req.verb == MethodDelete && req.body.Some? ==>
              registry.Snapshot() == Removed(old(registry.Snapshot()), req.body.value, reachable) &&
              status == if RemoveError(old(registry.registrations), req.body.value).Some?
                        then StatusInternalServerError else StatusOK
    ensures req.verb != MethodPost && req.verb != MethodDelete ==>
              status == StatusMethodNotAllowed && registry.Snapshot() == old(registry.Snapshot())
  {
    status := StatusOK;
    if req.verb == MethodPost {
      if req.decoded.None? {
        return StatusBadRequest;
      }
      var err := registry.Add(req.decoded.value, reachable);
      if err.Some? {
        return StatusBadRequest;
      }
    } else if req.verb == MethodDelete {
      if req.body.None? {
        return StatusInternalServerError;
      }
      var err := registry.Remove(req.body.value, reachable);
      if err.Some? {
        return StatusInternalServerError;
      }
    } else {
      return StatusMethodNotAllowed;
    }
  }
}
