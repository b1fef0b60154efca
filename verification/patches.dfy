/** What the registry pushes to dependents: the bootstrap patch a newcomer is
    seeded with, and the per-consumer fan-out of a membership change.
    Webhook POSTs are recorded as `Send` values rather than performed. */
module Patches {
  import opened Records

  /** One attempted POST of `patch` to `url`. */
  datatype Send = Send(url: string, patch: Patch)

  /** The entries of `es` named `name`, in their original order. */
  function Filter(es: seq<PatchEntry>, name: ServiceName): seq<PatchEntry>
  {
    if es == [] then []
    else
      var last := es[|es| - 1];
      Filter(es[..|es| - 1], name) + (if last.name == name then [last] else [])
  }

  /** The part of `change` that concerns the service name `name`. */
  function FilterPatch(change: Patch, name: ServiceName): Patch
  {
    Patch(Filter(change.added, name), Filter(change.removed, name))
  }

  lemma {:induction false} FilterExact(es: seq<PatchEntry>, name: ServiceName)
    ensures forall e :: e in Filter(es, name) <==> e in es && e.name == name
    ensures forall e :: multiset(Filter(es, name))[e] == if e.name == name then multiset(es)[e] else 0
  {
    if es != [] {
      var init := es[..|es| - 1];
      FilterExact(init, name);
      assert es == init + [es[|es| - 1]];
    }
  }

  /** A list whose entries all carry one name is kept whole by a filter on
      that name and emptied by a filter on any other. */
  lemma {:induction false} FilterSingleName(es: seq<PatchEntry>, name: ServiceName, other: ServiceName)
    requires forall e :: e in es ==> e.name == name
    ensures Filter(es, name) == es
    ensures other != name ==> Filter(es, other) == []
  {
    if es != [] {
      var init := es[..|es| - 1];
      assert es == init + [es[|es| - 1]];
      assert forall e :: e in init ==> e in es;
      FilterSingleName(init, name, other);
    }
  }

  // ---------------------------------------------------------------------
  // Bootstrap patch

  /** The inner scan of the bootstrap loop: one entry for `provider` per
      element of `required` that names it. */
  function SeedFor(provider: Registration, required: seq<ServiceName>): seq<PatchEntry>
  {
    if required == [] then []
    else
      SeedFor(provider, required[..|required| - 1])
      + (if provider.serviceName == required[|required| - 1] then [EntryOf(provider)] else [])
  }

  /** The Added list of the bootstrap patch: stored registrations in store
      order, each repeated once per required name that it matches. */
  function SeedEntries(regs: seq<Registration>, required: seq<ServiceName>): seq<PatchEntry>
  {
    if regs == [] then []
    else SeedEntries(regs[..|regs| - 1], required) + SeedFor(regs[|regs| - 1], required)
  }

  /** Reference definition: the entries of the stored registrations whose name
      is required, in store order. */
  function ProviderEntries(regs: seq<Registration>, required: seq<ServiceName>): seq<PatchEntry>
  {
    if regs == [] then []
    else
      var last := regs[|regs| - 1];
      ProviderEntries(regs[..|regs| - 1], required)
      + (if last.serviceName in required then [EntryOf(last)] else [])
  }

  lemma {:induction false} SeedForExact(provider: Registration, required: seq<ServiceName>)
    ensures forall x :: x in SeedFor(provider, required) <==>
                        provider.serviceName in required && x == EntryOf(provider)
  {
    if required != [] {
      var init := required[..|required| - 1];
      assert required == init + [required[|required| - 1]];
      SeedForExact(provider, init);
    }
  }

  lemma {:induction false} SeedForSingle(provider: Registration, required: seq<ServiceName>)
    requires NoDuplicates(required)
    ensures SeedFor(provider, required) ==
            if provider.serviceName in required then [EntryOf(provider)] else []
  {
    if required != [] {
      var init := required[..|required| - 1];
      var last := required[|required| - 1];
      assert required == init + [last];
      assert NoDuplicates(init);
      SeedForSingle(provider, init);
      if provider.serviceName == last {
        assert last !in init;
      }
    }
  }

  /** Every bootstrap entry names a stored registration whose service is
      required, and every such registration is named. */
  lemma {:induction false} SeedEntriesExact(regs: seq<Registration>, required: seq<ServiceName>)
    ensures forall x :: x in SeedEntries(regs, required) <==>
                        exists r :: r in regs && r.serviceName in required && x == EntryOf(r)
  {
    if regs != [] {
      var init := regs[..|regs| - 1];
      var last := regs[|regs| - 1];
      assert regs == init + [last];
      SeedEntriesExact(init, required);
      SeedForExact(last, required);
      forall x | x in SeedEntries(regs, required)
        ensures exists r :: r in regs && r.serviceName in required && x == EntryOf(r)
      {
        if x in SeedFor(last, required) {
          assert last in regs;
        } else {
          assert x in SeedEntries(init, required);
          var r :| r in init && r.serviceName in required && x == EntryOf(r);
          assert r in regs;
        }
      }
      forall x | exists r :: r in regs && r.serviceName in required && x == EntryOf(r)
        ensures x in SeedEntries(regs, required)
      {
        var r :| r in regs && r.serviceName in required && x == EntryOf(r);
        if r != last {
          assert r in init;
        }
      }
    }
  }

  /** With no repeated required name, the bootstrap entries are exactly the
      required providers, once each, in store order. */
  lemma {:induction false} SeedEntriesInStoreOrder(regs: seq<Registration>, required: seq<ServiceName>)
    requires NoDuplicates(required)
    ensures SeedEntries(regs, required) == ProviderEntries(regs, required)
  {
    if regs != [] {
      SeedEntriesInStoreOrder(regs[..|regs| - 1], required);
      SeedForSingle(regs[|regs| - 1], required);
    }
  }

  // ---------------------------------------------------------------------
  // Change fan-out

  /** The POSTs one consumer receives for `change`: for each name it requires,
      in order, the part of the change with that name, skipped when empty.
      When delivery to `url` fails the consumer's pass ends there. */
  function ConsumerSends(required: seq<ServiceName>, change: Patch, url: string, reachable: bool): seq<Send>
    decreases |required|
  {
    if required == [] then []
    else
      var p := FilterPatch(change, required[0]);
      if p.IsEmpty() then ConsumerSends(required[1..], change, url, reachable)
      else if !reachable then [Send(url, p)]
      else [Send(url, p)] + ConsumerSends(required[1..], change, url, reachable)
  }

  /** The POSTs of one broadcast: every stored registration, in store order,
      receives its `ConsumerSends`. */
  function FanOut(regs: seq<Registration>, change: Patch, reachable: set<string>): seq<Send>
  {
    if regs == [] then []
    else
      var r := regs[|regs| - 1];
      FanOut(regs[..|regs| - 1], change, reachable)
      + ConsumerSends(r.requiredServices, change, r.serviceUpdateURL, r.serviceUpdateURL in reachable)
  }

  /** Reference definition for a change about one service name: the whole
      change goes once to every registration that requires that name. */
  function Deliveries(regs: seq<Registration>, change: Patch, name: ServiceName): seq<Send>
  {
    if regs == [] then []
    else
      var r := regs[|regs| - 1];
      Deliveries(regs[..|regs| - 1], change, name)
      + (if name in r.requiredServices then [Send(r.serviceUpdateURL, change)] else [])
  }

  lemma {:induction false} ConsumerSendsRelevant(required: seq<ServiceName>, change: Patch, url: string, reachable: bool)
    ensures forall s :: s in ConsumerSends(required, change, url, reachable) ==>
              s.url == url && !s.patch.IsEmpty() &&
              exists n :: n in required && s.patch == FilterPatch(change, n)
    ensures !reachable ==> |ConsumerSends(required, change, url, reachable)| <= 1
    decreases |required|
  {
    if required != [] {
      var rest := required[1..];
      assert required == [required[0]] + rest;
      ConsumerSendsRelevant(rest, change, url, reachable);
    }
  }

  lemma {:induction false} ConsumerSendsComplete(required: seq<ServiceName>, change: Patch, url: string, n: ServiceName)
    requires n in required && !FilterPatch(change, n).IsEmpty()
    ensures Send(url, FilterPatch(change, n)) in ConsumerSends(required, change, url, true)
    decreases |required|
  {
    if required[0] != n {
      assert required == [required[0]] + required[1..];
      ConsumerSendsComplete(required[1..], change, url, n);
    }
  }

  lemma {:induction false} ConsumerSendsSingle(required: seq<ServiceName>, change: Patch, name: ServiceName, url: string, reachable: bool)
    requires !change.IsEmpty()
    requires forall e :: e in change.added ==> e.name == name
    requires forall e :: e in change.removed ==> e.name == name
    requires NoDuplicates(required)
    ensures ConsumerSends(required, change, url, reachable) ==
            if name in required then [Send(url, change)] else []
    decreases |required|
  {
    if required != [] {
      var rest := required[1..];
      assert required == [required[0]] + rest;
      assert NoDuplicates(rest);
      FilterSingleName(change.added, name, required[0]);
      FilterSingleName(change.removed, name, required[0]);
      ConsumerSendsSingle(rest, change, name, url, reachable);
      if required[0] == name {
        assert name !in rest;
      }
    }
  }

  /** Every POST of a broadcast goes to the update URL of a stored
      registration and carries, non-empty, the part of the change about one
      of the names that registration requires. */
  lemma {:induction false} FanOutRelevant(regs: seq<Registration>, change: Patch, reachable: set<string>)
    ensures forall s :: s in FanOut(regs, change, reachable) ==>
              !s.patch.IsEmpty() &&
              exists r :: r in regs && s.url == r.serviceUpdateURL &&
                exists n :: n in r.requiredServices && s.patch == FilterPatch(change, n)
  {
    if regs != [] {
      var init := regs[..|regs| - 1];
      var last := regs[|regs| - 1];
      assert regs == init + [last];
      FanOutRelevant(init, change, reachable);
      ConsumerSendsRelevant(last.requiredServices, change, last.serviceUpdateURL, last.serviceUpdateURL in reachable);
      forall s | s in FanOut(regs, change, reachable)
        ensures exists r :: r in regs && s.url == r.serviceUpdateURL &&
                  exists n :: n in r.requiredServices && s.patch == FilterPatch(change, n)
      {
        if s in FanOut(init, change, reachable) {
          var r :| r in init && s.url == r.serviceUpdateURL &&
                   exists n :: n in r.requiredServices && s.patch == FilterPatch(change, n);
          assert r in regs;
        } else {
          assert last in regs;
        }
      }
    }
  }

  /** Every reachable stored registration receives, for each name it
      requires, the part of the change about that name whenever it is
      non-empty. */
  lemma {:induction false} FanOutComplete(regs: seq<Registration>, change: Patch, reachable: set<string>, r: Registration, n: ServiceName)
    requires r in regs && r.serviceUpdateURL in reachable
    requires n in r.requiredServices && !FilterPatch(change, n).IsEmpty()
    ensures Send(r.serviceUpdateURL, FilterPatch(change, n)) in FanOut(regs, change, reachable)
  {
    var init := regs[..|regs| - 1];
    var last := regs[|regs| - 1];
    assert regs == init + [last];
    if r == last {
      ConsumerSendsComplete(r.requiredServices, change, r.serviceUpdateURL, n);
    } else {
      assert r in init;
      FanOutComplete(init, change, reachable, r, n);
    }
  }

  /** A change that concerns a single service name reaches every registration
      requiring that name exactly once, whole, in store order, and nothing
      else is sent, whether or not the deliveries succeed. */
  lemma {:induction false} SingleChangeFanOut(regs: seq<Registration>, change: Patch, name: ServiceName, reachable: set<string>)
    requires !change.IsEmpty()
    requires forall e :: e in change.added ==> e.name == name
    requires forall e :: e in change.removed ==> e.name == name
    requires forall r :: r in regs ==> NoDuplicates(r.requiredServices)
    ensures FanOut(regs, change, reachable) == Deliveries(regs, change, name)
  {
    if regs != [] {
      var init := regs[..|regs| - 1];
      var last := regs[|regs| - 1];
      assert regs == init + [last];
      assert forall r :: r in init ==> r in regs;
      SingleChangeFanOut(init, change, name, reachable);
      ConsumerSendsSingle(last.requiredServices, change, name, last.serviceUpdateURL, last.serviceUpdateURL in reachable);
    }
  }
}
