/** The config centre: publishing a namespace in two phases, and swapping data centres. */
module ControlPlane {
  import opened Common

  datatype Slice = Slice(
    name: string, userName: string,
    master: string, slaves: seq<string>,
    slaveDCMaster: string, slaveDCSlaves: seq<string>,
    capacity: int, maxCapacity: int)

  // `restOk` stands for the checks of the fields that no operation here touches.
  datatype Namespace = Namespace(
    name: string, masterDC: bool, masterDCOrigin: bool, slices: seq<Slice>, restOk: bool)

  predicate SliceOk(s: Slice) {
    && s.name != "" && s.userName != ""
    && !(s.master == "" && s.slaves == [])
    && "" !in s.slaves && "" !in s.slaveDCSlaves
    && s.capacity > 0 && s.maxCapacity > 0
  }

  predicate Verify(ns: Namespace) {
    ns.restOk && ns.slices != [] && forall i :: 0 <= i < |ns.slices| ==> SliceOk(ns.slices[i])
  }

  // What the checks look for in one slice.
  ghost predicate Faulty(s: Slice) {
    || s.name == "" || s.userName == "" || s.capacity < 1 || s.maxCapacity < 1
    || (s.master == "" && |s.slaves| == 0)
    || (exists i :: 0 <= i < |s.slaves| && s.slaves[i] == "")
    || (exists i :: 0 <= i < |s.slaveDCSlaves| && s.slaveDCSlaves[i] == "")
  }

  /** A namespace fails its checks exactly when it has no slice, a slice at fault, or a fault
      elsewhere. */
  lemma VerifyFails(ns: Namespace)
    ensures !Verify(ns) <==> !ns.restOk || |ns.slices| == 0 || exists i :: 0 <= i < |ns.slices| && Faulty(ns.slices[i])
  {
    forall s: Slice ensures SliceOk(s) <==> !Faulty(s) {
      assert "" in s.slaves <==> exists i :: 0 <= i < |s.slaves| && s.slaves[i] == "";
      assert "" in s.slaveDCSlaves <==> exists i :: 0 <= i < |s.slaveDCSlaves| && s.slaveDCSlaves[i] == "";
    }
  }

  // -------------------------------------------------------------- swapping the centres

  /** The two centres have changed places in a slice: each one's master and slaves. */
  ghost predicate Exchanged(before: Slice, after: Slice) {
    && after.master == before.slaveDCMaster && after.slaves == before.slaveDCSlaves
    && after.slaveDCMaster == before.master && after.slaveDCSlaves == before.slaves
    && after.name == before.name && after.userName == before.userName
    && after.capacity == before.capacity && after.maxCapacity == before.maxCapacity
  }

  ghost predicate AllExchanged(before: seq<Slice>, after: seq<Slice>) {
    |after| == |before| && forall i :: 0 <= i < |before| ==> Exchanged(before[i], after[i])
  }

  function SwapSlice(s: Slice): Slice {
    s.(master := s.slaveDCMaster, slaves := s.slaveDCSlaves,
       slaveDCMaster := s.master, slaveDCSlaves := s.slaves)
  }

  function Swapped(slices: seq<Slice>): seq<Slice> {
    seq(|slices|, i requires 0 <= i < |slices| => SwapSlice(slices[i]))
  }

  lemma SwappedTwice(slices: seq<Slice>)
    ensures Swapped(Swapped(slices)) == slices
  {
  }

  lemma SwappedIsExchanged(before: seq<Slice>, after: seq<Slice>)
    ensures after == Swapped(before) <==> AllExchanged(before, after)
  {
    if AllExchanged(before, after) {
      forall i | 0 <= i < |before| ensures after[i] == Swapped(before)[i] {
        assert Exchanged(before[i], after[i]);
      }
    }
  }

  // What a promotion makes of a namespace outside the master centre, and a resumption of one
  // whose two flags differ.
  ghost predicate IsPromoted(before: Namespace, after: Namespace) {
    && AllExchanged(before.slices, after.slices) && after.name == before.name && after.restOk == before.restOk
    && after.masterDC && !after.masterDCOrigin
  }

  ghost predicate IsResumed(before: Namespace, after: Namespace) {
    && AllExchanged(before.slices, after.slices) && after.name == before.name && after.restOk == before.restOk
    && after.masterDC == after.masterDCOrigin == before.masterDCOrigin
  }

  function Promoted(ns: Namespace): Namespace {
    if ns.masterDC then ns
    else ns.(slices := Swapped(ns.slices), masterDCOrigin := ns.masterDC, masterDC := !ns.masterDC)
  }

  function Resumed(ns: Namespace): Namespace {
    if ns.masterDC == ns.masterDCOrigin then ns
    else ns.(slices := Swapped(ns.slices), masterDC := ns.masterDCOrigin)
  }

  /** Field by field: what either command does to a namespace, and which it leaves alone. */
  lemma AppliedMeans(ns: Namespace)
    ensures if ns.masterDC then Promoted(ns) == ns else IsPromoted(ns, Promoted(ns))
    ensures if ns.masterDC == ns.masterDCOrigin then Resumed(ns) == ns else IsResumed(ns, Resumed(ns))
  {
    SwappedIsExchanged(ns.slices, Swapped(ns.slices));
  }

  // A command has done its work on a namespace.
  ghost predicate Done(c: Command, before: Namespace, after: Namespace) {
    if c.PromoteDC? then
      if before.masterDC then after == before else IsPromoted(before, after)
    else
      if before.masterDC == before.masterDCOrigin then after == before else IsResumed(before, after)
  }

  lemma HandledMeans(c: Command, store: Store, names: seq<string>)
    ensures Handled(c, store, names).Keys == store.Keys
    ensures forall n :: n in store && n in names ==> Done(c, store[n], Handled(c, store, names)[n])
    ensures forall n :: n in store && n !in names ==> Handled(c, store, names)[n] == store[n]
  {
    forall n | n in store && n in names ensures Done(c, store[n], Handled(c, store, names)[n]) {
      AppliedMeans(store[n]);
    }
  }

  datatype Command = PromoteDC | ResumeDC

  function Applied(c: Command, ns: Namespace): Namespace {
    if c.PromoteDC? then Promoted(ns) else Resumed(ns)
  }

  /** Against what it was at first, the flag differs exactly when the slices are swapped. */
  ghost predicate Consistent(first: Namespace, now: Namespace) {
    && now.name == first.name && now.restOk == first.restOk
    && if now.masterDC != first.masterDC then AllExchanged(first.slices, now.slices) else now.slices == first.slices
  }

  lemma AppliedConsistent(c: Command, first: Namespace, now: Namespace)
    requires Consistent(first, now)
    ensures Consistent(first, Applied(c, now))
  {
    SwappedTwice(first.slices);
    SwappedIsExchanged(first.slices, now.slices);
    SwappedIsExchanged(first.slices, Applied(c, now).slices);
  }

  type Store = map<string, Namespace>

  // The store once these names have been handled; handling one twice changes nothing more,
  // because every namespace is read before the first is written.
  function Handled(c: Command, store: Store, names: seq<string>): Store {
    map n | n in store :: if n in names then Applied(c, store[n]) else store[n]
  }

  lemma HandledNext(c: Command, store: Store, names: seq<string>, i: nat)
    requires i < |names| && names[i] in store
    ensures Handled(c, store, names[..i])[names[i] := Applied(c, store[names[i]])] == Handled(c, store, names[..i + 1])
  {
    assert names[..i + 1] == names[..i] + [names[i]];
  }

  lemma HandledNone(c: Command, store: Store, names: seq<string>)
    ensures store == Handled(c, store, names[..0])
  {
  }

  datatype Request = Request(command: Command, names: seq<string>)

  /** What one request may leave behind: the names up to some point have been handled. */
  ghost predicate Outcome(r: Request, before: Store, after: Store) {
    exists k :: 0 <= k <= |r.names| && after == Handled(r.command, before, r.names[..k])
  }

  ghost predicate IsHistory(requests: seq<Request>, stores: seq<Store>) {
    && |stores| == |requests| + 1
    && forall i :: 0 <= i < |requests| ==> Outcome(requests[i], stores[i], stores[i + 1])
  }

  /** Over every history of requests, each cut short anywhere by failures, no namespace is
      ever half swapped: the stored flag moved exactly when all slices did. */
  lemma {:induction false} NeverHalfSwapped(requests: seq<Request>, stores: seq<Store>, i: nat, name: string)
    requires IsHistory(requests, stores) && i < |stores|
    ensures stores[i].Keys == stores[0].Keys
    ensures name in stores[0] ==> Consistent(stores[0][name], stores[i][name])
  {
    if i > 0 {
      NeverHalfSwapped(requests, stores, i - 1, name);
      var r := requests[i - 1];
      assert Outcome(r, stores[i - 1], stores[i - 1 + 1]);
      var k :| 0 <= k <= |r.names| && stores[i] == Handled(r.command, stores[i - 1], r.names[..k]);
      if name in stores[0] && name in r.names[..k] {
        AppliedConsistent(r.command, stores[0][name], stores[i - 1][name]);
      }
    }
  }

  /** Resuming undoes promoting exactly for a namespace that was there to promote; one that
      already ran in the master centre is left alone or, if its backup flag is off, swapped. */
  lemma ResumeUndoesPromote(ns: Namespace)
    ensures !ns.masterDC ==> Resumed(Promoted(ns)) == ns.(masterDCOrigin := false)
    ensures Consistent(ns, Resumed(Promoted(ns)))
    ensures Resumed(Promoted(ns)).masterDC == ns.masterDC <==> !(ns.masterDC && !ns.masterDCOrigin)
  {
    SwappedTwice(ns.slices);
  }

  /** A promotion is refused exactly when some slice has nobody in the other centre. */
  lemma PromotionVerifies(ns: Namespace)
    requires Verify(ns) && !ns.masterDC
    ensures Verify(Promoted(ns)) <==>
            forall i :: 0 <= i < |ns.slices| ==> ns.slices[i].slaveDCMaster != "" || ns.slices[i].slaveDCSlaves != []
  {
    AppliedMeans(ns);
    var after := Promoted(ns).slices;
    forall i | 0 <= i < |ns.slices|
      ensures SliceOk(after[i]) <==> ns.slices[i].slaveDCMaster != "" || ns.slices[i].slaveDCSlaves != []
    {
      assert Exchanged(ns.slices[i], after[i]) && SliceOk(ns.slices[i]);
    }
  }

  /** On the store: promoting and then resuming the same names gives back every namespace
      that was not in the master centre, and leaves the others' names alone. */
  lemma PromoteThenResume(store: Store, names: seq<string>, n: string)
    requires n in store
    ensures Handled(ResumeDC, Handled(PromoteDC, store, names), names).Keys == store.Keys
    ensures n !in names ==> Handled(ResumeDC, Handled(PromoteDC, store, names), names)[n] == store[n]
    ensures n in names && !store[n].masterDC ==>
      Handled(ResumeDC, Handled(PromoteDC, store, names), names)[n] == store[n].(masterDCOrigin := false)
  {
    ResumeUndoesPromote(store[n]);
  }

  /** A fresh namespace defaults to the master centre with its backup flag off, so resuming
      it without a promotion moves it to the other centre. */
  lemma ResumeWithoutPromote(ns: Namespace)
    ensures Resumed(ns) == ns <==> ns.masterDC == ns.masterDCOrigin
    ensures Resumed(Resumed(ns)) == Resumed(ns) && Promoted(Promoted(ns)) == Promoted(ns)
  {
  }

  // A namespace as its JSON defaults leave it, with one slice in each centre.
  function FreshNamespace(): Namespace {
    Namespace("ns", true, false, [Slice("s", "u", "a:1", [], "b:1", [], 1, 1)], true)
  }

  /** It passes the checks before and after, was never promoted, and still resuming it makes
      the other centre's master its master. */
  lemma FreshNamespaceIsMoved()
    ensures Verify(FreshNamespace()) && Verify(Resumed(FreshNamespace()))
    ensures Resumed(FreshNamespace()).slices[0].master == "b:1" != FreshNamespace().slices[0].master
    ensures !Resumed(FreshNamespace()).masterDC
  {
    var moved := Resumed(FreshNamespace());
    assert moved.slices == [Slice("s", "u", "b:1", [], "a:1", [], 1, 1)];
  }

  // ------------------------------------------------------------------------ two phases

  datatype Phase = Prepare | Commit

  // What the outside sees of one publication, in order.
  datatype Event =
    | Stored(ns: Namespace)
    | Listed(proxies: set<string>)
    | Call(phase: Phase, proxy: string, ok: bool)

  /** A commit comes only after the verified namespace was stored and every listed proxy
      has prepared it without a failure. */
  ghost predicate CommitsAreSafe(events: seq<Event>, ns: Namespace) {
    forall i :: 0 <= i < |events| && events[i].Call? && events[i].phase.Commit? ==>
      && i >= 2 && Verify(ns) && events[0] == Stored(ns)
      && events[1].Listed? && events[i].proxy in events[1].proxies
      && (forall p :: p in events[1].proxies ==> Call(Prepare, p, true) in events[..i])
      && (forall p :: Call(Prepare, p, false) !in events)
  }

  ghost predicate AllCommitted(events: seq<Event>) {
    && |events| >= 2 && events[1].Listed?
    && forall p :: p in events[1].proxies ==> Call(Commit, p, true) in events
  }

  // The calls of one phase: to listed proxies, none twice, stopping at the first failure.
  ghost predicate PhaseCalls(calls: seq<Event>, phase: Phase, proxies: set<string>, ok: bool) {
    && (forall i :: 0 <= i < |calls| ==> calls[i].Call? && calls[i].phase == phase && calls[i].proxy in proxies)
    && (forall i :: 0 <= i < |calls| ==> (calls[i].ok <==> ok || i < |calls| - 1))
    && (forall i, j :: 0 <= i < j < |calls| ==> calls[i].proxy != calls[j].proxy)
    && (ok ==> forall p :: p in proxies ==> Call(phase, p, true) in calls)
    && (!ok ==> calls != [])
  }

  lemma PublicationIsSafe(ns: Namespace, proxies: set<string>, prepares: seq<Event>, commits: seq<Event>, ok: bool)
    requires Verify(ns) && PhaseCalls(prepares, Prepare, proxies, true) && PhaseCalls(commits, Commit, proxies, ok)
    ensures CommitsAreSafe([Stored(ns), Listed(proxies)] + prepares + commits, ns)
    ensures ok ==> AllCommitted([Stored(ns), Listed(proxies)] + prepares + commits)
  {
    var head := [Stored(ns), Listed(proxies)];
    var events := head + prepares + commits;
    forall i | 2 <= i < |head + prepares| ensures events[i].phase.Prepare? {
      assert events[i] == prepares[i - 2];
    }
    forall i | 0 <= i < |events| && events[i].Call? && events[i].phase.Commit?
      ensures i >= |head + prepares|
      ensures forall p :: p in proxies ==> Call(Prepare, p, true) in events[..i]
    {
      forall p | p in proxies ensures Call(Prepare, p, true) in events[..i] {
        var j :| 0 <= j < |prepares| && prepares[j] == Call(Prepare, p, true);
        assert events[..i][j + 2] == prepares[j];
      }
    }
    forall i | |head + prepares| <= i < |events| ensures events[i].Call? && events[i].proxy in proxies {
      assert events[i] == commits[i - |head + prepares|];
    }
    forall p ensures Call(Prepare, p, false) !in events {}
  }

  // What one request publishes, namespace by namespace.
  datatype Publication = Publication(ns: Namespace, events: seq<Event>)

  function AllEvents(ps: seq<Publication>): seq<Event> {
    if ps == [] then [] else AllEvents(ps[..|ps| - 1]) + ps[|ps| - 1].events
  }

  lemma OnePublicationMore(ps: seq<Publication>, p: Publication, log: seq<Event>)
    ensures log + AllEvents(ps + [p]) == log + AllEvents(ps) + p.events
  {
    assert (ps + [p])[..|ps|] == ps;
    Regroup(log, AllEvents(ps), p.events);
  }

  ghost predicate IsApplied(c: Command, before: Store, names: seq<string>, ns: Namespace) {
    exists n :: n in names && n in before && ns == Applied(c, before[n])
  }

  /** Every publication is of a named namespace with the command applied, and safe; all but
      a failing last one are complete. */
  ghost predicate Published(c: Command, before: Store, names: seq<string>, ps: seq<Publication>, ok: bool) {
    && (forall i :: 0 <= i < |ps| ==> IsApplied(c, before, names, ps[i].ns) && CommitsAreSafe(ps[i].events, ps[i].ns))
    && (forall i :: 0 <= i < |ps| && (ok || i < |ps| - 1) ==> AllCommitted(ps[i].events))
  }

  lemma PublishedOneMore(
    c: Command, before: Store, names: seq<string>, ps: seq<Publication>, p: Publication, ok: bool)
    requires Published(c, before, names, ps, true) && IsApplied(c, before, names, p.ns)
    requires CommitsAreSafe(p.events, p.ns) && (ok ==> AllCommitted(p.events))
    ensures Published(c, before, names, ps + [p], ok)
  {
  }

  lemma PreparingIsSafe(ns: Namespace, proxies: set<string>, prepares: seq<Event>, ok: bool)
    requires PhaseCalls(prepares, Prepare, proxies, ok)
    ensures CommitsAreSafe([Stored(ns), Listed(proxies)] + prepares, ns)
  {
    var events := [Stored(ns), Listed(proxies)] + prepares;
    forall i | 2 <= i < |events| ensures events[i].Call? && events[i].phase.Prepare? {
      assert events[i] == prepares[i - 2];
    }
  }

  // ------------------------------------------------------------------------ operations

  method SwapSlices(slices: seq<Slice>) returns (swapped: seq<Slice>)
    ensures swapped == Swapped(slices) && AllExchanged(slices, swapped)
  {
    SwappedIsExchanged(slices, Swapped(slices));
    swapped := slices;
    for i := 0 to |slices|
      invariant |swapped| == |slices|
      invariant forall j :: 0 <= j < |slices| ==> swapped[j] == if j < i then SwapSlice(slices[j]) else slices[j]
    {
      var master, slaves := swapped[i].master, swapped[i].slaves;
      swapped := swapped[i := swapped[i].(master := swapped[i].slaveDCMaster, slaves := swapped[i].slaveDCSlaves)];
      swapped := swapped[i := swapped[i].(slaveDCMaster := master, slaveDCSlaves := slaves)];
    }
  }

  class ControlPlane {
    var store: Store
    var log: seq<Event>

    // Namespaces are stored under their own names.
    ghost predicate Valid()
      reads this
    {
      forall n :: n in store ==> store[n].name == n
    }

    method LoadNamespace(name: string) returns (r: Option<Namespace>)
      requires Valid()
      ensures r.Some? ==> name in store && r.value == store[name] && Verify(r.value)
    {
      var readOk: bool, decryptOk: bool := *, *;
      if !readOk || name !in store || !Verify(store[name]) || !decryptOk {
        return None;
      }
      return Some(store[name]);
    }

    method QueryNamespace(names: seq<string>) returns (r: Option<seq<Namespace>>)
      requires Valid()
      ensures r.Some? ==> |r.value| == |names|
      ensures r.Some? ==> forall i :: 0 <= i < |names| ==> names[i] in store && r.value[i] == store[names[i]]
    {
      var data: seq<Namespace> := [];
      for i := 0 to |names|
        invariant |data| == i
        invariant forall j :: 0 <= j < i ==> names[j] in store && data[j] == store[names[j]]
      {
        var ns := LoadNamespace(names[i]);
        if ns.None? {
          return None;
        }
        data := data + [ns.value];
      }
      return Some(data);
    }

    // One loop over the proxies, in whatever order the map yields them.
    method CallAll(phase: Phase, proxies: set<string>) returns (ok: bool, calls: seq<Event>)
      ensures PhaseCalls(calls, phase, proxies, ok)
    {
      calls := [];
      var todo := proxies;
      while todo != {}
        invariant todo <= proxies
        invariant PhaseCalls(calls, phase, proxies - todo, true)
      {
        var p :| p in todo;
        ok := *;
        var before := calls;
        calls := calls + [Call(phase, p, ok)];
        if !ok {
          return;
        }
        todo := todo - {p};
        forall q | q in proxies - todo ensures Call(phase, q, true) in calls {
          if q != p { assert Call(phase, q, true) in before; }
        }
      }
      assert proxies - todo == proxies;
      ok := true;
    }

    method ModifyNamespace(ns: Namespace) returns (ok: bool, ghost events: seq<Event>)
      requires Valid()
      modifies this
      ensures Valid() && log == old(log) + events
      ensures store == if Stored(ns) in events then old(store)[ns.name := ns] else old(store)
      ensures Stored(ns) in events ==> Verify(ns)
      ensures CommitsAreSafe(events, ns)
      ensures ok ==> Stored(ns) in events && AllCommitted(events)
    {
      events := [];
      if !Verify(ns) {
        return false, [];
      }
      // An update that the store reports as failed may have been applied all the same.
      var encryptOk: bool, applied: bool, updateOk: bool, listOk: bool := *, *, *, *;
      if !encryptOk || (!updateOk && !applied) {
        return false, [];
      }
      store := store[ns.name := ns];
      log := log + [Stored(ns)];
      if !updateOk || !listOk {
        return false, [Stored(ns)];
      }
      var proxies: set<string> := *;
      var calls;
      ok, calls := Publish(ns, proxies);
      log := log + ([Listed(proxies)] + calls);
      events := [Stored(ns), Listed(proxies)] + calls;
      assert [Stored(ns)] + ([Listed(proxies)] + calls) == events;
      assert events[0] == Stored(ns);
    }

    // The prepare phase, then the commit phase.
    method Publish(ns: Namespace, proxies: set<string>) returns (ok: bool, calls: seq<Event>)
      requires Verify(ns)
      ensures CommitsAreSafe([Stored(ns), Listed(proxies)] + calls, ns)
      ensures ok ==> AllCommitted([Stored(ns), Listed(proxies)] + calls)
    {
      ok, calls := CallAll(Prepare, proxies);
      if !ok {
        PreparingIsSafe(ns, proxies, calls, ok);
        return;
      }
      ghost var prepares := calls;
      var commits;
      ok, commits := CallAll(Commit, proxies);
      PublicationIsSafe(ns, proxies, prepares, commits, ok);
      Regroup([Stored(ns), Listed(proxies)], prepares, commits);
      calls := calls + commits;
    }

    method PromoteDc(names: seq<string>) returns (ok: bool, ghost ps: seq<Publication>)
      requires Valid()
      modifies this
      ensures Valid() && log == old(log) + AllEvents(ps) && Published(PromoteDC, old(store), names, ps, ok)
      ensures Outcome(Request(PromoteDC, names), old(store), store)
      ensures ok ==> store == Handled(PromoteDC, old(store), names)
      ensures ok ==> store.Keys == old(store).Keys && forall n :: n in names ==> n in store
      ensures ok ==> forall n :: n in store ==>
        if n in names then Done(PromoteDC, old(store)[n], store[n]) else store[n] == old(store)[n]
    {
      var namespaces := QueryNamespace(names);
      HandledNone(PromoteDC, store, names);
      ps := [];
      assert log + [] == log;
      if namespaces.None? {
        return false, [];
      }
      for i := 0 to |names|
        invariant Valid() && log == old(log) + AllEvents(ps)
        invariant Published(PromoteDC, old(store), names, ps, true)
        invariant store == Handled(PromoteDC, old(store), names[..i])
      {
        var ns := namespaces.value[i];
        HandledNext(PromoteDC, old(store), names, i);
        if ns.masterDC {
          continue;
        }
        var slices := SwapSlices(ns.slices);
        ns := ns.(slices := slices);
        ns := ns.(masterDCOrigin := ns.masterDC);
        ns := ns.(masterDC := !ns.masterDC);
        ghost var events;
        ok, events := ModifyNamespace(ns);
        assert IsApplied(PromoteDC, old(store), names, ns) by { assert names[i] in names; }
        OnePublicationMore(ps, Publication(ns, events), old(log));
        PublishedOneMore(PromoteDC, old(store), names, ps, Publication(ns, events), ok);
        ps := ps + [Publication(ns, events)];
        if !ok {
          return;
        }
      }
      assert names[..|names|] == names;
      HandledMeans(PromoteDC, old(store), names);
      ok := true;
    }

    method ResumeDc(names: seq<string>) returns (ok: bool, ghost ps: seq<Publication>)
      requires Valid()
      modifies this
      ensures Valid() && log == old(log) + AllEvents(ps) && Published(ResumeDC, old(store), names, ps, ok)
      ensures Outcome(Request(ResumeDC, names), old(store), store)
      ensures ok ==> store == Handled(ResumeDC, old(store), names)
      ensures ok ==> store.Keys == old(store).Keys && forall n :: n in names ==> n in store
      ensures ok ==> forall n :: n in store ==>
        if n in names then Done(ResumeDC, old(store)[n], store[n]) else store[n] == old(store)[n]
    {
      var namespaces := QueryNamespace(names);
      HandledNone(ResumeDC, store, names);
      ps := [];
      assert log + [] == log;
      if namespaces.None? {
        return false, [];
      }
      for i := 0 to |names|
        invariant Valid() && log == old(log) + AllEvents(ps)
        invariant Published(ResumeDC, old(store), names, ps, true)
        invariant store == Handled(ResumeDC, old(store), names[..i])
      {
        var ns := namespaces.value[i];
        HandledNext(ResumeDC, old(store), names, i);
        if ns.masterDC == ns.masterDCOrigin {
          continue;
        }
        var slices := SwapSlices(ns.slices);
        ns := ns.(slices := slices);
        ns := ns.(masterDC := ns.masterDCOrigin);
        ghost var events;
        ok, events := ModifyNamespace(ns);
        assert IsApplied(ResumeDC, old(store), names, ns) by { assert names[i] in names; }
        OnePublicationMore(ps, Publication(ns, events), old(log));
        PublishedOneMore(ResumeDC, old(store), names, ps, Publication(ns, events), ok);
        ps := ps + [Publication(ns, events)];
        if !ok {
          return;
        }
      }
      assert names[..|names|] == names;
      HandledMeans(ResumeDC, old(store), names);
      ok := true;
    }
  }
}
