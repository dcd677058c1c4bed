/** The tracking manager as an object: its methods update its maps in place. */
module Manager {
  import opened Types
  import opened Tracking
  import opened Fingerprint
  import opened Evaluation
  import opened Passes
  import opened Recovery

  /** The API server's store, as the manager's status updates change it. */
  class Cluster {
    var objects: map<ObjectRef, Content>
    var summaries: map<ObjectRef, Summary>

    function View(): Store
      reads this
    {
      Store(objects, summaries)
    }

    constructor (store: Store)
      ensures View() == store
    {
      objects, summaries := store.objects, store.summaries;
    }
  }

  /** `Items()` of a set. */
  method ItemsOf(s: set<ObjectRef>) returns (items: seq<ObjectRef>)
    ensures Enumerates(items, s)
  {
    items := [];
    var rest := s;
    while rest != {}
      invariant rest <= s && Enumerates(items, s - rest)
      decreases rest
    {
      var x :| x in rest;
      items, rest := items + [x], rest - {x};
    }
  }

  class Manager {
    var jobQueue: set<ObjectRef>
    var resourceHashes: map<ObjectRef, Bytes>
    var resources: Rows
    var helmResources: Rows
    var kustomizeResources: Rows
    var watchers: set<Gvk>
    var gvkResources: map<Gvk, set<ObjectRef>>
    // informers started and cancelled, an effect outside the manager
    var started: multiset<Gvk>
    var cancelled: multiset<Gvk>

    function View(): State
      reads this
    {
      State(Reverse(resources, kustomizeResources, helmResources),
            Index(resourceHashes, gvkResources, watchers, started, cancelled),
            jobQueue)
    }

    constructor ()
      ensures View() == EMPTY
    {
      jobQueue, resourceHashes, watchers, gvkResources := {}, map[], {}, map[];
      resources, helmResources, kustomizeResources := map[], map[], map[];
      started, cancelled := multiset{}, multiset{};
    }

    // -------------------------------------------------------------- tracking

    method TrackResource(r: ObjectRef, t: ResourceType, q: ObjectRef)
      modifies this
      ensures View() == old(View()).(rows := old(View()).rows.Insert(r, t, q))
    {
      match t
      case HelmResource =>
        if r !in helmResources { helmResources := helmResources[r := {}]; }
        helmResources := helmResources[r := helmResources[r] + {q}];
      case KustomizeResource =>
        if r !in kustomizeResources { kustomizeResources := kustomizeResources[r := {}]; }
        kustomizeResources := kustomizeResources[r := kustomizeResources[r] + {q}];
      case Resource =>
        if r !in resources { resources := resources[r := {}]; }
        resources := resources[r := resources[r] + {q}];
    }

    method StillTrackingResource(r: ObjectRef) returns (still: bool)
      ensures still == View().rows.Has(r)
    {
      if r in helmResources { return true; }
      if r in kustomizeResources { return true; }
      still := r in resources;
    }

    method StopWatcher(g: Gvk)
      modifies this
      ensures View() == old(View()).(index := Tracking.StopWatcher(old(View()).index, g))
    {
      if g in watchers { cancelled := cancelled + multiset{g}; }
    }

    method StartWatcher(g: Gvk, watch: Option<Error>) returns (error: Option<Error>)
      modifies this
      ensures Indexed(View().index, error) == Tracking.StartWatcher(old(View()).index, g, watch)
      ensures View() == old(View()).(index := View().index)
    {
      if g in watchers { return None; }
      if watch.Some? { return watch; }
      watchers, started := watchers + {g}, started + multiset{g};
      error := None;
    }

    method StopTrackingResource(r: ObjectRef)
      modifies this
      ensures View() == old(View()).(index := StopTracking(old(View()).index, r))
    {
      resourceHashes := resourceHashes - {r};
      var g := r.gvk;
      if g in gvkResources {
        gvkResources := gvkResources[g := gvkResources[g] - {r}];
        if gvkResources[g] == {} {
          gvkResources := gvkResources - {g};
          assert gvkResources == old(gvkResources) - {g};
          StopWatcher(g);
          watchers := watchers - {g};
        }
      }
    }

    method UpdateGvkMapAndStartWatcher(r: ObjectRef, watch: Option<Error>) returns (error: Option<Error>)
      modifies this
      ensures Indexed(View().index, error) == UpdateGvk(old(View()).index, r, watch)
      ensures View() == old(View()).(index := View().index)
    {
      var g := r.gvk;
      if g !in gvkResources {
        gvkResources := gvkResources[g := {}];
        error := StartWatcher(g, watch);
        if error.Some? { return; }
      }
      gvkResources := gvkResources[g := gvkResources[g] + {r}];
      error := None;
      assert {} + {r} == {r};
    }

    method RegisterResource(p: Platform, r: ObjectRef, t: ResourceType, q: ObjectRef, patches: seq<Patch>,
                            answer: Answer)
      returns (result: Result<Bytes>)
      modifies this
      ensures Outcome(View(), result) == Register(old(View()), r, t, q, CallOf(p, answer, patches))
      ensures r in old(resourceHashes) ==> result == Ok(old(resourceHashes)[r])
      ensures r !in old(resourceHashes) && answer.fetch.Found? && Hash(p, answer.fetch.content, patches).Ok? ==>
                && resourceHashes == old(resourceHashes)[r := Hash(p, answer.fetch.content, patches).value]
                && (result.Ok? ==> result == Hash(p, answer.fetch.content, patches))
      ensures r !in old(resourceHashes) && answer.fetch.Missing? ==> result == Err(NotFound)
      ensures r !in old(resourceHashes) && Refused(p, answer.fetch, patches) ==> result == Err(OtherError)
    {
      ghost var before := View();
      if r !in before.index.hashes { RegistrationHashes(p, before, r, t, q, answer, patches); }
      TrackResource(r, t, q);
      if r in resourceHashes { return Ok(resourceHashes[r]); }
      match answer.fetch {
        case Missing => return Err(NotFound);
        case KindMissing => return Err(OtherError);
        case Broken => return Err(OtherError);
        case Found(u) =>
          result := UnstructuredHash(p, u, patches);
          if result.Err? { return; }
          resourceHashes := resourceHashes[r := result.value];
          var error := UpdateGvkMapAndStartWatcher(r, answer.watch);
          if error.Some? { return Err(error.value); }
      }
    }

    method UnRegisterResource(r: ObjectRef, t: ResourceType, q: ObjectRef)
      modifies this
      ensures View() == Unregister(old(View()), r, t, q)
    {
      match t {
        case HelmResource =>
          if r !in helmResources { return; }
          helmResources := Erased(helmResources, r, q);
        case KustomizeResource =>
          if r !in kustomizeResources { return; }
          kustomizeResources := Erased(kustomizeResources, r, q);
        case Resource =>
          if r !in resources { return; }
          resources := Erased(resources, r, q);
      }
      assert View() == old(View()).(rows := old(View()).rows.Erase(r, t, q));
      var still := StillTrackingResource(r);
      if !still { StopTrackingResource(r); }
    }

    /** Erases a summary from a row, and the row when nothing is left of it. */
    static method Erased(m: Rows, r: ObjectRef, q: ObjectRef) returns (m': Rows)
      requires r in m
      ensures m' == if m[r] - {q} == {} then m - {r} else m[r := m[r] - {q}]
    {
      m' := m[r := m[r] - {q}];
      if m'[r] == {} {
        m' := m' - {r};
        assert m' == m - {r};
      }
    }

    // -------------------------------------------------------------- notifications

    method CheckForConfigurationDrift(r: ObjectRef)
      modifies this
      ensures View() == Enqueue(old(View()), r)
    {
      jobQueue := jobQueue + {r};
    }

    method React(r: ObjectRef)
      modifies this
      ensures View() == Tracking.React(old(View()), r)
    {
      if r in resources {
        var items := ItemsOf(resources[r]);
        EmptyEnumeration(items, resources[r]);
        if |items| > 0 {
          CheckForConfigurationDrift(r);
          return;
        }
      }
      if r in helmResources {
        var items := ItemsOf(helmResources[r]);
        EmptyEnumeration(items, helmResources[r]);
        for i := 0 to |items|
          invariant View() == if i == 0 then old(View()) else Enqueue(old(View()), r)
        {
          CheckForConfigurationDrift(r);
          assert old(jobQueue) + {r} + {r} == old(jobQueue) + {r};
        }
      }
    }

    // -------------------------------------------------------------- evaluation

    method GetResourceSummaries(r: ObjectRef) returns (found: set<ObjectRef>)
      ensures found == SummariesOf(View().rows, r)
    {
      found := {};
      if r in resources { found := found + resources[r]; }
      if r in helmResources { found := found + helmResources[r]; }
      if r in kustomizeResources { found := found + kustomizeResources[r]; }
    }

    /** `order` enumerates the summaries that track `r`; the first `cut` calls succeed. */
    method GetPatches(cluster: Cluster, order: seq<ObjectRef>, cut: nat) returns (patches: Option<seq<Patch>>)
      ensures patches == if cut < |order| then None else Some(Collect(cluster.View(), order))
    {
      var all: seq<Patch> := [];
      for i := 0 to |order|
        invariant i <= cut
        invariant all + Collect(cluster.View(), order[i..]) == Collect(cluster.View(), order)
      {
        if i == cut { return None; }
        assert order[i..][1..] == order[i + 1..];
        if order[i] in cluster.summaries { all := all + cluster.summaries[order[i]].patches; }
      }
      assert order[|order|..] == [] && all + [] == all;
      patches := Some(all);
    }

    method UpdateResourceHash(r: ObjectRef, hash: Bytes)
      modifies this
      ensures View() == old(View()).(index := Baseline(old(View()).index, r, hash))
    {
      resourceHashes := resourceHashes[r := hash];
    }

    method UpdateResourceSummaryWithHash(entries: seq<HashEntry>, r: ObjectRef,
                                         text: Bytes) returns (updated: seq<HashEntry>)
      ensures updated == Overwrite(entries, r, text)
    {
      for i := 0 to |entries|
        invariant forall j | 0 <= j < i :: entries[j].resource.ref != r
      {
        if entries[i].resource.ref == r {
          OverwriteFirst(entries, r, text, i);
          return entries[i := entries[i].(text := text)];
        }
      }
      OverwriteFirst(entries, r, text, |entries|);
      updated := entries;
    }

    /** `fails`: fetching the summary, reading it as one, or updating it ends in an error. */
    method RequestReconciliationForResourceSummary(p: Platform, cluster: Cluster, q: ObjectRef, r: ObjectRef,
                                                   text: Bytes, t: ResourceType, fails: bool)
      returns (ok: bool)
      modifies cluster
      ensures ok == !fails
      ensures cluster.View() == if ok then Flag(p, old(cluster.View()), q, t, r, text) else old(cluster.View())
    {
      if fails { return false; }
      ok := true;
      if q !in cluster.summaries { return; }
      var summary := cluster.summaries[q];
      var hashes := UpdateResourceSummaryWithHash(summary.status.Get(t).hashes, r, text);
      var status := summary.status.Set(t, Section(true, hashes));
      if q in cluster.objects { cluster.objects := cluster.objects[q := p.withStatus(cluster.objects[q], status)]; }
      cluster.summaries := cluster.summaries[q := summary.(status := status)];
    }

    /** The inner loop: the first `budget` calls succeed. */
    method NotifyAll(p: Platform, cluster: Cluster, items: seq<ObjectRef>, r: ObjectRef, text: Bytes,
                     t: ResourceType, budget: nat)
      returns (ok: bool)
      modifies cluster
      ensures ok == (|items| <= budget)
      ensures var done := if ok then Pairs(items, t) else Pairs(items, t)[..budget];
              cluster.View() == ApplyWork(p, old(cluster.View()), done, r, text)
    {
      ghost var before, work := cluster.View(), Pairs(items, t);
      for i := 0 to |items|
        invariant i <= budget
        invariant cluster.View() == ApplyWork(p, before, work[..i], r, text)
      {
        assert work[..i + 1] == work[..i] + [work[i]];
        ApplyWorkAppend(p, before, work[..i], [work[i]], r, text);
        ok := RequestReconciliationForResourceSummary(p, cluster, items[i], r, text, t, i == budget);
        if !ok { return; }
      }
      assert work[..|items|] == work;
      ok := true;
    }

    method RequestReconciliations(p: Platform, cluster: Cluster, r: ObjectRef, text: Bytes, orders: Orders,
                                  cut: nat) returns (ok: bool)
      modifies cluster
      ensures Report(cluster.View(), ok) ==
              Evaluation.RequestReconciliations(p, View().rows, old(cluster.View()), r, text, orders, cut)
    {
      var types, seen: seq<ObjectRef>, budget := [Resource, HelmResource, KustomizeResource], [], cut;
      ghost var before, done: seq<(ObjectRef, ResourceType)> := cluster.View(), [];
      ghost var work := Work(View().rows, r, orders, TYPE_ORDER, []);
      assert types[0..] == TYPE_ORDER;
      for i := 0 to 3
        invariant |done| + budget == cut
        invariant work == done + Work(View().rows, r, orders, types[i..], seen)
        invariant cluster.View() == ApplyWork(p, before, done, r, text)
      {
        var rows := match types[i]
          case Resource => resources
          case HelmResource => helmResources
          case KustomizeResource => kustomizeResources;
        assert rows == View().rows.Get(types[i]);
        assert types[i..][0] == types[i] && types[i..][1..] == types[i + 1..];
        if r in rows {
          seen := seen + orders.Get(types[i]);
          ghost var pairs, rest := Pairs(seen, types[i]), Work(View().rows, r, orders, types[i + 1..], seen);
          assert work == done + pairs + rest;
          ApplyWorkAppend(p, before, done, pairs, r, text);
          if budget < |seen| {
            ApplyWorkAppend(p, before, done, pairs[..budget], r, text);
            assert work[..cut] == done + pairs[..budget];
          }
          ok := NotifyAll(p, cluster, seen, r, text, types[i], budget);
          if !ok { return; }
          done, budget := done + pairs, budget - |seen|;
        }
      }
      assert work == done;
      ok := true;
    }

    method EvaluateResource(p: Platform, cluster: Cluster, r: ObjectRef, visit: Visit) returns (ok: bool)
      modifies this, cluster
      ensures var e := Evaluate(p, old(View()), old(cluster.View()), r, visit);
              View() == e.state && cluster.View() == e.store && ok == e.ok
    {
      if r !in resourceHashes { return true; }
      var hash := resourceHashes[r];
      match visit.fetch {
        case Missing =>
          UpdateResourceHash(r, []);
          ok := RequestReconciliations(p, cluster, r, [], visit.orders, visit.reportCut);
        case KindMissing =>
          UpdateResourceHash(r, []);
          ok := RequestReconciliations(p, cluster, r, [], visit.orders, visit.reportCut);
        case Broken => ok := false;
        case Found(u) =>
          var patches := GetPatches(cluster, visit.order, visit.patchCut);
          if patches.None? { return false; }
          var current := UnstructuredHash(p, u, patches.value);
          if current.Err? { return false; }
          if hash == current.value { return true; }
          UpdateResourceHash(r, current.value);
          ok := RequestReconciliations(p, cluster, r, current.value, visit.orders, visit.reportCut);
      }
    }

    /** One iteration of the evaluation loop; `batch` enumerates the queue and `visits[i]` is
        what the evaluation of `batch[i]` meets. */
    method EvaluateConfigurationDrift(p: Platform, cluster: Cluster, batch: seq<ObjectRef>, visits: seq<Visit>)
      requires |batch| == |visits| && Enumerates(batch, jobQueue)
      modifies this, cluster
      ensures var pass := RunPass(p, old(View()), old(cluster.View()), batch, visits);
              View() == pass.state && cluster.View() == pass.store && jobQueue == pass.failed
    {
      jobQueue := {};
      var failed: set<ObjectRef> := {};
      ghost var all := EvaluateAll(p, View(), cluster.View(), batch, visits);
      EvaluateAllFrame(p, View(), cluster.View(), batch, visits);
      assert batch[0..] == batch && visits[0..] == visits;
      for i := 0 to |batch|
        invariant jobQueue == {}
        invariant var rest := EvaluateAll(p, View(), cluster.View(), batch[i..], visits[i..]);
                  all == Pass(rest.state, rest.store, failed + rest.failed)
      {
        assert batch[i..][1..] == batch[i + 1..] && visits[i..][1..] == visits[i + 1..];
        EvaluateFrame(p, View(), cluster.View(), batch[i], visits[i]);
        var ok := EvaluateResource(p, cluster, batch[i], visits[i]);
        if !ok { failed := failed + {batch[i]}; }
      }
      RequeueAll(failed);
    }

    /** Queues again whatever failed. */
    method RequeueAll(failed: set<ObjectRef>)
      modifies this
      ensures View() == old(View()).(jobQueue := old(jobQueue) + failed)
    {
      var again := ItemsOf(failed);
      for i := 0 to |again|
        invariant View() == old(View()).(jobQueue := old(jobQueue) + Elements(again[..i]))
      {
        assert again[..i + 1] == again[..i] + [again[i]];
        CheckForConfigurationDrift(again[i]);
      }
      assert again[..|again|] == again;
      assert Elements(again) == failed;
    }

    // -------------------------------------------------------------- recovery

    method ProcessResourceHashes(p: Platform, q: ObjectRef, t: ResourceType, entries: seq<HashEntry>,
                                 patches: seq<Patch>, answers: seq<Answer>)
      returns (ok: bool)
      requires |answers| == |entries|
      modifies this
      ensures Recovered(View(), ok) == Recover(old(View()), RecordsOf(q, t, entries), CallsOf(p, answers, patches))
    {
      ghost var records, calls := RecordsOf(q, t, entries), CallsOf(p, answers, patches);
      assert records[0..] == records && calls[0..] == calls;
      for i := 0 to |entries|
        invariant Recover(old(View()), records, calls) == Recover(View(), records[i..], calls[i..])
      {
        assert records[i..][1..] == records[i + 1..] && calls[i..][1..] == calls[i + 1..];
        var r := entries[i].resource.ref;
        var result := RegisterResource(p, r, t, q, patches, answers[i]);
        resourceHashes := resourceHashes[r := entries[i].text];
        if result.Err? && result.error != NotFound { return false; }
        CheckForConfigurationDrift(r);
      }
      ok := true;
    }

    method ReadResourceSummary(p: Platform, q: ObjectRef, summary: Summary, answers: seq<Answer>) returns (ok: bool)
      requires |answers| == |SummaryRecords(q, summary.status)|
      modifies this
      ensures Recovered(View(), ok) ==
              Recover(old(View()), SummaryRecords(q, summary.status), CallsOf(p, answers, summary.patches))
    {
      var status, patches := summary.status, summary.patches;
      var plain, kustomize, helm := status.resources.hashes, status.kustomize.hashes, status.helm.hashes;
      var a1, a2, a3 := answers[..|plain|], answers[|plain|..|plain| + |kustomize|], answers[|plain| + |kustomize|..];
      ghost var r1, r2 := RecordsOf(q, HelmResource, plain), RecordsOf(q, KustomizeResource, kustomize);
      ghost var r3 := RecordsOf(q, Resource, helm);
      ghost var c1, c2, c3 := CallsOf(p, a1, patches), CallsOf(p, a2, patches), CallsOf(p, a3, patches);
      assert CallsOf(p, answers, patches) == c1 + c2 + c3;
      RecoverAppend(View(), r1 + r2, c1 + c2, r3, c3);
      RecoverAppend(View(), r1, c1, r2, c2);
      ok := ProcessResourceHashes(p, q, HelmResource, plain, patches, a1);
      if !ok { return; }
      ok := ProcessResourceHashes(p, q, KustomizeResource, kustomize, patches, a2);
      if !ok { return; }
      ok := ProcessResourceHashes(p, q, Resource, helm, patches, a3);
    }

    /** `listed` is what listing the summaries returned. */
    method ReadResourceSummaries(p: Platform, store: Store, listed: Result<seq<ObjectRef>>, answers: seq<seq<Answer>>)
      returns (ok: bool)
      requires listed.Ok? ==> AnswersFit(store, listed.value, answers)
      modifies this
      ensures listed.Err? ==> !ok && View() == old(View())
      ensures listed.Ok? ==>
                Recovered(View(), ok) ==
                Recover(old(View()), Records(store, listed.value), AllCalls(p, store, listed.value, answers))
      ensures listed.Ok? && old(View()) == EMPTY && AnyRefused(p, store, listed.value, answers) ==> !ok
    {
      if listed.Err? { return false; }
      AnyRefusedEndsRecovery(p, store, listed.value, answers);
      var list := listed.value;
      assert list[0..] == list && answers[0..] == answers;
      for i := 0 to |list|
        invariant AnswersFit(store, list[i..], answers[i..])
        invariant Recover(old(View()), Records(store, list), AllCalls(p, store, list, answers)) ==
                  Recover(View(), Records(store, list[i..]), AllCalls(p, store, list[i..], answers[i..]))
      {
        assert list[i..][1..] == list[i + 1..] && answers[i..][1..] == answers[i + 1..];
        assert list[i..][0] == list[i] && answers[i..][0] == answers[i];
        var summary := store.summaries[list[i]];
        ghost var rest, restCalls := Records(store, list[i + 1..]), AllCalls(p, store, list[i + 1..], answers[i + 1..]);
        if summary.deleting {
          assert [] + rest == rest && [] + restCalls == restCalls;
        } else {
          RecoverAppend(View(), SummaryRecords(list[i], summary.status), CallsOf(p, answers[i], summary.patches),
                        rest, restCalls);
          ok := ReadResourceSummary(p, list[i], summary, answers[i]);
          if !ok { return; }
        }
      }
      ok := true;
    }
  }
}
