/** The ResourceSummary reconciler as an object: its forward maps are updated in place. */
module Reconciler {
  import opened Types
  import opened Tracking
  import opened Fingerprint
  import opened Evaluation
  import opened Reconciling
  import Manager

  /** What the outside answers during one reconcile, by type. */
  datatype Replies = Replies(resources: seq<Answer>, kustomize: seq<Answer>, helm: seq<Answer>)

  predicate RepliesFit(spec: Spec, replies: Replies) {
    && |replies.resources| == |spec.resources|
    && |replies.kustomize| == |spec.kustomize|
    && |replies.helm| == |spec.helm|
  }

  ghost function AnswersOf(p: Platform, spec: Spec, replies: Replies, patches: seq<Patch>): (answers: Answers)
    requires RepliesFit(spec, replies)
    ensures Fits(spec, answers)
  {
    Answers(CallsOf(p, replies.resources, patches), CallsOf(p, replies.kustomize, patches), CallsOf(p, replies.helm, patches))
  }

  /** The outcome of a registration loop that had already gathered `hashes`. */
  function Prepend(hashes: seq<HashEntry>, done: Registered): Registered {
    if done.result.Err? then done else done.(result := Ok(hashes + done.result.value))
  }

  lemma PrependNothing(done: Registered)
    ensures Prepend([], done) == done
  {
    if done.result.Ok? { assert [] + done.result.value == done.result.value; }
  }

  lemma PrependMore(hashes: seq<HashEntry>, h: HashEntry, done: Registered)
    ensures Prepend(hashes + [h], done) == Prepend(hashes, Prepend([h], done))
  {
    if done.result.Ok? { assert hashes + [h] + done.result.value == hashes + ([h] + done.result.value); }
  }

  class ResourceSummaryReconciler {
    var resourceSummaryMap: Rows
    var helmResourceSummaryMap: Rows
    var kustomizeResourceSummaryMap: Rows

    function View(): Forward
      reads this
    {
      Reverse(resourceSummaryMap, kustomizeResourceSummaryMap, helmResourceSummaryMap)
    }

    constructor ()
      ensures View() == NOTHING.forward
    {
      resourceSummaryMap, helmResourceSummaryMap, kustomizeResourceSummaryMap := map[], map[], map[];
    }

    method GetMapValue(q: ObjectRef, t: ResourceType) returns (value: Option<set<ObjectRef>>)
      ensures value == if q in View().Get(t) then Some(View().Get(t)[q]) else None
    {
      var m := match t
        case Resource => resourceSummaryMap
        case KustomizeResource => kustomizeResourceSummaryMap
        case HelmResource => helmResourceSummaryMap;
      value := if q in m then Some(m[q]) else None;
    }

    method SetMapValue(q: ObjectRef, t: ResourceType, refs: set<ObjectRef>)
      modifies this
      ensures View() == Remember(old(View()), q, t, refs)
    {
      match t
      case Resource => resourceSummaryMap := resourceSummaryMap[q := refs];
      case KustomizeResource => kustomizeResourceSummaryMap := kustomizeResourceSummaryMap[q := refs];
      case HelmResource => helmResourceSummaryMap := helmResourceSummaryMap[q := refs];
    }

    method RemoveMapEntry(q: ObjectRef, t: ResourceType)
      modifies this
      ensures View() == Forget(old(View()), q, t)
    {
      match t
      case Resource => resourceSummaryMap := resourceSummaryMap - {q};
      case KustomizeResource => kustomizeResourceSummaryMap := kustomizeResourceSummaryMap - {q};
      case HelmResource => helmResourceSummaryMap := helmResourceSummaryMap - {q};
    }

    /** `m` is what `GetManager` returned; null when there is no manager. */
    method RegisterResources(p: Platform, m: Manager.Manager?, q: ObjectRef, t: ResourceType, entries: seq<Entry>,
                             patches: seq<Patch>, answers: seq<Answer>) returns (result: Result<seq<HashEntry>>)
      requires |answers| == |entries|
      modifies m
      ensures m == null ==> result == Err(OtherError)
      ensures m != null ==>
                Registered(m.View(), result) == RegisterAll(old(m.View()), q, t, entries, CallsOf(p, answers, patches))
    {
      if m == null { return Err(OtherError); }
      ghost var calls := CallsOf(p, answers, patches);
      var hashes: seq<HashEntry> := [];
      assert entries[0..] == entries && calls[0..] == calls;
      PrependNothing(RegisterAll(m.View(), q, t, entries, calls));
      for i := 0 to |entries|
        invariant Prepend(hashes, RegisterAll(m.View(), q, t, entries[i..], calls[i..])) ==
                  RegisterAll(old(m.View()), q, t, entries, calls)
      {
        assert entries[i..][0] == entries[i] && calls[i..][0] == calls[i];
        assert entries[i..][1..] == entries[i + 1..] && calls[i..][1..] == calls[i + 1..];
        if !entries[i].ignore {
          var hash := m.RegisterResource(p, entries[i].ref, t, q, patches, answers[i]);
          if hash.Err? {
            if hash.error != NotFound { return Err(hash.error); }
            hash := Ok([]);
          }
          PrependMore(hashes, HashEntry(entries[i], Hex(hash.value)),
                      RegisterAll(m.View(), q, t, entries[i + 1..], calls[i + 1..]));
          hashes := hashes + [HashEntry(entries[i], Hex(hash.value))];
        }
      }
      assert hashes + [] == hashes;
      result := Ok(hashes);
    }

    method UnregisterResources(m: Manager.Manager?, q: ObjectRef, t: ResourceType,
                               refs: seq<ObjectRef>) returns (ok: bool)
      modifies m
      ensures ok == (m != null)
      ensures m != null ==> m.View() == UnregisterAll(old(m.View()), q, t, refs)
    {
      if m == null { return false; }
      assert refs[0..] == refs;
      for i := 0 to |refs|
        invariant UnregisterAll(m.View(), q, t, refs[i..]) == UnregisterAll(old(m.View()), q, t, refs)
      {
        assert refs[i..][1..] == refs[i + 1..];
        m.UnRegisterResource(refs[i], t, q);
      }
      ok := true;
    }

    /** `drop` enumerates what was referenced and is not listed any more. */
    method UpdateMapsForResourceType(p: Platform, m: Manager.Manager?, q: ObjectRef, t: ResourceType,
                                     entries: seq<Entry>,
                                     patches: seq<Patch>, answers: seq<Answer>, drop: seq<ObjectRef>)
      returns (result: Result<seq<HashEntry>>)
      requires |answers| == |entries|
      requires m != null ==> Enumerates(drop, OldRefs(World(View(), m.View()), q, t) - Listed(entries))
      modifies this, m
      ensures m == null ==> result == Err(OtherError) && View() == old(View())
      ensures m != null ==>
                TypeDone(World(View(), m.View()), result) ==
                UpdateType(old(World(View(), m.View())), q, t, entries, CallsOf(p, answers, patches), drop)
    {
      var oldRefs := GetMapValue(q, t);
      result := RegisterResources(p, m, q, t, entries, patches, answers);
      if result.Err? { return; }
      var current: set<ObjectRef> := {};
      for i := 0 to |entries|
        invariant current == Listed(entries[..i])
      {
        current := current + {entries[i].ref};
        assert entries[..i + 1] == entries[..i] + [entries[i]];
      }
      assert entries[..|entries|] == entries;
      if oldRefs.Some? {
        var ok := UnregisterResources(m, q, t, drop);
      } else {
        assert Enumerates(drop, {});
        EmptyEnumeration(drop, {});
      }
      SetMapValue(q, t, current);
    }

    /** The status lists of the types done before an error stay replaced. */
    method UpdateMapsAndResourceSummaryStatus(p: Platform, m: Manager.Manager?, q: ObjectRef, spec: Spec,
                                              patches: seq<Patch>, replies: Replies, drops: Drops, status: Status)
      returns (error: Option<Error>, updated: Status)
      requires RepliesFit(spec, replies)
      requires m != null ==>
                 forall t :: Enumerates(drops.Get(t), OldRefs(World(View(), m.View()), q, t) - Listed(spec.Get(t)))
      modifies this, m
      ensures m == null ==> error == Some(OtherError) && updated == status && View() == old(View())
      ensures m != null ==>
                Reconciled(World(View(), m.View()), updated, error) ==
                Reconcile(old(World(View(), m.View())), q, spec, AnswersOf(p, spec, replies, patches), drops, status)
    {
      if m != null {
        ghost var w := World(View(), m.View());
        assert Enumerates(drops.Get(Resource), OldRefs(w, q, Resource) - Listed(spec.Get(Resource)));
        assert Enumerates(drops.Get(KustomizeResource),
                          OldRefs(w, q, KustomizeResource) - Listed(spec.Get(KustomizeResource)));
        assert Enumerates(drops.Get(HelmResource), OldRefs(w, q, HelmResource) - Listed(spec.Get(HelmResource)));
      }
      ghost var answers := AnswersOf(p, spec, replies, patches);
      updated := status;
      var hashes := UpdateMapsForResourceType(p, m, q, Resource, spec.resources, patches, replies.resources, drops.resources);
      if hashes.Err? { return Some(hashes.error), updated; }
      updated := updated.Set(Resource, updated.Get(Resource).(hashes := hashes.value));
      assert Reconcile(old(World(View(), m.View())), q, spec, answers, drops, status) ==
             UpdateFrom(World(View(), m.View()), q, spec, answers, drops, 1, updated);
      hashes := UpdateMapsForResourceType(p, m, q, KustomizeResource, spec.kustomize, patches, replies.kustomize,
                                          drops.kustomize);
      if hashes.Err? { return Some(hashes.error), updated; }
      updated := updated.Set(KustomizeResource, updated.Get(KustomizeResource).(hashes := hashes.value));
      assert Reconcile(old(World(View(), m.View())), q, spec, answers, drops, status) ==
             UpdateFrom(World(View(), m.View()), q, spec, answers, drops, 2, updated);
      hashes := UpdateMapsForResourceType(p, m, q, HelmResource, spec.helm, patches, replies.helm, drops.helm);
      if hashes.Err? { return Some(hashes.error), updated; }
      updated := updated.Set(HelmResource, updated.Get(HelmResource).(hashes := hashes.value));
      error := None;
    }

    method CleanType(m: Manager.Manager?, q: ObjectRef, t: ResourceType, drop: seq<ObjectRef>) returns (ok: bool)
      requires m != null ==> Enumerates(drop, OldRefs(World(View(), m.View()), q, t))
      modifies this, m
      ensures ok == (m != null || q !in old(View()).Get(t))
      ensures m == null ==> View() == old(View())
      ensures m != null ==> World(View(), m.View()) == Reconciling.CleanType(old(World(View(), m.View())), q, t, drop)
    {
      var refs := GetMapValue(q, t);
      if refs.Some? {
        ok := UnregisterResources(m, q, t, drop);
        if !ok { return; }
      } else if m != null {
        EmptyEnumeration(drop, {});
      }
      RemoveMapEntry(q, t);
      if refs.None? { assert old(View()).Get(t) - {q} == old(View()).Get(t); }
      ok := true;
    }

    method CleanMaps(m: Manager.Manager?, q: ObjectRef, drops: Drops) returns (ok: bool)
      requires m != null ==> forall t :: Enumerates(drops.Get(t), OldRefs(World(View(), m.View()), q, t))
      modifies this, m
      ensures ok == (m != null || forall t :: q !in old(View()).Get(t))
      ensures m == null ==> View() == old(View())
      ensures m != null ==> World(View(), m.View()) == Clean(old(World(View(), m.View())), q, drops)
    {
      if m != null {
        assert Enumerates(drops.Get(Resource), OldRefs(World(View(), m.View()), q, Resource));
        assert Enumerates(drops.Get(KustomizeResource), OldRefs(World(View(), m.View()), q, KustomizeResource));
        assert Enumerates(drops.Get(HelmResource), OldRefs(World(View(), m.View()), q, HelmResource));
      }
      ok := CleanType(m, q, Resource, drops.resources);
      if !ok { return; }
      ok := CleanType(m, q, KustomizeResource, drops.kustomize);
      if !ok { return; }
      ok := CleanType(m, q, HelmResource, drops.helm);
    }
  }
}
