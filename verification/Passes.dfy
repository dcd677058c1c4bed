/** Whole passes of the evaluator, when nothing else touches the manager meanwhile. */
module Passes {
  import opened Types
  import opened Tracking
  import opened Fingerprint
  import opened Evaluation

  datatype Pass = Pass(state: State, store: Store, failed: set<ObjectRef>)

  /** The evaluations of a batch, one after the other. */
  ghost function EvaluateAll(p: Platform, s: State, store: Store, batch: seq<ObjectRef>, visits: seq<Visit>): Pass
    requires |batch| == |visits|
    decreases |batch|
  {
    if batch == [] then Pass(s, store, {})
    else
      var e := Evaluate(p, s, store, batch[0], visits[0]);
      var rest := EvaluateAll(p, e.state, e.store, batch[1..], visits[1..]);
      rest.(failed := rest.failed + if e.ok then {} else {batch[0]})
  }

  /** One iteration of the evaluation loop: the queue is emptied into the batch, and what
      failed is queued again. */
  ghost function RunPass(p: Platform, s: State, store: Store, batch: seq<ObjectRef>, visits: seq<Visit>): Pass
    requires |batch| == |visits|
  {
    var pass := EvaluateAll(p, s.(jobQueue := {}), store, batch, visits);
    pass.(state := pass.state.(jobQueue := pass.state.jobQueue + pass.failed))
  }

  /** A pass changes neither the rows nor the index, and it leaves queued exactly what failed. */
  lemma {:induction false} PassRequeuesFailures(p: Platform, s: State, store: Store, batch: seq<ObjectRef>,
                                                visits: seq<Visit>)
    requires |batch| == |visits|
    ensures var pass := RunPass(p, s, store, batch, visits);
            && pass.state.jobQueue == pass.failed <= Elements(batch)
            && pass.state.rows == s.rows
            && pass.state.index.hashes.Keys == s.index.hashes.Keys
            && pass.state.index.(hashes := s.index.hashes) == s.index
  {
    EvaluateAllFrame(p, s.(jobQueue := {}), store, batch, visits);
  }

  lemma {:induction false} EvaluateAllFrame(p: Platform, s: State, store: Store, batch: seq<ObjectRef>,
                                            visits: seq<Visit>)
    requires |batch| == |visits|
    ensures var pass := EvaluateAll(p, s, store, batch, visits);
            && pass.state.jobQueue == s.jobQueue
            && pass.failed <= Elements(batch)
            && pass.state.rows == s.rows
            && pass.state.index.hashes.Keys == s.index.hashes.Keys
            && pass.state.index.(hashes := s.index.hashes) == s.index
    decreases |batch|
  {
    if batch != [] {
      var e := Evaluate(p, s, store, batch[0], visits[0]);
      EvaluateFrame(p, s, store, batch[0], visits[0]);
      EvaluateAllFrame(p, e.state, e.store, batch[1..], visits[1..]);
      assert batch == [batch[0]] + batch[1..];
    }
  }

  /** The evaluation of the `i`th resource, when its turn comes. */
  ghost function EvaluationAt(p: Platform, s: State, store: Store, batch: seq<ObjectRef>, visits: seq<Visit>,
                              i: nat): Evaluated
    requires |batch| == |visits| && i < |batch|
    decreases i
  {
    var e := Evaluate(p, s, store, batch[0], visits[0]);
    if i == 0 then e else EvaluationAt(p, e.state, e.store, batch[1..], visits[1..], i - 1)
  }

  /** A pass fails exactly the resources whose evaluation returned an error on its turn. */
  lemma {:induction false} FailedExactly(p: Platform, s: State, store: Store, batch: seq<ObjectRef>,
                                         visits: seq<Visit>, i: nat)
    requires |batch| == |visits| && i < |batch|
    requires forall j, k | 0 <= j < k < |batch| :: batch[j] != batch[k]
    ensures batch[i] in EvaluateAll(p, s, store, batch, visits).failed <==>
            !EvaluationAt(p, s, store, batch, visits, i).ok
    decreases |batch|
  {
    var e := Evaluate(p, s, store, batch[0], visits[0]);
    EvaluateAllFrame(p, e.state, e.store, batch[1..], visits[1..]);
    if i > 0 {
      FailedExactly(p, e.state, e.store, batch[1..], visits[1..], i - 1);
    } else {
      assert forall j | 0 <= j < |batch[1..]| :: batch[1..][j] == batch[j + 1];
      assert batch[0] !in batch[1..];
    }
  }

  lemma EvaluateFrame(p: Platform, s: State, store: Store, r: ObjectRef, visit: Visit)
    ensures var e := Evaluate(p, s, store, r, visit);
            && e.state.jobQueue == s.jobQueue
            && e.state.rows == s.rows
            && e.state.index.hashes.Keys == s.index.hashes.Keys
            && e.state.index.(hashes := s.index.hashes) == s.index
            && forall r' | r' != r && r' in s.index.hashes :: e.state.index.hashes[r'] == s.index.hashes[r']
  {
  }

  // ---------------------------------------------------------------- baselines ignore reports

  /** The patches carried by the summaries of the store. */
  function PatchesIn(store: Store): set<Patch> {
    set q, x | q in store.summaries && x in store.summaries[q].patches :: x
  }

  lemma SamePatches(a: Store, b: Store)
    requires a.summaries.Keys == b.summaries.Keys
    requires forall q | q in a.summaries :: b.summaries[q].patches == a.summaries[q].patches
    ensures PatchesIn(a) == PatchesIn(b)
  {
    forall x ensures x in PatchesIn(a) <==> x in PatchesIn(b) {
      if x in PatchesIn(a) {
        var q :| q in a.summaries && x in a.summaries[q].patches;
        assert q in b.summaries && x in b.summaries[q].patches;
      }
      if x in PatchesIn(b) {
        var q :| q in b.summaries && x in b.summaries[q].patches;
        assert q in a.summaries && x in a.summaries[q].patches;
      }
    }
  }

  lemma {:induction false} CollectDrawn(store: Store, order: seq<ObjectRef>)
    ensures DrawnFrom(Collect(store, order), PatchesIn(store))
  {
    if order != [] { CollectDrawn(store, order[1..]); }
  }

  /** No patch in use reads the status of `r`, if it is a ResourceSummary. */
  ghost predicate StatusUnread(p: Platform, store: Store, r: ObjectRef) {
    r in store.summaries && r in store.objects ==>
      IsResourceSummary(store.objects[r]) && StatusStaysHidden(p, PatchesIn(store))
  }

  /** The same objects and summaries exist, with the same patches. */
  predicate SameShape(a: Store, b: Store) {
    && a.objects.Keys == b.objects.Keys
    && a.summaries.Keys == b.summaries.Keys
    && forall q | q in a.summaries :: b.summaries[q].patches == a.summaries[q].patches
  }

  /** Nothing the baseline of `r` depends on differs between the two stores. */
  ghost predicate SameForBaseline(p: Platform, a: Store, b: Store, r: ObjectRef) {
    && SameShape(a, b)
    && (r in a.objects ==>
          forall patches | DrawnFrom(patches, PatchesIn(a)) ::
            Hash(p, b.objects[r], patches) == Hash(p, a.objects[r], patches))
  }

  lemma {:induction false} CollectSame(a: Store, b: Store, order: seq<ObjectRef>)
    requires SameShape(a, b)
    ensures Collect(a, order) == Collect(b, order)
  {
    if order != [] { CollectSame(a, b, order[1..]); }
  }

  lemma DigestSame(p: Platform, a: Store, b: Store, r: ObjectRef, order: seq<ObjectRef>)
    requires SameForBaseline(p, a, b, r) && r in a.objects
    ensures Hash(p, b.objects[r], Collect(b, order)) == Hash(p, a.objects[r], Collect(a, order))
  {
    CollectSame(a, b, order);
    CollectDrawn(a, order);
  }

  lemma FlagInvisible(p: Platform, store: Store, q: ObjectRef, t: ResourceType, r: ObjectRef, text: Bytes, x: ObjectRef)
    requires StatusUnread(p, store, x)
    ensures SameForBaseline(p, store, Flag(p, store, q, t, r, text), x)
    ensures StatusUnread(p, Flag(p, store, q, t, r, text), x)
  {
    var after := Flag(p, store, q, t, r, text);
    SamePatches(store, after);
    if x == q && q in store.summaries && q in store.objects {
      forall patches | DrawnFrom(patches, PatchesIn(store))
        ensures Hash(p, after.objects[x], patches) == Hash(p, store.objects[x], patches)
      {
        StatusWriteInvisible(p, PatchesIn(store), store.objects[q], after.summaries[q].status, patches);
      }
      StatusWriteInvisible(p, PatchesIn(store), store.objects[q], after.summaries[q].status, []);
    }
  }

  lemma {:induction false} ApplyWorkInvisible(p: Platform, store: Store, work: seq<(ObjectRef, ResourceType)>,
                                              r: ObjectRef, text: Bytes, x: ObjectRef)
    requires StatusUnread(p, store, x)
    ensures SameForBaseline(p, store, ApplyWork(p, store, work, r, text), x)
    ensures StatusUnread(p, ApplyWork(p, store, work, r, text), x)
    decreases |work|
  {
    if work != [] {
      var next := Flag(p, store, work[0].0, work[0].1, r, text);
      FlagInvisible(p, store, work[0].0, work[0].1, r, text, x);
      SamePatches(store, next);
      ApplyWorkInvisible(p, next, work[1..], r, text, x);
    }
  }

  /** The status writes of an evaluation cannot alter the baseline of any resource `x`, not even
      of a tracked ResourceSummary, unless a patch in use reads the status of `x`. */
  lemma EvaluateInvisible(p: Platform, s: State, store: Store, r: ObjectRef, visit: Visit, x: ObjectRef)
    requires StatusUnread(p, store, x)
    ensures SameForBaseline(p, store, Evaluate(p, s, store, r, visit).store, x)
    ensures StatusUnread(p, Evaluate(p, s, store, r, visit).store, x)
  {
    if Evaluate(p, s, store, r, visit).drift {
      DriftIsReported(p, s, store, r, visit);
      var work := Work(s.rows, r, visit.orders, TYPE_ORDER, []);
      var done := if visit.reportCut < |work| then work[..visit.reportCut] else work;
      ApplyWorkInvisible(p, store, done, r, Evaluate(p, s, store, r, visit).state.index.hashes[r], x);
    }
  }

  // ---------------------------------------------------------------- settling

  /** The `i`th evaluation of the pass sees its resource as the store holds it at that moment. */
  ghost predicate SeesAt(p: Platform, s: State, store: Store, batch: seq<ObjectRef>, visits: seq<Visit>, i: nat)
    requires |batch| == |visits| && i < |batch|
    decreases i
  {
    if i == 0 then Sees(store, batch[0], visits[0].fetch)
    else
      var e := Evaluate(p, s, store, batch[0], visits[0]);
      SeesAt(p, e.state, e.store, batch[1..], visits[1..], i - 1)
  }

  /** The baseline of `r`, if it has one, is the digest of the object in the store. */
  ghost predicate Settled(p: Platform, s: State, store: Store, r: ObjectRef, order: seq<ObjectRef>) {
    r in s.index.hashes ==>
      r in store.objects && Hash(p, store.objects[r], Collect(store, order)) == Ok(s.index.hashes[r])
  }

  lemma SettledIsQuiet(p: Platform, s: State, store: Store, r: ObjectRef, visit: Visit)
    requires Settled(p, s, store, r, visit.order)
    requires Sees(store, r, visit.fetch) && visit.patchCut >= |visit.order|
    ensures Evaluate(p, s, store, r, visit) == Evaluated(s, store, true, false)
  {
  }

  lemma EvaluateBaselines(p: Platform, s: State, store: Store, r: ObjectRef, visit: Visit)
    requires Sees(store, r, visit.fetch) && r in store.objects && r in s.index.hashes
    requires Evaluate(p, s, store, r, visit).ok || Evaluate(p, s, store, r, visit).drift
    ensures var e := Evaluate(p, s, store, r, visit);
            && r in e.state.index.hashes
            && Hash(p, store.objects[r], Collect(store, visit.order)) == Ok(e.state.index.hashes[r])
  {
  }

  lemma EvaluateSettles(p: Platform, s: State, store: Store, r: ObjectRef, visit: Visit)
    requires StatusUnread(p, store, r)
    requires Sees(store, r, visit.fetch) && r in store.objects
    requires Evaluate(p, s, store, r, visit).ok || Evaluate(p, s, store, r, visit).drift
    ensures var e := Evaluate(p, s, store, r, visit); Settled(p, e.state, e.store, r, visit.order)
  {
    EvaluateInvisible(p, s, store, r, visit, r);
    DigestSame(p, store, Evaluate(p, s, store, r, visit).store, r, visit.order);
    EvaluateFrame(p, s, store, r, visit);
    if r in s.index.hashes { EvaluateBaselines(p, s, store, r, visit); }
  }

  lemma {:induction false} SettledSurvivesPass(p: Platform, s: State, store: Store, batch: seq<ObjectRef>,
                                               visits: seq<Visit>, r: ObjectRef, order: seq<ObjectRef>)
    requires |batch| == |visits| && StatusUnread(p, store, r) && r !in batch && Settled(p, s, store, r, order)
    ensures var pass := EvaluateAll(p, s, store, batch, visits); Settled(p, pass.state, pass.store, r, order)
    decreases |batch|
  {
    if batch != [] {
      var e := Evaluate(p, s, store, batch[0], visits[0]);
      EvaluateInvisible(p, s, store, batch[0], visits[0], r);
      if r in store.objects { DigestSame(p, store, e.store, r, order); }
      EvaluateFrame(p, s, store, batch[0], visits[0]);
      SettledSurvivesPass(p, e.state, e.store, batch[1..], visits[1..], r, order);
    }
  }

  /** What the rest of a pass that does not fail the `i`th resource inherits. */
  lemma PassTail(p: Platform, s: State, store: Store, batch: seq<ObjectRef>, visits: seq<Visit>, i: nat)
    requires |batch| == |visits| && i < |batch| && batch[i] !in EvaluateAll(p, s, store, batch, visits).failed
    ensures var e := Evaluate(p, s, store, batch[0], visits[0]);
            var pass := EvaluateAll(p, s, store, batch, visits);
            var rest := EvaluateAll(p, e.state, e.store, batch[1..], visits[1..]);
            && pass.state == rest.state && pass.store == rest.store
            && (i == 0 ==> e.ok)
            && (i > 0 ==> batch[1..][i - 1] !in rest.failed)
  {
  }

  lemma {:induction false} PassSettles(p: Platform, s: State, store: Store, batch: seq<ObjectRef>,
                                       visits: seq<Visit>, i: nat)
    requires |batch| == |visits| && i < |batch| && StatusUnread(p, store, batch[i])
    requires forall j, k | 0 <= j < k < |batch| :: batch[j] != batch[k]
    requires SeesAt(p, s, store, batch, visits, i) && batch[i] in store.objects
    requires batch[i] !in EvaluateAll(p, s, store, batch, visits).failed
    ensures var pass := EvaluateAll(p, s, store, batch, visits);
            Settled(p, pass.state, pass.store, batch[i], visits[i].order)
    decreases |batch|
  {
    var e := Evaluate(p, s, store, batch[0], visits[0]);
    PassTail(p, s, store, batch, visits, i);
    EvaluateInvisible(p, s, store, batch[0], visits[0], batch[i]);
    if i == 0 {
      EvaluateSettles(p, s, store, batch[0], visits[0]);
      SettledSurvivesPass(p, e.state, e.store, batch[1..], visits[1..], batch[0], visits[0].order);
    } else {
      PassSettles(p, e.state, e.store, batch[1..], visits[1..], i - 1);
    }
  }

  /** After a pass, evaluating again a resource that was present and whose evaluation returned
      nil, with the patches collected in the same order, changes neither the manager nor the
      store, whatever became of the other resources of the batch. */
  lemma SecondEvaluationIsQuiet(p: Platform, s: State, store: Store, batch: seq<ObjectRef>, visits: seq<Visit>,
                                i: nat, again: Visit)
    requires |batch| == |visits| && i < |batch| && StatusUnread(p, store, batch[i])
    requires Enumerates(batch, s.jobQueue)
    requires SeesAt(p, s.(jobQueue := {}), store, batch, visits, i) && batch[i] in store.objects
    requires batch[i] !in RunPass(p, s, store, batch, visits).failed
    requires Sees(RunPass(p, s, store, batch, visits).store, batch[i], again.fetch)
    requires again.order == visits[i].order && again.patchCut >= |again.order|
    ensures var pass := RunPass(p, s, store, batch, visits);
            Evaluate(p, pass.state, pass.store, batch[i], again) == Evaluated(pass.state, pass.store, true, false)
  {
    PassSettles(p, s.(jobQueue := {}), store, batch, visits, i);
    var pass := RunPass(p, s, store, batch, visits);
    SettledIsQuiet(p, pass.state, pass.store, batch[i], again);
  }

  // ---------------------------------------------------------------- a patch that reads status

  /** `r` tracks itself, as a plain resource, and nothing else tracks it. */
  predicate TracksItself(v: Reverse, r: ObjectRef) {
    r in v.resources && v.resources[r] == {r} && r !in v.helm && r !in v.kustomize
  }

  /** The status after `r` has reported its own drift to itself. */
  function SelfReported(store: Store, r: ObjectRef, text: Bytes): Status
    requires r in store.summaries
  {
    var status := store.summaries[r].status;
    status.Set(Resource, Marked(status.Get(Resource), r, text))
  }

  /** The patches show the status of `u` in a visible key `k`: one that both versions have, with
      different values. */
  ghost predicate Shows(p: Platform, u: Content, s: Status, patches: seq<Patch>, k: string) {
    var before, after := Patched(p, u, patches), Patched(p, p.withStatus(u, s), patches);
    && before.Some? && after.Some?
    && before.value.Keys - HIDDEN == after.value.Keys - HIDDEN
    && k in before.value.Keys - HIDDEN && before.value[k] != after.value[k]
  }

  lemma ShownStatusChangesDigest(p: Platform, u: Content, s: Status, patches: seq<Patch>, k: string)
    requires PrefixFree(p) && Shows(p, u, s, patches, k)
    requires Labels(p.withStatus(u, s)) == Labels(u) && Annotations(p.withStatus(u, s)) == Annotations(u)
    requires Separates(p, Join(p, Parts(u, Patched(p, u, patches).value)),
                       Join(p, Parts(p.withStatus(u, s), Patched(p, p.withStatus(u, s), patches).value)))
    ensures Hash(p, u, patches).Ok? && Hash(p, p.withStatus(u, s), patches).Ok?
    ensures Hash(p, u, patches) != Hash(p, p.withStatus(u, s), patches)
  {
    FingerprintDecides(p, u, Patched(p, u, patches).value,
                       p.withStatus(u, s), Patched(p, p.withStatus(u, s), patches).value);
  }

  /** The report of a drift of `r` to itself writes its status and nothing else. */
  lemma ReportToItself(p: Platform, v: Reverse, store: Store, r: ObjectRef, text: Bytes, visit: Visit)
    requires TracksItself(v, r) && Possible(v, r, visit) && visit.reportCut >= 1
    requires r in store.summaries && r in store.objects
    ensures var report := RequestReconciliations(p, v, store, r, text, visit.orders, visit.reportCut);
            && report.ok && SameShape(store, report.store)
            && report.store.objects[r] == p.withStatus(store.objects[r], SelfReported(store, r, text))
  {
    var orders := visit.orders;
    assert r in v.Get(Resource);
    OnlyOne(orders.Get(Resource), r);
    assert TYPE_ORDER[1..] == [HelmResource, KustomizeResource] && TYPE_ORDER[1..][1..] == [KustomizeResource];
    assert Work(v, r, orders, [KustomizeResource], [r]) == [];
    assert Work(v, r, orders, TYPE_ORDER[1..], [r]) == [];
    assert [] + [r] == [r];
    var work := [(r, Resource)];
    assert Work(v, r, orders, TYPE_ORDER, []) == work;
    assert work[1..] == [] && ApplyWork(p, store, work, r, text) == Flag(p, store, r, Resource, r, text);
  }

  /** Settling needs its premise: if a ResourceSummary lists itself and its patches show its
      status, the report of its drift changes its digest, so the next evaluation finds drift
      again. */
  lemma ShownStatusUnsettles(p: Platform, s: State, store: Store, r: ObjectRef, visit: Visit, again: Visit, k: string)
    requires PrefixFree(p) && TracksItself(s.rows, r) && Possible(s.rows, r, visit)
    requires r in s.index.hashes && r in store.objects && r in store.summaries
    requires Sees(store, r, visit.fetch) && visit.patchCut >= 1 && visit.reportCut >= 1
    requires Evaluate(p, s, store, r, visit).drift
    requires var u, patches := store.objects[r], store.summaries[r].patches;
             var status := SelfReported(store, r, Evaluate(p, s, store, r, visit).state.index.hashes[r]);
             && Shows(p, u, status, patches, k)
             && Labels(p.withStatus(u, status)) == Labels(u) && Annotations(p.withStatus(u, status)) == Annotations(u)
             && Separates(p, Join(p, Parts(u, Patched(p, u, patches).value)),
                          Join(p, Parts(p.withStatus(u, status), Patched(p, p.withStatus(u, status), patches).value)))
    requires Sees(Evaluate(p, s, store, r, visit).store, r, again.fetch)
    requires again.order == visit.order && again.patchCut >= 1
    ensures var e := Evaluate(p, s, store, r, visit);
            e.ok && Evaluate(p, e.state, e.store, r, again).drift
  {
    var e := Evaluate(p, s, store, r, visit);
    var patches := store.summaries[r].patches;
    var text := e.state.index.hashes[r];
    assert Tracks(s.rows, r, Resource, r);
    TrackedByOne(s.rows, r, r, visit);
    assert Collect(store, [r]) == patches + [] == patches;
    DriftIsReported(p, s, store, r, visit);
    EvaluateBaselines(p, s, store, r, visit);
    ReportToItself(p, s.rows, store, r, text, visit);
    CollectSame(store, e.store, [r]);
    ShownStatusChangesDigest(p, store.objects[r], SelfReported(store, r, text), patches, k);
  }

  // ---------------------------------------------------------------- failed reports

  /** The baseline is updated before the report, so a failed report is repeated exactly when
      the resource is absent: evaluating a modified resource again finds no drift and writes
      nothing. */
  lemma FailedReportIsRepeatedExactly(p: Platform, s: State, store: Store, r: ObjectRef, visit: Visit, again: Visit)
    requires StatusUnread(p, store, r) && Sees(store, r, visit.fetch)
    requires Evaluate(p, s, store, r, visit).drift && !Evaluate(p, s, store, r, visit).ok
    requires Sees(Evaluate(p, s, store, r, visit).store, r, again.fetch)
    requires again.order == visit.order && again.patchCut >= |again.order|
    ensures var e := Evaluate(p, s, store, r, visit);
            && (Evaluate(p, e.state, e.store, r, again).drift <==> r !in store.objects)
            && (r in store.objects ==> Evaluate(p, e.state, e.store, r, again) == Evaluated(e.state, e.store, true, false))
  {
    var e := Evaluate(p, s, store, r, visit);
    EvaluateInvisible(p, s, store, r, visit, r);
    DriftIsReported(p, s, store, r, visit);
    if r in store.objects {
      EvaluateSettles(p, s, store, r, visit);
      SettledIsQuiet(p, e.state, e.store, r, again);
    }
  }

  // ---------------------------------------------------------------- quiet after registration

  /** The baseline of `r` is the digest that the patches of `q` alone lead to. */
  ghost predicate BaselinedBy(p: Platform, s: State, store: Store, r: ObjectRef, q: ObjectRef) {
    && r in s.index.hashes && r in store.objects && q in store.summaries
    && Hash(p, store.objects[r], store.summaries[q].patches) == Ok(s.index.hashes[r])
  }

  /** Such a baseline is drifting exactly when the patches of all trackers lead to another
      digest. */
  lemma FreshBaselineDrift(p: Platform, s: State, store: Store, r: ObjectRef, q: ObjectRef, visit: Visit)
    requires BaselinedBy(p, s, store, r, q)
    requires Sees(store, r, visit.fetch) && visit.patchCut >= |visit.order|
    requires Hash(p, store.objects[r], Collect(store, visit.order)).Ok?
    ensures Evaluate(p, s, store, r, visit).drift <==>
            Hash(p, store.objects[r], Collect(store, visit.order)) != Hash(p, store.objects[r], store.summaries[q].patches)
    ensures !Evaluate(p, s, store, r, visit).drift ==> Evaluate(p, s, store, r, visit) == Evaluated(s, store, true, false)
  {
  }

  /** A resource that only `q` tracks, under one or several types, and whose baseline comes from
      the patches of `q`, is evaluated without any write. */
  lemma QuietWithOneTracker(p: Platform, s: State, store: Store, r: ObjectRef, q: ObjectRef, visit: Visit)
    requires BaselinedBy(p, s, store, r, q)
    requires (exists t :: Tracks(s.rows, r, t, q)) && (forall t, q' | Tracks(s.rows, r, t, q') :: q' == q)
    requires Sees(store, r, visit.fetch) && visit.patchCut >= |visit.order| && Possible(s.rows, r, visit)
    ensures Evaluate(p, s, store, r, visit) == Evaluated(s, store, true, false)
  {
    TrackedByOne(s.rows, r, q, visit);
    assert Collect(store, [q]) == store.summaries[q].patches + [] == store.summaries[q].patches;
    FreshBaselineDrift(p, s, store, r, q, visit);
  }

  lemma TrackedByOne(v: Reverse, r: ObjectRef, q: ObjectRef, visit: Visit)
    requires (exists t :: Tracks(v, r, t, q)) && (forall t, q' | Tracks(v, r, t, q') :: q' == q)
    requires Possible(v, r, visit)
    ensures visit.order == [q]
  {
    forall q' ensures q' in SummariesOf(v, r) <==> q' == q {
      if q' in SummariesOf(v, r) {
        assert Tracks(v, r, Resource, q') || Tracks(v, r, HelmResource, q') || Tracks(v, r, KustomizeResource, q');
      }
    }
    OnlyOne(visit.order, q);
  }

  lemma OnlyOne(order: seq<ObjectRef>, q: ObjectRef)
    requires Enumerates(order, {q})
    ensures order == [q]
  {
    assert q in order;
    assert order[0] in order && order[|order| - 1] in order;
  }

  /** Registrations of `r` by `q`, one after the other, under the given types. */
  ghost function RegisterUnder(p: Platform, s: State, r: ObjectRef, q: ObjectRef, patches: seq<Patch>,
                               types: seq<ResourceType>, answers: seq<Answer>): State
    requires |types| == |answers|
    decreases |types|
  {
    if types == [] then s
    else
      var s' := Register(s, r, types[0], q, CallOf(p, answers[0], patches)).state;
      RegisterUnder(p, s', r, q, patches, types[1..], answers[1..])
  }

  /** Whenever the object is fetched, it is the one in the store. */
  predicate Finds(store: Store, r: ObjectRef, answers: seq<Answer>) {
    r in store.objects && forall a | a in answers && a.fetch.Found? :: a.fetch.content == store.objects[r]
  }

  predicate EverFound(answers: seq<Answer>) {
    exists a | a in answers :: a.fetch.Found?
  }

  /** Whatever `q` registers, `r` keeps its baseline, or gets the digest its patches lead to. */
  lemma {:induction false} RegistrationsBaseline(p: Platform, s: State, store: Store, r: ObjectRef, q: ObjectRef,
                                                 types: seq<ResourceType>, answers: seq<Answer>)
    requires |types| == |answers| && Finds(store, r, answers) && q in store.summaries
    requires r in s.index.hashes ==> BaselinedBy(p, s, store, r, q)
    requires Hash(p, store.objects[r], store.summaries[q].patches).Ok?
    requires r in s.index.hashes || EverFound(answers)
    ensures var s' := RegisterUnder(p, s, r, q, store.summaries[q].patches, types, answers);
            && BaselinedBy(p, s', store, r, q)
            && (forall t, q' | Tracks(s'.rows, r, t, q') && q' != q :: Tracks(s.rows, r, t, q'))
            && ((exists t :: Tracks(s.rows, r, t, q)) || types != [] ==> exists t :: Tracks(s'.rows, r, t, q))
    decreases |types|
  {
    if types != [] {
      var patches := store.summaries[q].patches;
      var s1 := Register(s, r, types[0], q, CallOf(p, answers[0], patches)).state;
      assert answers == [answers[0]] + answers[1..];
      if r !in s.index.hashes { RegistrationHashes(p, s, r, types[0], q, answers[0], patches); }
      RegisterBaselines(s, r, types[0], q, CallOf(p, answers[0], patches));
      InsertRelation(s.rows, r, types[0], q);
      assert Tracks(s1.rows, r, types[0], q);
      assert forall a | a in answers[1..] :: a in answers;
      RegistrationsBaseline(p, s1, store, r, q, types[1..], answers[1..]);
    }
  }

  /** After `q` has registered `r`, with its own patches, under one or several types, and the
      object was found at least once, its evaluation writes nothing if no other summary tracks
      it. */
  lemma QuietAfterRegistration(p: Platform, s: State, store: Store, r: ObjectRef, q: ObjectRef,
                               types: seq<ResourceType>, answers: seq<Answer>, visit: Visit)
    requires |types| == |answers| && Finds(store, r, answers) && EverFound(answers)
    requires q in store.summaries && r !in s.index.hashes
    requires Hash(p, store.objects[r], store.summaries[q].patches).Ok?
    requires forall t, q' | Tracks(s.rows, r, t, q') :: q' == q
    requires Sees(store, r, visit.fetch) && visit.patchCut >= |visit.order|
    requires Possible(RegisterUnder(p, s, r, q, store.summaries[q].patches, types, answers).rows, r, visit)
    ensures var s' := RegisterUnder(p, s, r, q, store.summaries[q].patches, types, answers);
            Evaluate(p, s', store, r, visit) == Evaluated(s', store, true, false)
  {
    RegistrationsBaseline(p, s, store, r, q, types, answers);
    QuietWithOneTracker(p, RegisterUnder(p, s, r, q, store.summaries[q].patches, types, answers), store, r, q, visit);
  }
}
