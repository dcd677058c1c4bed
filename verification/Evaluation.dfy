/** Evaluating one resource, reporting its drift, and a whole pass over a batch. */
module Evaluation {
  import opened Types
  import opened Tracking
  import opened Fingerprint

  /** What the API server holds: tracked objects and ResourceSummaries. */
  datatype Store = Store(objects: map<ObjectRef, Content>, summaries: map<ObjectRef, Summary>)

  datatype Fetch = Found(content: Content) | Missing | KindMissing | Broken

  /** The fetch meets `r` as the store holds it; an absent object may lack its kind as well. */
  predicate Sees(store: Store, r: ObjectRef, fetch: Fetch) {
    if r in store.objects then fetch == Found(store.objects[r]) else fetch.Missing? || fetch.KindMissing?
  }

  /** What a registration learns about a resource: its digest, or why there is none. */
  ghost function ProbeOf(p: Platform, fetch: Fetch, patches: seq<Patch>): Result<Bytes> {
    match fetch
    case Found(u) => Hash(p, u, patches)
    case Missing => Err(NotFound)
    case KindMissing => Err(OtherError)
    case Broken => Err(OtherError)
  }

  /** The object cannot be fetched, for another reason than being missing, or not be patched. */
  predicate Refused(p: Platform, fetch: Fetch, patches: seq<Patch>) {
    || fetch.KindMissing? || fetch.Broken?
    || (fetch.Found? && patches != [] && p.patch(fetch.content, patches).None?)
  }

  lemma RefusedProbe(p: Platform, fetch: Fetch, patches: seq<Patch>)
    ensures ProbeOf(p, fetch, patches) == Err(OtherError) <==> Refused(p, fetch, patches)
    ensures ProbeOf(p, fetch, patches).Ok? <==> fetch.Found? && !Refused(p, fetch, patches)
  {
  }

  /** What the outside answers to one registration. */
  datatype Answer = Answer(fetch: Fetch, watch: Option<Error>)

  ghost function CallOf(p: Platform, a: Answer, patches: seq<Patch>): Call {
    Call(ProbeOf(p, a.fetch, patches), a.watch)
  }

  ghost function CallsOf(p: Platform, answers: seq<Answer>, patches: seq<Patch>): (calls: seq<Call>)
    ensures |calls| == |answers| && forall i | 0 <= i < |answers| :: calls[i] == CallOf(p, answers[i], patches)
  {
    seq(|answers|, i requires 0 <= i < |answers| => CallOf(p, answers[i], patches))
  }

  /** What a first registration does with what it fetches: the digest of a found object under the
      given patches becomes the baseline, and is returned unless a needed watcher start fails. A
      missing object is not found; any other fetch or patch error is another error. */
  lemma RegistrationHashes(p: Platform, s: State, r: ObjectRef, t: ResourceType, q: ObjectRef, answer: Answer,
                           patches: seq<Patch>)
    requires r !in s.index.hashes
    ensures var o := Register(s, r, t, q, CallOf(p, answer, patches));
            && (answer.fetch.Found? && Hash(p, answer.fetch.content, patches).Ok? ==>
                  && o.state.index.hashes == s.index.hashes[r := Hash(p, answer.fetch.content, patches).value]
                  && o.result == (if Unknown(s.index, r.gvk) && answer.watch.Some? then Err(answer.watch.value)
                                  else Hash(p, answer.fetch.content, patches)))
            && (answer.fetch.Missing? ==> o.result == Err(NotFound) && o.state.index == s.index)
            && (answer.fetch.Broken? || answer.fetch.KindMissing? ==> o.result == Err(OtherError) && o.state.index == s.index)
            && (answer.fetch.Found? && patches != [] && p.patch(answer.fetch.content, patches).None? ==>
                  o.result == Err(OtherError) && o.state.index == s.index)
  {
    if answer.fetch.Found? && Hash(p, answer.fetch.content, patches).Ok? {
      FirstRegistration(s, r, t, q, Hash(p, answer.fetch.content, patches).value, answer.watch);
    }
  }

  /** The order in which each row is enumerated when a drift is reported. */
  datatype Orders = Orders(resources: seq<ObjectRef>, kustomize: seq<ObjectRef>, helm: seq<ObjectRef>) {
    function Get(t: ResourceType): seq<ObjectRef> {
      match t
      case Resource => resources
      case KustomizeResource => kustomize
      case HelmResource => helm
    }
  }

  /** What one evaluation meets outside. `order` enumerates the summaries asked for patches;
      `patchCut` and `reportCut` count the calls that succeed before the first failure. */
  datatype Visit = Visit(fetch: Fetch, order: seq<ObjectRef>, patchCut: nat, orders: Orders, reportCut: nat)

  /** `getResourceSummaries`. */
  function SummariesOf(v: Reverse, r: ObjectRef): set<ObjectRef> {
    (if r in v.resources then v.resources[r] else {}) +
    (if r in v.helm then v.helm[r] else {}) +
    (if r in v.kustomize then v.kustomize[r] else {})
  }

  ghost predicate Possible(v: Reverse, r: ObjectRef, visit: Visit) {
    && Enumerates(visit.order, SummariesOf(v, r))
    && forall t | r in v.Get(t) :: Enumerates(visit.orders.Get(t), v.Get(t)[r])
  }

  // ---------------------------------------------------------------- patches

  /** The patches of every listed summary that exists, in order. */
  function Collect(store: Store, order: seq<ObjectRef>): seq<Patch> {
    if order == [] then []
    else (if order[0] in store.summaries then store.summaries[order[0]].patches else []) + Collect(store, order[1..])
  }

  /** A summary contributes its patches if it exists, and lists contribute one after the other. */
  lemma {:induction false} CollectAppend(store: Store, a: seq<ObjectRef>, b: seq<ObjectRef>)
    ensures Collect(store, a + b) == Collect(store, a) + Collect(store, b)
    ensures forall q :: Collect(store, [q]) == if q in store.summaries then store.summaries[q].patches else []
  {
    forall q ensures Collect(store, [q]) == if q in store.summaries then store.summaries[q].patches else [] {
      assert [q][1..] == [];
    }
    if a == [] {
      assert a + b == b;
    } else {
      assert (a + b)[1..] == a[1..] + b;
      CollectAppend(store, a[1..], b);
    }
  }

  /** Every patch of every tracker that exists is collected, and nothing else is. */
  lemma {:induction false} CollectMembers(store: Store, order: seq<ObjectRef>)
    ensures forall x :: x in Collect(store, order) <==>
              exists q | q in order :: q in store.summaries && x in store.summaries[q].patches
  {
    if order != [] {
      assert order == [order[0]] + order[1..];
      CollectMembers(store, order[1..]);
    }
  }

  /** The summaries asked for patches are those that track the resource under some type. */
  lemma SummariesTrack(v: Reverse, r: ObjectRef, q: ObjectRef)
    ensures q in SummariesOf(v, r) <==> exists t :: Tracks(v, r, t, q)
  {
    assert Tracks(v, r, Resource, q) <==> r in v.resources && q in v.resources[r];
    assert Tracks(v, r, HelmResource, q) <==> r in v.helm && q in v.helm[r];
    assert Tracks(v, r, KustomizeResource, q) <==> r in v.kustomize && q in v.kustomize[r];
  }

  // ---------------------------------------------------------------- reporting

  /** `updateResourceSummaryWithHash`: the first matching entry is overwritten. */
  function Overwrite(entries: seq<HashEntry>, r: ObjectRef, text: Bytes): seq<HashEntry> {
    if entries == [] then []
    else if entries[0].resource.ref == r then [entries[0].(text := text)] + entries[1..]
    else [entries[0]] + Overwrite(entries[1..], r, text)
  }

  /** Only the entry at `i`, the first match, changes; nothing does if there is none. */
  lemma {:induction false} OverwriteFirst(entries: seq<HashEntry>, r: ObjectRef, text: Bytes, i: nat)
    requires i <= |entries| && (forall j | 0 <= j < i :: entries[j].resource.ref != r)
    requires i < |entries| ==> entries[i].resource.ref == r
    ensures Overwrite(entries, r, text) ==
            if i < |entries| then entries[i := entries[i].(text := text)] else entries
  {
    if i > 0 {
      OverwriteFirst(entries[1..], r, text, i - 1);
      assert entries == [entries[0]] + entries[1..];
    }
  }

  function Marked(section: Section, r: ObjectRef, text: Bytes): Section {
    Section(true, Overwrite(section.hashes, r, text))
  }

  /** `requestReconciliationForResourceSummary`, when its calls succeed. */
  function Flag(p: Platform, store: Store, q: ObjectRef, t: ResourceType, r: ObjectRef, text: Bytes): Store {
    if q !in store.summaries then store
    else
      var before := store.summaries[q];
      var status := before.status.Set(t, Marked(before.status.Get(t), r, text));
      Store(if q in store.objects then store.objects[q := p.withStatus(store.objects[q], status)] else store.objects,
            store.summaries[q := before.(status := status)])
  }

  function Pairs(items: seq<ObjectRef>, t: ResourceType): (work: seq<(ObjectRef, ResourceType)>)
    ensures |work| == |items| && forall i | 0 <= i < |items| :: work[i] == (items[i], t)
  {
    seq(|items|, i requires 0 <= i < |items| => (items[i], t))
  }

  /** The status updates a report attempts, in order: the summaries seen so far are asked
      again for every further type. */
  function Work(v: Reverse, r: ObjectRef, orders: Orders, types: seq<ResourceType>, seen: seq<ObjectRef>)
    : seq<(ObjectRef, ResourceType)>
  {
    if types == [] then []
    else if r !in v.Get(types[0]) then Work(v, r, orders, types[1..], seen)
    else
      var seen' := seen + orders.Get(types[0]);
      Pairs(seen', types[0]) + Work(v, r, orders, types[1..], seen')
  }

  function ApplyWork(p: Platform, store: Store, work: seq<(ObjectRef, ResourceType)>, r: ObjectRef, text: Bytes): Store
    decreases |work|
  {
    if work == [] then store
    else ApplyWork(p, Flag(p, store, work[0].0, work[0].1, r, text), work[1..], r, text)
  }

  lemma {:induction false} ApplyWorkAppend(p: Platform, store: Store, a: seq<(ObjectRef, ResourceType)>,
                                           b: seq<(ObjectRef, ResourceType)>, r: ObjectRef, text: Bytes)
    ensures ApplyWork(p, store, a + b, r, text) == ApplyWork(p, ApplyWork(p, store, a, r, text), b, r, text)
    decreases |a|
  {
    if a == [] {
      assert a + b == b;
    } else {
      assert (a + b)[1..] == a[1..] + b;
      ApplyWorkAppend(p, Flag(p, store, a[0].0, a[0].1, r, text), a[1..], b, r, text);
    }
  }

  datatype Report = Report(store: Store, ok: bool)

  /** `requestReconciliations`: stops at the first call that fails. */
  function RequestReconciliations(p: Platform, v: Reverse, store: Store, r: ObjectRef, text: Bytes, orders: Orders,
                                  cut: nat)
    : Report
  {
    var work := Work(v, r, orders, TYPE_ORDER, []);
    if cut < |work| then Report(ApplyWork(p, store, work[..cut], r, text), false)
    else Report(ApplyWork(p, store, work, r, text), true)
  }

  // ---------------------------------------------------------------- one evaluation

  datatype Evaluated = Evaluated(state: State, store: Store, ok: bool, drift: bool)

  function ReportDrift(p: Platform, s: State, store: Store, r: ObjectRef, hash: Bytes, visit: Visit): Evaluated {
    var report := RequestReconciliations(p, s.rows, store, r, hash, visit.orders, visit.reportCut);
    Evaluated(s.(index := Baseline(s.index, r, hash)), report.store, report.ok, true)
  }

  /** `evaluateResource`, when nothing else touches the manager meanwhile. */
  ghost function Evaluate(p: Platform, s: State, store: Store, r: ObjectRef, visit: Visit): Evaluated {
    if r !in s.index.hashes then Evaluated(s, store, true, false)
    else
      match visit.fetch
      case Missing => ReportDrift(p, s, store, r, [], visit)
      case KindMissing => ReportDrift(p, s, store, r, [], visit)
      case Broken => Evaluated(s, store, false, false)
      case Found(u) =>
        if visit.patchCut < |visit.order| then Evaluated(s, store, false, false)
        else
          match Hash(p, u, Collect(store, visit.order))
          case Err(_) => Evaluated(s, store, false, false)
          case Ok(hash) =>
            if hash == s.index.hashes[r] then Evaluated(s, store, true, false)
            else ReportDrift(p, s, store, r, hash, visit)
  }

  // ---------------------------------------------------------------- what a report writes

  /** `q` is in the row of `t` or of a type reported before `t`. */
  predicate Reaches(v: Reverse, r: ObjectRef, t: ResourceType, q: ObjectRef) {
    && r in v.Get(t)
    && (Tracks(v, r, Resource, q)
        || (t != Resource && Tracks(v, r, HelmResource, q))
        || (t == KustomizeResource && Tracks(v, r, KustomizeResource, q)))
  }

  lemma PairsMembers(items: seq<ObjectRef>, t: ResourceType)
    ensures forall q, t' :: (q, t') in Pairs(items, t) <==> q in items && t' == t
  {
    forall q | q in items ensures (q, t) in Pairs(items, t) {
      var i :| 0 <= i < |items| && items[i] == q;
      assert Pairs(items, t)[i] == (q, t);
    }
  }

  /** The work that remains once the types before `types` have been done. */
  lemma WorkStep(v: Reverse, r: ObjectRef, visit: Visit, types: seq<ResourceType>, seen: seq<ObjectRef>)
    returns (seen': seq<ObjectRef>)
    requires Possible(v, r, visit) && types != []
    ensures forall q :: q in seen' <==> q in seen || Tracks(v, r, types[0], q)
    ensures forall q, t :: (q, t) in Work(v, r, visit.orders, types, seen) <==>
              (r in v.Get(types[0]) && t == types[0] && q in seen')
              || (q, t) in Work(v, r, visit.orders, types[1..], seen')
  {
    seen' := if r in v.Get(types[0]) then seen + visit.orders.Get(types[0]) else seen;
    PairsMembers(seen', types[0]);
  }

  /** A report attempts exactly the updates that reach. */
  lemma WorkMembers(v: Reverse, r: ObjectRef, visit: Visit)
    requires Possible(v, r, visit)
    ensures forall q, t :: (q, t) in Work(v, r, visit.orders, TYPE_ORDER, []) <==> Reaches(v, r, t, q)
  {
    var seen1 := WorkStep(v, r, visit, TYPE_ORDER, []);
    assert TYPE_ORDER[1..] == [HelmResource, KustomizeResource];
    var seen2 := WorkStep(v, r, visit, TYPE_ORDER[1..], seen1);
    assert TYPE_ORDER[1..][1..] == [KustomizeResource];
    var seen3 := WorkStep(v, r, visit, TYPE_ORDER[1..][1..], seen2);
    assert TYPE_ORDER[1..][1..][1..] == [];
  }

  lemma {:induction false} OverwriteTwice(entries: seq<HashEntry>, r: ObjectRef, text: Bytes)
    ensures Overwrite(Overwrite(entries, r, text), r, text) == Overwrite(entries, r, text)
  {
    if entries != [] { OverwriteTwice(entries[1..], r, text); }
  }

  /** The effect of a list of updates on one section of one summary. */
  ghost predicate Written(before: Store, after: Store, work: set<(ObjectRef, ResourceType)>, r: ObjectRef,
                          text: Bytes) {
    && after.summaries.Keys == before.summaries.Keys
    && (forall q | q in before.summaries ::
          && after.summaries[q].patches == before.summaries[q].patches
          && after.summaries[q].deleting == before.summaries[q].deleting)
    && (forall q, t | q in before.summaries :: SectionWritten(before, after, q, t, (q, t) in work, r, text))
  }

  predicate SectionWritten(before: Store, after: Store, q: ObjectRef, t: ResourceType, hit: bool, r: ObjectRef,
                           text: Bytes)
    requires q in before.summaries && q in after.summaries
  {
    after.summaries[q].status.Get(t) ==
    if hit then Marked(before.summaries[q].status.Get(t), r, text) else before.summaries[q].status.Get(t)
  }

  lemma FlagWrites(p: Platform, store: Store, q: ObjectRef, t: ResourceType, r: ObjectRef, text: Bytes)
    ensures Written(store, Flag(p, store, q, t, r, text), {(q, t)}, r, text)
  {
  }

  lemma WrittenChain(a: Store, b: Store, c: Store,
                     w1: set<(ObjectRef, ResourceType)>, w2: set<(ObjectRef, ResourceType)>,
                     r: ObjectRef, text: Bytes)
    requires Written(a, b, w1, r, text) && Written(b, c, w2, r, text)
    ensures Written(a, c, w1 + w2, r, text)
  {
    forall q, t | q in a.summaries ensures SectionWritten(a, c, q, t, (q, t) in w1 + w2, r, text) {
      assert SectionWritten(a, b, q, t, (q, t) in w1, r, text);
      assert SectionWritten(b, c, q, t, (q, t) in w2, r, text);
      OverwriteTwice(a.summaries[q].status.Get(t).hashes, r, text);
    }
  }

  lemma {:induction false} ApplyWorkWrites(p: Platform, store: Store, work: seq<(ObjectRef, ResourceType)>,
                                           r: ObjectRef, text: Bytes)
    ensures Written(store, ApplyWork(p, store, work, r, text), Elements(work), r, text)
    decreases |work|
  {
    if work != [] {
      var next := Flag(p, store, work[0].0, work[0].1, r, text);
      FlagWrites(p, store, work[0].0, work[0].1, r, text);
      ApplyWorkWrites(p, next, work[1..], r, text);
      WrittenChain(store, next, ApplyWork(p, store, work, r, text), {work[0]}, Elements(work[1..]), r, text);
      assert work == [work[0]] + work[1..];
      assert Elements(work) == {work[0]} + Elements(work[1..]);
    }
  }

  /** An evaluation that found drift is a report of the baseline it leaves behind. */
  lemma DriftIsReported(p: Platform, s: State, store: Store, r: ObjectRef, visit: Visit)
    requires Evaluate(p, s, store, r, visit).drift
    ensures r in Evaluate(p, s, store, r, visit).state.index.hashes
    ensures Evaluate(p, s, store, r, visit) ==
            ReportDrift(p, s, store, r, Evaluate(p, s, store, r, visit).state.index.hashes[r], visit)
  {
  }

  /** A report that returns nil writes exactly what it reaches. */
  lemma CompleteReport(p: Platform, v: Reverse, store: Store, r: ObjectRef, text: Bytes, visit: Visit)
    requires Possible(v, r, visit)
    requires RequestReconciliations(p, v, store, r, text, visit.orders, visit.reportCut).ok
    ensures var after := RequestReconciliations(p, v, store, r, text, visit.orders, visit.reportCut).store;
            && after.summaries.Keys == store.summaries.Keys
            && forall q, t | q in store.summaries ::
                 && SectionWritten(store, after, q, t, Reaches(v, r, t, q), r, text)
                 && after.summaries[q].patches == store.summaries[q].patches
  {
    var work := Work(v, r, visit.orders, TYPE_ORDER, []);
    var after := ApplyWork(p, store, work, r, text);
    ApplyWorkWrites(p, store, work, r, text);
    WorkMembers(v, r, visit);
    forall q, t | q in store.summaries ensures SectionWritten(store, after, q, t, Reaches(v, r, t, q), r, text) {
      assert SectionWritten(store, after, q, t, (q, t) in Elements(work), r, text);
      assert (q, t) in Elements(work) <==> Reaches(v, r, t, q);
    }
  }

  /** When an evaluation that found drift returns nil, the sections of existing summaries
      that the report reaches are marked with the new baseline, and no other section, flag,
      patch or summary changes. */
  lemma ReportIsExact(p: Platform, s: State, store: Store, r: ObjectRef, visit: Visit)
    requires Possible(s.rows, r, visit)
    requires Evaluate(p, s, store, r, visit).drift && Evaluate(p, s, store, r, visit).ok
    ensures var e := Evaluate(p, s, store, r, visit);
            && e.store.summaries.Keys == store.summaries.Keys
            && r in e.state.index.hashes
            && forall q, t | q in store.summaries ::
                 && SectionWritten(store, e.store, q, t, Reaches(s.rows, r, t, q), r, e.state.index.hashes[r])
                 && e.store.summaries[q].patches == store.summaries[q].patches
                 && (Tracks(s.rows, r, t, q) ==> e.store.summaries[q].status.Get(t).changed)
                 && (store.summaries[q].status.Get(t).changed ==> e.store.summaries[q].status.Get(t).changed)
  {
    DriftIsReported(p, s, store, r, visit);
    CompleteReport(p, s.rows, store, r, Evaluate(p, s, store, r, visit).state.index.hashes[r], visit);
    assert forall q, t | Tracks(s.rows, r, t, q) :: Reaches(s.rows, r, t, q);
  }

  // ---------------------------------------------------------------- what an evaluation decides

  /** What an evaluation does, case by case: which resources it fails, which it reports, and the
      baseline it leaves. */
  lemma EvaluationDecides(p: Platform, s: State, store: Store, r: ObjectRef, visit: Visit)
    requires Possible(s.rows, r, visit)
    ensures var e := Evaluate(p, s, store, r, visit);
            var absent := visit.fetch.Missing? || visit.fetch.KindMissing?;
            var readable := visit.fetch.Found? && |visit.order| <= visit.patchCut &&
                            Hash(p, visit.fetch.content, Collect(store, visit.order)).Ok?;
            && (e.drift <==>
                  && r in s.index.hashes
                  && (absent || (readable &&
                                 Hash(p, visit.fetch.content, Collect(store, visit.order)) != Ok(s.index.hashes[r]))))
            && (e.drift ==>
                  e.state == s.(index := s.index.(hashes := s.index.hashes[
                    r := if absent then [] else Hash(p, visit.fetch.content, Collect(store, visit.order)).value])))
            && (!e.drift ==> e.state == s && e.store == store && (e.ok <==> r !in s.index.hashes || readable))
            && (e.drift ==> (e.ok <==> |Work(s.rows, r, visit.orders, TYPE_ORDER, [])| <= visit.reportCut))
  {
  }

  /** With two trackers that exist, the baseline is compared with the digest under the patches of
      both. */
  lemma TwoTrackersDecide(p: Platform, s: State, store: Store, r: ObjectRef, q1: ObjectRef, q2: ObjectRef, visit: Visit)
    requires Possible(s.rows, r, visit) && visit.order == [q1, q2] && visit.patchCut >= 2
    requires q1 in store.summaries && q2 in store.summaries && r in s.index.hashes && visit.fetch.Found?
    ensures var digest := Hash(p, visit.fetch.content, store.summaries[q1].patches + store.summaries[q2].patches);
            var e := Evaluate(p, s, store, r, visit);
            && (digest.Ok? ==> (e.drift <==> digest.value != s.index.hashes[r]))
            && (digest.Ok? && e.drift ==> e.state.index.hashes == s.index.hashes[r := digest.value])
            && (digest.Err? ==> !e.ok && !e.drift)
  {
    assert [q1, q2] == [q1] + [q2];
    CollectAppend(store, [q1], [q2]);
    EvaluationDecides(p, s, store, r, visit);
  }

  /** `after` is `before` with the flag set and with `text` in the first entry of `r`, if any. */
  predicate Carries(before: Section, after: Section, r: ObjectRef, text: Bytes) {
    && after.changed
    && |after.hashes| == |before.hashes|
    && forall i | 0 <= i < |before.hashes| ::
         && after.hashes[i].resource == before.hashes[i].resource
         && after.hashes[i].text == (if FirstOf(before.hashes, r, i) then text else before.hashes[i].text)
  }

  predicate FirstOf(entries: seq<HashEntry>, r: ObjectRef, i: nat)
    requires i < |entries|
  {
    entries[i].resource.ref == r && forall j | 0 <= j < i :: entries[j].resource.ref != r
  }

  lemma OverwriteCarries(entries: seq<HashEntry>, r: ObjectRef, text: Bytes)
    ensures |Overwrite(entries, r, text)| == |entries|
    ensures forall i | 0 <= i < |entries| ::
              && Overwrite(entries, r, text)[i].resource == entries[i].resource
              && Overwrite(entries, r, text)[i].text == (if FirstOf(entries, r, i) then text else entries[i].text)
  {
    if forall j | 0 <= j < |entries| :: entries[j].resource.ref != r {
      OverwriteFirst(entries, r, text, |entries|);
    } else {
      var k := FirstMatch(entries, r);
      OverwriteFirst(entries, r, text, k);
    }
  }

  lemma FirstMatch(entries: seq<HashEntry>, r: ObjectRef) returns (k: nat)
    requires exists j | 0 <= j < |entries| :: entries[j].resource.ref == r
    ensures k < |entries| && FirstOf(entries, r, k)
  {
    k := 0;
    while entries[k].resource.ref != r
      invariant k < |entries| && forall j | 0 <= j < k :: entries[j].resource.ref != r
      decreases |entries| - k
    {
      k := k + 1;
    }
  }

  /** When an evaluation that found drift returns nil, every reached section of an existing summary
      carries the manager's new baseline in its entry for the resource, byte for byte, with its
      flag set, and every other section is as it was. */
  lemma ReportCarriesBaseline(p: Platform, s: State, store: Store, r: ObjectRef, visit: Visit, q: ObjectRef,
                              t: ResourceType)
    requires Possible(s.rows, r, visit) && q in store.summaries
    requires Evaluate(p, s, store, r, visit).drift && Evaluate(p, s, store, r, visit).ok
    ensures var e := Evaluate(p, s, store, r, visit);
            && q in e.store.summaries && r in e.state.index.hashes
            && var before, after := store.summaries[q].status.Get(t), e.store.summaries[q].status.Get(t);
               if Reaches(s.rows, r, t, q) then Carries(before, after, r, e.state.index.hashes[r]) else after == before
  {
    ReportIsExact(p, s, store, r, visit);
    var e := Evaluate(p, s, store, r, visit);
    assert SectionWritten(store, e.store, q, t, Reaches(s.rows, r, t, q), r, e.state.index.hashes[r]);
    OverwriteCarries(store.summaries[q].status.Get(t).hashes, r, e.state.index.hashes[r]);
  }

  /** However an evaluation ends, it clears no flag, and it marks only sections it reaches. */
  lemma ReportNeverOverreaches(p: Platform, s: State, store: Store, r: ObjectRef, visit: Visit)
    requires Possible(s.rows, r, visit)
    ensures var e := Evaluate(p, s, store, r, visit);
            && e.store.summaries.Keys == store.summaries.Keys
            && forall q, t | q in store.summaries ::
                 && e.store.summaries[q].patches == store.summaries[q].patches
                 && (e.store.summaries[q].status.Get(t) == store.summaries[q].status.Get(t)
                     || (Reaches(s.rows, r, t, q) && e.store.summaries[q].status.Get(t).changed))
  {
    var e := Evaluate(p, s, store, r, visit);
    if e.drift {
      DriftIsReported(p, s, store, r, visit);
      var work := Work(s.rows, r, visit.orders, TYPE_ORDER, []);
      var done := if visit.reportCut < |work| then work[..visit.reportCut] else work;
      var text := e.state.index.hashes[r];
      ApplyWorkWrites(p, store, done, r, text);
      WorkMembers(s.rows, r, visit);
      assert forall w | w in done :: w in work;
      forall q, t | q in store.summaries
        ensures e.store.summaries[q].status.Get(t) == store.summaries[q].status.Get(t)
                || (Reaches(s.rows, r, t, q) && e.store.summaries[q].status.Get(t).changed)
      {
        assert SectionWritten(store, e.store, q, t, (q, t) in Elements(done), r, text);
      }
    }
  }

  /** A resource tracked under one type only is reported exactly to its trackers. */
  lemma OneTypeIsReportedExactly(p: Platform, s: State, store: Store, r: ObjectRef, visit: Visit, only: ResourceType)
    requires Possible(s.rows, r, visit)
    requires forall t | r in s.rows.Get(t) :: t == only
    requires Evaluate(p, s, store, r, visit).drift && Evaluate(p, s, store, r, visit).ok
    ensures var e := Evaluate(p, s, store, r, visit);
            && e.store.summaries.Keys == store.summaries.Keys
            && forall q, t | q in store.summaries ::
                 e.store.summaries[q].status.Get(t).changed <==>
                 store.summaries[q].status.Get(t).changed || (t == only && Tracks(s.rows, r, only, q))
  {
    ReportIsExact(p, s, store, r, visit);
    var e := Evaluate(p, s, store, r, visit);
    forall q, t | q in store.summaries
      ensures Reaches(s.rows, r, t, q) <==> t == only && Tracks(s.rows, r, only, q)
    {
      assert SectionWritten(store, e.store, q, t, Reaches(s.rows, r, t, q), r, e.state.index.hashes[r]);
    }
  }
}
