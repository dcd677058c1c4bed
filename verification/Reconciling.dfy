/** The reconciler's forward maps, and how they drive registration and unregistration. */
module Reconciling {
  import opened Types
  import opened Tracking

  /** Resource lists of a ResourceSummary spec, by type. */
  datatype Spec = Spec(resources: seq<Entry>, kustomize: seq<Entry>, helm: seq<Entry>) {
    function Get(t: ResourceType): seq<Entry> {
      match t
      case Resource => resources
      case KustomizeResource => kustomize
      case HelmResource => helm
    }
  }

  /** The forward maps: what each summary referenced when it was last reconciled. */
  type Forward = Reverse

  datatype World = World(forward: Forward, m: State)

  datatype Registered = Registered(m: State, result: Result<seq<HashEntry>>)

  /** On an error the status lists of the types done before it have been replaced already. */
  datatype Reconciled = Reconciled(world: World, status: Status, error: Option<Error>)

  // ---------------------------------------------------------------- one type

  function Listed(entries: seq<Entry>): (refs: set<ObjectRef>)
    ensures forall r :: r in refs <==> exists e | e in entries :: e.ref == r
  {
    set e | e in entries :: e.ref
  }

  function NonIgnored(entries: seq<Entry>): (refs: set<ObjectRef>)
    ensures forall r :: r in refs <==> exists e | e in entries :: e.ref == r && !e.ignore
  {
    set e | e in entries && !e.ignore :: e.ref
  }

  /** `registerResources`: ignored entries are skipped, not-found resources get an empty
      hash, and any other error stops. */
  function RegisterAll(m: State, q: ObjectRef, t: ResourceType, entries: seq<Entry>, calls: seq<Call>): Registered
    requires |entries| == |calls|
    decreases |entries|
  {
    if entries == [] then Registered(m, Ok([]))
    else if entries[0].ignore then RegisterAll(m, q, t, entries[1..], calls[1..])
    else
      var o := Register(m, entries[0].ref, t, q, calls[0]);
      if o.result == Err(OtherError) then Registered(o.state, Err(OtherError))
      else
        var hash := if o.result.Ok? then o.result.value else [];
        var rest := RegisterAll(o.state, q, t, entries[1..], calls[1..]);
        Registered(rest.m, if rest.result.Err? then rest.result
                           else Ok([HashEntry(entries[0], Hex(hash))] + rest.result.value))
  }

  function UnregisterAll(m: State, q: ObjectRef, t: ResourceType, refs: seq<ObjectRef>): State
    decreases |refs|
  {
    if refs == [] then m else UnregisterAll(Unregister(m, refs[0], t, q), q, t, refs[1..])
  }

  function OldRefs(w: World, q: ObjectRef, t: ResourceType): set<ObjectRef> {
    if q in w.forward.Get(t) then w.forward.Get(t)[q] else {}
  }

  function Remember(forward: Forward, q: ObjectRef, t: ResourceType, refs: set<ObjectRef>): Forward {
    forward.Set(t, forward.Get(t)[q := refs])
  }

  function Forget(forward: Forward, q: ObjectRef, t: ResourceType): Forward {
    forward.Set(t, forward.Get(t) - {q})
  }

  datatype TypeDone = TypeDone(world: World, result: Result<seq<HashEntry>>)

  /** `updateMapsForResourceType`; `drop` enumerates what is no longer listed. */
  function UpdateType(w: World, q: ObjectRef, t: ResourceType, entries: seq<Entry>, calls: seq<Call>,
                      drop: seq<ObjectRef>): TypeDone
    requires |entries| == |calls|
  {
    var registered := RegisterAll(w.m, q, t, entries, calls);
    if registered.result.Err? then TypeDone(w.(m := registered.m), registered.result)
    else
      TypeDone(World(Remember(w.forward, q, t, Listed(entries)), UnregisterAll(registered.m, q, t, drop)), registered.result)
  }

  // ---------------------------------------------------------------- whole reconciles

  /** Answers and enumerations of one reconcile, by type. */
  datatype Answers = Answers(resources: seq<Call>, kustomize: seq<Call>, helm: seq<Call>) {
    function Get(t: ResourceType): seq<Call> {
      match t
      case Resource => resources
      case KustomizeResource => kustomize
      case HelmResource => helm
    }
  }

  datatype Drops = Drops(resources: seq<ObjectRef>, kustomize: seq<ObjectRef>, helm: seq<ObjectRef>) {
    function Get(t: ResourceType): seq<ObjectRef> {
      match t
      case Resource => resources
      case KustomizeResource => kustomize
      case HelmResource => helm
    }
  }

  const RECONCILE_ORDER: seq<ResourceType> := [Resource, KustomizeResource, HelmResource]

  predicate Fits(spec: Spec, answers: Answers) {
    forall t :: |spec.Get(t)| == |answers.Get(t)|
  }

  function TypeStep(w: World, q: ObjectRef, spec: Spec, answers: Answers, drops: Drops, t: ResourceType): TypeDone
    requires Fits(spec, answers)
  {
    UpdateType(w, q, t, spec.Get(t), answers.Get(t), drops.Get(t))
  }

  /** The types from the `k`th on; the status lists are filled in as each type succeeds. */
  function UpdateFrom(w: World, q: ObjectRef, spec: Spec, answers: Answers, drops: Drops, k: nat,
                      status: Status): Reconciled
    requires Fits(spec, answers) && k <= 3
    decreases 3 - k
  {
    if k == 3 then Reconciled(w, status, None)
    else
      var t := RECONCILE_ORDER[k];
      var d := TypeStep(w, q, spec, answers, drops, t);
      if d.result.Err? then Reconciled(d.world, status, Some(d.result.error))
      else UpdateFrom(d.world, q, spec, answers, drops, k + 1, status.Set(t, status.Get(t).(hashes := d.result.value)))
  }

  /** `updateMapsAndResourceSummaryStatus`. */
  function Reconcile(w: World, q: ObjectRef, spec: Spec, answers: Answers, drops: Drops, status: Status): Reconciled
    requires Fits(spec, answers)
  {
    UpdateFrom(w, q, spec, answers, drops, 0, status)
  }

  /** Where a reconcile stands when the turn of type `t` comes. */
  function Turn(w: World, q: ObjectRef, spec: Spec, answers: Answers, drops: Drops, t: ResourceType): World
    requires Fits(spec, answers)
  {
    match t
    case Resource => w
    case KustomizeResource => TypeStep(w, q, spec, answers, drops, Resource).world
    case HelmResource =>
      TypeStep(TypeStep(w, q, spec, answers, drops, Resource).world, q, spec, answers, drops, KustomizeResource).world
  }

  function CleanType(w: World, q: ObjectRef, t: ResourceType, drop: seq<ObjectRef>): World {
    World(Forget(w.forward, q, t), UnregisterAll(w.m, q, t, drop))
  }

  /** `cleanMaps`. */
  function Clean(w: World, q: ObjectRef, drops: Drops): World {
    CleanType(CleanType(CleanType(w, q, Resource, drops.resources), q, KustomizeResource, drops.kustomize),
              q, HelmResource, drops.helm)
  }

  // ---------------------------------------------------------------- relations

  /** Calls that fail, if at all, only with not-found. */
  ghost predicate OnlyNotFound(calls: seq<Call>) {
    forall c | c in calls :: c.probe != Err(OtherError) && c.watch != Some(OtherError)
  }

  /** The resources a registration loop gets to before it ends or stops. */
  function Attempts(m: State, q: ObjectRef, t: ResourceType, entries: seq<Entry>, calls: seq<Call>): set<ObjectRef>
    requires |entries| == |calls|
    decreases |entries|
  {
    if entries == [] then {}
    else if entries[0].ignore then Attempts(m, q, t, entries[1..], calls[1..])
    else
      var o := Register(m, entries[0].ref, t, q, calls[0]);
      {entries[0].ref} + if o.result == Err(OtherError) then {} else Attempts(o.state, q, t, entries[1..], calls[1..])
  }

  /** A registration loop adds exactly what it attempts: all non-ignored entries if it ends. */
  lemma {:induction false} RegisterAllRelation(m: State, q: ObjectRef, t: ResourceType, entries: seq<Entry>,
                                               calls: seq<Call>)
    requires |entries| == |calls| && NoEmptyRows(m.rows)
    ensures NoEmptyRows(RegisterAll(m, q, t, entries, calls).m.rows)
    ensures forall r', t', q' :: Tracks(RegisterAll(m, q, t, entries, calls).m.rows, r', t', q') <==>
              Tracks(m.rows, r', t', q') || (t' == t && q' == q && r' in Attempts(m, q, t, entries, calls))
    ensures Attempts(m, q, t, entries, calls) <= NonIgnored(entries)
    ensures RegisterAll(m, q, t, entries, calls).result.Ok? ==> Attempts(m, q, t, entries, calls) == NonIgnored(entries)
    ensures OnlyNotFound(calls) ==> RegisterAll(m, q, t, entries, calls).result.Ok?
    decreases |entries|
  {
    if entries != [] {
      assert entries == [entries[0]] + entries[1..] && calls == [calls[0]] + calls[1..];
      assert calls[0] in calls;
      if entries[0].ignore {
        assert NonIgnored(entries) == NonIgnored(entries[1..]);
        RegisterAllRelation(m, q, t, entries[1..], calls[1..]);
      } else {
        var o := Register(m, entries[0].ref, t, q, calls[0]);
        assert o.state.rows == m.rows.Insert(entries[0].ref, t, q);
        assert NonIgnored(entries) == {entries[0].ref} + NonIgnored(entries[1..]);
        InsertRelation(m.rows, entries[0].ref, t, q);
        RegisterAllRelation(o.state, q, t, entries[1..], calls[1..]);
      }
    }
  }

  lemma {:induction false} UnregisterAllRelation(m: State, q: ObjectRef, t: ResourceType, refs: seq<ObjectRef>)
    requires NoEmptyRows(m.rows)
    ensures NoEmptyRows(UnregisterAll(m, q, t, refs).rows)
    ensures forall r', t', q' :: Tracks(UnregisterAll(m, q, t, refs).rows, r', t', q') <==>
              Tracks(m.rows, r', t', q') && !(t' == t && q' == q && r' in refs)
    decreases |refs|
  {
    if refs != [] {
      assert refs == [refs[0]] + refs[1..];
      EraseRelation(m.rows, refs[0], t, q);
      assert Unregister(m, refs[0], t, q).rows == m.rows.Erase(refs[0], t, q);
      UnregisterAllRelation(Unregister(m, refs[0], t, q), q, t, refs[1..]);
    }
  }

  /** The forward map covers whatever the summary tracks. */
  ghost predicate ForwardCovers(w: World, q: ObjectRef, t: ResourceType) {
    forall r | Tracks(w.m.rows, r, t, q) :: r in OldRefs(w, q, t)
  }

  /** The rows an update leaves to the summary under one type: the non-ignored entries, and
      whatever it tracked before unless that was remembered and is not listed any more. */
  ghost predicate RowsAfter(w: World, w': World, q: ObjectRef, t: ResourceType, entries: seq<Entry>) {
    forall r :: Tracks(w'.m.rows, r, t, q) <==>
      r in NonIgnored(entries) || (Tracks(w.m.rows, r, t, q) && (r in OldRefs(w, q, t) ==> r in Listed(entries)))
  }

  lemma UpdateTypeRelation(w: World, q: ObjectRef, t: ResourceType, entries: seq<Entry>, calls: seq<Call>,
                           drop: seq<ObjectRef>)
    requires |entries| == |calls| && NoEmptyRows(w.m.rows)
    requires Enumerates(drop, OldRefs(w, q, t) - Listed(entries))
    requires UpdateType(w, q, t, entries, calls, drop).result.Ok?
    ensures var w' := UpdateType(w, q, t, entries, calls, drop).world;
            && NoEmptyRows(w'.m.rows)
            && w'.forward == Remember(w.forward, q, t, Listed(entries))
            && RowsAfter(w, w', q, t, entries)
            && (forall r, t', q' | t' != t || q' != q :: Tracks(w'.m.rows, r, t', q') <==> Tracks(w.m.rows, r, t', q'))
  {
    RegisterAllRelation(w.m, q, t, entries, calls);
    UnregisterAllRelation(RegisterAll(w.m, q, t, entries, calls).m, q, t, drop);
    assert forall r | r in NonIgnored(entries) :: r in Listed(entries);
  }

  /** A type whose registration stops part-way has added what it attempted and remembered
      nothing, so the forward map still covers the rows exactly when nothing attempted is new
      to it. */
  lemma FailedTypeLeaksExactly(w: World, q: ObjectRef, t: ResourceType, entries: seq<Entry>, calls: seq<Call>,
                               drop: seq<ObjectRef>)
    requires |entries| == |calls| && NoEmptyRows(w.m.rows) && ForwardCovers(w, q, t)
    requires UpdateType(w, q, t, entries, calls, drop).result.Err?
    ensures var w' := UpdateType(w, q, t, entries, calls, drop).world;
            && w'.forward == w.forward
            && (forall r :: Tracks(w'.m.rows, r, t, q) <==>
                  Tracks(w.m.rows, r, t, q) || r in Attempts(w.m, q, t, entries, calls))
            && (ForwardCovers(w', q, t) <==> Attempts(w.m, q, t, entries, calls) <= OldRefs(w, q, t))
  {
    RegisterAllRelation(w.m, q, t, entries, calls);
    var w' := UpdateType(w, q, t, entries, calls, drop).world;
    if ForwardCovers(w', q, t) {
      forall r | r in Attempts(w.m, q, t, entries, calls) ensures r in OldRefs(w, q, t) {
        assert Tracks(w'.m.rows, r, t, q);
      }
    }
  }

  // ---------------------------------------------------------------- reconciles that fail

  function Wanted(entries: seq<Entry>): seq<Entry> {
    if entries == [] then [] else (if entries[0].ignore then [] else [entries[0]]) + Wanted(entries[1..])
  }

  function Resources(hashes: seq<HashEntry>): seq<Entry> {
    if hashes == [] then [] else [hashes[0].resource] + Resources(hashes[1..])
  }

  /** A registration loop that ends lists the non-ignored entries in order. */
  lemma {:induction false} RegisterAllLists(m: State, q: ObjectRef, t: ResourceType, entries: seq<Entry>,
                                            calls: seq<Call>)
    requires |entries| == |calls| && RegisterAll(m, q, t, entries, calls).result.Ok?
    ensures Resources(RegisterAll(m, q, t, entries, calls).result.value) == Wanted(entries)
    decreases |entries|
  {
    if entries != [] {
      if entries[0].ignore {
        RegisterAllLists(m, q, t, entries[1..], calls[1..]);
      } else {
        var o := Register(m, entries[0].ref, t, q, calls[0]);
        RegisterAllLists(o.state, q, t, entries[1..], calls[1..]);
        var done := RegisterAll(m, q, t, entries, calls).result.value;
        assert done[1..] == RegisterAll(o.state, q, t, entries[1..], calls[1..]).result.value;
      }
    }
  }

  /** The type has been brought up to date: memory, rows and status list. */
  ghost predicate Advanced(w: World, done: Reconciled, q: ObjectRef, t: ResourceType, entries: seq<Entry>) {
    && done.world.forward.Get(t) == w.forward.Get(t)[q := Listed(entries)]
    && RowsAfter(w, done.world, q, t, entries)
    && Resources(done.status.Get(t).hashes) == Wanted(entries)
  }

  ghost predicate SameMemory(w: World, status: Status, done: Reconciled, t: ResourceType) {
    done.world.forward.Get(t) == w.forward.Get(t) && done.status.Get(t) == status.Get(t)
  }

  ghost predicate SameRows(w: World, w': World, q: ObjectRef, t: ResourceType) {
    forall r :: Tracks(w'.m.rows, r, t, q) <==> Tracks(w.m.rows, r, t, q)
  }

  function Place(t: ResourceType): nat {
    match t
    case Resource => 0
    case KustomizeResource => 1
    case HelmResource => 2
  }

  /** What became of one type when the types from the `k`th on were tried and the `n`th, if
      there is one, failed. */
  ghost predicate TypeOutcome(w: World, status: Status, done: Reconciled, q: ObjectRef, spec: Spec, k: nat, n: nat,
                              t: ResourceType) {
    && done.status.Get(t).changed == status.Get(t).changed
    && (k <= Place(t) < n ==> Advanced(w, done, q, t, spec.Get(t)))
    && (Place(t) < k || n <= Place(t) ==> SameMemory(w, status, done, t))
    && (Place(t) < k || n < Place(t) ==> SameRows(w, done.world, q, t))
  }

  /** One more type done before. */
  lemma OutcomeExtends(w: World, status: Status, d: TypeDone, done: Reconciled, q: ObjectRef, spec: Spec, k: nat,
                       n: nat, t: ResourceType, t': ResourceType)
    requires k == Place(t) < n && d.result.Ok? && Resources(d.result.value) == Wanted(spec.Get(t))
    requires d.world.forward == Remember(w.forward, q, t, Listed(spec.Get(t))) && RowsAfter(w, d.world, q, t, spec.Get(t))
    requires t' != t ==> SameRows(w, d.world, q, t')
    requires TypeOutcome(d.world, status.Set(t, status.Get(t).(hashes := d.result.value)), done, q, spec, k + 1, n, t')
    ensures TypeOutcome(w, status, done, q, spec, k, n, t')
  {
    assert Place(t') == k <==> t' == t;
  }

  lemma {:induction false} UpdateFromStops(w: World, q: ObjectRef, spec: Spec, answers: Answers, drops: Drops, k: nat,
                                           status: Status)
    returns (n: nat)
    requires Fits(spec, answers) && NoEmptyRows(w.m.rows) && k <= 3
    requires forall t | k <= Place(t) :: Enumerates(drops.Get(t), OldRefs(w, q, t) - Listed(spec.Get(t)))
    ensures k <= n <= 3
    ensures var done := UpdateFrom(w, q, spec, answers, drops, k, status);
            (n == 3 <==> done.error.None?) && forall t :: TypeOutcome(w, status, done, q, spec, k, n, t)
    decreases 3 - k
  {
    n := k;
    if k < 3 {
      var t := RECONCILE_ORDER[k];
      var d := TypeStep(w, q, spec, answers, drops, t);
      assert Place(t) == k;
      RegisterAllRelation(w.m, q, t, spec.Get(t), answers.Get(t));
      if d.result.Ok? {
        RegisterAllLists(w.m, q, t, spec.Get(t), answers.Get(t));
        UpdateTypeRelation(w, q, t, spec.Get(t), answers.Get(t), drops.Get(t));
        var status' := status.Set(t, status.Get(t).(hashes := d.result.value));
        forall t' | k + 1 <= Place(t') ensures OldRefs(d.world, q, t') == OldRefs(w, q, t') { assert t' != t; }
        n := UpdateFromStops(d.world, q, spec, answers, drops, k + 1, status');
        var done := UpdateFrom(d.world, q, spec, answers, drops, k + 1, status');
        forall t' ensures TypeOutcome(w, status, done, q, spec, k, n, t') {
          OutcomeExtends(w, status, d, done, q, spec, k, n, t, t');
        }
      }
    }
  }

  /** However a reconcile ends, some number of types in order are brought up to date, status
      list included; memory and status list of the others are unchanged, and so are the rows
      of all types after the one that failed. */
  lemma ReconcileStopsBetweenTypes(w: World, q: ObjectRef, spec: Spec, answers: Answers, drops: Drops, status: Status)
    returns (n: nat)
    requires Fits(spec, answers) && NoEmptyRows(w.m.rows)
    requires forall t :: Enumerates(drops.Get(t), OldRefs(w, q, t) - Listed(spec.Get(t)))
    ensures n <= 3
    ensures var done := Reconcile(w, q, spec, answers, drops, status);
            && (n == 3 <==> done.error.None?)
            && (forall t :: done.status.Get(t).changed == status.Get(t).changed)
            && (forall t | Place(t) < n :: Advanced(w, done, q, t, spec.Get(t)))
            && (forall t | n <= Place(t) :: SameMemory(w, status, done, t))
            && (forall t | n < Place(t) :: SameRows(w, done.world, q, t))
  {
    n := UpdateFromStops(w, q, spec, answers, drops, 0, status);
    var done := Reconcile(w, q, spec, answers, drops, status);
    forall t ensures && (Place(t) < n ==> Advanced(w, done, q, t, spec.Get(t)))
                     && (n <= Place(t) ==> SameMemory(w, status, done, t))
                     && (n < Place(t) ==> SameRows(w, done.world, q, t)) {
      assert TypeOutcome(w, status, done, q, spec, 0, n, t);
    }
  }

  // ---------------------------------------------------------------- histories

  datatype Event =
    | Updated(q: ObjectRef, spec: Spec, answers: Answers, drops: Drops)
    | Deleted(q: ObjectRef, drops: Drops)

  /** The latest spec of every live summary. */
  type Specs = map<ObjectRef, Spec>

  predicate WellFormed(events: seq<Event>) {
    forall e | e in events && e.Updated? :: Fits(e.spec, e.answers)
  }

  const NO_STATUS := Status(Section(false, []), Section(false, []), Section(false, []))

  function Happen(w: World, e: Event): World
    requires e.Updated? ==> Fits(e.spec, e.answers)
  {
    match e
    case Updated(q, spec, answers, drops) => Reconcile(w, q, spec, answers, drops, NO_STATUS).world
    case Deleted(q, drops) => Clean(w, q, drops)
  }

  function Latest(specs: Specs, e: Event): Specs {
    match e
    case Updated(q, spec, _, _) => specs[q := spec]
    case Deleted(q, _) => specs - {q}
  }

  function Play(w: World, events: seq<Event>): World
    requires WellFormed(events)
    decreases |events|
  {
    if events == [] then w else Play(Happen(w, events[0]), events[1..])
  }

  function LatestOf(specs: Specs, events: seq<Event>): Specs
    decreases |events|
  {
    if events == [] then specs else LatestOf(Latest(specs, events[0]), events[1..])
  }

  /** The enumerations of an event list what the code computes: what is no longer listed, or
      on deletion everything remembered. */
  ghost predicate Faithful(w: World, e: Event) {
    match e
    case Updated(q, spec, answers, drops) =>
      && Fits(spec, answers)
      && (forall t :: OnlyNotFound(answers.Get(t)))
      && (forall t :: Enumerates(drops.Get(t), OldRefs(w, q, t) - Listed(spec.Get(t))))
    case Deleted(q, drops) => forall t :: Enumerates(drops.Get(t), OldRefs(w, q, t))
  }

  /** No entry the summary tracks becomes ignored while it stays listed. */
  ghost predicate NoLateIgnore(w: World, e: Event) {
    e.Updated? ==>
      forall r, t | Tracks(w.m.rows, r, t, e.q) && r in Listed(e.spec.Get(t)) :: r in NonIgnored(e.spec.Get(t))
  }

  ghost predicate GoodHistory(w: World, events: seq<Event>)
    requires WellFormed(events)
    decreases |events|
  {
    events != [] ==>
      Faithful(w, events[0]) && NoLateIgnore(w, events[0]) && GoodHistory(Happen(w, events[0]), events[1..])
  }

  /** The tracked relation and the forward maps are those of `specs`. */
  ghost predicate Mirrors(w: World, specs: Specs) {
    NoEmptyRows(w.m.rows) && RowsMirror(w.m.rows, specs) && ForwardMirrors(w.forward, specs)
  }

  ghost predicate RowsMirror(v: Reverse, specs: Specs) {
    forall r, t, q :: Tracks(v, r, t, q) <==> q in specs && r in NonIgnored(specs[q].Get(t))
  }

  ghost predicate ForwardMirrors(f: Forward, specs: Specs) {
    forall t :: f.Get(t) == map q | q in specs :: Listed(specs[q].Get(t))
  }

  /** The effect on the relation and on the forward maps of any reconcile whose registrations
      fail only with not-found. */
  lemma ReconcileRows(w: World, q: ObjectRef, spec: Spec, answers: Answers, drops: Drops, status: Status)
    requires Faithful(w, Updated(q, spec, answers, drops)) && NoEmptyRows(w.m.rows)
    ensures var w' := Reconcile(w, q, spec, answers, drops, status).world;
            && Reconcile(w, q, spec, answers, drops, status).error.None?
            && NoEmptyRows(w'.m.rows)
            && (forall t :: RowsAfter(w, w', q, t, spec.Get(t)))
            && (forall r, t, q' | q' != q :: Tracks(w'.m.rows, r, t, q') <==> Tracks(w.m.rows, r, t, q'))
            && (forall t :: w'.forward.Get(t) == w.forward.Get(t)[q := Listed(spec.Get(t))])
  {
    var w1 := StepRows(w, w, q, spec, answers, drops, Resource);
    var w2 := StepRows(w, w1, q, spec, answers, drops, KustomizeResource);
    var w3 := StepRows(w, w2, q, spec, answers, drops, HelmResource);
    ThreeSteps(w, q, spec, answers, drops, status);
  }

  /** If the forward maps cover the rows, the rows of each type after a reconcile are exactly
      the non-ignored entries and whatever was tracked before and is still listed. */
  lemma ReconcileKeepsListed(w: World, q: ObjectRef, spec: Spec, answers: Answers, drops: Drops, status: Status)
    requires Faithful(w, Updated(q, spec, answers, drops)) && NoEmptyRows(w.m.rows)
    requires forall t :: ForwardCovers(w, q, t)
    ensures var w' := Reconcile(w, q, spec, answers, drops, status).world;
            && (forall r, t :: Tracks(w'.m.rows, r, t, q) <==>
                  r in NonIgnored(spec.Get(t)) || (Tracks(w.m.rows, r, t, q) && r in Listed(spec.Get(t))))
            && (forall t :: ForwardCovers(w', q, t))
  {
    ReconcileRows(w, q, spec, answers, drops, status);
    var w' := Reconcile(w, q, spec, answers, drops, status).world;
    forall r, t ensures Tracks(w'.m.rows, r, t, q) <==>
                        r in NonIgnored(spec.Get(t)) || (Tracks(w.m.rows, r, t, q) && r in Listed(spec.Get(t))) {
      assert RowsAfter(w, w', q, t, spec.Get(t)) && ForwardCovers(w, q, t);
    }
    forall t ensures ForwardCovers(w', q, t) {
      assert w'.forward.Get(t)[q] == Listed(spec.Get(t));
      assert forall r | r in NonIgnored(spec.Get(t)) :: r in Listed(spec.Get(t));
    }
  }

  lemma ThreeSteps(w: World, q: ObjectRef, spec: Spec, answers: Answers, drops: Drops, status: Status)
    requires Fits(spec, answers)
    ensures var d1 := TypeStep(w, q, spec, answers, drops, Resource);
            var d2 := TypeStep(d1.world, q, spec, answers, drops, KustomizeResource);
            var d3 := TypeStep(d2.world, q, spec, answers, drops, HelmResource);
            && (Reconcile(w, q, spec, answers, drops, status).error.None? <==>
                  d1.result.Ok? && d2.result.Ok? && d3.result.Ok?)
            && (d1.result.Ok? && d2.result.Ok? && d3.result.Ok? ==>
                  Reconcile(w, q, spec, answers, drops, status) ==
                  Reconciled(d3.world, Status(status.resources.(hashes := d1.result.value),
                                              status.kustomize.(hashes := d2.result.value),
                                              status.helm.(hashes := d3.result.value)), None))
  {
    assert RECONCILE_ORDER[0] == Resource && RECONCILE_ORDER[1] == KustomizeResource && RECONCILE_ORDER[2] == HelmResource;
    var d1 := TypeStep(w, q, spec, answers, drops, Resource);
    if d1.result.Ok? {
      var st1 := status.Set(Resource, status.Get(Resource).(hashes := d1.result.value));
      assert UpdateFrom(w, q, spec, answers, drops, 0, status) == UpdateFrom(d1.world, q, spec, answers, drops, 1, st1);
      var d2 := TypeStep(d1.world, q, spec, answers, drops, KustomizeResource);
      if d2.result.Ok? {
        var st2 := st1.Set(KustomizeResource, st1.Get(KustomizeResource).(hashes := d2.result.value));
        assert UpdateFrom(d1.world, q, spec, answers, drops, 1, st1) == UpdateFrom(d2.world, q, spec, answers, drops, 2, st2);
        var d3 := TypeStep(d2.world, q, spec, answers, drops, HelmResource);
        if d3.result.Ok? {
          var st3 := st2.Set(HelmResource, st2.Get(HelmResource).(hashes := d3.result.value));
          assert UpdateFrom(d2.world, q, spec, answers, drops, 2, st2) == UpdateFrom(d3.world, q, spec, answers, drops, 3, st3);
        }
      }
    }
  }

  /** One type of a reconcile that started in `w`, from `before`, where the rows and memory
      of that type are still those of `w`. */
  lemma StepRows(w: World, before: World, q: ObjectRef, spec: Spec, answers: Answers, drops: Drops, t: ResourceType)
    returns (after: World)
    requires Faithful(w, Updated(q, spec, answers, drops)) && NoEmptyRows(before.m.rows)
    requires before.forward.Get(t) == w.forward.Get(t)
    requires forall r :: Tracks(before.m.rows, r, t, q) <==> Tracks(w.m.rows, r, t, q)
    ensures var d := TypeStep(before, q, spec, answers, drops, t); d.result.Ok? && d.world == after
    ensures NoEmptyRows(after.m.rows) && RowsAfter(w, after, q, t, spec.Get(t))
    ensures forall r, t', q' | t' != t || q' != q :: Tracks(after.m.rows, r, t', q') <==> Tracks(before.m.rows, r, t', q')
    ensures after.forward == Remember(before.forward, q, t, Listed(spec.Get(t)))
  {
    after := TypeStep(before, q, spec, answers, drops, t).world;
    RegisterAllRelation(before.m, q, t, spec.Get(t), answers.Get(t));
    UpdateTypeRelation(before, q, t, spec.Get(t), answers.Get(t), drops.Get(t));
  }

  /** A deletion removes exactly the rows the forward maps remember. */
  lemma CleanRows(w: World, q: ObjectRef, drops: Drops)
    requires Faithful(w, Deleted(q, drops)) && NoEmptyRows(w.m.rows)
    ensures var w' := Clean(w, q, drops);
            && NoEmptyRows(w'.m.rows)
            && (forall r, t, q' :: Tracks(w'.m.rows, r, t, q') <==>
                  Tracks(w.m.rows, r, t, q') && !(q' == q && r in OldRefs(w, q, t)))
            && (forall t :: w'.forward.Get(t) == w.forward.Get(t) - {q})
  {
    var w1 := CleanType(w, q, Resource, drops.resources);
    var w2 := CleanType(w1, q, KustomizeResource, drops.kustomize);
    UnregisterAllRelation(w.m, q, Resource, drops.Get(Resource));
    UnregisterAllRelation(w1.m, q, KustomizeResource, drops.Get(KustomizeResource));
    UnregisterAllRelation(w2.m, q, HelmResource, drops.Get(HelmResource));
    forall r, t ensures r in drops.Get(t) <==> r in OldRefs(w, q, t) {
      assert Enumerates(drops.Get(t), OldRefs(w, q, t));
    }
  }

  /** A deletion leaves nothing of the summary exactly when the forward maps cover its rows. */
  lemma DeletionIsCompleteExactly(w: World, q: ObjectRef, drops: Drops)
    requires Faithful(w, Deleted(q, drops)) && NoEmptyRows(w.m.rows)
    ensures (forall r, t :: !Tracks(Clean(w, q, drops).m.rows, r, t, q)) <==> (forall t :: ForwardCovers(w, q, t))
  {
    CleanRows(w, q, drops);
    if forall r, t :: !Tracks(Clean(w, q, drops).m.rows, r, t, q) {
      forall t ensures ForwardCovers(w, q, t) {
        forall r | Tracks(w.m.rows, r, t, q) ensures r in OldRefs(w, q, t) {
          assert !Tracks(Clean(w, q, drops).m.rows, r, t, q);
        }
      }
    } else {
      var r, t :| Tracks(Clean(w, q, drops).m.rows, r, t, q);
      assert !ForwardCovers(w, q, t);
    }
  }

  lemma MirrorsCover(w: World, specs: Specs, q: ObjectRef)
    requires Mirrors(w, specs)
    ensures forall t :: ForwardCovers(w, q, t)
  {
    forall t ensures ForwardCovers(w, q, t) {
      forall r | Tracks(w.m.rows, r, t, q) ensures r in OldRefs(w, q, t) {
        assert w.forward.Get(t) == map q | q in specs :: Listed(specs[q].Get(t));
        assert r in NonIgnored(specs[q].Get(t));
      }
    }
  }

  lemma DeletionMirrors(w: World, specs: Specs, q: ObjectRef, drops: Drops)
    requires Mirrors(w, specs) && Faithful(w, Deleted(q, drops))
    ensures Mirrors(Clean(w, q, drops), specs - {q})
  {
    MirrorsCover(w, specs, q);
    CleanRows(w, q, drops);
    forall r, t | Tracks(w.m.rows, r, t, q) ensures r in OldRefs(w, q, t) {
      assert ForwardCovers(w, q, t);
    }
  }

  lemma MirrorsNewSpec(w: World, w': World, specs: Specs, q: ObjectRef, spec: Spec)
    requires Mirrors(w, specs) && NoEmptyRows(w'.m.rows)
    requires forall r, t :: Tracks(w'.m.rows, r, t, q) <==> r in NonIgnored(spec.Get(t))
    requires forall r, t, q' | q' != q :: Tracks(w'.m.rows, r, t, q') <==> Tracks(w.m.rows, r, t, q')
    requires forall t :: w'.forward.Get(t) == w.forward.Get(t)[q := Listed(spec.Get(t))]
    ensures Mirrors(w', specs[q := spec])
  {
    assert RowsMirror(w'.m.rows, specs[q := spec]);
  }

  lemma UpdateMirrors(w: World, specs: Specs, q: ObjectRef, spec: Spec, answers: Answers, drops: Drops)
    requires Mirrors(w, specs)
    requires var e := Updated(q, spec, answers, drops); Faithful(w, e) && NoLateIgnore(w, e)
    ensures Mirrors(Reconcile(w, q, spec, answers, drops, NO_STATUS).world, specs[q := spec])
  {
    MirrorsCover(w, specs, q);
    ReconcileRows(w, q, spec, answers, drops, NO_STATUS);
    ReconcileKeepsListed(w, q, spec, answers, drops, NO_STATUS);
    MirrorsNewSpec(w, Reconcile(w, q, spec, answers, drops, NO_STATUS).world, specs, q, spec);
  }

  lemma HappenMirrors(w: World, specs: Specs, e: Event)
    requires Mirrors(w, specs) && Faithful(w, e) && NoLateIgnore(w, e)
    ensures Mirrors(Happen(w, e), Latest(specs, e))
  {
    match e
    case Deleted(q, drops) => DeletionMirrors(w, specs, q, drops);
    case Updated(q, spec, answers, drops) => UpdateMirrors(w, specs, q, spec, answers, drops);
  }

  /** History independence: after any history of reconciles and deletions, the relation and
      the forward maps are those of the latest specs of the live summaries. */
  lemma {:induction false} HistoryIndependent(w: World, specs: Specs, events: seq<Event>)
    requires WellFormed(events) && Mirrors(w, specs) && GoodHistory(w, events)
    ensures Mirrors(Play(w, events), LatestOf(specs, events))
    decreases |events|
  {
    if events != [] {
      assert forall e | e in events[1..] :: e in events;
      HappenMirrors(w, specs, events[0]);
      HistoryIndependent(Happen(w, events[0]), Latest(specs, events[0]), events[1..]);
    }
  }

  ghost predicate FaithfulHistory(w: World, events: seq<Event>)
    requires WellFormed(events)
    decreases |events|
  {
    events != [] ==> Faithful(w, events[0]) && FaithfulHistory(Happen(w, events[0]), events[1..])
  }

  ghost predicate EverythingCovered(w: World) {
    NoEmptyRows(w.m.rows) && forall q, t :: ForwardCovers(w, q, t)
  }

  lemma HappenCovers(w: World, e: Event)
    requires EverythingCovered(w) && Faithful(w, e)
    ensures EverythingCovered(Happen(w, e))
  {
    var w' := Happen(w, e);
    assert forall t :: ForwardCovers(w, e.q, t);
    match e {
      case Deleted(q, drops) => CleanRows(w, q, drops);
      case Updated(q, spec, answers, drops) =>
        ReconcileRows(w, q, spec, answers, drops, NO_STATUS);
        ReconcileKeepsListed(w, q, spec, answers, drops, NO_STATUS);
    }
    forall q, t ensures ForwardCovers(w', q, t) {
      assert ForwardCovers(w, q, t);
      if q != e.q { assert OldRefs(w', q, t) == OldRefs(w, q, t); }
    }
  }

  /** Even if tracked entries become ignored, the forward maps cover the rows after any such
      history, so the next deletion of any summary leaves nothing of it behind. */
  lemma {:induction false} NothingOutlivesItsSummary(w: World, events: seq<Event>, q: ObjectRef, drops: Drops)
    requires WellFormed(events) && EverythingCovered(w) && FaithfulHistory(w, events)
    requires Faithful(Play(w, events), Deleted(q, drops))
    ensures EverythingCovered(Play(w, events))
    ensures forall r, t :: !Tracks(Clean(Play(w, events), q, drops).m.rows, r, t, q)
    decreases |events|
  {
    if events == [] {
      DeletionIsCompleteExactly(w, q, drops);
      assert forall t :: ForwardCovers(w, q, t);
    } else {
      assert forall e | e in events[1..] :: e in events;
      HappenCovers(w, events[0]);
      NothingOutlivesItsSummary(Happen(w, events[0]), events[1..], q, drops);
    }
  }

  const NOTHING := World(Reverse(map[], map[], map[]), EMPTY)

  /** Two histories that end with the same live specs end with the same maps. */
  lemma SameSpecsSameMaps(a: seq<Event>, b: seq<Event>)
    requires WellFormed(a) && WellFormed(b) && GoodHistory(NOTHING, a) && GoodHistory(NOTHING, b)
    requires LatestOf(map[], a) == LatestOf(map[], b)
    ensures Play(NOTHING, a).m.rows == Play(NOTHING, b).m.rows
    ensures Play(NOTHING, a).forward == Play(NOTHING, b).forward
  {
    assert Mirrors(NOTHING, map[]);
    HistoryIndependent(NOTHING, map[], a);
    HistoryIndependent(NOTHING, map[], b);
    MirrorsDetermine(Play(NOTHING, a), Play(NOTHING, b), LatestOf(map[], a));
  }

  /** Specs determine the maps that mirror them. */
  lemma MirrorsDetermine(a: World, b: World, specs: Specs)
    requires Mirrors(a, specs) && Mirrors(b, specs)
    ensures a.m.rows == b.m.rows && a.forward == b.forward
  {
    RelationDeterminesRows(a.m.rows, b.m.rows);
    assert a.forward.Get(Resource) == b.forward.Get(Resource);
    assert a.forward.Get(KustomizeResource) == b.forward.Get(KustomizeResource);
    assert a.forward.Get(HelmResource) == b.forward.Get(HelmResource);
  }
}
