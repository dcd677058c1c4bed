/** Rows that no forward map remembers, over histories in which reconciles may fail part-way. */
module Strays {
  import opened Types
  import opened Tracking
  import opened Reconciling

  /** `q` tracks `r`, but its forward map does not know, so no deletion will remove the row. */
  predicate Stray(w: World, r: ObjectRef, t: ResourceType, q: ObjectRef) {
    Tracks(w.m.rows, r, t, q) && r !in OldRefs(w, q, t)
  }

  /** The enumerations of an event list what the code computes; calls may get any answer. */
  ghost predicate Fitting(w: World, e: Event) {
    match e
    case Updated(q, spec, answers, drops) =>
      Fits(spec, answers) && forall t :: Enumerates(drops.Get(t), OldRefs(w, q, t) - Listed(spec.Get(t)))
    case Deleted(q, drops) => forall t :: Enumerates(drops.Get(t), OldRefs(w, q, t))
  }

  ghost predicate FittingHistory(w: World, events: seq<Event>)
    requires WellFormed(events)
    decreases |events|
  {
    events != [] ==> Fitting(w, events[0]) && FittingHistory(Happen(w, events[0]), events[1..])
  }

  /** The types before `t` succeed, so the reconcile gets to `t`. */
  predicate Arrives(w: World, q: ObjectRef, spec: Spec, answers: Answers, drops: Drops, t: ResourceType)
    requires Fits(spec, answers)
  {
    match t
    case Resource => true
    case KustomizeResource => TypeStep(w, q, spec, answers, drops, Resource).result.Ok?
    case HelmResource =>
      && TypeStep(w, q, spec, answers, drops, Resource).result.Ok?
      && TurnStep(w, q, spec, answers, drops, KustomizeResource).result.Ok?
  }

  /** The update of `t`, on its turn. */
  function TurnStep(w: World, q: ObjectRef, spec: Spec, answers: Answers, drops: Drops, t: ResourceType): TypeDone
    requires Fits(spec, answers)
  {
    TypeStep(Turn(w, q, spec, answers, drops, t), q, spec, answers, drops, t)
  }

  /** The event brings `t` up to date with a list that contains `r`. */
  predicate Adopts(w: World, e: Event, r: ObjectRef, t: ResourceType, q: ObjectRef)
    requires e.Updated? ==> Fits(e.spec, e.answers)
  {
    && e.Updated? && e.q == q && r in Listed(e.spec.Get(t))
    && Arrives(w, q, e.spec, e.answers, e.drops, t)
    && TurnStep(w, q, e.spec, e.answers, e.drops, t).result.Ok?
  }

  /** The event fails at `t`, after it registered `r`, which was not remembered. */
  predicate Leaks(w: World, e: Event, r: ObjectRef, t: ResourceType, q: ObjectRef)
    requires e.Updated? ==> Fits(e.spec, e.answers)
  {
    && e.Updated? && e.q == q && r !in OldRefs(w, q, t)
    && Arrives(w, q, e.spec, e.answers, e.drops, t)
    && TurnStep(w, q, e.spec, e.answers, e.drops, t).result.Err?
    && r in Attempts(Turn(w, q, e.spec, e.answers, e.drops, t).m, q, t, e.spec.Get(t), e.answers.Get(t))
  }

  // ---------------------------------------------------------------- one event

  /** Rows and memory of `q` under `t` are the same in both worlds. */
  ghost predicate SameFor(w: World, w': World, q: ObjectRef, t: ResourceType) {
    OldRefs(w', q, t) == OldRefs(w, q, t) && SameRows(w, w', q, t)
  }

  /** One type of a reconcile leaves all other types and summaries alone. */
  lemma StepElsewhere(w: World, q: ObjectRef, spec: Spec, answers: Answers, drops: Drops, t: ResourceType)
    requires Fits(spec, answers) && NoEmptyRows(w.m.rows)
    requires Enumerates(drops.Get(t), OldRefs(w, q, t) - Listed(spec.Get(t)))
    ensures var d := TypeStep(w, q, spec, answers, drops, t);
            NoEmptyRows(d.world.m.rows) && forall q', t' | q' != q || t' != t :: SameFor(w, d.world, q', t')
  {
    RegisterAllRelation(w.m, q, t, spec.Get(t), answers.Get(t));
    if TypeStep(w, q, spec, answers, drops, t).result.Ok? {
      UpdateTypeRelation(w, q, t, spec.Get(t), answers.Get(t), drops.Get(t));
    }
  }

  lemma StepStrays(w: World, q: ObjectRef, spec: Spec, answers: Answers, drops: Drops, t: ResourceType, r: ObjectRef)
    requires Fits(spec, answers) && NoEmptyRows(w.m.rows)
    requires Enumerates(drops.Get(t), OldRefs(w, q, t) - Listed(spec.Get(t)))
    ensures var d := TypeStep(w, q, spec, answers, drops, t);
            Stray(d.world, r, t, q) <==>
            if d.result.Ok? then Stray(w, r, t, q) && r !in Listed(spec.Get(t))
            else Stray(w, r, t, q)
                 || (r in Attempts(w.m, q, t, spec.Get(t), answers.Get(t)) && r !in OldRefs(w, q, t))
  {
    RegisterAllRelation(w.m, q, t, spec.Get(t), answers.Get(t));
    var d := TypeStep(w, q, spec, answers, drops, t);
    if d.result.Ok? {
      UpdateTypeRelation(w, q, t, spec.Get(t), answers.Get(t), drops.Get(t));
      assert r in NonIgnored(spec.Get(t)) ==> r in Listed(spec.Get(t));
      assert OldRefs(d.world, q, t) == Listed(spec.Get(t));
    }
  }

  /** Where a reconcile ends, in terms of the turns it gets to. */
  lemma ReconcileEnds(w: World, q: ObjectRef, spec: Spec, answers: Answers, drops: Drops)
    requires Fits(spec, answers)
    ensures var d1 := TurnStep(w, q, spec, answers, drops, Resource);
            var d2 := TurnStep(w, q, spec, answers, drops, KustomizeResource);
            var d3 := TurnStep(w, q, spec, answers, drops, HelmResource);
            Reconcile(w, q, spec, answers, drops, NO_STATUS).world ==
            if d1.result.Err? then d1.world else if d2.result.Err? then d2.world else d3.world
  {
    assert RECONCILE_ORDER[0] == Resource && RECONCILE_ORDER[1] == KustomizeResource && RECONCILE_ORDER[2] == HelmResource;
    ThreeSteps(w, q, spec, answers, drops, NO_STATUS);
  }

  lemma ReconcileStrays(w: World, q: ObjectRef, spec: Spec, answers: Answers, drops: Drops, r: ObjectRef, t: ResourceType)
    requires Fitting(w, Updated(q, spec, answers, drops)) && NoEmptyRows(w.m.rows)
    ensures var w', e := Reconcile(w, q, spec, answers, drops, NO_STATUS).world, Updated(q, spec, answers, drops);
            && NoEmptyRows(w'.m.rows)
            && (forall q', t' | q' != q :: SameFor(w, w', q', t'))
            && (Stray(w', r, t, q) <==> (Stray(w, r, t, q) && !Adopts(w, e, r, t, q)) || Leaks(w, e, r, t, q))
  {
    var w1 := Turn(w, q, spec, answers, drops, KustomizeResource);
    var w2 := Turn(w, q, spec, answers, drops, HelmResource);
    ReconcileEnds(w, q, spec, answers, drops);
    StepElsewhere(w, q, spec, answers, drops, Resource);
    assert SameFor(w, w1, q, KustomizeResource) && SameFor(w, w1, q, HelmResource);
    StepElsewhere(w1, q, spec, answers, drops, KustomizeResource);
    assert SameFor(w1, w2, q, HelmResource) && SameFor(w1, w2, q, Resource);
    StepElsewhere(w2, q, spec, answers, drops, HelmResource);
    var w3 := TurnStep(w, q, spec, answers, drops, HelmResource).world;
    assert SameFor(w2, w3, q, Resource) && SameFor(w2, w3, q, KustomizeResource);
    forall q', t' | q' != q
      ensures SameFor(w, w1, q', t') && SameFor(w, w2, q', t') && SameFor(w, w3, q', t')
    {
      assert SameFor(w, w1, q', t') && SameFor(w1, w2, q', t') && SameFor(w2, w3, q', t');
    }
    StepStrays(Turn(w, q, spec, answers, drops, t), q, spec, answers, drops, t, r);
  }

  lemma HappenStrays(w: World, e: Event, r: ObjectRef, t: ResourceType, q: ObjectRef)
    requires Fitting(w, e) && NoEmptyRows(w.m.rows)
    ensures NoEmptyRows(Happen(w, e).m.rows)
    ensures Stray(Happen(w, e), r, t, q) <==> (Stray(w, r, t, q) && !Adopts(w, e, r, t, q)) || Leaks(w, e, r, t, q)
  {
    match e
    case Deleted(q', drops) => CleanRows(w, q', drops);
    case Updated(q', spec, answers, drops) =>
      ReconcileStrays(w, q', spec, answers, drops, r, t);
      if q' != q { assert SameFor(w, Happen(w, e), q, t); }
  }

  // ---------------------------------------------------------------- histories

  /** Some event of the history brings `t` up to date with a list that contains `r`. */
  ghost predicate AdoptedIn(w: World, events: seq<Event>, r: ObjectRef, t: ResourceType, q: ObjectRef)
    requires WellFormed(events)
    decreases |events|
  {
    events != [] &&
    (Adopts(w, events[0], r, t, q) || AdoptedIn(Happen(w, events[0]), events[1..], r, t, q))
  }

  /** Some event of the history leaks the row, and no later one adopts it. */
  ghost predicate LeakedIn(w: World, events: seq<Event>, r: ObjectRef, t: ResourceType, q: ObjectRef)
    requires WellFormed(events)
    decreases |events|
  {
    events != [] &&
    var w' := Happen(w, events[0]);
    (|| (Leaks(w, events[0], r, t, q) && !AdoptedIn(w', events[1..], r, t, q))
     || LeakedIn(w', events[1..], r, t, q))
  }

  /** Over any history, whatever fails in it: a row is not remembered at the end exactly if it was
      not at the start or a reconcile that failed left it so, and no reconcile since then has
      brought its type up to date with a list that contains the resource. */
  lemma {:induction false} StraysExactly(w: World, events: seq<Event>, r: ObjectRef, t: ResourceType, q: ObjectRef)
    requires WellFormed(events) && FittingHistory(w, events) && NoEmptyRows(w.m.rows)
    ensures NoEmptyRows(Play(w, events).m.rows)
    ensures Stray(Play(w, events), r, t, q) <==>
            (Stray(w, r, t, q) && !AdoptedIn(w, events, r, t, q)) || LeakedIn(w, events, r, t, q)
    decreases |events|
  {
    if events != [] {
      assert forall e | e in events[1..] :: e in events;
      HappenStrays(w, events[0], r, t, q);
      StraysExactly(Happen(w, events[0]), events[1..], r, t, q);
    }
  }

  /** What a deletion after any such history leaves of the summary. */
  lemma DeletionLeavesExactly(w: World, events: seq<Event>, q: ObjectRef, drops: Drops)
    requires WellFormed(events) && FittingHistory(w, events) && NoEmptyRows(w.m.rows)
    requires Fitting(Play(w, events), Deleted(q, drops))
    ensures forall r, t :: Tracks(Clean(Play(w, events), q, drops).m.rows, r, t, q) <==>
              (Stray(w, r, t, q) && !AdoptedIn(w, events, r, t, q)) || LeakedIn(w, events, r, t, q)
  {
    forall r, t ensures Tracks(Clean(Play(w, events), q, drops).m.rows, r, t, q) <==>
                        (Stray(w, r, t, q) && !AdoptedIn(w, events, r, t, q)) || LeakedIn(w, events, r, t, q) {
      StraysExactly(w, events, r, t, q);
      CleanRows(Play(w, events), q, drops);
    }
  }

  // ---------------------------------------------------------------- histories without errors

  /** Some reconcile of `q` in the history listed `r` under `t`. */
  predicate EverListed(events: seq<Event>, r: ObjectRef, t: ResourceType, q: ObjectRef) {
    exists e | e in events :: ListedBy(e, r, t, q)
  }

  predicate ListedBy(e: Event, r: ObjectRef, t: ResourceType, q: ObjectRef) {
    e.Updated? && e.q == q && r in Listed(e.spec.Get(t))
  }

  /** Registrations that fail only with not-found leave no type behind. */
  lemma NotFoundNeverLeaks(w: World, e: Event, r: ObjectRef, t: ResourceType, q: ObjectRef)
    requires Faithful(w, e) && NoEmptyRows(w.m.rows)
    ensures Fitting(w, e) && !Leaks(w, e, r, t, q) && (Adopts(w, e, r, t, q) <==> ListedBy(e, r, t, q))
  {
    if e.Updated? {
      ReconcileRows(w, e.q, e.spec, e.answers, e.drops, NO_STATUS);
      ThreeSteps(w, e.q, e.spec, e.answers, e.drops, NO_STATUS);
    }
  }

  lemma {:induction false} NotFoundHistory(w: World, events: seq<Event>, r: ObjectRef, t: ResourceType, q: ObjectRef)
    requires WellFormed(events) && FaithfulHistory(w, events) && NoEmptyRows(w.m.rows)
    ensures FittingHistory(w, events) && !LeakedIn(w, events, r, t, q)
    ensures AdoptedIn(w, events, r, t, q) <==> EverListed(events, r, t, q)
    decreases |events|
  {
    if events != [] {
      assert events == [events[0]] + events[1..];
      NotFoundNeverLeaks(w, events[0], r, t, q);
      HappenStrays(w, events[0], r, t, q);
      NotFoundHistory(Happen(w, events[0]), events[1..], r, t, q);
      assert EverListed(events, r, t, q) <==> ListedBy(events[0], r, t, q) || EverListed(events[1..], r, t, q);
    }
  }

  /** Over a history whose registrations fail only with not-found, a row that is not remembered
      stays, whatever is deleted, exactly until a reconcile of its summary lists the resource
      under that type; none comes into being. */
  lemma StraysOverHistory(w: World, events: seq<Event>, r: ObjectRef, t: ResourceType, q: ObjectRef)
    requires WellFormed(events) && FaithfulHistory(w, events) && NoEmptyRows(w.m.rows)
    ensures NoEmptyRows(Play(w, events).m.rows)
    ensures Stray(Play(w, events), r, t, q) <==> Stray(w, r, t, q) && !EverListed(events, r, t, q)
  {
    NotFoundHistory(w, events, r, t, q);
    StraysExactly(w, events, r, t, q);
  }
}
