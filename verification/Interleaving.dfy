/** Reconciles and deletions interleaved with the evaluator and with change notifications. */
module Interleaving {
  import opened Types
  import opened Tracking
  import opened Reconciling
  import M = Machine

  // ---------------------------------------------------------------- the steps of a history

  function RegisterSteps(q: ObjectRef, t: ResourceType, entries: seq<Entry>, calls: seq<Call>): seq<M.Step>
    requires |entries| == |calls|
  {
    if entries == [] then []
    else
      (if entries[0].ignore then [] else [M.DoRegister(entries[0].ref, t, q, calls[0])]) +
      RegisterSteps(q, t, entries[1..], calls[1..])
  }

  function UnregisterSteps(q: ObjectRef, t: ResourceType, refs: seq<ObjectRef>): seq<M.Step> {
    if refs == [] then [] else [M.DoUnregister(refs[0], t, q)] + UnregisterSteps(q, t, refs[1..])
  }

  function TypeSteps(q: ObjectRef, spec: Spec, answers: Answers, drops: Drops, t: ResourceType): seq<M.Step>
    requires Fits(spec, answers)
  {
    RegisterSteps(q, t, spec.Get(t), answers.Get(t)) + UnregisterSteps(q, t, drops.Get(t))
  }

  /** The critical sections an event runs through, one registration or unregistration each. */
  function EventSteps(e: Event): seq<M.Step>
    requires e.Updated? ==> Fits(e.spec, e.answers)
  {
    match e
    case Updated(q, spec, answers, drops) =>
      TypeSteps(q, spec, answers, drops, Resource) + TypeSteps(q, spec, answers, drops, KustomizeResource) +
      TypeSteps(q, spec, answers, drops, HelmResource)
    case Deleted(q, drops) =>
      UnregisterSteps(q, Resource, drops.resources) + UnregisterSteps(q, KustomizeResource, drops.kustomize) +
      UnregisterSteps(q, HelmResource, drops.helm)
  }

  function HistorySteps(events: seq<Event>): seq<M.Step>
    requires WellFormed(events)
  {
    if events == [] then [] else EventSteps(events[0]) + HistorySteps(events[1..])
  }

  /** The registrations and unregistrations of a run, in order. */
  function OfReconciler(steps: seq<M.Step>): seq<M.Step> {
    if steps == [] then []
    else (if M.OfEvaluator(steps[0]) || steps[0].DoReact? then [] else [steps[0]]) + OfReconciler(steps[1..])
  }

  // ---------------------------------------------------------------- what steps do to the rows

  function RowsAfterSteps(v: Reverse, steps: seq<M.Step>): Reverse
    decreases |steps|
  {
    if steps == [] then v else RowsAfterSteps(RowsAfterStep(v, steps[0]), steps[1..])
  }

  function RowsAfterStep(v: Reverse, step: M.Step): Reverse {
    match step
    case DoRegister(r, t, q, _) => v.Insert(r, t, q)
    case DoUnregister(r, t, q) => v.Erase(r, t, q)
    case _ => v
  }

  lemma {:induction false} RowsAppend(v: Reverse, a: seq<M.Step>, b: seq<M.Step>)
    ensures RowsAfterSteps(v, a + b) == RowsAfterSteps(RowsAfterSteps(v, a), b)
    decreases |a|
  {
    if a == [] {
      assert a + b == b;
    } else {
      assert (a + b)[1..] == a[1..] + b;
      RowsAppend(RowsAfterStep(v, a[0]), a[1..], b);
    }
  }

  /** Whatever the evaluator and the notifications do in between, the rows of a run depend only
      on its registrations and unregistrations. */
  lemma {:induction false} RowsOfRun(s: M.Sys, steps: seq<M.Step>)
    requires M.Legal(s, steps)
    ensures M.Exec(s, steps).m.rows == RowsAfterSteps(s.m.rows, OfReconciler(steps))
    decreases |steps|
  {
    if steps != [] {
      var s', rest := M.Apply(s, steps[0]), OfReconciler(steps[1..]);
      RowsOfRun(s', steps[1..]);
      if M.OfEvaluator(steps[0]) || steps[0].DoReact? {
        M.OtherStepsOnlyWriteBaselines(s, steps[0]);
        assert [] + rest == rest;
      } else {
        assert s'.m.rows == RowsAfterStep(s.m.rows, steps[0]);
        assert ([steps[0]] + rest)[1..] == rest;
      }
    }
  }

  lemma {:induction false} RowsOfRegistrations(m: State, q: ObjectRef, t: ResourceType, entries: seq<Entry>,
                                               calls: seq<Call>)
    requires |entries| == |calls| && RegisterAll(m, q, t, entries, calls).result.Ok?
    ensures RegisterAll(m, q, t, entries, calls).m.rows ==
            RowsAfterSteps(m.rows, RegisterSteps(q, t, entries, calls))
    decreases |entries|
  {
    if entries != [] {
      var rest := RegisterSteps(q, t, entries[1..], calls[1..]);
      if entries[0].ignore {
        RowsOfRegistrations(m, q, t, entries[1..], calls[1..]);
        assert [] + rest == rest;
      } else {
        var o := Register(m, entries[0].ref, t, q, calls[0]);
        RegisterBaselines(m, entries[0].ref, t, q, calls[0]);
        RowsOfRegistrations(o.state, q, t, entries[1..], calls[1..]);
        assert ([M.DoRegister(entries[0].ref, t, q, calls[0])] + rest)[1..] == rest;
      }
    }
  }

  lemma {:induction false} RowsOfUnregistrations(m: State, q: ObjectRef, t: ResourceType, refs: seq<ObjectRef>)
    ensures UnregisterAll(m, q, t, refs).rows == RowsAfterSteps(m.rows, UnregisterSteps(q, t, refs))
    decreases |refs|
  {
    if refs != [] {
      var rest := UnregisterSteps(q, t, refs[1..]);
      RowsOfUnregistrations(Unregister(m, refs[0], t, q), q, t, refs[1..]);
      assert Unregister(m, refs[0], t, q).rows == m.rows.Erase(refs[0], t, q);
      assert ([M.DoUnregister(refs[0], t, q)] + rest)[1..] == rest;
    }
  }

  lemma RowsOfType(w: World, q: ObjectRef, spec: Spec, answers: Answers, drops: Drops, t: ResourceType)
    requires Fits(spec, answers) && TypeStep(w, q, spec, answers, drops, t).result.Ok?
    ensures TypeStep(w, q, spec, answers, drops, t).world.m.rows ==
            RowsAfterSteps(w.m.rows, TypeSteps(q, spec, answers, drops, t))
  {
    var m := RegisterAll(w.m, q, t, spec.Get(t), answers.Get(t)).m;
    RowsOfRegistrations(w.m, q, t, spec.Get(t), answers.Get(t));
    RowsOfUnregistrations(m, q, t, drops.Get(t));
    RowsAppend(w.m.rows, RegisterSteps(q, t, spec.Get(t), answers.Get(t)), UnregisterSteps(q, t, drops.Get(t)));
  }

  lemma RowsOfReconcile(w: World, q: ObjectRef, spec: Spec, answers: Answers, drops: Drops)
    requires Fits(spec, answers) && Reconcile(w, q, spec, answers, drops, NO_STATUS).error.None?
    ensures Reconcile(w, q, spec, answers, drops, NO_STATUS).world.m.rows ==
            RowsAfterSteps(w.m.rows, EventSteps(Updated(q, spec, answers, drops)))
  {
    ThreeSteps(w, q, spec, answers, drops, NO_STATUS);
    var w1 := TypeStep(w, q, spec, answers, drops, Resource).world;
    var w2 := TypeStep(w1, q, spec, answers, drops, KustomizeResource).world;
    var a, b := TypeSteps(q, spec, answers, drops, Resource), TypeSteps(q, spec, answers, drops, KustomizeResource);
    RowsOfType(w, q, spec, answers, drops, Resource);
    RowsOfType(w1, q, spec, answers, drops, KustomizeResource);
    RowsOfType(w2, q, spec, answers, drops, HelmResource);
    RowsAppend(w.m.rows, a, b);
    RowsAppend(w.m.rows, a + b, TypeSteps(q, spec, answers, drops, HelmResource));
  }

  lemma RowsOfClean(w: World, q: ObjectRef, drops: Drops)
    ensures Clean(w, q, drops).m.rows == RowsAfterSteps(w.m.rows, EventSteps(Deleted(q, drops)))
  {
    var m1 := UnregisterAll(w.m, q, Resource, drops.resources);
    var m2 := UnregisterAll(m1, q, KustomizeResource, drops.kustomize);
    var a, b := UnregisterSteps(q, Resource, drops.resources), UnregisterSteps(q, KustomizeResource, drops.kustomize);
    RowsOfUnregistrations(w.m, q, Resource, drops.resources);
    RowsOfUnregistrations(m1, q, KustomizeResource, drops.kustomize);
    RowsOfUnregistrations(m2, q, HelmResource, drops.helm);
    RowsAppend(w.m.rows, a, b);
    RowsAppend(w.m.rows, a + b, UnregisterSteps(q, HelmResource, drops.helm));
  }

  lemma RowsOfEvent(w: World, e: Event)
    requires Faithful(w, e) && NoEmptyRows(w.m.rows)
    ensures NoEmptyRows(Happen(w, e).m.rows)
    ensures Happen(w, e).m.rows == RowsAfterSteps(w.m.rows, EventSteps(e))
  {
    match e
    case Deleted(q, drops) =>
      CleanRows(w, q, drops);
      RowsOfClean(w, q, drops);
    case Updated(q, spec, answers, drops) =>
      ReconcileRows(w, q, spec, answers, drops, NO_STATUS);
      RowsOfReconcile(w, q, spec, answers, drops);
  }

  lemma {:induction false} RowsOfHistory(w: World, events: seq<Event>)
    requires WellFormed(events) && FaithfulHistory(w, events) && NoEmptyRows(w.m.rows)
    ensures Play(w, events).m.rows == RowsAfterSteps(w.m.rows, HistorySteps(events))
    decreases |events|
  {
    if events != [] {
      assert forall e | e in events[1..] :: e in events;
      RowsOfEvent(w, events[0]);
      RowsOfHistory(Happen(w, events[0]), events[1..]);
      RowsAppend(w.m.rows, EventSteps(events[0]), HistorySteps(events[1..]));
    }
  }

  // ---------------------------------------------------------------- history independence

  lemma {:induction false} GoodIsFaithful(w: World, events: seq<Event>)
    requires WellFormed(events) && GoodHistory(w, events)
    ensures FaithfulHistory(w, events)
    decreases |events|
  {
    if events != [] {
      assert forall e | e in events[1..] :: e in events;
      GoodIsFaithful(Happen(w, events[0]), events[1..]);
    }
  }

  /** A run whose registrations and unregistrations are those of a history ends with the rows
      of that history, wherever the evaluator and the notifications came in between. */
  lemma RunFollowsHistory(s: M.Sys, steps: seq<M.Step>, w: World, events: seq<Event>)
    requires M.Legal(s, steps) && WellFormed(events) && OfReconciler(steps) == HistorySteps(events)
    requires s.m.rows == w.m.rows && NoEmptyRows(w.m.rows) && FaithfulHistory(w, events)
    ensures M.Exec(s, steps).m.rows == Play(w, events).m.rows
  {
    RowsOfRun(s, steps);
    RowsOfHistory(w, events);
  }

  /** History independence under every interleaving: the relation at the end of such a run is
      that of the latest specs of the live summaries. */
  lemma RunsAreHistoryIndependent(s: M.Sys, steps: seq<M.Step>, w: World, specs: Specs, events: seq<Event>)
    requires M.Legal(s, steps) && WellFormed(events) && OfReconciler(steps) == HistorySteps(events)
    requires s.m.rows == w.m.rows && Mirrors(w, specs) && GoodHistory(w, events)
    ensures RowsMirror(M.Exec(s, steps).m.rows, LatestOf(specs, events))
  {
    GoodIsFaithful(w, events);
    RunFollowsHistory(s, steps, w, events);
    HistoryIndependent(w, specs, events);
  }
}
