/** An evaluation that nothing interrupts, step by step, does what `Evaluate` says. */
module Refinement {
  import opened Types
  import opened Tracking
  import opened Fingerprint
  import opened Evaluation
  import M = Machine

  /** What a run is compared on: the manager, the evaluator, and the flags written. */
  datatype End = End(m: State, ev: M.Evaluator, written: set<(ObjectRef, ResourceType)>)

  ghost predicate EndsIn(s: M.Sys, steps: seq<M.Step>, end: End) {
    M.Legal(s, steps) && var x := M.Exec(s, steps); x.m == end.m && x.ev == end.ev && x.past.written == end.written
  }

  lemma Cons(s: M.Sys, step: M.Step, rest: seq<M.Step>, end: End)
    requires M.Enabled(s, step) && EndsIn(M.Apply(s, step), rest, end)
    ensures EndsIn(s, [step] + rest, end)
  {
    M.ConsRun(s, step, rest);
  }

  lemma Last(s: M.Sys, step: M.Step, end: End)
    requires M.Enabled(s, step) && EndsIn(M.Apply(s, step), [], end)
    ensures EndsIn(s, [step], end)
  {
    Cons(s, step, [], end);
    assert [step] + [] == [step];
  }

  /** The steps of a report whose first `budget` calls succeed. */
  function ReportSteps(store: Store, v: Reverse, r: ObjectRef, orders: Orders, types: seq<ResourceType>,
                       seen: seq<ObjectRef>, todo: seq<ObjectRef>, budget: nat): seq<M.Step>
    decreases |types|, |todo|
  {
    if todo != [] then
      if budget == 0 then [M.ReportOne(M.CallFailed)]
      else
        [M.ReportOne(if todo[0] in store.summaries then M.Updated else M.SummaryMissing)] +
        ReportSteps(store, v, r, orders, types, seen, todo[1..], budget - 1)
    else if types == [] then [M.Conclude]
    else
      var seen' := if r in v.Get(types[0]) then seen + orders.Get(types[0]) else seen;
      [M.ReadTrackers(orders.Get(types[0]))] +
      ReportSteps(store, v, r, orders, types[1..], seen', if r in v.Get(types[0]) then seen' else [], budget)
  }

  /** The attempted updates that meet an existing summary. */
  function Hits(store: Store, work: seq<(ObjectRef, ResourceType)>): set<(ObjectRef, ResourceType)> {
    set w | w in work && w.0 in store.summaries
  }

  function Upto<T>(work: seq<T>, budget: nat): seq<T> {
    if budget < |work| then work[..budget] else work
  }

  /** The updates still to be attempted by a report. */
  function Left(v: Reverse, r: ObjectRef, orders: Orders, stage: M.Stage): seq<(ObjectRef, ResourceType)>
    requires stage.Reporting?
  {
    Pairs(stage.todo, stage.current) + Work(v, r, orders, stage.types, stage.seen)
  }

  /** Where a report in progress ends. */
  function ReportEnd(s: M.Sys, store: Store, orders: Orders, budget: nat): End
    requires s.ev.Evaluating? && s.ev.batch != [] && s.ev.stage.Reporting?
  {
    var left := Left(s.m.rows, s.ev.batch[0], orders, s.ev.stage);
    End(s.m, M.Picking(s.ev.batch[1..], if budget < |left| then s.ev.failed + {s.ev.batch[0]} else s.ev.failed),
        s.past.written + Hits(store, Upto(left, budget)))
  }

  function StepsFrom(s: M.Sys, store: Store, orders: Orders, budget: nat): seq<M.Step>
    requires s.ev.Evaluating? && s.ev.batch != [] && s.ev.stage.Reporting?
  {
    var st := s.ev.stage;
    ReportSteps(store, s.m.rows, s.ev.batch[0], orders, st.types, st.seen, st.todo, budget)
  }

  /** One more call that succeeds: the same end, one update earlier. */
  lemma CallCounts(s: M.Sys, store: Store, orders: Orders, budget: nat)
    requires s.ev.Evaluating? && s.ev.batch != [] && s.ev.stage.Reporting? && s.ev.stage.todo != [] && budget > 0
    ensures var step := M.ReportOne(if s.ev.stage.todo[0] in store.summaries then M.Updated else M.SummaryMissing);
            ReportEnd(M.Apply(s, step), store, orders, budget - 1) == ReportEnd(s, store, orders, budget)
  {
    var st := s.ev.stage;
    var step := M.ReportOne(if st.todo[0] in store.summaries then M.Updated else M.SummaryMissing);
    var head := (st.todo[0], st.current);
    var left := Left(s.m.rows, s.ev.batch[0], orders, st);
    var rest := Left(s.m.rows, s.ev.batch[0], orders, M.Apply(s, step).ev.stage);
    assert left == [head] + rest;
    assert Upto(left, budget) == [head] + Upto(rest, budget - 1);
    HitsCons(store, head, Upto(rest, budget - 1));
  }

  lemma HitsCons(store: Store, head: (ObjectRef, ResourceType), rest: seq<(ObjectRef, ResourceType)>)
    ensures Hits(store, [head] + rest) == (if head.0 in store.summaries then {head} else {}) + Hits(store, rest)
  {
  }

  ghost predicate OrdersFit(s: M.Sys, orders: Orders) {
    && s.ev.Evaluating? && s.ev.batch != [] && s.ev.stage.Reporting?
    && forall t | s.ev.batch[0] in s.m.rows.Get(t) :: Enumerates(orders.Get(t), s.m.rows.Get(t)[s.ev.batch[0]])
  }

  /** A report with nothing left to do for the current type. */
  lemma NextTypeOrEnd(s: M.Sys, store: Store, orders: Orders, budget: nat)
    requires OrdersFit(s, orders) && s.ev.stage.todo == []
    ensures s.ev.stage.types == [] ==> EndsIn(s, StepsFrom(s, store, orders, budget), ReportEnd(s, store, orders, budget))
    ensures s.ev.stage.types != [] ==>
              var step := M.ReadTrackers(orders.Get(s.ev.stage.types[0]));
              && M.Enabled(s, step) && OrdersFit(M.Apply(s, step), orders)
              && M.Apply(s, step).ev.stage.types == s.ev.stage.types[1..]
              && StepsFrom(s, store, orders, budget) == [step] + StepsFrom(M.Apply(s, step), store, orders, budget)
              && ReportEnd(s, store, orders, budget) == ReportEnd(M.Apply(s, step), store, orders, budget)
  {
    var st := s.ev.stage;
    if st.types == [] {
      assert Left(s.m.rows, s.ev.batch[0], orders, st) == [];
      Last(s, M.Conclude, ReportEnd(s, store, orders, budget));
    } else {
      var next := M.Apply(s, M.ReadTrackers(orders.Get(st.types[0])));
      assert Left(s.m.rows, s.ev.batch[0], orders, st) == Left(s.m.rows, s.ev.batch[0], orders, next.ev.stage);
    }
  }

  lemma OutOfBudget(s: M.Sys, store: Store, orders: Orders)
    requires OrdersFit(s, orders) && s.ev.stage.todo != []
    ensures EndsIn(s, StepsFrom(s, store, orders, 0), ReportEnd(s, store, orders, 0))
  {
    assert Hits(store, Upto(Left(s.m.rows, s.ev.batch[0], orders, s.ev.stage), 0)) == {};
    Last(s, M.ReportOne(M.CallFailed), ReportEnd(s, store, orders, 0));
  }

  /** One more call that succeeds leaves a report with one update fewer. */
  lemma CallSucceeds(s: M.Sys, store: Store, orders: Orders, budget: nat) returns (step: M.Step)
    requires OrdersFit(s, orders) && s.ev.stage.todo != [] && budget > 0
    ensures M.Enabled(s, step) && OrdersFit(M.Apply(s, step), orders)
    ensures StepsFrom(s, store, orders, budget) == [step] + StepsFrom(M.Apply(s, step), store, orders, budget - 1)
    ensures ReportEnd(M.Apply(s, step), store, orders, budget - 1) == ReportEnd(s, store, orders, budget)
    ensures M.Apply(s, step).ev.stage == s.ev.stage.(todo := s.ev.stage.todo[1..])
  {
    step := M.ReportOne(if s.ev.stage.todo[0] in store.summaries then M.Updated else M.SummaryMissing);
    CallCounts(s, store, orders, budget);
    assert M.Apply(s, step).m == s.m && M.Apply(s, step).ev.batch == s.ev.batch;
  }

  lemma {:induction false} ReportRuns(s: M.Sys, store: Store, orders: Orders, budget: nat)
    requires OrdersFit(s, orders)
    ensures EndsIn(s, StepsFrom(s, store, orders, budget), ReportEnd(s, store, orders, budget))
    decreases |s.ev.stage.types|, |s.ev.stage.todo|
  {
    var st, end := s.ev.stage, ReportEnd(s, store, orders, budget);
    if st.todo == [] {
      NextTypeOrEnd(s, store, orders, budget);
      if st.types != [] {
        var step := M.ReadTrackers(orders.Get(st.types[0]));
        ReportRuns(M.Apply(s, step), store, orders, budget);
        Cons(s, step, StepsFrom(M.Apply(s, step), store, orders, budget), end);
      }
    } else if budget == 0 {
      OutOfBudget(s, store, orders);
    } else {
      var step := CallSucceeds(s, store, orders, budget);
      ReportRuns(M.Apply(s, step), store, orders, budget - 1);
      Cons(s, step, StepsFrom(M.Apply(s, step), store, orders, budget - 1), end);
    }
  }

  /** What the evaluation of `r` that meets `visit` observes. */
  ghost function Observation(p: Platform, store: Store, visit: Visit): M.Seen {
    match visit.fetch
    case Missing => M.Absent
    case KindMissing => M.Absent
    case Broken => M.Unreadable
    case Found(u) =>
      if visit.patchCut < |visit.order| then M.Unreadable
      else
        match Hash(p, u, Collect(store, visit.order))
        case Err(_) => M.Unreadable
        case Ok(hash) => M.Digest(hash)
  }

  predicate IsDrift(seen: M.Seen, baseline: Bytes) {
    seen.Absent? || (seen.Digest? && seen.hash != baseline)
  }

  /** The steps of the evaluation of `r` that meets `visit`. */
  ghost function EvaluationSteps(p: Platform, m: State, store: Store, r: ObjectRef, visit: Visit): seq<M.Step> {
    if r !in m.index.hashes then [M.Begin]
    else
      var seen := Observation(p, store, visit);
      [M.Begin] + ([M.Observe(seen)] + if IsDrift(seen, m.index.hashes[r]) then DriftSteps(m, store, r, visit) else [])
  }

  function DriftSteps(m: State, store: Store, r: ObjectRef, visit: Visit): seq<M.Step> {
    [M.WriteBaseline] + ReportSteps(store, m.rows, r, visit.orders, TYPE_ORDER, [], [], visit.reportCut)
  }

  /** What `Evaluate` makes of the observation. */
  lemma ObservationDecides(p: Platform, m: State, store: Store, r: ObjectRef, visit: Visit)
    requires r in m.index.hashes
    ensures var e, seen := Evaluate(p, m, store, r, visit), Observation(p, store, visit);
            if IsDrift(seen, m.index.hashes[r])
            then e == ReportDrift(p, m, store, r, if seen.Absent? then [] else seen.hash, visit)
            else e == Evaluated(m, store, seen.Digest?, false)
  {
  }

  /** The updates an evaluation attempts successfully. */
  ghost function Attempted(p: Platform, m: State, store: Store, r: ObjectRef, visit: Visit)
    : seq<(ObjectRef, ResourceType)>
  {
    if Evaluate(p, m, store, r, visit).drift then Upto(Work(m.rows, r, visit.orders, TYPE_ORDER, []), visit.reportCut) else []
  }

  /** Where `Evaluate` says the evaluation of the first resource of the batch ends. */
  ghost function EvaluateEnd(p: Platform, s: M.Sys, store: Store, visit: Visit): End
    requires s.ev.Picking? && s.ev.batch != []
  {
    var r, e := s.ev.batch[0], Evaluate(p, s.m, store, s.ev.batch[0], visit);
    End(e.state, M.Picking(s.ev.batch[1..], if e.ok then s.ev.failed else s.ev.failed + {r}),
        Hits(store, Attempted(p, s.m, store, r, visit)))
  }

  /** What the machine does from the moment drift has been found. */
  lemma DriftRuns(s: M.Sys, p: Platform, store: Store, hash: Bytes, visit: Visit)
    requires s.ev.Evaluating? && s.ev.batch != [] && s.ev.stage == M.Writing(hash) && s.past.written == {}
    requires Possible(s.m.rows, s.ev.batch[0], visit)
    ensures var r := s.ev.batch[0];
            var e := ReportDrift(p, s.m, store, r, hash, visit);
            EndsIn(s, DriftSteps(s.m, store, r, visit),
                   End(e.state, M.Picking(s.ev.batch[1..], if e.ok then s.ev.failed else s.ev.failed + {r}),
                       Hits(store, Upto(Work(s.m.rows, r, visit.orders, TYPE_ORDER, []), visit.reportCut))))
  {
    var r, next := s.ev.batch[0], M.Apply(s, M.WriteBaseline);
    ReportRuns(next, store, visit.orders, visit.reportCut);
    assert Left(s.m.rows, r, visit.orders, next.ev.stage) == Work(s.m.rows, r, visit.orders, TYPE_ORDER, []);
    Cons(s, M.WriteBaseline, StepsFrom(next, store, visit.orders, visit.reportCut),
         ReportEnd(next, store, visit.orders, visit.reportCut));
  }

  /** The evaluation, once its baseline has been read, if it observes drift. */
  lemma DriftObserved(p: Platform, s: M.Sys, store: Store, visit: Visit, seen: M.Seen)
    requires s.ev.Picking? && s.ev.batch != [] && Possible(s.m.rows, s.ev.batch[0], visit)
    requires s.ev.batch[0] in s.m.index.hashes && seen == Observation(p, store, visit)
    requires IsDrift(seen, s.m.index.hashes[s.ev.batch[0]])
    ensures EndsIn(M.Apply(s, M.Begin), [M.Observe(seen)] + DriftSteps(s.m, store, s.ev.batch[0], visit),
                   EvaluateEnd(p, s, store, visit))
  {
    var r, s1 := s.ev.batch[0], M.Apply(s, M.Begin);
    var s2 := M.Apply(s1, M.Observe(seen));
    ObservationDecides(p, s.m, store, r, visit);
    DriftRuns(s2, p, store, if seen.Absent? then [] else seen.hash, visit);
    Cons(s1, M.Observe(seen), DriftSteps(s.m, store, r, visit), EvaluateEnd(p, s, store, visit));
  }

  /** The same, if it does not. */
  lemma NoDriftObserved(p: Platform, s: M.Sys, store: Store, visit: Visit, seen: M.Seen)
    requires s.ev.Picking? && s.ev.batch != [] && s.ev.batch[0] in s.m.index.hashes
    requires seen == Observation(p, store, visit) && !IsDrift(seen, s.m.index.hashes[s.ev.batch[0]])
    ensures EndsIn(M.Apply(s, M.Begin), [M.Observe(seen)] + [], EvaluateEnd(p, s, store, visit))
  {
    ObservationDecides(p, s.m, store, s.ev.batch[0], visit);
    assert Hits(store, []) == {};
    Cons(M.Apply(s, M.Begin), M.Observe(seen), [], EvaluateEnd(p, s, store, visit));
  }

  /** Run without interruption, the steps of an evaluation leave the manager as `Evaluate`
      does, fail exactly when it fails, and write exactly the flags it writes. */
  lemma UninterruptedEvaluation(p: Platform, s: M.Sys, store: Store, visit: Visit)
    requires s.ev.Picking? && s.ev.batch != [] && Possible(s.m.rows, s.ev.batch[0], visit)
    ensures EndsIn(s, EvaluationSteps(p, s.m, store, s.ev.batch[0], visit), EvaluateEnd(p, s, store, visit))
  {
    var r, end := s.ev.batch[0], EvaluateEnd(p, s, store, visit);
    if r in s.m.index.hashes {
      var seen := Observation(p, store, visit);
      if IsDrift(seen, s.m.index.hashes[r]) {
        DriftObserved(p, s, store, visit, seen);
        Cons(s, M.Begin, [M.Observe(seen)] + DriftSteps(s.m, store, r, visit), end);
      } else {
        NoDriftObserved(p, s, store, visit, seen);
        Cons(s, M.Begin, [M.Observe(seen)] + [], end);
      }
    } else {
      assert Hits(store, []) == {};
      Last(s, M.Begin, end);
    }
  }

  /** The updates counted above are the ones `Evaluate` applies to the store. */
  lemma AttemptedIsApplied(p: Platform, m: State, store: Store, r: ObjectRef, visit: Visit)
    requires Evaluate(p, m, store, r, visit).drift
    ensures var e := Evaluate(p, m, store, r, visit);
            && r in e.state.index.hashes
            && e.store == ApplyWork(p, store, Attempted(p, m, store, r, visit), r, e.state.index.hashes[r])
  {
    DriftIsReported(p, m, store, r, visit);
  }
}
