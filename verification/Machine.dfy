/** The manager under concurrency: registrations, unregistrations and change notifications
    interleaved with the evaluator, one step per critical section or API call. */
module Machine {
  import opened Types
  import opened Tracking

  /** Where one evaluation stands between two critical sections. */
  datatype Stage =
    | Fetching(baseline: Bytes)
    | Writing(hash: Bytes)
    | Reporting(types: seq<ResourceType>, seen: seq<ObjectRef>, current: ResourceType, todo: seq<ObjectRef>)

  datatype Evaluator =
    | Idle
    | Picking(batch: seq<ObjectRef>, failed: set<ObjectRef>)
    | Evaluating(batch: seq<ObjectRef>, failed: set<ObjectRef>, stage: Stage)
    | Requeuing(left: seq<ObjectRef>, failed: set<ObjectRef>)

  /** What happened so far, as far as the properties below need it.
      `owed`: queued, and no evaluation begun after that has returned nil.
      `renewed`: queued since the current evaluation began.
      `since`: queued by others since the last snapshot.
      `lastFailed`: what the last finished pass failed to evaluate.
      `steady`: trackers of the resource under evaluation, without a break since it began.
      `written`, `missing`: flags written, and updates skipped because the summary was not found,
      by the current evaluation.
      `present`, `read`: the types under which it found the resource, and the trackers it read. */
  datatype History = History(
    owed: set<ObjectRef>,
    renewed: set<ObjectRef>,
    since: set<ObjectRef>,
    lastFailed: set<ObjectRef>,
    steady: set<(ObjectRef, ResourceType)>,
    written: set<(ObjectRef, ResourceType)>,
    missing: set<(ObjectRef, ResourceType)>,
    present: set<ResourceType>,
    read: set<(ObjectRef, ResourceType)>)

  const NO_PAST := History({}, {}, {}, {}, {}, {}, {}, {}, {})

  /** The history of a manager published with `queue`. */
  function Published(queue: set<ObjectRef>): History {
    NO_PAST.(owed := queue, since := queue)
  }

  datatype Sys = Sys(m: State, ev: Evaluator, past: History)

  /** What fetching the object, collecting patches and hashing led to. */
  datatype Seen = Absent | Unreadable | Digest(hash: Bytes)

  datatype Answer = Updated | SummaryMissing | CallFailed

  datatype Step =
    | DoRegister(r: ObjectRef, t: ResourceType, q: ObjectRef, c: Call)
    | DoUnregister(r: ObjectRef, t: ResourceType, q: ObjectRef)
    | DoReact(r: ObjectRef)
    | Snapshot(order: seq<ObjectRef>)
    | Begin
    | Observe(result: Seen)
    | WriteBaseline
    | ReadTrackers(items: seq<ObjectRef>)
    | ReportOne(answer: Answer)
    | Conclude
    | CloseBatch(order: seq<ObjectRef>)
    | Requeue

  function Trackers(v: Reverse, r: ObjectRef): (pairs: set<(ObjectRef, ResourceType)>)
    ensures forall q, t :: (q, t) in pairs <==> Tracks(v, r, t, q)
  {
    Side(v, r, Resource) + Side(v, r, HelmResource) + Side(v, r, KustomizeResource)
  }

  function Side(v: Reverse, r: ObjectRef, t: ResourceType): set<(ObjectRef, ResourceType)> {
    if r in v.Get(t) then set q | q in v.Get(t)[r] :: (q, t) else {}
  }

  // ---------------------------------------------------------------- steps

  predicate Enabled(s: Sys, step: Step) {
    match step
    case DoRegister(_, _, _, _) => true
    case DoUnregister(_, _, _) => true
    case DoReact(_) => true
    case Snapshot(order) => s.ev.Idle? && Enumerates(order, s.m.jobQueue)
    case Begin => s.ev.Picking? && s.ev.batch != []
    case CloseBatch(order) => s.ev.Picking? && s.ev.batch == [] && Enumerates(order, s.ev.failed)
    case Observe(_) => s.ev.Evaluating? && s.ev.batch != [] && s.ev.stage.Fetching?
    case WriteBaseline => s.ev.Evaluating? && s.ev.batch != [] && s.ev.stage.Writing?
    case ReadTrackers(items) =>
      && s.ev.Evaluating? && s.ev.batch != [] && s.ev.stage.Reporting?
      && s.ev.stage.todo == [] && s.ev.stage.types != []
      && var row := s.m.rows.Get(s.ev.stage.types[0]);
         s.ev.batch[0] in row ==> Enumerates(items, row[s.ev.batch[0]])
    case ReportOne(_) => s.ev.Evaluating? && s.ev.batch != [] && s.ev.stage.Reporting? && s.ev.stage.todo != []
    case Conclude =>
      s.ev.Evaluating? && s.ev.batch != [] && s.ev.stage.Reporting? && s.ev.stage.todo == [] && s.ev.stage.types == []
    case Requeue => s.ev.Requeuing? && s.ev.left != []
  }

  /** The evaluation of the first resource of the batch returned nil. */
  function Succeed(s: Sys): Sys
    requires s.ev.Picking? || s.ev.Evaluating?
    requires s.ev.batch != []
  {
    s.(ev := Picking(s.ev.batch[1..], s.ev.failed),
       past := s.past.(owed := s.past.owed - ({s.ev.batch[0]} - s.past.renewed)))
  }

  /** The evaluation of the first resource of the batch returned an error. */
  function Fail(s: Sys): Sys
    requires s.ev.Evaluating? && s.ev.batch != []
  {
    s.(ev := Picking(s.ev.batch[1..], s.ev.failed + {s.ev.batch[0]}))
  }

  function Advance(s: Sys, stage: Stage): Sys
    requires s.ev.Picking? || s.ev.Evaluating?
  {
    s.(ev := Evaluating(s.ev.batch, s.ev.failed, stage))
  }

  function Requeued(s: Sys, left: seq<ObjectRef>, failed: set<ObjectRef>): Sys {
    if left == [] then s.(ev := Idle, past := s.past.(lastFailed := failed))
    else s.(ev := Requeuing(left, failed))
  }

  function Apply(s: Sys, step: Step): Sys
    requires Enabled(s, step)
  {
    match step
    case DoRegister(r, t, q, c) => s.(m := Register(s.m, r, t, q, c).state)
    case DoUnregister(r, t, q) =>
      s.(m := Unregister(s.m, r, t, q),
         past := if s.ev.Evaluating? && s.ev.batch != [] && s.ev.batch[0] == r
                 then s.past.(steady := s.past.steady - {(q, t)}) else s.past)
    case DoReact(r) =>
      var m := React(s.m, r);
      if r in s.m.rows.resources || r in s.m.rows.helm then
        s.(m := m, past := s.past.(owed := s.past.owed + {r}, renewed := s.past.renewed + {r}, since := s.past.since + {r}))
      else s.(m := m)
    case Snapshot(order) =>
      s.(m := s.m.(jobQueue := {}), ev := Picking(order, {}),
         past := s.past.(renewed := {}, since := {}, lastFailed := {}))
    case Begin =>
      var r := s.ev.batch[0];
      var s1 := s.(past := s.past.(renewed := {}, steady := Trackers(s.m.rows, r), written := {}, missing := {},
                                   present := {}, read := {}));
      if r in s.m.index.hashes then Advance(s1, Fetching(s.m.index.hashes[r])) else Succeed(s1)
    case Observe(result) =>
      (match result
       case Absent => Advance(s, Writing([]))
       case Unreadable => Fail(s)
       case Digest(hash) => if hash == s.ev.stage.baseline then Succeed(s) else Advance(s, Writing(hash)))
    case WriteBaseline =>
      Advance(s.(m := s.m.(index := Baseline(s.m.index, s.ev.batch[0], s.ev.stage.hash))),
              Reporting(TYPE_ORDER, [], Resource, []))
    case ReadTrackers(items) =>
      var st, t := s.ev.stage, s.ev.stage.types[0];
      if s.ev.batch[0] in s.m.rows.Get(t)
      then Advance(s.(past := s.past.(present := s.past.present + {t},
                                      read := s.past.read + Side(s.m.rows, s.ev.batch[0], t))),
                   Reporting(st.types[1..], st.seen + items, t, st.seen + items))
      else Advance(s, Reporting(st.types[1..], st.seen, t, []))
    case ReportOne(answer) =>
      var st := s.ev.stage;
      var rest := st.(todo := st.todo[1..]);
      (match answer
       case Updated => Advance(s.(past := s.past.(written := s.past.written + {(st.todo[0], st.current)})), rest)
       case SummaryMissing => Advance(s.(past := s.past.(missing := s.past.missing + {(st.todo[0], st.current)})), rest)
       case CallFailed => Fail(s))
    case Conclude => Succeed(s)
    case CloseBatch(order) => Requeued(s, order, s.ev.failed)
    case Requeue =>
      Requeued(s.(m := Enqueue(s.m, s.ev.left[0])), s.ev.left[1..], s.ev.failed)
  }

  // ---------------------------------------------------------------- runs

  ghost predicate Legal(s: Sys, steps: seq<Step>)
    decreases |steps|
  {
    steps == [] || (Enabled(s, steps[0]) && Legal(Apply(s, steps[0]), steps[1..]))
  }

  ghost function Exec(s: Sys, steps: seq<Step>): Sys
    requires Legal(s, steps)
    decreases |steps|
  {
    if steps == [] then s else Exec(Apply(s, steps[0]), steps[1..])
  }

  /** A manager just published, with whatever recovery queued. */
  ghost predicate Initial(s: Sys) {
    && IndexInvariant(s.m)
    && s.ev.Idle?
    && s.past == Published(s.m.jobQueue)
  }

  // ---------------------------------------------------------------- index invariant

  /** All steps but registrations and unregistrations leave rows and index alone, except that
      a baseline may be written. */
  lemma OtherStepsOnlyWriteBaselines(s: Sys, step: Step)
    requires Enabled(s, step) && !step.DoRegister? && !step.DoUnregister?
    ensures Apply(s, step).m.rows == s.m.rows
    ensures Apply(s, step).m.index ==
            if step.WriteBaseline? then Baseline(s.m.index, s.ev.batch[0], s.ev.stage.hash) else s.m.index
  {
  }

  lemma StepKeepsIndex(s: Sys, step: Step)
    requires IndexInvariant(s.m) && Enabled(s, step)
    ensures IndexInvariant(Apply(s, step).m)
  {
    if step.DoRegister? {
      RegisterKeepsIndex(s.m, step.r, step.t, step.q, step.c);
    } else if step.DoUnregister? {
      UnregisterKeepsIndex(s.m, step.r, step.t, step.q);
    } else {
      OtherStepsOnlyWriteBaselines(s, step);
    }
  }

  /** Over every interleaving and every failure: index members are baselined and tracked
      under their own GVK, indexed GVKs have a tracked resource, watched GVKs have members,
      informers balance, and no watcher is started twice. */
  lemma {:induction false} IndexHoldsOverRuns(s: Sys, steps: seq<Step>)
    requires IndexInvariant(s.m) && Legal(s, steps)
    ensures IndexInvariant(Exec(s, steps).m)
    ensures forall g: Gvk | g !in Exec(s, steps).m.index.gvkResources ::
              g !in Exec(s, steps).m.index.watchers &&
              Exec(s, steps).m.index.started[g] == Exec(s, steps).m.index.cancelled[g]
    decreases |steps|
  {
    if steps != [] {
      StepKeepsIndex(s, steps[0]);
      IndexHoldsOverRuns(Apply(s, steps[0]), steps[1..]);
    }
  }

  // ---------------------------------------------------------------- queue conservation

  /** Queued, waiting in the batch, failed, or about to be queued again. */
  function Pending(s: Sys): set<ObjectRef> {
    s.m.jobQueue +
    match s.ev
    case Idle => {}
    case Picking(batch, failed) => Elements(batch) + failed
    case Evaluating(batch, failed, _) => Elements(batch) + failed
    case Requeuing(left, _) => Elements(left)
  }

  ghost predicate Conserved(s: Sys) {
    && NoEmptyRows(s.m.rows)
    && s.past.owed <= Pending(s)
    && match s.ev
       case Idle => s.m.jobQueue == s.past.since + s.past.lastFailed
       case Picking(_, _) => s.m.jobQueue == s.past.since
       case Evaluating(batch, _, _) =>
         batch != [] && s.m.jobQueue == s.past.since && s.past.renewed <= s.m.jobQueue
       case Requeuing(left, failed) =>
         && left != [] && s.m.jobQueue == s.past.since + (failed - Elements(left))
         && (forall i, j | 0 <= i < j < |left| :: left[i] != left[j])
         && Elements(left) <= failed
  }

  lemma HeadTail(s: seq<ObjectRef>)
    requires s != []
    ensures Elements(s) == {s[0]} + Elements(s[1..])
  {
    assert s == [s[0]] + s[1..];
  }

  lemma OutsideStepConserves(s: Sys, step: Step)
    requires Conserved(s) && Enabled(s, step) && (step.DoRegister? || step.DoUnregister? || step.DoReact?)
    ensures Conserved(Apply(s, step))
  {
    match step
    case DoRegister(r, t, q, c) => InsertRelation(s.m.rows, r, t, q);
    case DoUnregister(r, t, q) => EraseRelation(s.m.rows, r, t, q);
    case DoReact(r) =>
      assert r in s.m.rows.Get(Resource) ==> s.m.rows.Get(Resource)[r] != {};
      assert r in s.m.rows.Get(HelmResource) ==> s.m.rows.Get(HelmResource)[r] != {};
  }

  lemma QueueStepConserves(s: Sys, step: Step)
    requires Conserved(s) && Enabled(s, step) && (step.Snapshot? || step.CloseBatch? || step.Requeue?)
    ensures Conserved(Apply(s, step))
  {
    match step
    case Snapshot(order) => assert Elements(order) == s.m.jobQueue;
    case CloseBatch(order) => assert Elements(order) == s.ev.failed;
    case Requeue => HeadTail(s.ev.left);
  }

  lemma StepConserves(s: Sys, step: Step)
    requires Conserved(s) && Enabled(s, step)
    ensures Conserved(Apply(s, step))
  {
    if step.DoRegister? || step.DoUnregister? || step.DoReact? {
      OutsideStepConserves(s, step);
    } else if step.Snapshot? || step.CloseBatch? || step.Requeue? {
      QueueStepConserves(s, step);
    } else {
      HeadTail(s.ev.batch);
    }
  }

  /** Over every interleaving: whatever was queued and not evaluated successfully since is
      still pending, and a finished pass leaves queued exactly what it failed to evaluate
      together with what others queued meanwhile. */
  lemma {:induction false} NothingQueuedIsLost(s: Sys, steps: seq<Step>)
    requires Conserved(s) && Legal(s, steps)
    ensures Conserved(Exec(s, steps))
    ensures Exec(s, steps).past.owed <= Pending(Exec(s, steps))
    ensures Exec(s, steps).ev.Idle? ==>
              Exec(s, steps).m.jobQueue == Exec(s, steps).past.since + Exec(s, steps).past.lastFailed
    decreases |steps|
  {
    if steps != [] {
      StepConserves(s, steps[0]);
      NothingQueuedIsLost(Apply(s, steps[0]), steps[1..]);
    }
  }

  // ---------------------------------------------------------------- report completeness

  /** Every unbroken tracker has been answered, or is still due in this report. */
  ghost predicate ReportOnTrack(s: Sys) {
    s.ev.Evaluating? ==>
      && s.ev.batch != []
      && (forall q, t | (q, t) in s.past.steady :: Tracks(s.m.rows, s.ev.batch[0], t, q))
      && (s.ev.stage.Reporting? ==> forall q, t | (q, t) in s.past.steady :: Due(s.past, s.ev.stage, q, t))
  }

  predicate Due(past: History, stage: Stage, q: ObjectRef, t: ResourceType)
    requires stage.Reporting?
  {
    Answered(past, q, t) || t in stage.types || (t == stage.current && q in stage.todo)
  }

  predicate Answered(past: History, q: ObjectRef, t: ResourceType) {
    (q, t) in past.written || (q, t) in past.missing
  }

  lemma StepKeepsReport(s: Sys, step: Step)
    requires NoEmptyRows(s.m.rows) && ReportOnTrack(s) && Enabled(s, step)
    ensures NoEmptyRows(Apply(s, step).m.rows) && ReportOnTrack(Apply(s, step))
  {
    match step
    case DoRegister(r, t, q, c) => InsertRelation(s.m.rows, r, t, q);
    case DoUnregister(r, t, q) => EraseRelation(s.m.rows, r, t, q);
    case WriteBaseline =>
      assert TYPE_ORDER[0] == Resource && TYPE_ORDER[1] == HelmResource && TYPE_ORDER[2] == KustomizeResource;
    case ReadTrackers(items) =>
      var st, s' := s.ev.stage, Apply(s, step);
      forall q, t | (q, t) in s'.past.steady ensures Due(s'.past, s'.ev.stage, q, t) {
        assert Due(s.past, st, q, t);
        assert Tracks(s.m.rows, s.ev.batch[0], t, q);
        if t == st.types[0] { assert q in items; assert q in st.seen + items; }
        assert st.types == [st.types[0]] + st.types[1..];
      }
    case ReportOne(answer) =>
      var st := s.ev.stage;
      assert st.todo == [st.todo[0]] + st.todo[1..];
      if answer != CallFailed {
        var s' := Apply(s, step);
        forall q, t | (q, t) in s'.past.steady ensures Due(s'.past, s'.ev.stage, q, t) {
          assert Due(s.past, st, q, t);
        }
      }
    case _ =>
  }

  /** The report of the drift of `r` returns nil at this step. */
  predicate Concludes(s: Sys, step: Step, r: ObjectRef) {
    Enabled(s, step) && step.Conclude? && s.ev.batch[0] == r
  }

  ghost predicate AllAnswered(s: Sys) {
    forall q, t | (q, t) in s.past.steady :: Answered(s.past, q, t)
  }

  /** Over every interleaving: when an evaluation that found drift returns nil, every summary
      that tracked the resource without a break since the evaluation began was flagged for
      that type by this evaluation, or did not exist when it was asked for. */
  lemma {:induction false} ReportsAreComplete(s: Sys, steps: seq<Step>, r: ObjectRef)
    requires NoEmptyRows(s.m.rows) && ReportOnTrack(s) && Legal(s, steps)
    ensures ReportOnTrack(Exec(s, steps)) && NoEmptyRows(Exec(s, steps).m.rows)
    ensures Concludes(Exec(s, steps), Conclude, r) ==> AllAnswered(Exec(s, steps))
    decreases |steps|
  {
    if steps == [] {
      if Concludes(s, Conclude, r) {
        forall q, t | (q, t) in s.past.steady ensures Answered(s.past, q, t) {
          assert Due(s.past, s.ev.stage, q, t);
        }
      }
    } else {
      StepKeepsReport(s, steps[0]);
      ReportsAreComplete(Apply(s, steps[0]), steps[1..], r);
    }
  }

  // ---------------------------------------------------------------- report reach

  /** When a type's turn comes in a report. */
  function Turn(t: ResourceType): nat {
    match t
    case Resource => 0
    case HelmResource => 1
    case KustomizeResource => 2
  }

  /** The resource was a key of the map of `t`, and the summary was read from that map or from
      one read before. */
  predicate Reached(past: History, q: ObjectRef, t: ResourceType) {
    t in past.present && exists t' :: (q, t') in past.read && Turn(t') <= Turn(t)
  }

  /** A report in progress: the types left are those not read yet, and whoever is still to be
      asked has been read. */
  ghost predicate ReachOnTrack(past: History, stage: Stage) {
    match stage
    case Reporting(types, seen, current, todo) =>
      && |types| <= 3 && types == TYPE_ORDER[3 - |types|..]
      && (forall q, t | (q, t) in past.read :: Turn(t) < 3 - |types|)
      && (forall q | q in seen :: exists t :: (q, t) in past.read)
      && (forall q | q in todo :: q in seen)
      && (todo != [] ==> current in past.present && Turn(current) == 2 - |types|)
    case _ => past.written == past.missing == {} && past.read == {}
  }

  ghost predicate Reach(s: Sys) {
    && (forall q, t | Answered(s.past, q, t) :: Reached(s.past, q, t))
    && (s.ev.Evaluating? ==> ReachOnTrack(s.past, s.ev.stage))
  }

  /** Reading more keeps reached what was reached. */
  lemma ReadingMoreKeepsReach(past: History, past': History)
    requires past'.written == past.written && past'.missing == past.missing
    requires past.present <= past'.present && past.read <= past'.read
    requires forall q, t | Answered(past, q, t) :: Reached(past, q, t)
    ensures forall q, t | Answered(past', q, t) :: Reached(past', q, t)
  {
    forall q, t | Answered(past', q, t) ensures Reached(past', q, t) {
      assert Answered(past, q, t) && Reached(past, q, t);
      var t' :| (q, t') in past.read && Turn(t') <= Turn(t);
      assert (q, t') in past'.read;
    }
  }

  lemma ReadTrackersKeepsReach(s: Sys, items: seq<ObjectRef>)
    requires Reach(s) && Enabled(s, ReadTrackers(items))
    ensures Reach(Apply(s, ReadTrackers(items)))
  {
    var st, s', r := s.ev.stage, Apply(s, ReadTrackers(items)), s.ev.batch[0];
    var t := st.types[0];
    ReadingMoreKeepsReach(s.past, s'.past);
    TypesLeft(st.types);
    forall q | q in s'.ev.stage.seen ensures exists t' :: (q, t') in s'.past.read {
      if q in st.seen {
        var t' :| (q, t') in s.past.read;
        assert (q, t') in s'.past.read;
      } else {
        assert (q, t) in Side(s.m.rows, r, t);
      }
    }
    assert forall q, t' | (q, t') in s'.past.read :: (q, t') in s.past.read || t' == t;
  }

  /** The types that are left, once the first of them has been read. */
  lemma TypesLeft(types: seq<ResourceType>)
    requires 0 < |types| <= 3 && types == TYPE_ORDER[3 - |types|..]
    ensures Turn(types[0]) == 3 - |types| && types[1..] == TYPE_ORDER[3 - |types[1..]|..]
  {
  }

  lemma ReportOneKeepsReach(s: Sys, answer: Answer)
    requires Reach(s) && Enabled(s, ReportOne(answer))
    ensures Reach(Apply(s, ReportOne(answer)))
  {
    var st, s' := s.ev.stage, Apply(s, ReportOne(answer));
    var q0 := st.todo[0];
    assert q0 in st.todo && st.todo == [q0] + st.todo[1..];
    var t0 :| (q0, t0) in s.past.read;
    assert Reached(s.past, q0, st.current);
    forall q, t | Answered(s'.past, q, t) ensures Reached(s'.past, q, t) {
      assert (q, t) == (q0, st.current) || Answered(s.past, q, t);
      assert Reached(s.past, q, t);
    }
  }

  lemma StepKeepsReach(s: Sys, step: Step)
    requires Reach(s) && Enabled(s, step)
    ensures Reach(Apply(s, step))
    ensures forall q, t | (q, t) in Apply(s, step).past.read && (q, t) !in s.past.read ::
              s.ev.Evaluating? && s.ev.batch != [] && Tracks(s.m.rows, s.ev.batch[0], t, q)
  {
    match step
    case ReadTrackers(items) => ReadTrackersKeepsReach(s, items);
    case ReportOne(answer) => ReportOneKeepsReach(s, answer);
    case Begin => assert forall q, t :: !Answered(Apply(s, step).past, q, t);
    case WriteBaseline => assert TYPE_ORDER[0..] == TYPE_ORDER;
    case _ => SameReportKeepsReach(s.past, Apply(s, step).past);
  }

  lemma SameReportKeepsReach(past: History, past': History)
    requires past'.written == past.written && past'.missing == past.missing
    requires past'.present == past.present && past'.read == past.read
    ensures forall q, t :: Answered(past', q, t) <==> Answered(past, q, t)
    ensures forall q, t :: Reached(past', q, t) <==> Reached(past, q, t)
  {
  }

  /** Over every interleaving: a report asks a summary about a type only if it found the
      resource under that type and the summary in the map of that type or of an earlier one,
      each map as it was when it was read. */
  lemma {:induction false} ReportsReachOnlyTrackers(s: Sys, steps: seq<Step>)
    requires Reach(s) && Legal(s, steps)
    ensures Reach(Exec(s, steps))
    ensures forall q, t | Answered(Exec(s, steps).past, q, t) :: Reached(Exec(s, steps).past, q, t)
    decreases |steps|
  {
    if steps != [] {
      StepKeepsReach(s, steps[0]);
      ReportsReachOnlyTrackers(Apply(s, steps[0]), steps[1..]);
    }
  }

  // ---------------------------------------------------------------- at-least-once

  /** `r` stays baselined, and no evaluation of it compares equal. */
  ghost predicate StaysDrifted(s: Sys, steps: seq<Step>, r: ObjectRef)
    requires Legal(s, steps)
    decreases |steps|
  {
    && r in s.m.index.hashes
    && (steps != [] ==> !ComparesEqual(s, steps[0], r) && StaysDrifted(Apply(s, steps[0]), steps[1..], r))
  }

  /** The evaluation of `r` finds the digest it read as the baseline. */
  predicate ComparesEqual(s: Sys, step: Step, r: ObjectRef) {
    Enabled(s, step) && step.Observe? && s.ev.batch[0] == r && step.result == Digest(s.ev.stage.baseline)
  }

  /** `r` stays baselined, and whenever it is looked up it is absent or unreadable. */
  ghost predicate StaysAbsent(s: Sys, steps: seq<Step>, r: ObjectRef)
    requires Legal(s, steps)
    decreases |steps|
  {
    && r in s.m.index.hashes
    && (steps != [] ==>
          && (steps[0].Observe? && s.ev.batch[0] == r ==> !steps[0].result.Digest?)
          && StaysAbsent(Apply(s, steps[0]), steps[1..], r))
  }

  lemma {:induction false} AbsentStaysDrifted(s: Sys, steps: seq<Step>, r: ObjectRef)
    requires Legal(s, steps) && StaysAbsent(s, steps, r)
    ensures StaysDrifted(s, steps, r)
    decreases |steps|
  {
    if steps != [] { AbsentStaysDrifted(Apply(s, steps[0]), steps[1..], r); }
  }

  /** Somewhere along the run a complete report of `r` returned nil. */
  ghost predicate Reported(s: Sys, steps: seq<Step>, r: ObjectRef)
    requires Legal(s, steps)
    decreases |steps|
  {
    steps != [] && ((Concludes(s, steps[0], r) && AllAnswered(s)) || Reported(Apply(s, steps[0]), steps[1..], r))
  }

  lemma PendingUntilReturnsNil(s: Sys, step: Step, r: ObjectRef)
    requires Conserved(s) && Enabled(s, step)
    requires r in Pending(s) && r in s.m.index.hashes
    ensures r in Pending(Apply(s, step)) || Concludes(s, step, r) || ComparesEqual(s, step, r)
  {
    if (s.ev.Picking? || s.ev.Evaluating?) && s.ev.batch != [] { HeadTail(s.ev.batch); }
    match step
    case Snapshot(order) => assert r in s.m.jobQueue ==> r in Elements(order);
    case CloseBatch(order) => assert r in s.ev.failed ==> r in Elements(order);
    case Requeue => HeadTail(s.ev.left);
    case _ =>
  }

  /** Over every interleaving and every schedule of failures: a baselined resource that is pending
      stays pending until a report of it is complete, or an evaluation of it compares equal. */
  lemma {:induction false} DriftIsReportedAtLeastOnce(s: Sys, steps: seq<Step>, r: ObjectRef)
    requires Conserved(s) && ReportOnTrack(s) && Legal(s, steps) && StaysDrifted(s, steps, r)
    requires r in Pending(s)
    ensures r in Pending(Exec(s, steps)) || Reported(s, steps, r)
    decreases |steps|
  {
    if steps != [] {
      var s' := Apply(s, steps[0]);
      ReportsAreComplete(s, [], r);
      StepConserves(s, steps[0]);
      StepKeepsReport(s, steps[0]);
      PendingUntilReturnsNil(s, steps[0], r);
      if r in Pending(s') {
        DriftIsReportedAtLeastOnce(s', steps[1..], r);
      }
    }
  }

  /** In particular a missing resource stays pending until a report of it is complete. */
  lemma MissingIsReportedAtLeastOnce(s: Sys, steps: seq<Step>, r: ObjectRef)
    requires Conserved(s) && ReportOnTrack(s) && Legal(s, steps) && StaysAbsent(s, steps, r)
    requires r in Pending(s)
    ensures r in Pending(Exec(s, steps)) || Reported(s, steps, r)
  {
    AbsentStaysDrifted(s, steps, r);
    DriftIsReportedAtLeastOnce(s, steps, r);
  }

  /** A published manager satisfies the premises above, so every run of it does. */
  lemma PublishedManagersAreSafe(s: Sys, steps: seq<Step>)
    requires Initial(s) && Legal(s, steps)
    ensures var x := Exec(s, steps);
            && IndexInvariant(x.m)
            && x.past.owed <= Pending(x)
            && (forall r :: Concludes(x, Conclude, r) ==> AllAnswered(x))
            && (forall q, t | Answered(x.past, q, t) :: Reached(x.past, q, t))
  {
    IndexHoldsOverRuns(s, steps);
    NothingQueuedIsLost(s, steps);
    ReportsReachOnlyTrackers(s, steps);
    forall r ensures Concludes(Exec(s, steps), Conclude, r) ==> AllAnswered(Exec(s, steps)) {
      ReportsAreComplete(s, steps, r);
    }
  }

  // ---------------------------------------------------------------- progress

  predicate OfEvaluator(step: Step) {
    !step.DoRegister? && !step.DoUnregister? && !step.DoReact?
  }

  /** What is left of a pass: its phase, the resources, the stage of the current evaluation,
      and the summaries to ask. */
  function Rank(ev: Evaluator): (nat, nat, nat, nat) {
    match ev
    case Idle => (0, 0, 0, 0)
    case Requeuing(left, _) => (1, |left|, 0, 0)
    case Picking(batch, _) => (2, |batch|, 6, 0)
    case Evaluating(batch, _, Fetching(_)) => (2, |batch|, 5, 0)
    case Evaluating(batch, _, Writing(_)) => (2, |batch|, 4, 0)
    case Evaluating(batch, _, Reporting(types, _, _, todo)) => (2, |batch|, |types|, |todo|)
  }

  predicate Below(a: (nat, nat, nat, nat), b: (nat, nat, nat, nat)) {
    a.0 < b.0 || (a.0 == b.0 &&
    (a.1 < b.1 || (a.1 == b.1 &&
    (a.2 < b.2 || (a.2 == b.2 && a.3 < b.3)))))
  }

  /** A pass cannot go on for ever: every step of the evaluator after the snapshot lowers its
      rank, and no step of others touches it. */
  lemma PassesEnd(s: Sys, step: Step)
    requires Enabled(s, step)
    ensures OfEvaluator(step) && !step.Snapshot? ==> Below(Rank(Apply(s, step).ev), Rank(s.ev))
    ensures !OfEvaluator(step) ==> Apply(s, step).ev == s.ev
  {
    if step.WriteBaseline? { assert |TYPE_ORDER| == 3; }
  }

  ghost function AnyOrder(s: set<ObjectRef>): (order: seq<ObjectRef>)
    ensures Enumerates(order, s)
  {
    if s == {} then []
    else var x :| x in s; var rest := AnyOrder(s - {x}); assert x !in rest; [x] + rest
  }

  /** The evaluator is never stuck, whatever others have done. */
  lemma EvaluatorCanStep(s: Sys) returns (step: Step)
    requires Conserved(s)
    ensures OfEvaluator(step) && Enabled(s, step)
  {
    match s.ev
    case Idle => step := Snapshot(AnyOrder(s.m.jobQueue));
    case Picking(batch, failed) => step := if batch == [] then CloseBatch(AnyOrder(failed)) else Begin;
    case Requeuing(_, _) => step := Requeue;
    case Evaluating(batch, _, stage) =>
      match stage
      case Fetching(_) => step := Observe(Absent);
      case Writing(_) => step := WriteBaseline;
      case Reporting(types, _, _, todo) =>
        if todo != [] {
          step := ReportOne(Updated);
        } else if types == [] {
          step := Conclude;
        } else {
          var row := s.m.rows.Get(types[0]);
          step := ReadTrackers(if batch[0] in row then AnyOrder(row[batch[0]]) else []);
        }
  }

  // ---------------------------------------------------------------- atomic evaluations

  /** No registration or unregistration falls between two steps of one evaluation. */
  ghost predicate AtomicEvaluations(s: Sys, steps: seq<Step>)
    requires Legal(s, steps)
    decreases |steps|
  {
    steps != [] ==>
      && (s.ev.Evaluating? ==> !steps[0].DoRegister? && !steps[0].DoUnregister?)
      && AtomicEvaluations(Apply(s, steps[0]), steps[1..])
  }

  ghost predicate WatchersStart(steps: seq<Step>) {
    forall step | step in steps && step.DoRegister? :: step.c.watch.None?
  }

  /** Nothing is baselined that is not tracked. */
  ghost predicate BaselinesTracked(s: Sys) {
    && (forall r | r in s.m.index.hashes :: s.m.rows.Has(r))
    && (s.ev.Evaluating? ==> s.ev.batch != [] && s.ev.batch[0] in s.m.index.hashes)
  }

  ghost predicate Covered(x: Index) {
    && (forall r | r in x.hashes :: r.gvk in x.gvkResources && r in x.gvkResources[r.gvk])
    && x.watchers == x.gvkResources.Keys
  }

  /** No baseline is written for a resource that has lost its last tracker meanwhile. */
  ghost predicate NoLateWrite(s: Sys, steps: seq<Step>)
    requires Legal(s, steps)
    decreases |steps|
  {
    steps != [] ==>
      && (steps[0].WriteBaseline? ==> s.m.rows.Has(s.ev.batch[0]))
      && NoLateWrite(Apply(s, steps[0]), steps[1..])
  }

  ghost predicate HashedAreTracked(m: State) {
    forall r | r in m.index.hashes :: m.rows.Has(r)
  }

  /** A step makes an untracked resource baselined exactly when it writes a baseline late. */
  lemma BaselineLeaksExactly(s: Sys, step: Step)
    requires Enabled(s, step) && HashedAreTracked(s.m)
    ensures HashedAreTracked(Apply(s, step).m) <==> (step.WriteBaseline? ==> s.m.rows.Has(s.ev.batch[0]))
  {
    if step.WriteBaseline? {
      assert s.ev.batch[0] in Apply(s, step).m.index.hashes;
    }
  }

  lemma StepKeepsBaselinesTracked(s: Sys, step: Step)
    requires Enabled(s, step) && NoEmptyRows(s.m.rows) && BaselinesTracked(s)
    requires s.ev.Evaluating? ==> !step.DoRegister? && !step.DoUnregister?
    ensures BaselinesTracked(Apply(s, step))
  {
  }

  /** Evaluations that nothing interrupts never write late. */
  lemma {:induction false} AtomicNeverLate(s: Sys, steps: seq<Step>)
    requires Legal(s, steps) && NoEmptyRows(s.m.rows) && BaselinesTracked(s) && AtomicEvaluations(s, steps)
    ensures NoLateWrite(s, steps)
    decreases |steps|
  {
    if steps != [] {
      StepKeepsBaselinesTracked(s, steps[0]);
      match steps[0] {
        case DoRegister(r, t, q, c) => InsertRelation(s.m.rows, r, t, q);
        case DoUnregister(r, t, q) => EraseRelation(s.m.rows, r, t, q);
        case _ =>
      }
      AtomicNeverLate(Apply(s, steps[0]), steps[1..]);
    }
  }

  lemma UpdateGvkCovers(x: Index, r: ObjectRef, hash: Bytes)
    requires Covered(x)
    ensures Covered(UpdateGvk(Baseline(x, r, hash), r, None).index)
  {
  }

  lemma StopTrackingCovers(x: Index, r: ObjectRef)
    requires Covered(x)
    ensures Covered(StopTracking(x, r))
  {
    var x' := StopTracking(x, r);
    forall r' | r' in x'.hashes ensures r'.gvk in x'.gvkResources && r' in x'.gvkResources[r'.gvk] {
      assert r' in x.gvkResources[r'.gvk];
      if r'.gvk == r.gvk { assert r' in x.gvkResources[r.gvk] - {r}; }
    }
  }

  lemma StepKeepsCoverage(s: Sys, step: Step)
    requires Enabled(s, step) && IndexInvariant(s.m) && BaselinesTracked(s) && Covered(s.m.index)
    requires s.ev.Evaluating? ==> !step.DoRegister? && !step.DoUnregister?
    requires step.DoRegister? ==> step.c.watch.None?
    ensures Covered(Apply(s, step).m.index)
  {
    if step.DoRegister? {
      if step.r !in s.m.index.hashes && step.c.probe.Ok? { UpdateGvkCovers(s.m.index, step.r, step.c.probe.value); }
    } else if step.DoUnregister? {
      StopTrackingCovers(s.m.index, step.r);
    } else {
      OtherStepsOnlyWriteBaselines(s, step);
    }
  }

  /** A run without late writes that ends with nothing tracked ends with no baseline, no
      index entry and no watcher, even if some watcher starts failed. */
  lemma {:induction false} Drains(s: Sys, steps: seq<Step>)
    requires Legal(s, steps) && IndexInvariant(s.m) && HashedAreTracked(s.m) && NoLateWrite(s, steps)
    ensures HashedAreTracked(Exec(s, steps).m)
    ensures (forall r, t, q :: !Tracks(Exec(s, steps).m.rows, r, t, q)) ==>
              && Exec(s, steps).m.index.hashes == map[]
              && Exec(s, steps).m.index.gvkResources == map[]
              && Exec(s, steps).m.index.watchers == {}
              && Exec(s, steps).m.index.started == Exec(s, steps).m.index.cancelled
    decreases |steps|
  {
    if steps == [] {
      if forall r, t, q :: !Tracks(s.m.rows, r, t, q) {
        forall r ensures !s.m.rows.Has(r) { TrackedByRelation(s.m.rows, r); }
        forall g ensures g !in s.m.index.gvkResources {
          assert forall r :: !HasOfKind(s.m.rows, r, g);
        }
      }
    } else {
      StepKeepsIndex(s, steps[0]);
      BaselineLeaksExactly(s, steps[0]);
      Drains(Apply(s, steps[0]), steps[1..]);
    }
  }

  /** The premise is needed: an unregistration between the fetch and the write leaves a
      baseline that nothing tracks, and registering again then returns it without indexing
      the resource or starting a watcher. */
  lemma LateWriteBlindsTheNextRegistration(r: ObjectRef, q: ObjectRef, before: Bytes, after: Bytes)
    requires before != after
    ensures var start := Sys(EMPTY, Idle, NO_PAST);
            var steps := [DoRegister(r, Resource, q, Call(Ok(before), None)), DoReact(r), Snapshot([r])] +
                         LateWrite(r, q, after);
            && Initial(start) && Legal(start, steps)
            && !Exec(start, steps).m.rows.Has(r) && r in Exec(start, steps).m.index.hashes
            && var again := Register(Exec(start, steps).m, r, Resource, q, Call(Ok(after), None));
               again.result == Ok(after) && again.state.rows.Has(r) && again.state.index.watchers == {}
  {
    var call := Call(Ok(before), None);
    var m := Register(EMPTY, r, Resource, q, call).state;
    var s0 := Sys(EMPTY, Idle, NO_PAST);
    var s1 := Sys(m, Idle, NO_PAST);
    var s2, rest := Apply(s1, DoReact(r)), LateWrite(r, q, after);
    assert s2.m == Enqueue(m, r) && s2.m.jobQueue == {r};
    var s3 := Apply(s2, Snapshot([r]));
    assert s3.m == m && s3.ev == Picking([r], {});
    LateWriteRuns(s3, r, q, before, after);
    ConsRun(s2, Snapshot([r]), rest);
    ConsRun(s1, DoReact(r), [Snapshot([r])] + rest);
    ConsRun(s0, DoRegister(r, Resource, q, call), [DoReact(r)] + ([Snapshot([r])] + rest));
    assert [DoRegister(r, Resource, q, call), DoReact(r), Snapshot([r])] + rest ==
           [DoRegister(r, Resource, q, call)] + ([DoReact(r)] + ([Snapshot([r])] + rest));
  }

  /** An evaluation with an unregistration between the fetch and the write. */
  function LateWrite(r: ObjectRef, q: ObjectRef, after: Bytes): seq<Step> {
    [Begin, Observe(Digest(after)), DoUnregister(r, Resource, q), WriteBaseline]
  }

  lemma LateWriteRuns(s: Sys, r: ObjectRef, q: ObjectRef, before: Bytes, after: Bytes)
    requires s.m == Register(EMPTY, r, Resource, q, Call(Ok(before), None)).state && s.ev == Picking([r], {})
    requires before != after
    ensures var steps := LateWrite(r, q, after);
            && Legal(s, steps)
            && Exec(s, steps).m.rows == EMPTY.rows && Exec(s, steps).m.index.hashes == map[r := after]
            && Exec(s, steps).m.index.watchers == {}
  {
    var s1 := Apply(s, Begin);
    assert s1.m == s.m && s1.ev == Evaluating([r], {}, Fetching(before));
    var s2 := Apply(s1, Observe(Digest(after)));
    assert s2.m == s.m && s2.ev == Evaluating([r], {}, Writing(after));
    UnregisterUndoesRegister(EMPTY, r, Resource, q, Call(Ok(before), None));
    var s3 := Apply(s2, DoUnregister(r, Resource, q));
    LastWrite(s3, r, after);
    ConsRun(s2, DoUnregister(r, Resource, q), [WriteBaseline]);
    ConsRun(s1, Observe(Digest(after)), [DoUnregister(r, Resource, q), WriteBaseline]);
    ConsRun(s, Begin, [Observe(Digest(after)), DoUnregister(r, Resource, q), WriteBaseline]);
  }

  lemma LastWrite(s: Sys, r: ObjectRef, hash: Bytes)
    requires s.ev == Evaluating([r], {}, Writing(hash))
    ensures Legal(s, [WriteBaseline]) && Exec(s, [WriteBaseline]).m == s.m.(index := Baseline(s.m.index, r, hash))
  {
    ConsRun(s, WriteBaseline, []);
    assert [WriteBaseline] + [] == [WriteBaseline];
  }

  lemma ConsRun(s: Sys, step: Step, rest: seq<Step>)
    requires Enabled(s, step) && Legal(Apply(s, step), rest)
    ensures Legal(s, [step] + rest) && Exec(s, [step] + rest) == Exec(Apply(s, step), rest)
  {
    assert ([step] + rest)[1..] == rest;
  }

  // ---------------------------------------------------------------- failed watcher starts

  ghost predicate StaysIndexed(s: Sys, steps: seq<Step>, g: Gvk)
    requires Legal(s, steps)
    decreases |steps|
  {
    && g in s.m.index.gvkResources
    && (steps != [] ==> StaysIndexed(Apply(s, steps[0]), steps[1..], g))
  }

  /** For as long as a GVK stays indexed, no informer of it is started or cancelled. */
  lemma {:induction false} IndexedGvkKeepsItsWatcher(s: Sys, steps: seq<Step>, g: Gvk)
    requires Legal(s, steps) && StaysIndexed(s, steps, g)
    ensures var x, x' := s.m.index, Exec(s, steps).m.index;
            && (g in x'.watchers <==> g in x.watchers)
            && x'.started[g] == x.started[g] && x'.cancelled[g] == x.cancelled[g]
    decreases |steps|
  {
    if steps != [] {
      var s' := Apply(s, steps[0]);
      assert g in s'.m.index.gvkResources;
      if !steps[0].DoRegister? && !steps[0].DoUnregister? { OtherStepsOnlyWriteBaselines(s, steps[0]); }
      IndexedGvkKeepsItsWatcher(s', steps[1..], g);
    }
  }

  /** A watcher start that fails is not made up for: until every resource of the GVK is
      unregistered, its resources are tracked without a watcher. */
  lemma FailedStartIsNotRepeated(s: Sys, r: ObjectRef, t: ResourceType, q: ObjectRef, hash: Bytes, error: Error,
                                 steps: seq<Step>)
    requires IndexInvariant(s.m) && r !in s.m.index.hashes && r.gvk !in s.m.index.gvkResources
    requires var s' := Apply(s, DoRegister(r, t, q, Call(Ok(hash), Some(error))));
             Legal(s', steps) && StaysIndexed(s', steps, r.gvk)
    ensures var s' := Apply(s, DoRegister(r, t, q, Call(Ok(hash), Some(error))));
            r.gvk !in Exec(s', steps).m.index.watchers
  {
    IndexedGvkKeepsItsWatcher(Apply(s, DoRegister(r, t, q, Call(Ok(hash), Some(error)))), steps, r.gvk);
  }

  // ---------------------------------------------------------------- baselined and not indexed

  ghost predicate StaysBaselined(s: Sys, steps: seq<Step>, r: ObjectRef)
    requires Legal(s, steps)
    decreases |steps|
  {
    && r in s.m.index.hashes
    && (steps != [] ==> StaysBaselined(Apply(s, steps[0]), steps[1..], r))
  }

  lemma StepKeepsMembership(s: Sys, step: Step, r: ObjectRef)
    requires Enabled(s, step) && r in s.m.index.hashes && r in Apply(s, step).m.index.hashes
    ensures Member(Apply(s, step).m.index, r) <==> Member(s.m.index, r)
  {
    if step.DoRegister? {
      RegisterKeepsMember(s.m, step.r, step.t, step.q, step.c, r);
    } else if step.DoUnregister? {
      if step.r != r { StopTrackingKeepsMember(s.m.index, step.r, r); }
    } else {
      OtherStepsOnlyWriteBaselines(s, step);
    }
  }

  lemma RegisterKeepsMember(m: State, r': ObjectRef, t: ResourceType, q: ObjectRef, c: Call, r: ObjectRef)
    requires r in m.index.hashes
    ensures Member(Register(m, r', t, q, c).state.index, r) <==> Member(m.index, r)
  {
  }

  /** For as long as a resource stays baselined it stays indexed or not indexed: a registration
      finds its baseline and returns early. */
  lemma {:induction false} BaselinedKeepsMembership(s: Sys, steps: seq<Step>, r: ObjectRef)
    requires Legal(s, steps) && StaysBaselined(s, steps, r)
    ensures Member(Exec(s, steps).m.index, r) <==> Member(s.m.index, r)
    decreases |steps|
  {
    if steps != [] {
      assert StaysBaselined(Apply(s, steps[0]), steps[1..], r);
      StepKeepsMembership(s, steps[0], r);
      BaselinedKeepsMembership(Apply(s, steps[0]), steps[1..], r);
    }
  }

  lemma StopTrackingKeepsMember(x: Index, r': ObjectRef, r: ObjectRef)
    requires r != r'
    ensures Member(StopTracking(x, r'), r) <==> Member(x, r)
  {
    if r.gvk == r'.gvk && Member(x, r) { assert r in x.gvkResources[r.gvk] - {r'}; }
  }

  // ---------------------------------------------------------------- kustomize notifications

  /** Throughout the run `r` is tracked, if at all, only as a kustomize resource. */
  ghost predicate OnlyKustomize(s: Sys, steps: seq<Step>, r: ObjectRef)
    requires Legal(s, steps)
    decreases |steps|
  {
    && r !in s.m.rows.resources && r !in s.m.rows.helm
    && (steps != [] ==> OnlyKustomize(Apply(s, steps[0]), steps[1..], r))
  }

  /** However often such a resource changes, it is never queued, so its drift goes unnoticed. */
  lemma {:induction false} KustomizeChangesAreNeverQueued(s: Sys, steps: seq<Step>, r: ObjectRef)
    requires Legal(s, steps) && OnlyKustomize(s, steps, r) && r !in Pending(s)
    requires s.ev.Evaluating? ==> s.ev.batch != []
    ensures r !in Pending(Exec(s, steps))
    decreases |steps|
  {
    if steps != [] {
      if (s.ev.Picking? || s.ev.Evaluating?) && s.ev.batch != [] { HeadTail(s.ev.batch); }
      if s.ev.Requeuing? && s.ev.left != [] { HeadTail(s.ev.left); }
      KustomizeChangesAreNeverQueued(Apply(s, steps[0]), steps[1..], r);
    }
  }

  /** With atomic evaluations and no failed watcher start, the baselined resources are exactly
      the indexed ones and the watched GVKs are exactly the indexed ones. */
  lemma {:induction false} WatchesCover(s: Sys, steps: seq<Step>)
    requires Legal(s, steps) && IndexInvariant(s.m) && BaselinesTracked(s) && Covered(s.m.index)
    requires AtomicEvaluations(s, steps) && WatchersStart(steps)
    ensures var x := Exec(s, steps).m.index;
            && x.watchers == x.gvkResources.Keys
            && forall r :: r in x.hashes <==> exists g :: g in x.gvkResources && r in x.gvkResources[g]
    decreases |steps|
  {
    if steps == [] {
      var x := s.m.index;
      forall r ensures r in x.hashes <==> exists g :: g in x.gvkResources && r in x.gvkResources[g] {
        if r in x.hashes { assert r.gvk in x.gvkResources && r in x.gvkResources[r.gvk]; }
      }
    } else {
      StepKeepsIndex(s, steps[0]);
      StepKeepsBaselinesTracked(s, steps[0]);
      StepKeepsCoverage(s, steps[0]);
      WatchesCover(Apply(s, steps[0]), steps[1..]);
    }
  }
}
