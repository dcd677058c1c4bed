/** What a successful reconcile writes to the status, and that repeating it changes nothing. */
module Idempotence {
  import opened Types
  import opened Tracking
  import opened Fingerprint
  import opened Evaluation
  import opened Reconciling

  /** The status list of a type: one entry per non-ignored resource in spec order, holding
      the hex of its baseline, or nothing if it has none. */
  function StatusOf(m: State, entries: seq<Entry>): seq<HashEntry> {
    if entries == [] then []
    else if entries[0].ignore then StatusOf(m, entries[1..])
    else [HashEntry(entries[0], Hex(TextOf(m, entries[0].ref)))] + StatusOf(m, entries[1..])
  }

  function TextOf(m: State, r: ObjectRef): Bytes {
    if r in m.index.hashes then m.index.hashes[r] else []
  }

  /** The cluster answers every question about a resource in the same way. */
  ghost predicate Steady(entries: seq<Entry>, calls: seq<Call>, answer: ObjectRef -> Call) {
    && |entries| == |calls|
    && (forall i | 0 <= i < |entries| :: calls[i] == answer(entries[i].ref))
  }

  // ---------------------------------------------------------------- swallowed watcher starts

  /** Registering the entry gives its resource a first baseline. */
  predicate FirstBaseline(m: State, e: Entry, c: Call) {
    !e.ignore && e.ref !in m.index.hashes && c.probe.Ok?
  }

  /** The `i`th entry is the one that starts the watcher of its GVK. */
  predicate Opens(m: State, entries: seq<Entry>, calls: seq<Call>, i: nat)
    requires |entries| == |calls| && i < |entries|
  {
    && FirstBaseline(m, entries[i], calls[i])
    && Unknown(m.index, entries[i].ref.gvk)
    && forall j | 0 <= j < i && FirstBaseline(m, entries[j], calls[j]) :: entries[j].ref.gvk != entries[i].ref.gvk
  }

  predicate LosesDigest(c: Call) {
    c.probe.Ok? && c.probe.value != [] && c.watch == Some(NotFound)
  }

  /** A registration loop started in `m` meets a watcher start answered not-found, which it
      takes for a resource that does not exist, although it has just baselined it. */
  ghost predicate StartSwallowed(m: State, entries: seq<Entry>, calls: seq<Call>)
    requires |entries| == |calls|
  {
    exists i: nat | i < |entries| :: Opens(m, entries, calls, i) && LosesDigest(calls[i])
  }

  /** The same said entry by entry. */
  lemma SwallowedHereOrLater(m: State, q: ObjectRef, t: ResourceType, entries: seq<Entry>, calls: seq<Call>)
    requires |entries| == |calls| && entries != []
    ensures var next := if entries[0].ignore then m else Register(m, entries[0].ref, t, q, calls[0]).state;
            StartSwallowed(m, entries, calls) <==>
            (Opens(m, entries, calls, 0) && LosesDigest(calls[0])) || StartSwallowed(next, entries[1..], calls[1..])
  {
    var next := if entries[0].ignore then m else Register(m, entries[0].ref, t, q, calls[0]).state;
    forall i: nat | 0 < i < |entries| ensures Opens(m, entries, calls, i) <==> Opens(next, entries[1..], calls[1..], i - 1) {
      OpensLater(m, q, t, entries, calls, i);
    }
    if StartSwallowed(m, entries, calls) {
      var i: nat :| i < |entries| && Opens(m, entries, calls, i) && LosesDigest(calls[i]);
      if i > 0 { assert Opens(next, entries[1..], calls[1..], i - 1) && LosesDigest(calls[1..][i - 1]); }
    }
    if StartSwallowed(next, entries[1..], calls[1..]) {
      var i: nat :| i < |entries[1..]| && Opens(next, entries[1..], calls[1..], i) && LosesDigest(calls[1..][i]);
      assert Opens(m, entries, calls, i + 1) && LosesDigest(calls[i + 1]);
    }
  }

  lemma OpensLater(m: State, q: ObjectRef, t: ResourceType, entries: seq<Entry>, calls: seq<Call>, i: nat)
    requires |entries| == |calls| && 0 < i < |entries|
    ensures var next := if entries[0].ignore then m else Register(m, entries[0].ref, t, q, calls[0]).state;
            Opens(m, entries, calls, i) <==> Opens(next, entries[1..], calls[1..], i - 1)
  {
    var next := if entries[0].ignore then m else Register(m, entries[0].ref, t, q, calls[0]).state;
    var g := entries[i].ref.gvk;
    assert entries[1..][i - 1] == entries[i] && calls[1..][i - 1] == calls[i];
    if FirstBaseline(m, entries[0], calls[0]) && entries[0].ref.gvk == g {
      assert g in next.index.gvkResources;
    } else {
      SameOutside(m, entries[0], t, q, calls[0], g);
      if Opens(m, entries, calls, i) {
        forall j | 0 <= j < i - 1 && FirstBaseline(next, entries[1..][j], calls[1..][j])
          ensures entries[1..][j].ref.gvk != g
        {
          assert entries[j + 1] == entries[1..][j] && calls[j + 1] == calls[1..][j];
        }
      }
      if Opens(next, entries[1..], calls[1..], i - 1) {
        forall j | 0 <= j < i && FirstBaseline(m, entries[j], calls[j]) ensures entries[j].ref.gvk != g {
          if j > 0 { assert entries[j] == entries[1..][j - 1] && calls[j] == calls[1..][j - 1]; }
        }
      }
    }
  }

  /** A registration that opens no other GVK changes nothing for it. */
  lemma SameOutside(m: State, e: Entry, t: ResourceType, q: ObjectRef, c: Call, g: Gvk)
    requires !(FirstBaseline(m, e, c) && e.ref.gvk == g)
    ensures var next := if e.ignore then m else Register(m, e.ref, t, q, c).state;
            && (Unknown(next.index, g) <==> Unknown(m.index, g))
            && forall r: ObjectRef | r.gvk == g :: r in next.index.hashes <==> r in m.index.hashes
  {
  }

  // ---------------------------------------------------------------- when a registration loop ends

  /** The API server is asked about the `i`th entry. */
  predicate Asks(m: State, entries: seq<Entry>, calls: seq<Call>, i: nat)
    requires |entries| == |calls| && i < |entries|
  {
    && !entries[i].ignore && entries[i].ref !in m.index.hashes
    && forall j | 0 <= j < i && FirstBaseline(m, entries[j], calls[j]) :: entries[j].ref != entries[i].ref
  }

  /** The `i`th entry meets an error other than not-found. */
  predicate Blocks(m: State, entries: seq<Entry>, calls: seq<Call>, i: nat)
    requires |entries| == |calls| && i < |entries|
  {
    || (Asks(m, entries, calls, i) && calls[i].probe == Err(OtherError))
    || (Opens(m, entries, calls, i) && calls[i].watch == Some(OtherError))
  }

  lemma AsksLater(m: State, q: ObjectRef, t: ResourceType, entries: seq<Entry>, calls: seq<Call>, i: nat)
    requires |entries| == |calls| && 0 < i < |entries|
    ensures var next := if entries[0].ignore then m else Register(m, entries[0].ref, t, q, calls[0]).state;
            Asks(m, entries, calls, i) <==> Asks(next, entries[1..], calls[1..], i - 1)
  {
    var next := if entries[0].ignore then m else Register(m, entries[0].ref, t, q, calls[0]).state;
    var r := entries[i].ref;
    RegisterBaselines(m, entries[0].ref, t, q, calls[0]);
    assert entries[1..][i - 1] == entries[i] && calls[1..][i - 1] == calls[i];
    assert r in next.index.hashes <==> r in m.index.hashes || (FirstBaseline(m, entries[0], calls[0]) && entries[0].ref == r);
    if r !in next.index.hashes {
      forall j | 0 < j < i && entries[j].ref == r
        ensures FirstBaseline(m, entries[j], calls[j]) <==> FirstBaseline(next, entries[1..][j - 1], calls[1..][j - 1])
      {
        assert entries[j] == entries[1..][j - 1] && calls[j] == calls[1..][j - 1];
      }
      assert forall j | 0 <= j < i - 1 :: entries[1..][j] == entries[j + 1];
    }
  }

  /** A registration loop ends without error exactly if no entry meets an error other than
      not-found: neither when it is asked about, nor when it starts the watcher of a new GVK. */
  lemma {:induction false} RegistrationSucceedsExactly(m: State, q: ObjectRef, t: ResourceType, entries: seq<Entry>,
                                                       calls: seq<Call>)
    requires |entries| == |calls|
    ensures RegisterAll(m, q, t, entries, calls).result.Ok? <==>
            forall i: nat | i < |entries| :: !Blocks(m, entries, calls, i)
    decreases |entries|
  {
    if entries != [] {
      var next := if entries[0].ignore then m else Register(m, entries[0].ref, t, q, calls[0]).state;
      forall i: nat | 0 < i < |entries|
        ensures Blocks(m, entries, calls, i) <==> Blocks(next, entries[1..], calls[1..], i - 1)
      {
        AsksLater(m, q, t, entries, calls, i);
        OpensLater(m, q, t, entries, calls, i);
      }
      HeadBlocks(m, q, t, entries, calls);
      RegistrationSucceedsExactly(next, q, t, entries[1..], calls[1..]);
      if !Blocks(m, entries, calls, 0) && RegisterAll(next, q, t, entries[1..], calls[1..]).result.Ok? {
        forall i: nat | i < |entries| ensures !Blocks(m, entries, calls, i) {
          if i > 0 { assert !Blocks(next, entries[1..], calls[1..], i - 1); }
        }
      }
      if forall i: nat | i < |entries| :: !Blocks(m, entries, calls, i) {
        forall i: nat | i < |entries[1..]| ensures !Blocks(next, entries[1..], calls[1..], i) {
          assert !Blocks(m, entries, calls, i + 1);
        }
        assert !Blocks(m, entries, calls, 0);
      }
    }
  }

  lemma HeadBlocks(m: State, q: ObjectRef, t: ResourceType, entries: seq<Entry>, calls: seq<Call>)
    requires |entries| == |calls| && entries != []
    ensures Blocks(m, entries, calls, 0) <==>
            !entries[0].ignore && Register(m, entries[0].ref, t, q, calls[0]).result == Err(OtherError)
  {
  }

  /** A fetch that is refused, or an object that cannot be patched, ends the reconcile of the type
      with an error. */
  lemma RefusedFetchEndsReconcile(p: Platform, w: World, q: ObjectRef, t: ResourceType, entries: seq<Entry>,
                                  answers: seq<Answer>, patches: seq<Patch>, drop: seq<ObjectRef>, i: nat)
    requires |entries| == |answers| && i < |entries|
    requires !entries[i].ignore && entries[i].ref !in w.m.index.hashes
    requires forall j | 0 <= j < i :: entries[j].ref != entries[i].ref
    requires Refused(p, answers[i].fetch, patches)
    ensures UpdateType(w, q, t, entries, CallsOf(p, answers, patches), drop).result == Err(OtherError)
  {
    RefusedProbe(p, answers[i].fetch, patches);
    RegistrationSucceedsExactly(w.m, q, t, entries, CallsOf(p, answers, patches));
    assert Blocks(w.m, entries, CallsOf(p, answers, patches), i);
    OnlyOtherErrors(w.m, q, t, entries, CallsOf(p, answers, patches));
  }

  lemma {:induction false} OnlyOtherErrors(m: State, q: ObjectRef, t: ResourceType, entries: seq<Entry>,
                                           calls: seq<Call>)
    requires |entries| == |calls|
    ensures var result := RegisterAll(m, q, t, entries, calls).result; result.Err? ==> result == Err(OtherError)
    decreases |entries|
  {
    if entries != [] {
      var next := if entries[0].ignore then m else Register(m, entries[0].ref, t, q, calls[0]).state;
      OnlyOtherErrors(next, q, t, entries[1..], calls[1..]);
    }
  }

  /** `r` has a baseline, or is known not to exist. */
  predicate Resolved(m: State, r: ObjectRef, answer: ObjectRef -> Call) {
    r in m.index.hashes || answer(r).probe == Err(NotFound)
  }

  predicate Kept(a: State, b: State, r: ObjectRef) {
    (r in a.index.hashes <==> r in b.index.hashes) && TextOf(a, r) == TextOf(b, r)
  }

  lemma NonIgnoredCons(entries: seq<Entry>)
    requires entries != []
    ensures NonIgnored(entries) == (if entries[0].ignore then {} else {entries[0].ref}) + NonIgnored(entries[1..])
  {
    assert entries == [entries[0]] + entries[1..];
  }

  lemma {:induction false} StatusOfKept(a: State, b: State, entries: seq<Entry>)
    requires forall r | r in NonIgnored(entries) :: Kept(a, b, r)
    ensures StatusOf(a, entries) == StatusOf(b, entries)
  {
    if entries != [] {
      NonIgnoredCons(entries);
      StatusOfKept(a, b, entries[1..]);
    }
  }

  lemma SteadyTail(entries: seq<Entry>, calls: seq<Call>, answer: ObjectRef -> Call)
    requires Steady(entries, calls, answer) && entries != []
    ensures Steady(entries[1..], calls[1..], answer) && calls[0] == answer(entries[0].ref)
  {
    forall i | 0 <= i < |entries| - 1 ensures calls[1..][i] == answer(entries[1..][i].ref) {
      assert calls[i + 1] == answer(entries[i + 1].ref);
    }
  }

  lemma {:induction false} RegisterAllKeeps(m: State, q: ObjectRef, t: ResourceType, entries: seq<Entry>,
                                            calls: seq<Call>,
                                            answer: ObjectRef -> Call, r: ObjectRef)
    requires Steady(entries, calls, answer) && Resolved(m, r, answer)
    ensures Kept(m, RegisterAll(m, q, t, entries, calls).m, r)
    decreases |entries|
  {
    if entries != [] {
      SteadyTail(entries, calls, answer);
      if entries[0].ignore {
        RegisterAllKeeps(m, q, t, entries[1..], calls[1..], answer, r);
      } else {
        var o := Register(m, entries[0].ref, t, q, calls[0]);
        RegisterBaselines(m, entries[0].ref, t, q, calls[0]);
        assert Kept(m, o.state, r);
        if o.result != Err(OtherError) {
          RegisterAllKeeps(o.state, q, t, entries[1..], calls[1..], answer, r);
        }
      }
    }
  }

  /** A registration that does not stop the reconcile leaves its resource resolved, and what it
      returns is its baseline, or nothing, unless a watcher start was swallowed. */
  lemma RegisterResolves(m: State, r: ObjectRef, t: ResourceType, q: ObjectRef, answer: ObjectRef -> Call)
    ensures var o := Register(m, r, t, q, answer(r));
            o.result != Err(OtherError) ==>
              && Resolved(o.state, r, answer)
              && (TextOf(o.state, r) == (if o.result.Ok? then o.result.value else []) <==>
                  !(r !in m.index.hashes && Unknown(m.index, r.gvk) && LosesDigest(answer(r))))
  {
    RegisterBaselines(m, r, t, q, answer(r));
    var o := Register(m, r, t, q, answer(r));
    assert o.result.Err? ==> o.result.error.NotFound? || o.result.error.OtherError?;
  }

  lemma HexEqual(a: Bytes, b: Bytes)
    ensures Hex(a) == Hex(b) <==> a == b
  {
    if Hex(a) == Hex(b) { HexInjective(a, b); }
  }

  /** What a registration loop writes is what the baselines say exactly when no watcher start
      is swallowed. */
  lemma {:induction false} RegisterAllResolves(m: State, q: ObjectRef, t: ResourceType, entries: seq<Entry>,
                                               calls: seq<Call>, answer: ObjectRef -> Call)
    requires Steady(entries, calls, answer) && RegisterAll(m, q, t, entries, calls).result.Ok?
    ensures var done := RegisterAll(m, q, t, entries, calls);
            && (done.result.value == StatusOf(done.m, entries) <==> !StartSwallowed(m, entries, calls))
            && forall r | r in NonIgnored(entries) :: Resolved(done.m, r, answer)
    decreases |entries|
  {
    if entries != [] {
      SteadyTail(entries, calls, answer);
      NonIgnoredCons(entries);
      SwallowedHereOrLater(m, q, t, entries, calls);
      if entries[0].ignore {
        RegisterAllResolves(m, q, t, entries[1..], calls[1..], answer);
      } else {
        var r, o := entries[0].ref, Register(m, entries[0].ref, t, q, calls[0]);
        RegisterResolves(m, r, t, q, answer);
        RegisterAllResolves(o.state, q, t, entries[1..], calls[1..], answer);
        RegisterAllKeeps(o.state, q, t, entries[1..], calls[1..], answer, r);
        var done, rest := RegisterAll(m, q, t, entries, calls), RegisterAll(o.state, q, t, entries[1..], calls[1..]);
        var hash := if o.result.Ok? then o.result.value else [];
        HexEqual(hash, TextOf(done.m, r));
        SameCons(HashEntry(entries[0], Hex(hash)), rest.result.value,
                 HashEntry(entries[0], Hex(TextOf(done.m, r))), StatusOf(done.m, entries[1..]));
      }
    }
  }

  lemma SameCons<T>(x: T, xs: seq<T>, y: T, ys: seq<T>)
    ensures [x] + xs == [y] + ys <==> x == y && xs == ys
  {
    if [x] + xs == [y] + ys {
      assert ([x] + xs)[0] == x && ([y] + ys)[0] == y;
      assert ([x] + xs)[1..] == xs && ([y] + ys)[1..] == ys;
    }
  }

  lemma {:induction false} UnregisterAllKeeps(m: State, q: ObjectRef, t: ResourceType, refs: seq<ObjectRef>,
                                              r: ObjectRef, t0: ResourceType)
    requires NoEmptyRows(m.rows) && Tracks(m.rows, r, t0, q) && (t0 != t || r !in refs)
    ensures Kept(m, UnregisterAll(m, q, t, refs), r)
    decreases |refs|
  {
    if refs != [] {
      var next := Unregister(m, refs[0], t, q);
      EraseRelation(m.rows, refs[0], t, q);
      assert next.rows == m.rows.Erase(refs[0], t, q);
      assert Tracks(next.rows, r, t0, q);
      TrackedByRelation(next.rows, r);
      assert Kept(m, next, r);
      UnregisterAllKeeps(next, q, t, refs[1..], r, t0);
    }
  }

  /** What one type of a reconcile leaves in place for good. */
  ghost predicate Done(w: World, q: ObjectRef, t: ResourceType, entries: seq<Entry>, answer: ObjectRef -> Call) {
    forall r | r in NonIgnored(entries) :: Tracks(w.m.rows, r, t, q) && Resolved(w.m, r, answer)
  }

  /** The premises of one type of a successful reconcile under a steady cluster. */
  ghost predicate StepOk(before: World, q: ObjectRef, spec: Spec, answers: Answers, drops: Drops, t: ResourceType,
                         answer: ObjectRef -> Call) {
    && Fits(spec, answers) && NoEmptyRows(before.m.rows)
    && Steady(spec.Get(t), answers.Get(t), answer)
    && (forall r | r in drops.Get(t) :: r !in Listed(spec.Get(t)))
    && TypeStep(before, q, spec, answers, drops, t).result.Ok?
  }

  lemma StepWrites(before: World, q: ObjectRef, spec: Spec, answers: Answers, drops: Drops, t: ResourceType,
                   answer: ObjectRef -> Call)
    requires StepOk(before, q, spec, answers, drops, t, answer)
    ensures var d := TypeStep(before, q, spec, answers, drops, t);
            && (d.result.value == StatusOf(d.world.m, spec.Get(t)) <==> !StartSwallowed(before.m, spec.Get(t), answers.Get(t)))
            && Done(d.world, q, t, spec.Get(t), answer)
            && NoEmptyRows(d.world.m.rows)
  {
    var entries, calls, drop := spec.Get(t), answers.Get(t), drops.Get(t);
    var m1 := RegisterAll(before.m, q, t, entries, calls).m;
    var m2 := UnregisterAll(m1, q, t, drop);
    RegisterAllResolves(before.m, q, t, entries, calls, answer);
    RegisterAllRelation(before.m, q, t, entries, calls);
    UnregisterAllRelation(m1, q, t, drop);
    forall r | r in NonIgnored(entries) ensures Kept(m1, m2, r) && Tracks(m2.rows, r, t, q) {
      assert r in Listed(entries);
      UnregisterAllKeeps(m1, q, t, drop, r, t);
    }
    StatusOfKept(m1, m2, entries);
  }

  /** A later type disturbs neither the rows nor the baselines of an earlier one. */
  lemma StepKeeps(before: World, q: ObjectRef, spec: Spec, answers: Answers, drops: Drops, t: ResourceType,
                  answer: ObjectRef -> Call, t0: ResourceType)
    requires StepOk(before, q, spec, answers, drops, t, answer)
    requires t0 != t && Done(before, q, t0, spec.Get(t0), answer)
    ensures var after := TypeStep(before, q, spec, answers, drops, t).world;
            && Done(after, q, t0, spec.Get(t0), answer)
            && StatusOf(after.m, spec.Get(t0)) == StatusOf(before.m, spec.Get(t0))
  {
    var entries, calls, drop := spec.Get(t), answers.Get(t), drops.Get(t);
    var m1 := RegisterAll(before.m, q, t, entries, calls).m;
    var m2 := UnregisterAll(m1, q, t, drop);
    RegisterAllRelation(before.m, q, t, entries, calls);
    UnregisterAllRelation(m1, q, t, drop);
    forall r | r in NonIgnored(spec.Get(t0)) ensures Kept(before.m, m2, r) && Tracks(m2.rows, r, t0, q) {
      RegisterAllKeeps(before.m, q, t, entries, calls, answer, r);
      UnregisterAllKeeps(m1, q, t, drop, r, t0);
    }
    StatusOfKept(before.m, m2, spec.Get(t0));
  }

  /** The premises of a reconcile under a steady cluster. */
  ghost predicate SteadyReconcile(w: World, q: ObjectRef, spec: Spec, answers: Answers, drops: Drops,
                                  answer: ObjectRef -> Call) {
    && Fits(spec, answers) && NoEmptyRows(w.m.rows)
    && (forall t :: Steady(spec.Get(t), answers.Get(t), answer))
    && (forall t :: Enumerates(drops.Get(t), OldRefs(w, q, t) - Listed(spec.Get(t))))
  }

  ghost predicate SwallowedAt(w: World, q: ObjectRef, spec: Spec, answers: Answers, drops: Drops, t: ResourceType)
    requires Fits(spec, answers)
  {
    StartSwallowed(Turn(w, q, spec, answers, drops, t).m, spec.Get(t), answers.Get(t))
  }

  /** After a successful reconcile, a status list is exactly what the manager's baselines say
      if and only if no watcher start was swallowed on its turn; the flags are untouched, and
      the forward maps remember the spec. */
  lemma StatusAgrees(w: World, q: ObjectRef, spec: Spec, answers: Answers, drops: Drops, status: Status,
                     answer: ObjectRef -> Call)
    requires SteadyReconcile(w, q, spec, answers, drops, answer)
    ensures var done := Reconcile(w, q, spec, answers, drops, status);
            done.error.None? ==>
              && (forall t :: done.status.Get(t).hashes == StatusOf(done.world.m, spec.Get(t)) <==>
                              !SwallowedAt(w, q, spec, answers, drops, t))
              && (forall t :: done.status.Get(t).changed == status.Get(t).changed)
              && (forall t :: Done(done.world, q, t, spec.Get(t), answer))
              && (forall t :: done.world.forward.Get(t) == w.forward.Get(t)[q := Listed(spec.Get(t))])
              && NoEmptyRows(done.world.m.rows)
  {
    ThreeSteps(w, q, spec, answers, drops, status);
    var done := Reconcile(w, q, spec, answers, drops, status);
    if done.error.None? {
      ThreeTypesAgree(w, q, spec, answers, drops, answer);
      forall t ensures && (done.status.Get(t).hashes == StatusOf(done.world.m, spec.Get(t)) <==>
                           !SwallowedAt(w, q, spec, answers, drops, t))
                       && done.status.Get(t).changed == status.Get(t).changed {
        match t
        case Resource =>
        case KustomizeResource =>
        case HelmResource =>
      }
    }
  }

  /** The three types of a reconcile, each of which succeeds. */
  lemma ThreeTypesAgree(w: World, q: ObjectRef, spec: Spec, answers: Answers, drops: Drops, answer: ObjectRef -> Call)
    requires SteadyReconcile(w, q, spec, answers, drops, answer)
    ensures var d1 := TypeStep(w, q, spec, answers, drops, Resource);
            var d2 := TypeStep(d1.world, q, spec, answers, drops, KustomizeResource);
            var d3 := TypeStep(d2.world, q, spec, answers, drops, HelmResource);
            d1.result.Ok? && d2.result.Ok? && d3.result.Ok? ==>
              && (d1.result.value == StatusOf(d3.world.m, spec.resources) <==>
                  !SwallowedAt(w, q, spec, answers, drops, Resource))
              && (d2.result.value == StatusOf(d3.world.m, spec.kustomize) <==>
                  !SwallowedAt(w, q, spec, answers, drops, KustomizeResource))
              && (d3.result.value == StatusOf(d3.world.m, spec.helm) <==>
                  !SwallowedAt(w, q, spec, answers, drops, HelmResource))
              && (forall t :: Done(d3.world, q, t, spec.Get(t), answer))
              && (forall t :: d3.world.forward.Get(t) == w.forward.Get(t)[q := Listed(spec.Get(t))])
              && NoEmptyRows(d3.world.m.rows)
  {
    var d1 := TypeStep(w, q, spec, answers, drops, Resource);
    var d2 := TypeStep(d1.world, q, spec, answers, drops, KustomizeResource);
    var d3 := TypeStep(d2.world, q, spec, answers, drops, HelmResource);
    if d1.result.Ok? && d2.result.Ok? && d3.result.Ok? {
      StepWrites(w, q, spec, answers, drops, Resource, answer);
      StepWrites(d1.world, q, spec, answers, drops, KustomizeResource, answer);
      StepKeeps(d1.world, q, spec, answers, drops, KustomizeResource, answer, Resource);
      StepWrites(d2.world, q, spec, answers, drops, HelmResource, answer);
      StepKeeps(d2.world, q, spec, answers, drops, HelmResource, answer, Resource);
      StepKeeps(d2.world, q, spec, answers, drops, HelmResource, answer, KustomizeResource);
    }
  }

  lemma InsertNoop(v: Reverse, r: ObjectRef, t: ResourceType, q: ObjectRef)
    requires Tracks(v, r, t, q)
    ensures v.Insert(r, t, q) == v
  {
    var m := v.Get(t);
    assert m[r] + {q} == m[r];
    assert m[r := m[r]] == m;
  }

  lemma {:induction false} RegisterAllNoop(m: State, q: ObjectRef, t: ResourceType, entries: seq<Entry>,
                                           calls: seq<Call>,
                                           answer: ObjectRef -> Call)
    requires Steady(entries, calls, answer)
    requires forall r | r in NonIgnored(entries) :: Tracks(m.rows, r, t, q) && Resolved(m, r, answer)
    ensures RegisterAll(m, q, t, entries, calls) == Registered(m, Ok(StatusOf(m, entries)))
    decreases |entries|
  {
    if entries != [] {
      SteadyTail(entries, calls, answer);
      NonIgnoredCons(entries);
      RegisterAllNoop(m, q, t, entries[1..], calls[1..], answer);
      if !entries[0].ignore {
        InsertNoop(m.rows, entries[0].ref, t, q);
        var o := Register(m, entries[0].ref, t, q, calls[0]);
        assert Resolved(m, entries[0].ref, answer);
        assert o.state == m;
        assert o.result == if entries[0].ref in m.index.hashes then Ok(m.index.hashes[entries[0].ref]) else Err(NotFound);
      }
    }
  }

  lemma StepNoop(w: World, q: ObjectRef, spec: Spec, answers: Answers, drops: Drops, t: ResourceType,
                 answer: ObjectRef -> Call)
    requires Fits(spec, answers) && Steady(spec.Get(t), answers.Get(t), answer)
    requires Done(w, q, t, spec.Get(t), answer) && drops.Get(t) == []
    requires q in w.forward.Get(t) && w.forward.Get(t)[q] == Listed(spec.Get(t))
    ensures TypeStep(w, q, spec, answers, drops, t) == TypeDone(w, Ok(StatusOf(w.m, spec.Get(t))))
  {
    RegisterAllNoop(w.m, q, t, spec.Get(t), answers.Get(t), answer);
    assert w.forward.Get(t)[q := Listed(spec.Get(t))] == w.forward.Get(t);
  }

  /** The status a reconcile is to leave, given its flags. */
  function StatusFor(m: State, spec: Spec, flags: Status): Status {
    Status(flags.resources.(hashes := StatusOf(m, spec.resources)),
           flags.kustomize.(hashes := StatusOf(m, spec.kustomize)),
           flags.helm.(hashes := StatusOf(m, spec.helm)))
  }

  /** Reconciling what is already in place changes no map and writes what the baselines say. */
  lemma RepeatedReconcile(w: World, q: ObjectRef, spec: Spec, answers: Answers, drops: Drops, status: Status,
                          answer: ObjectRef -> Call)
    requires SteadyReconcile(w, q, spec, answers, drops, answer)
    requires forall t :: Done(w, q, t, spec.Get(t), answer)
    requires forall t :: q in w.forward.Get(t) && w.forward.Get(t)[q] == Listed(spec.Get(t))
    ensures Reconcile(w, q, spec, answers, drops, status) == Reconciled(w, StatusFor(w.m, spec, status), None)
  {
    forall t ensures TypeStep(w, q, spec, answers, drops, t) == TypeDone(w, Ok(StatusOf(w.m, spec.Get(t)))) {
      assert OldRefs(w, q, t) - Listed(spec.Get(t)) == {};
      EmptyEnumeration(drops.Get(t), {});
      StepNoop(w, q, spec, answers, drops, t, answer);
    }
    ThreeSteps(w, q, spec, answers, drops, status);
  }

  /** Reconciling again, with the spec and the cluster unchanged, changes no map, and changes
      no status list if and only if the first reconcile swallowed no watcher start. The
      reconciles after it change nothing at all. */
  lemma SecondReconcileChangesNothing(w: World, q: ObjectRef, spec: Spec, answers: Answers, drops: Drops,
                                      status: Status, answer: ObjectRef -> Call, answers': Answers, drops': Drops)
    requires SteadyReconcile(w, q, spec, answers, drops, answer)
    ensures var done := Reconcile(w, q, spec, answers, drops, status);
            done.error.None? && SteadyReconcile(done.world, q, spec, answers', drops', answer) ==>
              var again := Reconcile(done.world, q, spec, answers', drops', done.status);
              && again.world == done.world && again.error.None?
              && (again == done <==> forall t :: !SwallowedAt(w, q, spec, answers, drops, t))
              && Reconcile(again.world, q, spec, answers', drops', again.status) == again
  {
    StatusAgrees(w, q, spec, answers, drops, status, answer);
    var done := Reconcile(w, q, spec, answers, drops, status);
    if done.error.None? && SteadyReconcile(done.world, q, spec, answers', drops', answer) {
      assert forall t :: done.world.forward.Get(t)[q] == Listed(spec.Get(t));
      RepeatedReconcile(done.world, q, spec, answers', drops', done.status, answer);
      RepeatedReconcile(done.world, q, spec, answers', drops', StatusFor(done.world.m, spec, done.status), answer);
      AgreesEverywhere(done.world.m, spec, done.status);
    }
  }

  lemma AgreesEverywhere(m: State, spec: Spec, status: Status)
    ensures StatusFor(m, spec, status) == status <==> forall t :: status.Get(t).hashes == StatusOf(m, spec.Get(t))
  {
    if forall t :: status.Get(t).hashes == StatusOf(m, spec.Get(t)) {
      assert status.Get(Resource).hashes == StatusOf(m, spec.Get(Resource));
      assert status.Get(KustomizeResource).hashes == StatusOf(m, spec.Get(KustomizeResource));
      assert status.Get(HelmResource).hashes == StatusOf(m, spec.Get(HelmResource));
    }
  }

  /** A type with a single entry whose watcher start is answered not-found. */
  lemma OneEntry(w: World, q: ObjectRef, entry: Entry, c: Call)
    requires FirstBaseline(w.m, entry, c) && Unknown(w.m.index, entry.ref.gvk) && c.watch == Some(NotFound)
    ensures var d := UpdateType(w, q, Resource, [entry], [c], []);
            && d.result == Ok([HashEntry(entry, [])])
            && d.world.forward == Remember(w.forward, q, Resource, {entry.ref})
            && d.world.m.index.hashes == w.m.index.hashes[entry.ref := c.probe.value]
            && StatusOf(d.world.m, [entry]) == [HashEntry(entry, Hex(c.probe.value))]
  {
    var o := Register(w.m, entry.ref, Resource, q, c);
    assert o.result == Err(NotFound);
    assert [entry][1..] == [] && [c][1..] == [];
    assert RegisterAll(o.state, q, Resource, [entry][1..], [c][1..]) == Registered(o.state, Ok([]));
    assert [HashEntry(entry, Hex([]))] + [] == [HashEntry(entry, [])];
    assert RegisterAll(w.m, q, Resource, [entry], [c]) == Registered(o.state, Ok([HashEntry(entry, [])]));
    assert Listed([entry]) == {entry.ref};
  }

  lemma NoEntry(w: World, q: ObjectRef, t: ResourceType)
    ensures UpdateType(w, q, t, [], [], []) == TypeDone(World(Remember(w.forward, q, t, {}), w.m), Ok([]))
  {
    assert Listed([]) == {};
  }

  const NO_DROPS := Drops([], [], [])

  function OnePlain(entry: Entry): Spec {
    Spec([entry], [], [])
  }

  /** A watcher start answered not-found: the reconcile writes no digest although the manager
      holds one. */
  lemma SwallowedStartIsNotWritten(entry: Entry, q: ObjectRef, c: Call)
    requires !entry.ignore && LosesDigest(c)
    ensures var done := Reconcile(NOTHING, q, OnePlain(entry), Answers([c], [], []), NO_DROPS, NO_STATUS);
            && done.error.None?
            && done.world.m.index.hashes == map[entry.ref := c.probe.value]
            && done.status.resources.hashes == [HashEntry(entry, [])]
            && StatusOf(done.world.m, [entry]) == [HashEntry(entry, Hex(c.probe.value))]
            && forall t :: done.world.forward.Get(t) == map[q := Listed(OnePlain(entry).Get(t))]
  {
    var spec, answers := OnePlain(entry), Answers([c], [], []);
    var d1 := TypeStep(NOTHING, q, spec, answers, NO_DROPS, Resource);
    OneEntry(NOTHING, q, entry, c);
    NoEntry(d1.world, q, KustomizeResource);
    var d2 := TypeStep(d1.world, q, spec, answers, NO_DROPS, KustomizeResource);
    NoEntry(d2.world, q, HelmResource);
    ThreeSteps(NOTHING, q, spec, answers, NO_DROPS, NO_STATUS);
  }

  lemma OnePlainIsSteady(w: World, q: ObjectRef, entry: Entry, c: Call)
    requires NoEmptyRows(w.m.rows) && forall t :: OldRefs(w, q, t) <= Listed(OnePlain(entry).Get(t))
    ensures SteadyReconcile(w, q, OnePlain(entry), Answers([c], [], []), NO_DROPS, _ => c)
  {
    forall t ensures OldRefs(w, q, t) - Listed(OnePlain(entry).Get(t)) == {} {}
  }

  /** The next reconcile, with spec and cluster unchanged, writes it. */
  lemma SwallowedStartIsWrittenLate(entry: Entry, q: ObjectRef, c: Call)
    requires !entry.ignore && LosesDigest(c)
    ensures var spec, answers := OnePlain(entry), Answers([c], [], []);
            var done := Reconcile(NOTHING, q, spec, answers, NO_DROPS, NO_STATUS);
            var again := Reconcile(done.world, q, spec, answers, NO_DROPS, done.status);
            && done.status.resources.hashes == [HashEntry(entry, [])]
            && again.status.resources.hashes == [HashEntry(entry, Hex(c.probe.value))]
  {
    var spec, answers, answer: ObjectRef -> Call := OnePlain(entry), Answers([c], [], []), _ => c;
    SwallowedStartIsNotWritten(entry, q, c);
    var done := Reconcile(NOTHING, q, spec, answers, NO_DROPS, NO_STATUS);
    OnePlainIsSteady(NOTHING, q, entry, c);
    StatusAgrees(NOTHING, q, spec, answers, NO_DROPS, NO_STATUS, answer);
    OnePlainIsSteady(done.world, q, entry, c);
    RepeatedReconcile(done.world, q, spec, answers, NO_DROPS, done.status, answer);
  }
}
