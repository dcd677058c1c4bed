/** What the tracking manager keeps, and what registering and unregistering do to it. */
module Tracking {
  import opened Types

  type Rows = map<ObjectRef, set<ObjectRef>>

  /** The three maps from a resource to the summaries that reference it. */
  datatype Reverse = Reverse(resources: Rows, kustomize: Rows, helm: Rows) {
    function Get(t: ResourceType): Rows {
      match t
      case Resource => resources
      case KustomizeResource => kustomize
      case HelmResource => helm
    }

    function Set(t: ResourceType, m: Rows): (v: Reverse)
      ensures forall t' :: v.Get(t') == if t' == t then m else Get(t')
    {
      match t
      case Resource => this.(resources := m)
      case KustomizeResource => this.(kustomize := m)
      case HelmResource => this.(helm := m)
    }

    function Insert(r: ObjectRef, t: ResourceType, q: ObjectRef): (v: Reverse)
      ensures forall r' :: v.Has(r') <==> Has(r') || r' == r
    {
      var m := Get(t);
      Set(t, m[r := (if r in m then m[r] else {}) + {q}])
    }

    function Erase(r: ObjectRef, t: ResourceType, q: ObjectRef): (v: Reverse)
      ensures forall r' | r' != r :: v.Has(r') <==> Has(r')
    {
      var m := Get(t);
      if r !in m then this
      else if m[r] - {q} == {} then Set(t, m - {r})
      else Set(t, m[r := m[r] - {q}])
    }

    predicate Has(r: ObjectRef) {
      r in helm || r in kustomize || r in resources
    }
  }

  /** Baselines, the per-GVK index, the running watchers, and the informers started and
      cancelled so far. */
  datatype Index = Index(
    hashes: map<ObjectRef, Bytes>,
    gvkResources: map<Gvk, set<ObjectRef>>,
    watchers: set<Gvk>,
    started: multiset<Gvk>,
    cancelled: multiset<Gvk>)

  datatype State = State(rows: Reverse, index: Index, jobQueue: set<ObjectRef>)

  const EMPTY := State(Reverse(map[], map[], map[]), Index(map[], map[], {}, multiset{}, multiset{}), {})

  /** What the outside answers to one registration: the digest of the fetched object, or
      why there is none, and the error of the watcher start, if any. */
  datatype Call = Call(probe: Result<Bytes>, watch: Option<Error>)

  datatype Outcome = Outcome(state: State, result: Result<Bytes>)

  datatype Indexed = Indexed(index: Index, error: Option<Error>)

  // ---------------------------------------------------------------- watchers and index

  function StopWatcher(x: Index, g: Gvk): Index {
    if g in x.watchers then x.(cancelled := x.cancelled + multiset{g}) else x
  }

  function StopTracking(x: Index, r: ObjectRef): Index {
    var g, x1 := r.gvk, x.(hashes := x.hashes - {r});
    if g !in x1.gvkResources then x1
    else
      var members := x1.gvkResources[g] - {r};
      if members != {} then x1.(gvkResources := x1.gvkResources[g := members])
      else
        var x2 := StopWatcher(x1.(gvkResources := x1.gvkResources - {g}), g);
        x2.(watchers := x2.watchers - {g})
  }

  function StartWatcher(x: Index, g: Gvk, watch: Option<Error>): Indexed {
    if g in x.watchers then Indexed(x, None)
    else if watch.Some? then Indexed(x, watch)
    else Indexed(x.(watchers := x.watchers + {g}, started := x.started + multiset{g}), None)
  }

  function UpdateGvk(x: Index, r: ObjectRef, watch: Option<Error>): Indexed {
    var g := r.gvk;
    if g in x.gvkResources then
      Indexed(x.(gvkResources := x.gvkResources[g := x.gvkResources[g] + {r}]), None)
    else
      var started := StartWatcher(x.(gvkResources := x.gvkResources[g := {}]), g, watch);
      if started.error.Some? then started
      else Indexed(started.index.(gvkResources := started.index.gvkResources[g := {r}]), None)
  }

  // ---------------------------------------------------------------- the operations

  function Baseline(x: Index, r: ObjectRef, hash: Bytes): Index {
    x.(hashes := x.hashes[r := hash])
  }

  function Register(s: State, r: ObjectRef, t: ResourceType, q: ObjectRef, c: Call): Outcome {
    var s1 := s.(rows := s.rows.Insert(r, t, q));
    if r in s.index.hashes then Outcome(s1, Ok(s.index.hashes[r]))
    else if c.probe.Err? then Outcome(s1, c.probe)
    else
      var u := UpdateGvk(Baseline(s.index, r, c.probe.value), r, c.watch);
      Outcome(s1.(index := u.index), if u.error.Some? then Err(u.error.value) else c.probe)
  }

  function Unregister(s: State, r: ObjectRef, t: ResourceType, q: ObjectRef): State {
    if r !in s.rows.Get(t) then s
    else
      var s1 := s.(rows := s.rows.Erase(r, t, q));
      if s1.rows.Has(r) then s1 else s1.(index := StopTracking(s.index, r))
  }

  function Enqueue(s: State, r: ObjectRef): State {
    s.(jobQueue := s.jobQueue + {r})
  }

  /** A change notification: rows of kustomize resources are not consulted. */
  function React(s: State, r: ObjectRef): State {
    if (r in s.rows.resources && s.rows.resources[r] != {}) || (r in s.rows.helm && s.rows.helm[r] != {})
    then Enqueue(s, r)
    else s
  }

  // ---------------------------------------------------------------- the relation

  /** Summary `q` asked for `r` to be tracked as a resource of type `t`. */
  predicate Tracks(v: Reverse, r: ObjectRef, t: ResourceType, q: ObjectRef) {
    r in v.Get(t) && q in v.Get(t)[r]
  }

  ghost predicate NoEmptyRows(v: Reverse) {
    forall t, r | r in v.Get(t) :: v.Get(t)[r] != {}
  }

  /** Inserting adds exactly one triple to the relation. */
  lemma InsertRelation(v: Reverse, r: ObjectRef, t: ResourceType, q: ObjectRef)
    ensures forall r', t', q' :: Tracks(v.Insert(r, t, q), r', t', q') <==>
                                 Tracks(v, r', t', q') || (r', t', q') == (r, t, q)
    ensures NoEmptyRows(v) ==> NoEmptyRows(v.Insert(r, t, q))
  {
    assert Tracks(v.Insert(r, t, q), r, t, q);
  }

  /** Erasing removes exactly one triple and never leaves an empty row behind. */
  lemma EraseRelation(v: Reverse, r: ObjectRef, t: ResourceType, q: ObjectRef)
    requires NoEmptyRows(v)
    ensures forall r', t', q' :: Tracks(v.Erase(r, t, q), r', t', q') <==>
                                 Tracks(v, r', t', q') && (r', t', q') != (r, t, q)
    ensures NoEmptyRows(v.Erase(r, t, q))
  {
    forall r', t', q' ensures Tracks(v.Erase(r, t, q), r', t', q') <==>
                              Tracks(v, r', t', q') && (r', t', q') != (r, t, q) {
      if r in v.Get(t) && t' == t && r' == r && q' != q && q' in v.Get(t)[r] {
        assert q' in v.Get(t)[r] - {q};
      }
    }
  }

  /** A resource is still tracked exactly when some summary tracks it under some type. */
  lemma TrackedByRelation(v: Reverse, r: ObjectRef)
    requires NoEmptyRows(v)
    ensures v.Has(r) <==> exists t, q :: Tracks(v, r, t, q)
  {
    if v.Has(r) {
      var t := if r in v.resources then Resource else if r in v.helm then HelmResource else KustomizeResource;
      assert r in v.Get(t);
      var q :| q in v.Get(t)[r];
      assert Tracks(v, r, t, q);
    }
  }

  /** Without empty rows the three maps are determined by the relation they represent. */
  lemma RelationDeterminesRows(a: Reverse, b: Reverse)
    requires NoEmptyRows(a) && NoEmptyRows(b)
    requires forall r, t, q :: Tracks(a, r, t, q) <==> Tracks(b, r, t, q)
    ensures a == b
  {
    forall t ensures a.Get(t) == b.Get(t) {
      forall r ensures r in a.Get(t) <==> r in b.Get(t) {
        if r in a.Get(t) { var q :| q in a.Get(t)[r]; assert Tracks(a, r, t, q); }
        if r in b.Get(t) { var q :| q in b.Get(t)[r]; assert Tracks(b, r, t, q); }
      }
      forall r | r in a.Get(t) ensures a.Get(t)[r] == b.Get(t)[r] {
        forall q ensures q in a.Get(t)[r] <==> q in b.Get(t)[r] {
          assert Tracks(a, r, t, q) <==> Tracks(b, r, t, q);
        }
      }
    }
    assert a.Get(Resource) == b.Get(Resource);
    assert a.Get(HelmResource) == b.Get(HelmResource);
    assert a.Get(KustomizeResource) == b.Get(KustomizeResource);
  }

  // ---------------------------------------------------------------- the index invariant

  ghost predicate MembersBacked(v: Reverse, x: Index) {
    forall g, r | g in x.gvkResources && r in x.gvkResources[g] :: r.gvk == g && r in x.hashes && v.Has(r)
  }

  ghost predicate IndexedTracked(v: Reverse, x: Index) {
    forall g | g in x.gvkResources :: exists r :: HasOfKind(v, r, g)
  }

  predicate HasOfKind(v: Reverse, r: ObjectRef, g: Gvk) {
    r.gvk == g && v.Has(r)
  }

  predicate Member(x: Index, r: ObjectRef) {
    r.gvk in x.gvkResources && r in x.gvkResources[r.gvk]
  }

  ghost predicate WatchedIndexed(x: Index) {
    forall g | g in x.watchers :: g in x.gvkResources && x.gvkResources[g] != {}
  }

  /** For every GVK, informers started minus informers cancelled is one if it is watched, else zero. */
  ghost predicate InformersBalanced(x: Index) {
    forall g: Gvk :: x.started[g] == x.cancelled[g] + (if g in x.watchers then 1 else 0)
  }

  ghost predicate IndexInvariant(s: State) {
    && NoEmptyRows(s.rows)
    && MembersBacked(s.rows, s.index)
    && IndexedTracked(s.rows, s.index)
    && WatchedIndexed(s.index)
    && InformersBalanced(s.index)
  }

  /** The part of the invariant that does not involve the rows. */
  lemma UpdateGvkKeepsWatchers(x: Index, r: ObjectRef, watch: Option<Error>)
    requires WatchedIndexed(x) && InformersBalanced(x)
    ensures WatchedIndexed(UpdateGvk(x, r, watch).index) && InformersBalanced(UpdateGvk(x, r, watch).index)
  {
  }

  lemma StopTrackingKeepsWatchers(x: Index, r: ObjectRef)
    requires WatchedIndexed(x) && InformersBalanced(x)
    ensures WatchedIndexed(StopTracking(x, r)) && InformersBalanced(StopTracking(x, r))
  {
  }

  /** Keeping every tracked resource tracked keeps the rest. */
  lemma MoreTrackedKeepsIndex(v: Reverse, v': Reverse, x: Index)
    requires MembersBacked(v, x) && IndexedTracked(v, x) && forall r | v.Has(r) :: v'.Has(r)
    ensures MembersBacked(v', x) && IndexedTracked(v', x)
  {
    forall g | g in x.gvkResources ensures exists r :: HasOfKind(v', r, g) {
      var r :| HasOfKind(v, r, g);
      assert HasOfKind(v', r, g);
    }
  }

  /** The index gained at most `r`, which is baselined. */
  ghost predicate GrownBy(x: Index, x': Index, r: ObjectRef) {
    && x.hashes.Keys <= x'.hashes.Keys && r in x'.hashes
    && (forall g | g in x'.gvkResources && g != r.gvk :: g in x.gvkResources && x'.gvkResources[g] == x.gvkResources[g])
    && (r.gvk in x'.gvkResources ==>
          forall r' | r' in x'.gvkResources[r.gvk] :: r' == r || (r.gvk in x.gvkResources && r' in x.gvkResources[r.gvk]))
  }

  lemma UpdateGvkGrows(x: Index, r: ObjectRef, hash: Bytes, watch: Option<Error>)
    ensures GrownBy(x, UpdateGvk(Baseline(x, r, hash), r, watch).index, r)
  {
  }

  lemma GrownKeepsMembers(v: Reverse, x: Index, x': Index, r: ObjectRef)
    requires MembersBacked(v, x) && IndexedTracked(v, x) && v.Has(r) && GrownBy(x, x', r)
    ensures MembersBacked(v, x') && IndexedTracked(v, x')
  {
    assert HasOfKind(v, r, r.gvk);
  }

  /** The index lost `r` and its baseline; a GVK left without members is gone. */
  ghost predicate ShrunkBy(x: Index, x': Index, r: ObjectRef) {
    && x'.hashes == x.hashes - {r}
    && (forall g | g in x'.gvkResources && g != r.gvk :: g in x.gvkResources && x'.gvkResources[g] == x.gvkResources[g])
    && (r.gvk in x'.gvkResources ==>
          && r.gvk in x.gvkResources
          && x'.gvkResources[r.gvk] == x.gvkResources[r.gvk] - {r} && x'.gvkResources[r.gvk] != {})
  }

  lemma StopTrackingShrinks(x: Index, r: ObjectRef)
    ensures ShrunkBy(x, StopTracking(x, r), r)
  {
  }

  lemma ShrunkKeepsMembers(v: Reverse, v': Reverse, x: Index, x': Index, r: ObjectRef)
    requires MembersBacked(v, x) && IndexedTracked(v, x) && ShrunkBy(x, x', r)
    requires forall r' | r' != r && v.Has(r') :: v'.Has(r')
    ensures MembersBacked(v', x') && IndexedTracked(v', x')
  {
    forall g | g in x'.gvkResources ensures exists r' :: HasOfKind(v', r', g) {
      if g == r.gvk {
        var r' :| r' in x'.gvkResources[g];
        assert HasOfKind(v', r', g);
      } else {
        var r' :| HasOfKind(v, r', g);
        assert HasOfKind(v', r', g);
      }
    }
  }

  lemma RegisterKeepsIndex(s: State, r: ObjectRef, t: ResourceType, q: ObjectRef, c: Call)
    requires IndexInvariant(s)
    ensures IndexInvariant(Register(s, r, t, q, c).state)
  {
    InsertRelation(s.rows, r, t, q);
    MoreTrackedKeepsIndex(s.rows, s.rows.Insert(r, t, q), s.index);
    if r !in s.index.hashes && c.probe.Ok? {
      UpdateGvkKeepsWatchers(Baseline(s.index, r, c.probe.value), r, c.watch);
      UpdateGvkGrows(s.index, r, c.probe.value, c.watch);
      GrownKeepsMembers(s.rows.Insert(r, t, q), s.index, Register(s, r, t, q, c).state.index, r);
    }
  }

  lemma UnregisterKeepsIndex(s: State, r: ObjectRef, t: ResourceType, q: ObjectRef)
    requires IndexInvariant(s)
    ensures IndexInvariant(Unregister(s, r, t, q))
  {
    var v := s.rows.Erase(r, t, q);
    EraseRelation(s.rows, r, t, q);
    if v.Has(r) {
      MoreTrackedKeepsIndex(s.rows, v, s.index);
    } else {
      StopTrackingKeepsWatchers(s.index, r);
      StopTrackingShrinks(s.index, r);
      ShrunkKeepsMembers(s.rows, v, s.index, StopTracking(s.index, r), r);
    }
  }

  /** What a registration does to rows and baselines. */
  lemma RegisterBaselines(s: State, r: ObjectRef, t: ResourceType, q: ObjectRef, c: Call)
    ensures Register(s, r, t, q, c).state.rows == s.rows.Insert(r, t, q)
    ensures Register(s, r, t, q, c).state.index.hashes ==
            if r !in s.index.hashes && c.probe.Ok? then s.index.hashes[r := c.probe.value] else s.index.hashes
    ensures Register(s, r, t, q, c).state.jobQueue == s.jobQueue
    ensures r in s.index.hashes ==> Register(s, r, t, q, c).result == Ok(s.index.hashes[r])
    ensures r !in s.index.hashes && c.probe.Err? ==> Register(s, r, t, q, c).result == c.probe
  {
  }

  predicate Unknown(x: Index, g: Gvk) {
    g !in x.gvkResources && g !in x.watchers
  }

  /** The first registration of a resource that was found. If its GVK is known, the watcher start
      does not matter; otherwise an error of the watcher start is returned, and leaves the
      baseline and an empty set behind. */
  lemma FirstRegistration(s: State, r: ObjectRef, t: ResourceType, q: ObjectRef, hash: Bytes, watch: Option<Error>)
    requires r !in s.index.hashes
    ensures var o, x, g := Register(s, r, t, q, Call(Ok(hash), watch)), s.index, r.gvk;
            var x' := o.state.index;
            if Unknown(x, g) && watch.Some? then
              && o.result == Err(watch.value)
              && x' == x.(hashes := x.hashes[r := hash], gvkResources := x.gvkResources[g := {}])
            else
              && o.result == Ok(hash) && x'.hashes == x.hashes[r := hash]
              && x'.gvkResources == x.gvkResources[g := (if g in x.gvkResources then x.gvkResources[g] else {}) + {r}]
              && x'.watchers == x.watchers + (if g in x.gvkResources then {} else {g})
              && x'.started == x.started + (if Unknown(x, g) then multiset{g} else multiset{})
              && x'.cancelled == x.cancelled
  {
    assert {} + {r} == {r};
  }

  /** The index without the empty set that a failed watcher start may have left behind for `g`. */
  function WithoutLeftover(x: Index, g: Gvk): Index {
    if g in x.gvkResources && x.gvkResources[g] == {} then x.(gvkResources := x.gvkResources - {g}) else x
  }

  /** The index with one more informer for `g`, started and cancelled. */
  function InformerSpent(x: Index, g: Gvk): Index {
    x.(started := x.started + multiset{g}, cancelled := x.cancelled + multiset{g})
  }

  /** Unregistering undoes the first registration of a resource, whatever the API server and the
      watcher start answered: only an informer may have come and gone, and an empty set left
      behind by an earlier failed watcher start is gone. */
  lemma UnregisterUndoesRegister(s: State, r: ObjectRef, t: ResourceType, q: ObjectRef, c: Call)
    requires IndexInvariant(s) && !s.rows.Has(r) && r !in s.index.hashes
    ensures var spent := c.probe.Ok? && c.watch.None? && r.gvk !in s.index.gvkResources;
            var index := WithoutLeftover(s.index, r.gvk);
            Unregister(Register(s, r, t, q, c).state, r, t, q) ==
            s.(index := if spent then InformerSpent(index, r.gvk) else index)
  {
    RowsUndone(s.rows, r, t, q);
    IndexUndone(s, r, c);
  }

  lemma RowsUndone(v: Reverse, r: ObjectRef, t: ResourceType, q: ObjectRef)
    requires !v.Has(r)
    ensures r in v.Insert(r, t, q).Get(t) && v.Insert(r, t, q).Erase(r, t, q) == v
  {
    var m := v.Get(t);
    assert r !in m && {} + {q} == {q} && {q} - {q} == {};
    assert v.Insert(r, t, q).Get(t) == m[r := {q}] && m[r := {q}] - {r} == m;
  }

  lemma IndexUndone(s: State, r: ObjectRef, c: Call)
    requires IndexInvariant(s) && !s.rows.Has(r) && r !in s.index.hashes
    ensures var x, g := s.index, r.gvk;
            var index := WithoutLeftover(x, g);
            && (c.probe.Err? ==> StopTracking(x, r) == index)
            && (c.probe.Ok? ==>
                  StopTracking(UpdateGvk(Baseline(x, r, c.probe.value), r, c.watch).index, r) ==
                  if c.watch.None? && g !in x.gvkResources then InformerSpent(index, g) else index)
  {
    var x := s.index;
    assert x.hashes - {r} == x.hashes;
    if c.probe.Ok? { assert x.hashes[r := c.probe.value] - {r} == x.hashes; }
    if r.gvk in x.gvkResources { KnownGvkUndone(x, r, c); } else { NewGvkUndone(x, r, c); }
  }

  lemma KnownGvkUndone(x: Index, r: ObjectRef, c: Call)
    requires WatchedIndexed(x) && r.gvk in x.gvkResources && r !in x.gvkResources[r.gvk] && x.hashes - {r} == x.hashes
    requires c.probe.Ok? ==> x.hashes[r := c.probe.value] - {r} == x.hashes
    ensures StopTracking(x, r) == WithoutLeftover(x, r.gvk)
    ensures c.probe.Ok? ==>
              StopTracking(UpdateGvk(Baseline(x, r, c.probe.value), r, c.watch).index, r) == WithoutLeftover(x, r.gvk)
  {
    var g, members := r.gvk, x.gvkResources[r.gvk];
    assert members - {r} == members && (members + {r}) - {r} == members;
    assert x.gvkResources[g := members] == x.gvkResources;
    assert x.gvkResources[g := members + {r}][g := members] == x.gvkResources;
    assert x.gvkResources[g := members + {r}] - {g} == x.gvkResources - {g};
    assert members == {} ==> x.watchers - {g} == x.watchers;
  }

  lemma NewGvkUndone(x: Index, r: ObjectRef, c: Call)
    requires r.gvk !in x.gvkResources && r.gvk !in x.watchers && x.hashes - {r} == x.hashes
    requires c.probe.Ok? ==> x.hashes[r := c.probe.value] - {r} == x.hashes
    ensures StopTracking(x, r) == x
    ensures c.probe.Ok? ==>
              StopTracking(UpdateGvk(Baseline(x, r, c.probe.value), r, c.watch).index, r) ==
              if c.watch.None? then InformerSpent(x, r.gvk) else x
  {
    var g := r.gvk;
    assert {r} - {r} == {};
    assert x.gvkResources[g := {}] - {g} == x.gvkResources;
    assert x.gvkResources[g := {}][g := {r}] - {g} == x.gvkResources;
    assert x.watchers + {g} - {g} == x.watchers && x.watchers - {g} == x.watchers;
  }
}
