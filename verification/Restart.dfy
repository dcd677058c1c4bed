/** The reverse maps after a restart: recovery fills them, the forward maps start empty. */
module Restart {
  import opened Types
  import opened Tracking
  import opened Evaluation
  import opened Recovery
  import opened Strays
  import R = Reconciling
  import M = Machine

  /** The process right after a recovery that returned nil. */
  function Restarted(records: seq<Record>, calls: seq<Call>): R.World
    requires |records| == |calls|
  {
    R.World(R.NOTHING.forward, Recover(EMPTY, records, calls).state)
  }

  /** What recovery builds may be published: every run of it is safe, and owes an evaluation to
      every recorded resource. */
  lemma RecoveryPublishesInitial(records: seq<Record>, calls: seq<Call>)
    requires |records| == |calls| && Recover(EMPTY, records, calls).ok
    ensures var m := Recover(EMPTY, records, calls).state;
            && M.Initial(M.Sys(m, M.Idle, M.Published(m.jobQueue)))
            && M.HashedAreTracked(m)
            && forall x | x in records :: x.r in m.jobQueue
  {
    var m := Recover(EMPTY, records, calls).state;
    RecoveredRelation(EMPTY, records, calls);
    RecoveredBaselines(EMPTY, records, calls);
    forall x | x in records ensures LastText(records, x.r).Some? { LastTextRecorded(records, x.r); }
    forall r | r in m.index.hashes ensures m.rows.Has(r) {
      LastTextRecorded(records, r);
      var x :| x in records && x.r == r;
      assert Recorded(records, r, x.t, x.q) && Tracks(m.rows, r, x.t, x.q);
      TrackedByRelation(m.rows, r);
    }
  }

  /** A recorded resource that recovery did not find is baselined without being indexed, and no
      later registration makes up for that: for as long as it stays baselined it is not indexed. */
  lemma NotFoundStaysUnindexed(records: seq<Record>, calls: seq<Call>, r: ObjectRef, steps: seq<M.Step>)
    requires |records| == |calls| && Recover(EMPTY, records, calls).ok && LastText(records, r).Some?
    requires forall i | 0 <= i < |records| && records[i].r == r :: calls[i].probe.Err?
    requires var m := Recover(EMPTY, records, calls).state;
             var s := M.Sys(m, M.Idle, M.Published(m.jobQueue));
             M.Legal(s, steps) && M.StaysBaselined(s, steps, r)
    ensures var m := Recover(EMPTY, records, calls).state;
            var s := M.Sys(m, M.Idle, M.Published(m.jobQueue));
            r in m.index.hashes && !Member(m.index, r) && !Member(M.Exec(s, steps).m.index, r)
  {
    var m := Recover(EMPTY, records, calls).state;
    RecoveredBaselines(EMPTY, records, calls);
    NeverFoundIsNotIndexed(EMPTY, records, calls, r);
    M.BaselinedKeepsMembership(M.Sys(m, M.Idle, M.Published(m.jobQueue)), steps, r);
  }

  // ---------------------------------------------------------------- rows nobody remembers

  /** Whatever happened since the restart, a summary that is deleted stays registered for
      exactly those recorded resources that none of its reconciles listed under the type they
      were read back as. */
  lemma RestartLeavesExactly(records: seq<Record>, calls: seq<Call>, events: seq<R.Event>, q: ObjectRef, drops: R.Drops)
    requires |records| == |calls| && Recover(EMPTY, records, calls).ok
    requires R.WellFormed(events) && R.FaithfulHistory(Restarted(records, calls), events)
    requires R.Faithful(R.Play(Restarted(records, calls), events), R.Deleted(q, drops))
    ensures var w := R.Clean(R.Play(Restarted(records, calls), events), q, drops);
            forall r, t :: Tracks(w.m.rows, r, t, q) <==> Recorded(records, r, t, q) && !EverListed(events, r, t, q)
  {
    var w0 := Restarted(records, calls);
    var w1 := R.Play(w0, events);
    RecoveredRelation(EMPTY, records, calls);
    forall r, t ensures Tracks(R.Clean(w1, q, drops).m.rows, r, t, q) <==>
                        Recorded(records, r, t, q) && !EverListed(events, r, t, q) {
      StraysOverHistory(w0, events, r, t, q);
      R.CleanRows(w1, q, drops);
      assert Stray(w0, r, t, q) <==> Recorded(records, r, t, q);
    }
  }

  /** Plain and helm lists are read back exchanged, so a summary leaves a plain resource tracked
      as a helm resource, however its history goes on, exactly if none of its reconciles lists
      it as a helm resource. */
  lemma PlainResourceOutlivesItsSummary(store: Store, list: seq<ObjectRef>, calls: seq<Call>, q: ObjectRef,
                                        e: HashEntry, events: seq<R.Event>, drops: R.Drops)
    requires Enumerates(list, store.summaries.Keys) && |calls| == |Records(store, list)|
    requires Recover(EMPTY, Records(store, list), calls).ok
    requires q in store.summaries && !store.summaries[q].deleting && e in store.summaries[q].status.resources.hashes
    requires R.WellFormed(events) && R.FaithfulHistory(Restarted(Records(store, list), calls), events)
    requires R.Faithful(R.Play(Restarted(Records(store, list), calls), events), R.Deleted(q, drops))
    ensures var w := R.Clean(R.Play(Restarted(Records(store, list), calls), events), q, drops);
            Tracks(w.m.rows, e.resource.ref, HelmResource, q) <==> !EverListed(events, e.resource.ref, HelmResource, q)
  {
    var records := Records(store, list);
    LiveEntryRecorded(store, list, q, Resource, e);
    assert Recorded(records, e.resource.ref, HelmResource, q);
    RestartLeavesExactly(records, calls, events, q, drops);
  }
}
