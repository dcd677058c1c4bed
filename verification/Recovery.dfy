/** Rebuilding the manager from the statuses of all ResourceSummaries after a restart. */
module Recovery {
  import opened Types
  import opened Tracking
  import opened Fingerprint
  import opened Evaluation
  import opened Passes

  /** One status entry, with the type it is registered under. */
  datatype Record = Record(q: ObjectRef, t: ResourceType, r: ObjectRef, text: Bytes)

  function RecordsOf(q: ObjectRef, t: ResourceType, entries: seq<HashEntry>): (records: seq<Record>)
    ensures |records| == |entries|
    ensures forall i | 0 <= i < |entries| :: records[i] == Record(q, t, entries[i].resource.ref, entries[i].text)
  {
    seq(|entries|, i requires 0 <= i < |entries| => Record(q, t, entries[i].resource.ref, entries[i].text))
  }

  /** The type under which a status list is read back: plain and helm lists are exchanged. */
  function ReadBack(t: ResourceType): ResourceType {
    match t
    case Resource => HelmResource
    case KustomizeResource => KustomizeResource
    case HelmResource => Resource
  }

  function SummaryRecords(q: ObjectRef, status: Status): seq<Record> {
    RecordsOf(q, ReadBack(Resource), status.resources.hashes) +
    RecordsOf(q, ReadBack(KustomizeResource), status.kustomize.hashes) +
    RecordsOf(q, ReadBack(HelmResource), status.helm.hashes)
  }

  /** Every record of every listed summary that is not being deleted. */
  function Records(store: Store, list: seq<ObjectRef>): seq<Record>
    requires forall q | q in list :: q in store.summaries
  {
    if list == [] then []
    else
      (if store.summaries[list[0]].deleting then [] else SummaryRecords(list[0], store.summaries[list[0]].status)) +
      Records(store, list[1..])
  }

  datatype Recovered = Recovered(state: State, ok: bool)

  /** `processResourceHashes`: the recorded text replaces the baseline even on failure, and
      whatever was registered or not found is queued. */
  function Recover(s: State, records: seq<Record>, calls: seq<Call>): Recovered
    requires |records| == |calls|
    decreases |records|
  {
    if records == [] then Recovered(s, true)
    else
      var x := records[0];
      var o := Register(s, x.r, x.t, x.q, calls[0]);
      var s1 := o.state.(index := Baseline(o.state.index, x.r, x.text));
      if o.result == Err(OtherError) then Recovered(s1, false)
      else Recover(Enqueue(s1, x.r), records[1..], calls[1..])
  }

  /** Answers for every record of every listed summary that is not being deleted. */
  predicate AnswersFit(store: Store, list: seq<ObjectRef>, answers: seq<seq<Answer>>) {
    && |answers| == |list|
    && (forall q | q in list :: q in store.summaries)
    && (forall i | 0 <= i < |list| :: |answers[i]| == |SummaryRecords(list[i], store.summaries[list[i]].status)|)
  }

  ghost function AllCalls(p: Platform, store: Store, list: seq<ObjectRef>,
                          answers: seq<seq<Answer>>): (calls: seq<Call>)
    requires AnswersFit(store, list, answers)
    ensures |calls| == |Records(store, list)|
  {
    if list == [] then []
    else
      (if store.summaries[list[0]].deleting then [] else CallsOf(p, answers[0], store.summaries[list[0]].patches)) +
      AllCalls(p, store, list[1..], answers[1..])
  }

  lemma {:induction false} RecoverAppend(s: State, a: seq<Record>, ca: seq<Call>, b: seq<Record>, cb: seq<Call>)
    requires |a| == |ca| && |b| == |cb|
    ensures Recover(s, a + b, ca + cb) ==
            if Recover(s, a, ca).ok then Recover(Recover(s, a, ca).state, b, cb) else Recover(s, a, ca)
    decreases |a|
  {
    if a == [] {
      assert a + b == b && ca + cb == cb;
    } else {
      var x := a[0];
      var o := Register(s, x.r, x.t, x.q, ca[0]);
      var s1 := Enqueue(o.state.(index := Baseline(o.state.index, x.r, x.text)), x.r);
      assert (a + b)[1..] == a[1..] + b && (ca + cb)[1..] == ca[1..] + cb;
      RecoverAppend(s1, a[1..], ca[1..], b, cb);
    }
  }

  // ---------------------------------------------------------------- when recovery returns nil

  /** The `i`th record is the first of its resource, and that has no baseline yet, so the API
      server is asked. */
  predicate Asks(s: State, records: seq<Record>, i: nat)
    requires i < |records|
  {
    records[i].r !in s.index.hashes && forall j | 0 <= j < i :: records[j].r != records[i].r
  }

  /** The `i`th record is the one that starts the watcher of its GVK. */
  predicate Opens(s: State, records: seq<Record>, calls: seq<Call>, i: nat)
    requires |records| == |calls| && i < |records|
  {
    && Asks(s, records, i) && calls[i].probe.Ok? && Unknown(s.index, records[i].r.gvk)
    && forall j | 0 <= j < i && Asks(s, records, j) && calls[j].probe.Ok? :: records[j].r.gvk != records[i].r.gvk
  }

  /** The `i`th record meets an error other than not-found. */
  predicate Blocks(s: State, records: seq<Record>, calls: seq<Call>, i: nat)
    requires |records| == |calls| && i < |records|
  {
    || (Asks(s, records, i) && calls[i].probe == Err(OtherError))
    || (Opens(s, records, calls, i) && calls[i].watch == Some(OtherError))
  }

  /** The state after the first record, if it does not end the recovery. */
  function Next(s: State, records: seq<Record>, calls: seq<Call>): State
    requires |records| == |calls| && records != []
  {
    var x := records[0];
    var m := Register(s, x.r, x.t, x.q, calls[0]).state;
    Enqueue(m.(index := Baseline(m.index, x.r, x.text)), x.r)
  }

  lemma NextKnows(s: State, records: seq<Record>, calls: seq<Call>)
    requires |records| == |calls| && records != []
    ensures var x, y := s.index, Next(s, records, calls).index;
            && (forall r :: r in y.hashes <==> r in x.hashes || r == records[0].r)
            && (forall g :: Unknown(y, g) <==>
                  Unknown(x, g) && !(g == records[0].r.gvk && Asks(s, records, 0) && calls[0].probe.Ok?))
  {
  }

  lemma AsksLater(s: State, records: seq<Record>, calls: seq<Call>, i: nat)
    requires |records| == |calls| && 0 < i < |records|
    ensures Asks(s, records, i) <==> Asks(Next(s, records, calls), records[1..], i - 1)
  {
    NextKnows(s, records, calls);
    assert forall j | 0 <= j < i - 1 :: records[1..][j] == records[j + 1];
    if Asks(Next(s, records, calls), records[1..], i - 1) {
      forall j | 0 <= j < i ensures records[j].r != records[i].r {
        if j > 0 { assert records[1..][j - 1] == records[j]; }
      }
    }
  }

  lemma OpensLater(s: State, records: seq<Record>, calls: seq<Call>, i: nat)
    requires |records| == |calls| && 0 < i < |records|
    ensures Opens(s, records, calls, i) <==> Opens(Next(s, records, calls), records[1..], calls[1..], i - 1)
  {
    var next, g := Next(s, records, calls), records[i].r.gvk;
    NextKnows(s, records, calls);
    AsksLater(s, records, calls, i);
    forall j | 0 < j < i ensures Asks(s, records, j) <==> Asks(next, records[1..], j - 1) {
      AsksLater(s, records, calls, j);
    }
    if Opens(s, records, calls, i) {
      forall j | 0 <= j < i - 1 && Asks(next, records[1..], j) && calls[1..][j].probe.Ok?
        ensures records[1..][j].r.gvk != g
      {
        assert Asks(s, records, j + 1) && calls[j + 1].probe.Ok?;
      }
    }
    if Opens(next, records[1..], calls[1..], i - 1) {
      forall j | 0 <= j < i && Asks(s, records, j) && calls[j].probe.Ok? ensures records[j].r.gvk != g {
        if j > 0 { assert Asks(next, records[1..], j - 1) && calls[1..][j - 1].probe.Ok?; }
      }
    }
  }

  /** Recovery returns nil exactly if no record meets an error other than not-found: neither when
      its resource is first asked for, nor when it starts the watcher of a new GVK. */
  lemma {:induction false} RecoverySucceedsExactly(s: State, records: seq<Record>, calls: seq<Call>)
    requires |records| == |calls|
    ensures Recover(s, records, calls).ok <==> forall i: nat | i < |records| :: !Blocks(s, records, calls, i)
    decreases |records|
  {
    if records != [] {
      var x, next := records[0], Next(s, records, calls);
      forall i: nat | 0 < i < |records|
        ensures Blocks(s, records, calls, i) <==> Blocks(next, records[1..], calls[1..], i - 1)
      {
        AsksLater(s, records, calls, i);
        OpensLater(s, records, calls, i);
      }
      assert Register(s, x.r, x.t, x.q, calls[0]).result == Err(OtherError) <==> Blocks(s, records, calls, 0);
      RecoverySucceedsExactly(next, records[1..], calls[1..]);
      if !Blocks(s, records, calls, 0) && Recover(next, records[1..], calls[1..]).ok {
        forall i: nat | i < |records| ensures !Blocks(s, records, calls, i) {
          if i > 0 { assert !Blocks(next, records[1..], calls[1..], i - 1); }
        }
      }
      if forall i: nat | i < |records| :: !Blocks(s, records, calls, i) {
        forall i: nat | i < |records[1..]| ensures !Blocks(next, records[1..], calls[1..], i) {
          assert !Blocks(s, records, calls, i + 1);
        }
        assert !Blocks(s, records, calls, 0);
      }
    }
  }

  /** What the API server answers for each record, and the patches that go with it. */
  datatype Reply = Reply(answer: Answer, patches: seq<Patch>)

  function RepliesOf(answers: seq<Answer>, patches: seq<Patch>): (replies: seq<Reply>)
    ensures |replies| == |answers| && forall i | 0 <= i < |answers| :: replies[i] == Reply(answers[i], patches)
  {
    seq(|answers|, i requires 0 <= i < |answers| => Reply(answers[i], patches))
  }

  function AllReplies(store: Store, list: seq<ObjectRef>, answers: seq<seq<Answer>>): (replies: seq<Reply>)
    requires AnswersFit(store, list, answers)
    ensures |replies| == |Records(store, list)|
  {
    if list == [] then []
    else
      (if store.summaries[list[0]].deleting then [] else RepliesOf(answers[0], store.summaries[list[0]].patches)) +
      AllReplies(store, list[1..], answers[1..])
  }

  ghost predicate Matching(p: Platform, calls: seq<Call>, replies: seq<Reply>) {
    && |calls| == |replies|
    && forall i | 0 <= i < |calls| :: calls[i] == CallOf(p, replies[i].answer, replies[i].patches)
  }

  lemma MatchingAppend(p: Platform, a: seq<Call>, a': seq<Reply>, b: seq<Call>, b': seq<Reply>)
    requires Matching(p, a, a') && Matching(p, b, b')
    ensures Matching(p, a + b, a' + b')
  {
  }

  lemma {:induction false} CallsAreReplies(p: Platform, store: Store, list: seq<ObjectRef>, answers: seq<seq<Answer>>)
    requires AnswersFit(store, list, answers)
    ensures Matching(p, AllCalls(p, store, list, answers), AllReplies(store, list, answers))
    decreases |list|
  {
    if list != [] {
      var summary := store.summaries[list[0]];
      var calls := if summary.deleting then [] else CallsOf(p, answers[0], summary.patches);
      var replies := if summary.deleting then [] else RepliesOf(answers[0], summary.patches);
      CallsAreReplies(p, store, list[1..], answers[1..]);
      MatchingAppend(p, calls, replies, AllCalls(p, store, list[1..], answers[1..]),
                     AllReplies(store, list[1..], answers[1..]));
    }
  }

  /** Recovery of a new manager fails if the first fetch for a recorded resource is refused, or if
      its object cannot be patched. */
  lemma RefusedFetchEndsRecovery(p: Platform, store: Store, list: seq<ObjectRef>, answers: seq<seq<Answer>>, i: nat)
    requires AnswersFit(store, list, answers) && i < |Records(store, list)|
    requires forall j | 0 <= j < i :: Records(store, list)[j].r != Records(store, list)[i].r
    requires var reply := AllReplies(store, list, answers)[i]; Refused(p, reply.answer.fetch, reply.patches)
    ensures !Recover(EMPTY, Records(store, list), AllCalls(p, store, list, answers)).ok
  {
    var reply := AllReplies(store, list, answers)[i];
    CallsAreReplies(p, store, list, answers);
    RefusedProbe(p, reply.answer.fetch, reply.patches);
    RecoverySucceedsExactly(EMPTY, Records(store, list), AllCalls(p, store, list, answers));
    assert Blocks(EMPTY, Records(store, list), AllCalls(p, store, list, answers), i);
  }

  /** For some recorded resource, the first fetch is refused or the object cannot be patched. */
  ghost predicate AnyRefused(p: Platform, store: Store, list: seq<ObjectRef>, answers: seq<seq<Answer>>)
    requires AnswersFit(store, list, answers)
  {
    exists i: nat | i < |Records(store, list)| ::
      && Asks(EMPTY, Records(store, list), i)
      && var reply := AllReplies(store, list, answers)[i]; Refused(p, reply.answer.fetch, reply.patches)
  }

  lemma AnyRefusedEndsRecovery(p: Platform, store: Store, list: seq<ObjectRef>, answers: seq<seq<Answer>>)
    requires AnswersFit(store, list, answers)
    ensures AnyRefused(p, store, list, answers) ==>
              !Recover(EMPTY, Records(store, list), AllCalls(p, store, list, answers)).ok
  {
    if AnyRefused(p, store, list, answers) {
      var i: nat :| i < |Records(store, list)| && Asks(EMPTY, Records(store, list), i)
                    && var reply := AllReplies(store, list, answers)[i]; Refused(p, reply.answer.fetch, reply.patches);
      RefusedFetchEndsRecovery(p, store, list, answers, i);
    }
  }

  // ---------------------------------------------------------------- the exact fold

  predicate Recorded(records: seq<Record>, r: ObjectRef, t: ResourceType, q: ObjectRef) {
    exists x | x in records :: x.r == r && x.t == t && x.q == q
  }

  /** The text of the last record of `r`. */
  function LastText(records: seq<Record>, r: ObjectRef): Option<Bytes> {
    if records == [] then None
    else
      var later := LastText(records[1..], r);
      if later.Some? then later
      else if records[0].r == r then Some(records[0].text)
      else None
  }

  lemma {:induction false} LastTextRecorded(records: seq<Record>, r: ObjectRef)
    ensures LastText(records, r).Some? <==> exists x | x in records :: x.r == r
    ensures LastText(records, r).Some? ==>
              exists x | x in records :: x.r == r && x.text == LastText(records, r).value
  {
    if records != [] {
      LastTextRecorded(records[1..], r);
      assert records == [records[0]] + records[1..];
    }
  }

  /** One record more. */
  lemma {:induction false} RecordedCons(records: seq<Record>, r: ObjectRef, t: ResourceType, q: ObjectRef)
    requires records != []
    ensures Recorded(records, r, t, q) <==>
            (r, t, q) == (records[0].r, records[0].t, records[0].q) || Recorded(records[1..], r, t, q)
  {
    assert records == [records[0]] + records[1..];
  }

  /** The relation and the index invariant along a recovery that returns nil. */
  lemma {:induction false} RecoveredRelation(s: State, records: seq<Record>, calls: seq<Call>)
    requires |records| == |calls| && IndexInvariant(s) && Recover(s, records, calls).ok
    ensures var s' := Recover(s, records, calls).state;
            && IndexInvariant(s')
            && forall r, t, q :: Tracks(s'.rows, r, t, q) <==> Tracks(s.rows, r, t, q) || Recorded(records, r, t, q)
    decreases |records|
  {
    if records != [] {
      var x := records[0];
      var o := Register(s, x.r, x.t, x.q, calls[0]);
      var s1 := Enqueue(o.state.(index := Baseline(o.state.index, x.r, x.text)), x.r);
      RegisterKeepsIndex(s, x.r, x.t, x.q, calls[0]);
      InsertRelation(s.rows, x.r, x.t, x.q);
      assert s1.rows == s.rows.Insert(x.r, x.t, x.q);
      assert IndexInvariant(s1);
      RecoveredRelation(s1, records[1..], calls[1..]);
      forall r, t, q ensures Recorded(records, r, t, q) <==> (r, t, q) == (x.r, x.t, x.q) || Recorded(records[1..], r, t, q) {
        RecordedCons(records, r, t, q);
      }
    }
  }

  /** The queue and the baselines along a recovery that returns nil. */
  lemma {:induction false} RecoveredBaselines(s: State, records: seq<Record>, calls: seq<Call>)
    requires |records| == |calls| && Recover(s, records, calls).ok
    ensures var s' := Recover(s, records, calls).state;
            forall r ::
              && (r in s'.jobQueue <==> r in s.jobQueue || LastText(records, r).Some?)
              && (r in s'.index.hashes <==> r in s.index.hashes || LastText(records, r).Some?)
              && (r in s'.index.hashes ==>
                    s'.index.hashes[r] ==
                    if LastText(records, r).Some? then LastText(records, r).value else s.index.hashes[r])
    decreases |records|
  {
    if records != [] {
      var x := records[0];
      var o := Register(s, x.r, x.t, x.q, calls[0]);
      var s1 := Enqueue(o.state.(index := Baseline(o.state.index, x.r, x.text)), x.r);
      RegisterBaselines(s, x.r, x.t, x.q, calls[0]);
      assert s1.index.hashes == s.index.hashes[x.r := x.text];
      RecoveredBaselines(s1, records[1..], calls[1..]);
    }
  }

  /** A resource that no call of the recovery found is not indexed, although it is baselined. */
  lemma {:induction false} NeverFoundIsNotIndexed(s: State, records: seq<Record>, calls: seq<Call>, r: ObjectRef)
    requires |records| == |calls| && !Member(s.index, r)
    requires forall i | 0 <= i < |records| && records[i].r == r :: calls[i].probe.Err?
    ensures !Member(Recover(s, records, calls).state.index, r)
    decreases |records|
  {
    if records != [] {
      var x := records[0];
      var o := Register(s, x.r, x.t, x.q, calls[0]);
      var s1 := o.state.(index := Baseline(o.state.index, x.r, x.text));
      assert !Member(s1.index, r);
      if o.result != Err(OtherError) {
        forall i | 0 <= i < |records| - 1 && records[1..][i].r == r ensures calls[1..][i].probe.Err? {
          assert records[i + 1].r == r;
        }
        NeverFoundIsNotIndexed(Enqueue(s1, x.r), records[1..], calls[1..], r);
      }
    }
  }

  /** Every call about the same resource gets the same answer, and watchers start. */
  ghost predicate Stable(records: seq<Record>, calls: seq<Call>, answer: ObjectRef -> Result<Bytes>)
    requires |records| == |calls|
  {
    forall i | 0 <= i < |records| :: calls[i] == Call(answer(records[i].r), None)
  }

  lemma {:induction false} RecoveredMembers(s: State, records: seq<Record>, calls: seq<Call>,
                                            answer: ObjectRef -> Result<Bytes>)
    requires |records| == |calls| && Recover(s, records, calls).ok && Stable(records, calls, answer)
    ensures forall r :: Member(Recover(s, records, calls).state.index, r) <==>
              Member(s.index, r) || (r !in s.index.hashes && LastText(records, r).Some? && answer(r).Ok?)
    decreases |records|
  {
    if records != [] {
      var x := records[0];
      assert calls[0] == Call(answer(x.r), None);
      var o := Register(s, x.r, x.t, x.q, calls[0]);
      var s1 := Enqueue(o.state.(index := Baseline(o.state.index, x.r, x.text)), x.r);
      RegisterMembers(s, x.r, x.t, x.q, calls[0]);
      assert forall r :: Member(s1.index, r) <==> Member(o.state.index, r);
      assert forall r :: r in s1.index.hashes <==> r in s.index.hashes || r == x.r;
      assert Stable(records[1..], calls[1..], answer) by {
        forall i | 0 <= i < |records| - 1 ensures calls[1..][i] == Call(answer(records[1..][i].r), None) {
          assert calls[i + 1] == Call(answer(records[i + 1].r), None);
        }
      }
      RecoveredMembers(s1, records[1..], calls[1..], answer);
    }
  }

  lemma RegisterMembers(s: State, r: ObjectRef, t: ResourceType, q: ObjectRef, c: Call)
    requires c.watch.None?
    ensures forall r' :: Member(Register(s, r, t, q, c).state.index, r') <==>
              Member(s.index, r') || (r' == r && r !in s.index.hashes && c.probe.Ok?)
  {
  }

  /** When recovery returns nil, the relation is exactly the recorded one under the code's
      type mapping, exactly the recorded resources are queued and baselined, each with the
      text of its last record, and, if answers are stable and watchers start, the indexed
      resources are exactly the recorded ones that were found. */
  lemma RecoveryIsExactFold(records: seq<Record>, calls: seq<Call>, answer: ObjectRef -> Result<Bytes>)
    requires |records| == |calls| && Recover(EMPTY, records, calls).ok
    ensures var s := Recover(EMPTY, records, calls).state;
            && IndexInvariant(s)
            && (forall r, t, q :: Tracks(s.rows, r, t, q) <==> Recorded(records, r, t, q))
            && (forall r :: r in s.jobQueue <==> LastText(records, r).Some?)
            && (forall r :: r in s.index.hashes <==> LastText(records, r).Some?)
            && (forall r | r in s.index.hashes :: Some(s.index.hashes[r]) == LastText(records, r))
            && (Stable(records, calls, answer) ==>
                  forall r :: Member(s.index, r) <==> LastText(records, r).Some? && answer(r).Ok?)
  {
    RecoveredRelation(EMPTY, records, calls);
    RecoveredBaselines(EMPTY, records, calls);
    if Stable(records, calls, answer) { RecoveredMembers(EMPTY, records, calls, answer); }
  }

  // ---------------------------------------------------------------- records and the store

  /** `x` is a status entry of a listed summary that is not being deleted, under the type its
      list is read back as. */
  ghost predicate LiveEntry(store: Store, list: seq<ObjectRef>, x: Record)
    requires forall q | q in list :: q in store.summaries
  {
    x.q in list && !store.summaries[x.q].deleting && EntryOf(store.summaries[x.q].status, x)
  }

  ghost predicate EntryOf(status: Status, x: Record) {
    exists e | e in status.Get(ReadBack(x.t)).hashes :: e.resource.ref == x.r && e.text == x.text
  }

  lemma RecordsOfMembers(q: ObjectRef, t: ResourceType, entries: seq<HashEntry>, x: Record)
    ensures x in RecordsOf(q, t, entries) <==>
            x.q == q && x.t == t && exists e | e in entries :: e.resource.ref == x.r && e.text == x.text
  {
    var records := RecordsOf(q, t, entries);
    if x in records {
      var i :| 0 <= i < |records| && records[i] == x;
      assert entries[i] in entries;
    }
    if x.q == q && x.t == t && exists e | e in entries :: e.resource.ref == x.r && e.text == x.text {
      var e :| e in entries && e.resource.ref == x.r && e.text == x.text;
      var i :| 0 <= i < |entries| && entries[i] == e;
      assert records[i] == x;
    }
  }

  lemma SummaryRecordsMembers(q: ObjectRef, status: Status, x: Record)
    ensures x in SummaryRecords(q, status) <==> x.q == q && EntryOf(status, x)
  {
    RecordsOfMembers(q, HelmResource, status.resources.hashes, x);
    RecordsOfMembers(q, KustomizeResource, status.kustomize.hashes, x);
    RecordsOfMembers(q, Resource, status.helm.hashes, x);
  }

  /** The records are exactly the status entries of the summaries that are not being deleted. */
  lemma {:induction false} RecordsAreLiveEntries(store: Store, list: seq<ObjectRef>, x: Record)
    requires forall q | q in list :: q in store.summaries
    ensures x in Records(store, list) <==> LiveEntry(store, list, x)
  {
    if list != [] {
      assert list == [list[0]] + list[1..];
      SummaryRecordsMembers(list[0], store.summaries[list[0]].status, x);
      RecordsAreLiveEntries(store, list[1..], x);
    }
  }

  /** When recovery returns nil, the manager tracks exactly the resources with a status entry
      in a summary that is not being deleted, each under the type its list is read back as. */
  lemma RecoveredFromStore(store: Store, list: seq<ObjectRef>, calls: seq<Call>)
    requires (forall q | q in list :: q in store.summaries) && |calls| == |Records(store, list)|
    requires Recover(EMPTY, Records(store, list), calls).ok
    ensures var s := Recover(EMPTY, Records(store, list), calls).state;
            forall r, t, q :: Tracks(s.rows, r, t, q) <==> exists text :: LiveEntry(store, list, Record(q, t, r, text))
  {
    var records := Records(store, list);
    RecoveredRelation(EMPTY, records, calls);
    forall r, t, q ensures Recorded(records, r, t, q) <==> exists text :: LiveEntry(store, list, Record(q, t, r, text)) {
      if Recorded(records, r, t, q) {
        var x :| x in records && x.r == r && x.t == t && x.q == q;
        RecordsAreLiveEntries(store, list, x);
        assert LiveEntry(store, list, Record(q, t, r, x.text));
      }
      if text :| LiveEntry(store, list, Record(q, t, r, text)) {
        RecordsAreLiveEntries(store, list, Record(q, t, r, text));
      }
    }
  }

  /** In the names of the status fields: plain hashes are tracked as helm resources, helm hashes as
      plain ones, kustomize hashes as such. */
  lemma RecoveredTypes(store: Store, list: seq<ObjectRef>, calls: seq<Call>, r: ObjectRef, q: ObjectRef)
    requires (forall q' | q' in list :: q' in store.summaries) && |calls| == |Records(store, list)|
    requires Recover(EMPTY, Records(store, list), calls).ok && q in list && !store.summaries[q].deleting
    ensures var v, status := Recover(EMPTY, Records(store, list), calls).state.rows, store.summaries[q].status;
            && (r in v.helm && q in v.helm[r] <==> exists e | e in status.resources.hashes :: e.resource.ref == r)
            && (r in v.resources && q in v.resources[r] <==> exists e | e in status.helm.hashes :: e.resource.ref == r)
            && (r in v.kustomize && q in v.kustomize[r] <==>
                  exists e | e in status.kustomize.hashes :: e.resource.ref == r)
  {
    var v, status := Recover(EMPTY, Records(store, list), calls).state.rows, store.summaries[q].status;
    RecoveredFromStore(store, list, calls);
    forall t ensures Tracks(v, r, t, q) <==> exists e | e in status.Get(ReadBack(t)).hashes :: e.resource.ref == r {
      if e :| e in status.Get(ReadBack(t)).hashes && e.resource.ref == r {
        assert EntryOf(status, Record(q, t, r, e.text));
        assert LiveEntry(store, list, Record(q, t, r, e.text));
      }
    }
    assert Tracks(v, r, HelmResource, q) <==> r in v.helm && q in v.helm[r];
    assert Tracks(v, r, Resource, q) <==> r in v.resources && q in v.resources[r];
    assert Tracks(v, r, KustomizeResource, q) <==> r in v.kustomize && q in v.kustomize[r];
  }

  lemma LiveEntryRecorded(store: Store, list: seq<ObjectRef>, q: ObjectRef, t: ResourceType, e: HashEntry)
    requires forall q' | q' in list :: q' in store.summaries
    requires q in list && !store.summaries[q].deleting && e in store.summaries[q].status.Get(t).hashes
    ensures Record(q, ReadBack(t), e.resource.ref, e.text) in Records(store, list)
  {
    var x := Record(q, ReadBack(t), e.resource.ref, e.text);
    assert EntryOf(store.summaries[q].status, x);
    RecordsAreLiveEntries(store, list, x);
  }

  // ---------------------------------------------------------------- drift across a restart

  /** On a recovered manager a resource is drifting exactly when it is absent or its last
      record is not the current digest. */
  lemma RecoveredDriftExactly(p: Platform, store: Store, records: seq<Record>, calls: seq<Call>, r: ObjectRef,
                              visit: Visit)
    requires |records| == |calls| && Recover(EMPTY, records, calls).ok
    requires LastText(records, r).Some?
    requires Sees(store, r, visit.fetch)
    requires Evaluate(p, Recover(EMPTY, records, calls).state, store, r, visit).ok
    ensures Evaluate(p, Recover(EMPTY, records, calls).state, store, r, visit).drift <==>
            r !in store.objects ||
            Hash(p, store.objects[r], Collect(store, visit.order)) != Ok(LastText(records, r).value)
  {
    RecoveredBaselines(EMPTY, records, calls);
  }

  /** A record written by a registration is hex text, which no digest equals: after a restart such
      a resource is reported even if it has not changed. */
  lemma HexRecordIsAlwaysReported(p: Platform, n: nat, store: Store, records: seq<Record>, calls: seq<Call>,
                                  r: ObjectRef, d: Bytes, visit: Visit)
    requires n > 0 && (forall text :: |p.digest(text)| == n) && |d| == n
    requires |records| == |calls| && Recover(EMPTY, records, calls).ok
    requires LastText(records, r) == Some(Hex(d)) && Sees(store, r, visit.fetch)
    requires Evaluate(p, Recover(EMPTY, records, calls).state, store, r, visit).ok
    ensures Evaluate(p, Recover(EMPTY, records, calls).state, store, r, visit).drift
  {
    RecoveredDriftExactly(p, store, records, calls, r, visit);
    if r in store.objects { HashLength(p, n, store.objects[r], Collect(store, visit.order)); }
  }

  lemma {:induction false} FlagsSurvivePass(p: Platform, s: State, store: Store, batch: seq<ObjectRef>,
                                            visits: seq<Visit>, q: ObjectRef, t: ResourceType)
    requires |batch| == |visits| && (forall i | 0 <= i < |batch| :: Possible(s.rows, batch[i], visits[i]))
    requires q in store.summaries && store.summaries[q].status.Get(t).changed
    ensures var pass := EvaluateAll(p, s, store, batch, visits);
            q in pass.store.summaries && pass.store.summaries[q].status.Get(t).changed
    decreases |batch|
  {
    if batch != [] {
      assert Possible(s.rows, batch[0], visits[0]);
      ReportNeverOverreaches(p, s, store, batch[0], visits[0]);
      EvaluateFrame(p, s, store, batch[0], visits[0]);
      var e := Evaluate(p, s, store, batch[0], visits[0]);
      FlagsSurvivePass(p, e.state, e.store, batch[1..], visits[1..], q, t);
    }
  }

  /** One evaluation without failure flags every tracker of a resource that is absent or
      differs from its baseline. */
  lemma DriftIsFlagged(p: Platform, s: State, store: Store, r: ObjectRef, visit: Visit, t: ResourceType, q: ObjectRef)
    requires Possible(s.rows, r, visit) && Sees(store, r, visit.fetch) && Evaluate(p, s, store, r, visit).ok
    requires Tracks(s.rows, r, t, q) && q in store.summaries && r in s.index.hashes
    requires r !in store.objects || Hash(p, store.objects[r], Collect(store, visit.order)) != Ok(s.index.hashes[r])
    ensures var e := Evaluate(p, s, store, r, visit);
            q in e.store.summaries && e.store.summaries[q].status.Get(t).changed
  {
    assert Evaluate(p, s, store, r, visit).drift;
    ReportIsExact(p, s, store, r, visit);
  }

  /** `r` is absent, or its digest is not its baseline. */
  ghost predicate Drifted(p: Platform, s: State, store: Store, r: ObjectRef, order: seq<ObjectRef>) {
    r in s.index.hashes &&
    (r !in store.objects || Hash(p, store.objects[r], Collect(store, order)) != Ok(s.index.hashes[r]))
  }

  /** Evaluating another resource does not change that. */
  lemma DriftPersists(p: Platform, s: State, store: Store, r: ObjectRef, visit: Visit, r': ObjectRef,
                      order: seq<ObjectRef>)
    requires StatusUnread(p, store, r') && r' != r && Drifted(p, s, store, r', order)
    ensures var e := Evaluate(p, s, store, r, visit);
            StatusUnread(p, e.store, r') && Drifted(p, e.state, e.store, r', order)
  {
    EvaluateInvisible(p, s, store, r, visit, r');
    if r' in store.objects { DigestSame(p, store, Evaluate(p, s, store, r, visit).store, r', order); }
    EvaluateFrame(p, s, store, r, visit);
  }

  /** A pass flags every tracker of a resource that is absent or differs from its baseline, if
      the evaluation of that resource does not fail. */
  lemma {:induction false} PassFlags(p: Platform, s: State, store: Store, batch: seq<ObjectRef>, visits: seq<Visit>,
                                     i: nat, t: ResourceType, q: ObjectRef)
    requires |batch| == |visits| && i < |batch| && StatusUnread(p, store, batch[i])
    requires forall j, k | 0 <= j < k < |batch| :: batch[j] != batch[k]
    requires forall j | 0 <= j < |batch| :: Possible(s.rows, batch[j], visits[j])
    requires SeesAt(p, s, store, batch, visits, i) && batch[i] !in EvaluateAll(p, s, store, batch, visits).failed
    requires Tracks(s.rows, batch[i], t, q) && q in store.summaries && Drifted(p, s, store, batch[i], visits[i].order)
    ensures var pass := EvaluateAll(p, s, store, batch, visits);
            q in pass.store.summaries && pass.store.summaries[q].status.Get(t).changed
    decreases |batch|
  {
    assert Possible(s.rows, batch[0], visits[0]);
    var e := Evaluate(p, s, store, batch[0], visits[0]);
    PassTail(p, s, store, batch, visits, i);
    EvaluateFrame(p, s, store, batch[0], visits[0]);
    if i == 0 {
      DriftIsFlagged(p, s, store, batch[0], visits[0], t, q);
      FlagsSurvivePass(p, e.state, e.store, batch[1..], visits[1..], q, t);
    } else {
      ReportNeverOverreaches(p, s, store, batch[0], visits[0]);
      assert batch[0] != batch[i];
      DriftPersists(p, s, store, batch[0], visits[0], batch[i], visits[i].order);
      PassFlags(p, e.state, e.store, batch[1..], visits[1..], i - 1, t, q);
    }
  }

  /** All records of `r` stand for the digest `d`, written raw by an evaluation or as hex by
      a registration. */
  ghost predicate RecordsAgree(records: seq<Record>, r: ObjectRef, d: Bytes) {
    forall x | x in records && x.r == r :: x.text == d || x.text == Hex(d)
  }

  /** After a restart and one pass that does not fail a resource, every live summary that records
      it has a changed flag if it is absent or its digest is not the recorded one. */
  lemma NoDriftMissedAcrossRestart(p: Platform, n: nat, store: Store, list: seq<ObjectRef>, calls: seq<Call>,
                                   batch: seq<ObjectRef>, visits: seq<Visit>,
                                   q: ObjectRef, t: ResourceType, e: HashEntry, d: Bytes, i: nat)
    requires StatusUnread(p, store, e.resource.ref) && n > 0 && (forall text :: |p.digest(text)| == n)
    requires Enumerates(list, store.summaries.Keys) && |calls| == |Records(store, list)|
    requires Recover(EMPTY, Records(store, list), calls).ok
    requires var s := Recover(EMPTY, Records(store, list), calls).state;
             && Enumerates(batch, s.jobQueue) && |visits| == |batch|
             && (forall j | 0 <= j < |batch| :: Possible(s.rows, batch[j], visits[j]))
             && i < |batch| && batch[i] == e.resource.ref
             && SeesAt(p, s.(jobQueue := {}), store, batch, visits, i)
             && batch[i] !in RunPass(p, s, store, batch, visits).failed
    requires q in store.summaries && !store.summaries[q].deleting && e in store.summaries[q].status.Get(t).hashes
    requires (|d| == n || d == []) && RecordsAgree(Records(store, list), e.resource.ref, d)
    requires e.resource.ref !in store.objects ||
             Hash(p, store.objects[e.resource.ref], Collect(store, visits[i].order)) != Ok(d)
    ensures var pass := RunPass(p, Recover(EMPTY, Records(store, list), calls).state, store, batch, visits);
            q in pass.store.summaries && pass.store.summaries[q].status.Get(ReadBack(t)).changed
  {
    var records := Records(store, list);
    LiveEntryRecorded(store, list, q, t, e);
    RecoveredTracks(records, calls, Record(q, ReadBack(t), e.resource.ref, e.text));
    StaleRecordIsDrift(p, n, store, records, calls, e.resource.ref, d, visits[i].order);
    RunPassFlags(p, Recover(EMPTY, records, calls).state, store, batch, visits, i, ReadBack(t), q);
  }

  lemma RecoveredTracks(records: seq<Record>, calls: seq<Call>, x: Record)
    requires |records| == |calls| && Recover(EMPTY, records, calls).ok && x in records
    ensures Tracks(Recover(EMPTY, records, calls).state.rows, x.r, x.t, x.q)
  {
    RecoveredRelation(EMPTY, records, calls);
    assert Recorded(records, x.r, x.t, x.q);
  }

  lemma RunPassFlags(p: Platform, s: State, store: Store, batch: seq<ObjectRef>, visits: seq<Visit>,
                     i: nat, t: ResourceType, q: ObjectRef)
    requires |batch| == |visits| && i < |batch| && StatusUnread(p, store, batch[i]) && Enumerates(batch, s.jobQueue)
    requires forall j | 0 <= j < |batch| :: Possible(s.rows, batch[j], visits[j])
    requires SeesAt(p, s.(jobQueue := {}), store, batch, visits, i)
    requires batch[i] !in RunPass(p, s, store, batch, visits).failed
    requires Tracks(s.rows, batch[i], t, q) && q in store.summaries
    requires Drifted(p, s.(jobQueue := {}), store, batch[i], visits[i].order)
    ensures var pass := RunPass(p, s, store, batch, visits);
            q in pass.store.summaries && pass.store.summaries[q].status.Get(t).changed
  {
    PassFlags(p, s.(jobQueue := {}), store, batch, visits, i, t, q);
  }

  /** A recorded resource that is absent, or whose digest is not the recorded one, is drifting
      from the baseline that recovery gave it, whichever way the digest was written. */
  lemma StaleRecordIsDrift(p: Platform, n: nat, store: Store, records: seq<Record>, calls: seq<Call>,
                           r: ObjectRef, d: Bytes, order: seq<ObjectRef>)
    requires n > 0 && (forall text :: |p.digest(text)| == n)
    requires |records| == |calls| && Recover(EMPTY, records, calls).ok
    requires (exists x | x in records :: x.r == r) && (|d| == n || d == []) && RecordsAgree(records, r, d)
    requires r !in store.objects || Hash(p, store.objects[r], Collect(store, order)) != Ok(d)
    ensures Drifted(p, Recover(EMPTY, records, calls).state.(jobQueue := {}), store, r, order)
  {
    LastTextRecorded(records, r);
    RecoveredBaselines(EMPTY, records, calls);
    var x :| x in records && x.r == r && x.text == LastText(records, r).value;
    if r in store.objects && x.text != d {
      HashLength(p, n, store.objects[r], Collect(store, order));
      assert |x.text| == 2 * |d|;
    }
  }

  lemma HashLength(p: Platform, n: nat, u: Content, patches: seq<Patch>)
    requires forall text :: |p.digest(text)| == n
    ensures Hash(p, u, patches).Ok? ==> |Hash(p, u, patches).value| == n
  {
  }
}
