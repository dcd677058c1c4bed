/** Creating, publishing and resetting the one manager instance of the process. */
module Initialization {
  import opened Types

  type Thread = nat
  type Instance = nat

  /** Where a thread stands. Only the first look at the instance is taken without the lock. */
  datatype Pc =
    | Ready
    | SawNone
    | Locked
    | Recovering(id: Instance)
    | InitReturned(ok: bool)
    | GetReturned(found: Option<Instance>)

  /** `recovered` and `failed`: instances whose recovery has returned nil or an error. */
  datatype Globals = Globals(
    instance: Option<Instance>,
    lock: Option<Thread>,
    threads: map<Thread, Pc>,
    next: Instance,
    recovered: set<Instance>,
    failed: set<Instance>)

  datatype Action =
    | Look
    | Lock
    | Create
    | Recover(ok: bool)
    | Get
    | Reset
    | Again

  datatype Move = Move(thread: Thread, action: Action)

  function PcOf(g: Globals, th: Thread): Pc {
    if th in g.threads then g.threads[th] else Ready
  }

  function At(g: Globals, th: Thread, pc: Pc): Globals {
    g.(threads := g.threads[th := pc])
  }

  predicate CanMove(g: Globals, m: Move) {
    var pc := PcOf(g, m.thread);
    match m.action
    case Look => pc.Ready?
    case Lock => pc.SawNone? && g.lock.None?
    case Create => pc.Locked?
    case Recover(_) => pc.Recovering?
    case Get => pc.Ready? && g.lock.None?
    case Reset => pc.Ready? && g.lock.None?
    case Again => pc.InitReturned? || pc.GetReturned?
  }

  function Do(g: Globals, m: Move): Globals
    requires CanMove(g, m)
  {
    var th := m.thread;
    match m.action
    case Look => At(g, th, if g.instance.Some? then InitReturned(true) else SawNone)
    case Lock => At(g, th, Locked).(lock := Some(th))
    case Create =>
      if g.instance.Some? then At(g, th, InitReturned(true)).(lock := None)
      else At(g, th, Recovering(g.next)).(instance := Some(g.next), next := g.next + 1)
    case Recover(ok) =>
      var id := PcOf(g, th).id;
      if ok then At(g, th, InitReturned(true)).(lock := None, recovered := g.recovered + {id})
      else At(g, th, InitReturned(false)).(lock := None, instance := None, failed := g.failed + {id})
    case Get => At(g, th, GetReturned(g.instance))
    case Reset => g.(instance := None)
    case Again => At(g, th, Ready)
  }

  ghost predicate CanRun(g: Globals, moves: seq<Move>)
    decreases |moves|
  {
    moves == [] || (CanMove(g, moves[0]) && CanRun(Do(g, moves[0]), moves[1..]))
  }

  ghost function Run(g: Globals, moves: seq<Move>): Globals
    requires CanRun(g, moves)
    decreases |moves|
  {
    if moves == [] then g else Run(Do(g, moves[0]), moves[1..])
  }

  const START := Globals(None, None, map[], 0, {}, {})

  ghost predicate Holds(g: Globals, th: Thread) {
    PcOf(g, th).Locked? || PcOf(g, th).Recovering?
  }

  ghost predicate ProtocolInvariant(g: Globals) {
    // the lock excludes
    && (forall th: Thread :: Holds(g, th) <==> g.lock == Some(th))
    // an instance still recovering is the published one
    && (forall th: Thread | PcOf(g, th).Recovering? ::
          g.instance == Some(PcOf(g, th).id) && PcOf(g, th).id !in g.recovered + g.failed)
    // a published instance that nobody is recovering has recovered
    && (g.instance.Some? ==> g.instance.value < g.next && g.instance.value !in g.failed)
    && (g.instance.Some? && g.instance.value !in g.recovered ==> g.lock.Some? && PcOf(g, g.lock.value).Recovering?)
    // whatever was handed out has recovered
    && (forall th: Thread | PcOf(g, th).GetReturned? && PcOf(g, th).found.Some? :: PcOf(g, th).found.value in g.recovered)
    && g.recovered !! g.failed
    && (forall id | id in g.recovered + g.failed :: id < g.next)
  }

  lemma MoveKeepsProtocol(g: Globals, m: Move)
    requires ProtocolInvariant(g) && CanMove(g, m)
    ensures ProtocolInvariant(Do(g, m))
  {
    var g' := Do(g, m);
    assert forall th: Thread | th != m.thread :: PcOf(g', th) == PcOf(g, th);
    assert forall th: Thread | PcOf(g, th).Recovering? :: Holds(g, th);
    assert Holds(g, m.thread) <==> g.lock == Some(m.thread);
  }

  /** Under every interleaving of initialisations, lookups and resets, a manager handed out by
      `GetManager` has completed recovery, and one whose recovery failed is not published. */
  lemma {:induction false} OnlyRecoveredManagersAreHandedOut(g: Globals, moves: seq<Move>)
    requires ProtocolInvariant(g) && CanRun(g, moves)
    ensures ProtocolInvariant(Run(g, moves))
    ensures forall th: Thread | PcOf(Run(g, moves), th).GetReturned? && PcOf(Run(g, moves), th).found.Some? ::
              && PcOf(Run(g, moves), th).found.value in Run(g, moves).recovered
              && PcOf(Run(g, moves), th).found.value !in Run(g, moves).failed
    ensures forall id | id in Run(g, moves).failed :: Run(g, moves).instance != Some(id)
    decreases |moves|
  {
    if moves != [] {
      MoveKeepsProtocol(g, moves[0]);
      OnlyRecoveredManagersAreHandedOut(Do(g, moves[0]), moves[1..]);
    }
  }

  lemma StartIsSafe()
    ensures ProtocolInvariant(START)
  {
  }

  /** Over every run: `GetManager` returns whatever is published, which has recovered; `Reset`
      leaves nothing published; and nothing else takes a recovered manager back. */
  lemma PublishedUntilReset(moves: seq<Move>, m: Move)
    requires CanRun(START, moves) && CanMove(Run(START, moves), m)
    ensures var before, after := Run(START, moves), Do(Run(START, moves), m);
            && (m.action.Get? ==>
                  && PcOf(after, m.thread) == GetReturned(before.instance) && after.instance == before.instance
                  && (before.instance.Some? ==> before.instance.value in before.recovered))
            && (m.action.Reset? ==> after.instance == None)
            && (before.instance.Some? && before.instance.value in before.recovered && !m.action.Reset? ==>
                  after.instance == before.instance)
  {
    StartIsSafe();
    OnlyRecoveredManagersAreHandedOut(START, moves);
    var g := Run(START, moves);
    assert Holds(g, m.thread) <==> g.lock == Some(m.thread);
    assert g.lock.Some? && PcOf(g, g.lock.value).Recovering? ==> PcOf(g, g.lock.value).id !in g.recovered + g.failed;
  }

  /** After a reset `GetManager` finds nothing until a manager is created again. */
  lemma {:induction false} NothingAfterReset(g: Globals, moves: seq<Move>, th: Thread)
    requires CanRun(g, moves) && g.instance == None && CanMove(Run(g, moves), Move(th, Get))
    requires forall m | m in moves :: !m.action.Create?
    ensures PcOf(Do(Run(g, moves), Move(th, Get)), th) == GetReturned(None)
    decreases |moves|
  {
    if moves != [] {
      assert moves[0] in moves && forall m | m in moves[1..] :: m in moves;
      NothingAfterReset(Do(g, moves[0]), moves[1..], th);
    }
  }

  /** Some thread holds the lock and is still reading the ResourceSummaries. */
  predicate RecoveryUnderWay(g: Globals) {
    g.lock.Some? && PcOf(g, g.lock.value).Recovering?
  }

  /** Which calls of `InitializeManager` that return nil leave a recovered manager published:
      the unlocked look does exactly when no recovery is under way, the look under the lock
      always does, and so does the call that recovers. */
  lemma NilReturnIsGoodExactly(moves: seq<Move>, m: Move)
    requires CanRun(START, moves) && CanMove(Run(START, moves), m)
    requires PcOf(Do(Run(START, moves), m), m.thread) == InitReturned(true)
    ensures var before := Run(START, moves);
            var after := Do(before, m);
            && after.instance.Some?
            && (after.instance.value in after.recovered <==> (m.action.Look? ==> !RecoveryUnderWay(before)))
  {
    StartIsSafe();
    OnlyRecoveredManagersAreHandedOut(START, moves);
    MoveKeepsProtocol(Run(START, moves), m);
  }

  /** The unlocked look makes `InitializeManager` weaker than `GetManager`: it can return nil
      while another thread is recovering, and that recovery can still fail. */
  lemma InitialiseCanReturnNilWithoutManager()
    ensures var moves := [Move(1, Look), Move(1, Lock), Move(1, Create), Move(2, Look), Move(1, Recover(false))];
            && CanRun(START, moves)
            && PcOf(Run(START, moves), 2) == InitReturned(true)
            && Run(START, moves).instance == None
            && Run(START, moves).recovered == {}
  {
    var moves := [Move(1, Look), Move(1, Lock), Move(1, Create), Move(2, Look), Move(1, Recover(false))];
    assert |moves[1..][1..][1..][1..][1..]| == 0;
  }
}
