/** Event appends and seals from many clients at once: the row lock on `executions`, read-committed
    reads, commits and rollbacks at any point, over every interleaving. */
module ConcurrentSeal {
  import opened Basics
  import opened Records
  import opened Graph
  import opened Kernel
  import opened VerifyGraphs
  import opened EventDag
  import opened Reachable
  import opened Completeness
  import Ledgers
  import Canonical
  import Sorting

  type Client = nat

  /** How far a client is inside `appendExecutionEventInTransaction`. */
  datatype Work =
    | Ready
    | Locked(input: EventInput)
    | Numbered(input: EventInput, sequence: int)

  /** How far a client is inside `sealExecutionInTransaction`. */
  datatype Phase =
    | Preluding(next: nat, chained: seq<Str>)
    | Listed(parents: seq<Str>, events: seq<Event>, preSealHash: Str)
    | Hashed(before: seq<Event>, sealed: Event, graphHash: Str)

  datatype Task = Appending | Sealing(seal: SealInput, execution: Execution, phase: Phase)

  /** An open transaction: the execution rows it has locked and the events only it sees. */
  datatype Tx = Tx(task: Task, work: Work, locks: set<Str>, staged: seq<Event>)

  /** A committed seal: the graph hash of its ledger entry and the sequence of its sealed event. */
  datatype SealRecord = SealRecord(seal: SealInput, execution: Execution, sequence: int, graphHash: Str)

  datatype World = World(executions: map<Str, Execution>, events: seq<Event>, txs: map<Client, Tx>, seals: seq<SealRecord>)

  datatype Step =
    | Begin(c: Client)
    | BeginSeal(c: Client, seal: SealInput)
    | Lock(c: Client, input: EventInput)
    | Number(c: Client)
    | Insert(c: Client)
    | List(c: Client)
    | Commit(c: Client)
    | Rollback(c: Client)

  function Committed(w: World): Tables { Tables(map[], w.executions, w.events) }

  /** What a transaction sees: committed events and its own. */
  function View(w: World, tx: Tx): Tables { Tables(map[], w.executions, w.events + tx.staged) }

  predicate Free(w: World, c: Client, id: Str)
  {
    forall d :: d in w.txs && d != c ==> id !in w.txs[d].locks
  }

  /** The event a task appends next; an appending transaction may append any. */
  predicate Wants(task: Task, input: EventInput)
  {
    match task
    case Appending => true
    case Sealing(seal, x, Preluding(i, chained)) => i < |seal.preludeEvents| && input == PreludeInput(seal, i, chained)
    case Sealing(seal, x, Listed(parents, events, preSealHash)) => input == SealedInput(seal, parents, preSealHash)
    case Sealing(seal, x, Hashed(_, _, _)) => false
  }

  function Close(w: World, c: Client): World { w.(txs := w.txs - {c}) }

  function Put(w: World, c: Client, tx: Tx): World { w.(txs := w.txs[c := tx]) }

  /** The task after its event `e` was inserted; `None` when the sealed graph does not hash. */
  function Advance(sha: Sha, task: Task, e: Event): Option<Task>
  {
    match task
    case Appending => Some(task)
    case Sealing(seal, x, Preluding(i, chained)) => Some(task.(phase := Preluding(i + 1, [e.id])))
    case Sealing(seal, x, Listed(parents, events, preSealHash)) =>
      (match HashGraph(sha, AsSealed(x, seal), events + [e])
       case Ok(h) => Some(task.(phase := Hashed(events, e, h)))
       case Err(_) => None)
    case Sealing(seal, x, Hashed(_, _, _)) => None
  }

  function AfterInsert(sha: Sha, types: set<Str>, w: World, c: Client): World
    requires c in w.txs && w.txs[c].work.Numbered?
  {
    var tx := w.txs[c];
    match NewEventAt(types, View(w, tx), tx.work.input, tx.work.sequence)
    case Err(_) => Close(w, c)
    case Ok(e) =>
      match Advance(sha, tx.task, e)
      case None => Close(w, c)
      case Some(task) => Put(w, c, Tx(task, Ready, tx.locks, tx.staged + [e]))
  }

  predicate CanList(tx: Tx)
  {
    tx.work.Ready? && tx.task.Sealing? && tx.task.phase.Preluding? && tx.task.phase.next >= |tx.task.seal.preludeEvents|
  }

  function AfterList(sha: Sha, w: World, c: Client): World
    requires c in w.txs && CanList(w.txs[c])
  {
    var tx := w.txs[c];
    var seal := tx.task.seal;
    var events := ListEvents(View(w, tx).events, seal.organizationId, seal.executionId);
    match HashGraph(sha, AsSealed(tx.task.execution, seal), events)
    case Err(_) => Close(w, c)
    case Ok(h) => Put(w, c, tx.(task := tx.task.(phase := Listed(tx.task.phase.chained, events, h))))
  }

  predicate CanCommit(tx: Tx)
  {
    tx.work.Ready? && (tx.task.Sealing? ==> tx.task.phase.Hashed?)
  }

  function AfterCommit(w: World, c: Client): World
    requires c in w.txs && CanCommit(w.txs[c])
  {
    var tx := w.txs[c];
    World(w.executions, w.events + tx.staged, w.txs - {c},
          if tx.task.Sealing?
          then w.seals + [SealRecord(tx.task.seal, tx.task.execution, tx.task.phase.sealed.eventSequence, tx.task.phase.graphHash)]
          else w.seals)
  }

  /** The next state; `None` when the step cannot be taken. */
  function Next(sha: Sha, types: set<Str>, w: World, step: Step): Option<World>
  {
    match step
    case Begin(c) => if c in w.txs then None else Some(Put(w, c, Tx(Appending, Ready, {}, [])))
    case BeginSeal(c, seal) =>
      var x := GetExecution(Committed(w), seal.organizationId, seal.executionId);
      if c in w.txs || x.None? then None
      else Some(Put(w, c, Tx(Sealing(seal, x.value, Preluding(0, seal.parentEventIds)), Ready, {}, [])))
    case Lock(c, input) =>
      if c in w.txs && w.txs[c].work.Ready? && Wants(w.txs[c].task, input)
         && GetExecution(Committed(w), input.organizationId, input.executionId).Some? && Free(w, c, input.executionId)
      then Some(Put(w, c, w.txs[c].(work := Locked(input), locks := w.txs[c].locks + {input.executionId})))
      else None
    case Number(c) =>
      if c in w.txs && w.txs[c].work.Locked?
      then Some(Put(w, c, w.txs[c].(work := Numbered(w.txs[c].work.input, NextSequence(View(w, w.txs[c]), w.txs[c].work.input)))))
      else None
    case Insert(c) => if c in w.txs && w.txs[c].work.Numbered? then Some(AfterInsert(sha, types, w, c)) else None
    case List(c) => if c in w.txs && CanList(w.txs[c]) then Some(AfterList(sha, w, c)) else None
    case Commit(c) => if c in w.txs && CanCommit(w.txs[c]) then Some(AfterCommit(w, c)) else None
    case Rollback(c) => if c in w.txs then Some(Close(w, c)) else None
  }

  function Run(sha: Sha, types: set<Str>, start: World, schedule: seq<Step>): Option<World>
  {
    if schedule == [] then Some(start)
    else
      match Run(sha, types, start, schedule[..|schedule| - 1])
      case None => None
      case Some(w) => Next(sha, types, w, schedule[|schedule| - 1])
  }

  // ---------------------------------------------------------------- the invariant

  ghost predicate StagedUnderLock(tx: Tx)
  {
    forall i :: 0 <= i < |tx.staged| ==> tx.staged[i].executionId in tx.locks
  }

  ghost predicate ViewSound(w: World, tx: Tx)
  {
    forall id :: ExecutionSound(View(w, tx), id)
  }

  /** A sequence number read under the lock is still the next one. */
  ghost predicate WorkOk(w: World, tx: Tx)
  {
    tx.work.Ready? || (
      && tx.work.input.executionId in tx.locks
      && GetExecution(Committed(w), tx.work.input.organizationId, tx.work.input.executionId).Some?
      && Wants(tx.task, tx.work.input)
      && (tx.work.Numbered? ==> tx.work.sequence == NextSequence(View(w, tx), tx.work.input)))
  }

  /** The seal's own execution, as the transaction sees it. */
  function Mine(w: World, tx: Tx): seq<Event>
    requires tx.task.Sealing?
  {
    EventsFor(View(w, tx).events, tx.task.seal.executionId)
  }

  /** With a prelude, what a seal listed is still all there is. */
  ghost predicate TaskOk(sha: Sha, w: World, tx: Tx)
  {
    match tx.task
    case Appending => true
    case Sealing(seal, x, phase) =>
      && (GetExecution(Committed(w), seal.organizationId, seal.executionId) == Some(x))
      && match phase
         case Preluding(i, _) => i > 0 ==> seal.executionId in tx.locks
         case Listed(_, events, preSealHash) =>
           && HashGraph(sha, AsSealed(x, seal), events) == Ok(preSealHash)
           && (seal.preludeEvents != [] ==> seal.executionId in tx.locks && Mine(w, tx) == events)
         case Hashed(before, sealed, graphHash) =>
           && seal.executionId in tx.locks
           && sealed.outputHash.Some? && HashGraph(sha, AsSealed(x, seal), before) == Ok(sealed.outputHash.value)
           && HashGraph(sha, AsSealed(x, seal), before + [sealed]) == Ok(graphHash)
           && (seal.preludeEvents != [] ==> Mine(w, tx) == before + [sealed])
  }

  ghost predicate TxOk(sha: Sha, w: World, tx: Tx)
  {
    StagedUnderLock(tx) && ViewSound(w, tx) && WorkOk(w, tx) && TaskOk(sha, w, tx)
  }

  ghost predicate Exclusive(w: World)
  {
    forall c, d :: c in w.txs && d in w.txs && c != d ==> w.txs[c].locks !! w.txs[d].locks
  }

  /** The ledger's graph hash is over exactly the events up to the sealed one, and the sealed
      event's output hash is over exactly the events before it. */
  ghost predicate Covers(sha: Sha, events: seq<Event>, r: SealRecord)
  {
    var mine, x, n := EventsFor(events, r.seal.executionId), AsSealed(r.execution, r.seal), r.sequence;
    && 1 <= n <= |mine| && mine[n - 1].outputHash.Some?
    && HashGraph(sha, x, mine[..n - 1]) == Ok(mine[n - 1].outputHash.value)
    && HashGraph(sha, x, mine[..n]) == Ok(r.graphHash)
  }

  ghost predicate SealsOk(sha: Sha, w: World)
  {
    forall k :: 0 <= k < |w.seals| && w.seals[k].seal.preludeEvents != [] ==> Covers(sha, w.events, w.seals[k])
  }

  ghost predicate Inv(sha: Sha, w: World)
  {
    && Exclusive(w)
    && (forall id :: ExecutionSound(Committed(w), id))
    && (forall c :: c in w.txs ==> TxOk(sha, w, w.txs[c]))
    && SealsOk(sha, w)
  }

  // ---------------------------------------------------------------- steps inside a transaction

  lemma CloseKeeps(sha: Sha, w: World, c: Client)
    requires Inv(sha, w)
    ensures Inv(sha, Close(w, c))
  {
    var v := Close(w, c);
    assert Committed(v) == Committed(w);
    forall d | d in v.txs ensures TxOk(sha, v, v.txs[d]) {
      SameTx(sha, w, v, w.txs[d]);
    }
  }

  lemma SameTx(sha: Sha, w: World, v: World, tx: Tx)
    requires TxOk(sha, w, tx) && v.executions == w.executions && v.events == w.events
    ensures TxOk(sha, v, tx)
  {
    assert View(v, tx) == View(w, tx) && Committed(v) == Committed(w);
  }

  lemma PutKeeps(sha: Sha, w: World, c: Client, tx: Tx)
    requires Inv(sha, w) && TxOk(sha, w, tx)
    requires forall d :: d in w.txs && d != c ==> w.txs[d].locks !! tx.locks
    ensures Inv(sha, Put(w, c, tx))
  {
    var v := Put(w, c, tx);
    assert Committed(v) == Committed(w);
    forall d | d in v.txs ensures TxOk(sha, v, v.txs[d]) {
      SameTx(sha, w, v, v.txs[d]);
    }
  }

  lemma FreshKeeps(sha: Sha, w: World, c: Client, task: Task)
    requires Inv(sha, w) && c !in w.txs
    requires TaskOk(sha, w, Tx(task, Ready, {}, []))
    ensures Inv(sha, Put(w, c, Tx(task, Ready, {}, [])))
  {
    var tx := Tx(task, Ready, {}, []);
    assert w.events + [] == w.events;
    assert View(w, tx) == Committed(w);
    PutKeeps(sha, w, c, tx);
  }

  lemma LockKeeps(sha: Sha, w: World, c: Client, input: EventInput)
    requires Inv(sha, w) && c in w.txs && w.txs[c].work.Ready? && Wants(w.txs[c].task, input)
    requires GetExecution(Committed(w), input.organizationId, input.executionId).Some? && Free(w, c, input.executionId)
    ensures Inv(sha, Put(w, c, w.txs[c].(work := Locked(input), locks := w.txs[c].locks + {input.executionId})))
  {
    var before := w.txs[c];
    var tx := before.(work := Locked(input), locks := before.locks + {input.executionId});
    assert TxOk(sha, w, before);
    assert View(w, tx) == View(w, before);
    PutKeeps(sha, w, c, tx);
  }

  lemma NumberKeeps(sha: Sha, w: World, c: Client)
    requires Inv(sha, w) && c in w.txs && w.txs[c].work.Locked?
    ensures Inv(sha, Put(w, c, w.txs[c].(work := Numbered(w.txs[c].work.input, NextSequence(View(w, w.txs[c]), w.txs[c].work.input)))))
  {
    var before := w.txs[c];
    var tx := before.(work := Numbered(before.work.input, NextSequence(View(w, before), before.work.input)));
    assert TxOk(sha, w, before);
    assert View(w, tx) == View(w, before);
    PutKeeps(sha, w, c, tx);
  }

  lemma ListKeeps(sha: Sha, w: World, c: Client)
    requires Inv(sha, w) && c in w.txs && CanList(w.txs[c])
    ensures Inv(sha, AfterList(sha, w, c))
  {
    var before := w.txs[c];
    var seal := before.task.seal;
    assert TxOk(sha, w, before);
    assert ExecutionSound(View(w, before), seal.executionId);
    var events := ListEvents(View(w, before).events, seal.organizationId, seal.executionId);
    ListIsFor(View(w, before), seal.organizationId, seal.executionId);
    var h := HashGraph(sha, AsSealed(before.task.execution, seal), events);
    if h.Ok? {
      var tx := before.(task := before.task.(phase := Listed(before.task.phase.chained, events, h.value)));
      assert View(w, tx) == View(w, before);
      PutKeeps(sha, w, c, tx);
    } else {
      CloseKeeps(sha, w, c);
    }
  }

  // ---------------------------------------------------------------- inserting

  lemma InsertedView(w: World, tx: Tx, task: Task, e: Event)
    ensures View(w, Tx(task, Ready, tx.locks, tx.staged + [e])) == AddEvent(View(w, tx), e)
  {
    assert w.events + (tx.staged + [e]) == (w.events + tx.staged) + [e];
  }

  lemma InsertKeepsView(types: set<Str>, w: World, tx: Tx, task: Task, e: Event)
    requires StagedUnderLock(tx) && ViewSound(w, tx) && WorkOk(w, tx) && tx.work.Numbered?
    requires NewEventAt(types, View(w, tx), tx.work.input, tx.work.sequence) == Ok(e)
    ensures StagedUnderLock(Tx(task, Ready, tx.locks, tx.staged + [e]))
    ensures ViewSound(w, Tx(task, Ready, tx.locks, tx.staged + [e]))
    ensures e.outputHash == tx.work.input.outputHash && e.executionId == tx.work.input.executionId
    ensures EventsFor(View(w, Tx(task, Ready, tx.locks, tx.staged + [e])).events, e.executionId)
         == EventsFor(View(w, tx).events, e.executionId) + [e]
  {
    var input, t := tx.work.input, View(w, tx);
    assert NewEvent(types, t, input) == Ok(e);
    InsertedView(w, tx, task, e);
    forall id ensures ExecutionSound(AddEvent(t, e), id) {
      assert ExecutionSound(t, id) && ExecutionSound(t, input.executionId);
      EventKeepsSound(types, t, input, id);
    }
    assert ExecutionSound(t, input.executionId);
    EventKeepsSound(types, t, input, input.executionId);
  }

  lemma InsertKeeps(sha: Sha, types: set<Str>, w: World, c: Client)
    requires Inv(sha, w) && c in w.txs && w.txs[c].work.Numbered?
    ensures Inv(sha, AfterInsert(sha, types, w, c))
  {
    var tx := w.txs[c];
    assert TxOk(sha, w, tx);
    var r := NewEventAt(types, View(w, tx), tx.work.input, tx.work.sequence);
    if r.Ok? && Advance(sha, tx.task, r.value).Some? {
      var task := Advance(sha, tx.task, r.value).value;
      InsertKeepsView(types, w, tx, task, r.value);
      PutKeeps(sha, w, c, Tx(task, Ready, tx.locks, tx.staged + [r.value]));
    } else {
      CloseKeeps(sha, w, c);
    }
  }

  // ---------------------------------------------------------------- committing

  lemma {:induction false} NotStaged(events: seq<Event>, id: Str)
    requires forall i :: 0 <= i < |events| ==> events[i].executionId != id
    ensures EventsFor(events, id) == []
  {
    if events != [] {
      NotStaged(events[1..], id);
    }
  }

  lemma Unstaged(tx: Tx, id: Str)
    requires StagedUnderLock(tx) && id !in tx.locks
    ensures EventsFor(tx.staged, id) == []
  {
    NotStaged(tx.staged, id);
  }

  /** A commit adds nothing to the executions another transaction has locked. */
  lemma ViewOfOther(w: World, tx: Tx, other: Tx, v: World, id: Str)
    requires StagedUnderLock(tx) && StagedUnderLock(other) && tx.locks !! other.locks
    requires v.executions == w.executions && v.events == w.events + tx.staged
    ensures EventsFor(View(v, other).events, id)
         == if id in tx.locks then EventsFor(View(w, tx).events, id) else EventsFor(View(w, other).events, id)
  {
    EventsForConcat(w.events, tx.staged, id);
    EventsForConcat(v.events, other.staged, id);
    EventsForConcat(w.events, other.staged, id);
    if id in tx.locks {
      Unstaged(other, id);
      assert EventsFor(v.events, id) + [] == EventsFor(v.events, id);
    } else {
      Unstaged(tx, id);
      assert EventsFor(w.events, id) + [] == EventsFor(w.events, id);
    }
  }

  lemma OtherViewSound(w: World, tx: Tx, other: Tx, v: World)
    requires StagedUnderLock(tx) && StagedUnderLock(other) && tx.locks !! other.locks
    requires v.executions == w.executions && v.events == w.events + tx.staged
    requires ViewSound(w, tx) && ViewSound(w, other)
    ensures ViewSound(v, other)
  {
    forall id ensures ExecutionSound(View(v, other), id) {
      ViewOfOther(w, tx, other, v, id);
      assert ExecutionSound(View(w, tx), id) && ExecutionSound(View(w, other), id);
      if id in tx.locks {
      } else {
      }
    }
  }

  lemma SameNext(t: Tables, u: Tables, input: EventInput)
    requires ExecutionSound(t, input.executionId) && ExecutionSound(u, input.executionId)
    requires GetExecution(t, input.organizationId, input.executionId).Some? && u.executions == t.executions
    requires EventsFor(u.events, input.executionId) == EventsFor(t.events, input.executionId)
    ensures NextSequence(u, input) == NextSequence(t, input)
  {
    NextSequenceIsLength(t, input);
    NextSequenceIsLength(u, input);
  }

  lemma OtherTxOk(sha: Sha, w: World, tx: Tx, other: Tx, v: World)
    requires TxOk(sha, w, tx) && TxOk(sha, w, other) && tx.locks !! other.locks
    requires v.executions == w.executions && v.events == w.events + tx.staged
    ensures TxOk(sha, v, other)
  {
    OtherViewSound(w, tx, other, v);
    if !other.work.Ready? {
      var input := other.work.input;
      ViewOfOther(w, tx, other, v, input.executionId);
      assert ExecutionSound(View(w, other), input.executionId) && ExecutionSound(View(v, other), input.executionId);
      SameNext(View(w, other), View(v, other), input);
    }
    if other.task.Sealing? {
      ViewOfOther(w, tx, other, v, other.task.seal.executionId);
    }
  }

  /** Events are only ever added behind those a seal covered. */
  lemma CoversStays(sha: Sha, events: seq<Event>, more: seq<Event>, r: SealRecord)
    requires Covers(sha, events, r)
    ensures Covers(sha, events + more, r)
  {
    EventsForConcat(events, more, r.seal.executionId);
    SamePrefix(EventsFor(events, r.seal.executionId), EventsFor(more, r.seal.executionId), r.sequence);
  }

  lemma SamePrefix(a: seq<Event>, more: seq<Event>, n: int)
    requires 1 <= n <= |a|
    ensures (a + more)[..n] == a[..n] && (a + more)[..n - 1] == a[..n - 1] && (a + more)[n - 1] == a[n - 1]
  {
  }

  lemma CoversLast(sha: Sha, events: seq<Event>, r: SealRecord, before: seq<Event>, sealed: Event)
    requires EventsFor(events, r.seal.executionId) == before + [sealed] && r.sequence == |before| + 1
    requires sealed.outputHash.Some?
    requires HashGraph(sha, AsSealed(r.execution, r.seal), before) == Ok(sealed.outputHash.value)
    requires HashGraph(sha, AsSealed(r.execution, r.seal), before + [sealed]) == Ok(r.graphHash)
    ensures Covers(sha, events, r)
  {
    var mine := EventsFor(events, r.seal.executionId);
    assert mine[..|mine|] == mine && mine[..|mine| - 1] == before;
  }

  lemma NewSealCovers(sha: Sha, w: World, tx: Tx)
    requires TxOk(sha, w, tx) && CanCommit(tx) && tx.task.Sealing? && tx.task.seal.preludeEvents != []
    ensures Covers(sha, w.events + tx.staged,
                   SealRecord(tx.task.seal, tx.task.execution, tx.task.phase.sealed.eventSequence, tx.task.phase.graphHash))
  {
    var mine, phase := Mine(w, tx), tx.task.phase;
    assert ExecutionSound(View(w, tx), tx.task.seal.executionId);
    DagSequence(mine, |mine| - 1);
    CoversLast(sha, w.events + tx.staged,
               SealRecord(tx.task.seal, tx.task.execution, phase.sealed.eventSequence, phase.graphHash), phase.before, phase.sealed);
  }

  lemma CommitKeeps(sha: Sha, w: World, c: Client)
    requires Inv(sha, w) && c in w.txs && CanCommit(w.txs[c])
    ensures Inv(sha, AfterCommit(w, c))
  {
    var tx, v := w.txs[c], AfterCommit(w, c);
    assert TxOk(sha, w, tx);
    forall id ensures ExecutionSound(Committed(v), id) {
      assert ExecutionSound(View(w, tx), id);
    }
    forall d | d in v.txs ensures TxOk(sha, v, v.txs[d]) {
      assert d in w.txs && d != c;
      OtherTxOk(sha, w, tx, w.txs[d], v);
    }
    forall k | 0 <= k < |v.seals| && v.seals[k].seal.preludeEvents != [] ensures Covers(sha, v.events, v.seals[k]) {
      if k < |w.seals| {
        CoversStays(sha, w.events, tx.staged, w.seals[k]);
      } else {
        NewSealCovers(sha, w, tx);
      }
    }
  }

  // ---------------------------------------------------------------- every schedule

  lemma StepKeeps(sha: Sha, types: set<Str>, w: World, step: Step)
    requires Inv(sha, w) && Next(sha, types, w, step).Some?
    ensures Inv(sha, Next(sha, types, w, step).value)
  {
    match step
    case Begin(c) => FreshKeeps(sha, w, c, Appending);
    case BeginSeal(c, seal) =>
      FreshKeeps(sha, w, c, Sealing(seal, GetExecution(Committed(w), seal.organizationId, seal.executionId).value,
                                    Preluding(0, seal.parentEventIds)));
    case Lock(c, input) => LockKeeps(sha, w, c, input);
    case Number(c) => NumberKeeps(sha, w, c);
    case Insert(c) => InsertKeeps(sha, types, w, c);
    case List(c) => ListKeeps(sha, w, c);
    case Commit(c) => CommitKeeps(sha, w, c);
    case Rollback(c) => CloseKeeps(sha, w, c);
  }

  function Start(executions: map<Str, Execution>): World { World(executions, [], map[], []) }

  lemma {:induction false} RunKeeps(sha: Sha, types: set<Str>, start: World, schedule: seq<Step>)
    requires Inv(sha, start) && Run(sha, types, start, schedule).Some?
    ensures Inv(sha, Run(sha, types, start, schedule).value)
  {
    if schedule != [] {
      RunKeeps(sha, types, start, schedule[..|schedule| - 1]);
      StepKeeps(sha, types, Run(sha, types, start, schedule[..|schedule| - 1]).value, schedule[|schedule| - 1]);
    }
  }

  lemma StartOk(sha: Sha, executions: map<Str, Execution>)
    ensures Inv(sha, Start(executions))
  {
    assert forall id :: ExecutionSound(Committed(Start(executions)), id);
  }

  /** In every interleaving of appenders and seals, every committed seal that had a prelude put into
      the ledger the hash of the graph over exactly the events up to its sealed event, and into
      that event the hash of the graph over exactly the events before it; each execution's
      committed events form a dag with dense sequences. */
  lemma SealsCover(sha: Sha, types: set<Str>, executions: map<Str, Execution>, schedule: seq<Step>, k: nat, id: Str)
    requires Run(sha, types, Start(executions), schedule).Some?
    ensures var w := Run(sha, types, Start(executions), schedule).value;
      && Dag(EventsFor(w.events, id))
      && (k < |w.seals| && w.seals[k].seal.preludeEvents != [] ==> Covers(sha, w.events, w.seals[k]))
  {
    StartOk(sha, executions);
    RunKeeps(sha, types, Start(executions), schedule);
    var w := Run(sha, types, Start(executions), schedule).value;
    assert ExecutionSound(Committed(w), id);
  }

  // ---------------------------------------------------------------- single steps of a schedule

  lemma RunStep(sha: Sha, types: set<Str>, start: World, schedule: seq<Step>, w: World, step: Step, v: World)
    requires Run(sha, types, start, schedule) == Some(w) && Next(sha, types, w, step) == Some(v)
    ensures Run(sha, types, start, schedule + [step]) == Some(v)
  {
    assert (schedule + [step])[..|schedule|] == schedule;
  }

  /** The world of a schedule so far, with `tx` as client `c`'s open transaction. */
  ghost predicate Reached(sha: Sha, types: set<Str>, start: World, schedule: seq<Step>, w: World, c: Client, tx: Tx)
  {
    Run(sha, types, start, schedule) == Some(Put(w, c, tx))
  }

  lemma PutTwice(w: World, c: Client, tx: Tx, tx': Tx)
    ensures Put(Put(w, c, tx), c, tx') == Put(w, c, tx')
  {
    assert w.txs[c := tx][c := tx'] == w.txs[c := tx'];
  }

  lemma EmptyView(w: World, tx: Tx, c: Client)
    requires tx.staged == []
    ensures View(Put(w, c, tx), tx) == Committed(w) == Committed(Put(w, c, tx))
  {
    assert w.events + tx.staged == w.events;
  }

  ghost predicate Unlocked(w: World, id: Str)
  {
    forall d :: d in w.txs ==> id !in w.txs[d].locks
  }

  lemma RunLock(sha: Sha, types: set<Str>, start: World, schedule: seq<Step>, w: World, c: Client, tx: Tx, input: EventInput)
    returns (tx': Tx)
    requires Reached(sha, types, start, schedule, w, c, tx) && tx.work.Ready? && Wants(tx.task, input)
    requires forall d :: d in w.txs && d != c ==> input.executionId !in w.txs[d].locks
    requires GetExecution(Committed(w), input.organizationId, input.executionId).Some?
    ensures tx' == tx.(work := Locked(input), locks := tx.locks + {input.executionId})
    ensures Reached(sha, types, start, schedule + [Lock(c, input)], w, c, tx')
  {
    tx' := tx.(work := Locked(input), locks := tx.locks + {input.executionId});
    PutTwice(w, c, tx, tx');
    RunStep(sha, types, start, schedule, Put(w, c, tx), Lock(c, input), Put(w, c, tx'));
  }

  lemma RunNumber(sha: Sha, types: set<Str>, start: World, schedule: seq<Step>, w: World, c: Client, tx: Tx)
    returns (tx': Tx)
    requires Reached(sha, types, start, schedule, w, c, tx) && tx.work.Locked? && tx.staged == []
    ensures tx' == tx.(work := Numbered(tx.work.input, NextSequence(Committed(w), tx.work.input)))
    ensures Reached(sha, types, start, schedule + [Number(c)], w, c, tx')
  {
    tx' := tx.(work := Numbered(tx.work.input, NextSequence(Committed(w), tx.work.input)));
    EmptyView(w, tx, c);
    PutTwice(w, c, tx, tx');
    RunStep(sha, types, start, schedule, Put(w, c, tx), Number(c), Put(w, c, tx'));
  }

  lemma RunInsert(sha: Sha, types: set<Str>, start: World, schedule: seq<Step>, w: World, c: Client, tx: Tx, e: Event, task: Task)
    returns (tx': Tx)
    requires Reached(sha, types, start, schedule, w, c, tx) && tx.work.Numbered? && tx.staged == []
    requires NewEventAt(types, Committed(w), tx.work.input, tx.work.sequence) == Ok(e) && Advance(sha, tx.task, e) == Some(task)
    ensures tx' == Tx(task, Ready, tx.locks, [e])
    ensures Reached(sha, types, start, schedule + [Insert(c)], w, c, tx')
  {
    tx' := Tx(task, Ready, tx.locks, [e]);
    EmptyView(w, tx, c);
    assert tx.staged + [e] == [e];
    PutTwice(w, c, tx, tx');
    RunStep(sha, types, start, schedule, Put(w, c, tx), Insert(c), Put(w, c, tx'));
  }

  /** Lock, read the sequence, insert: one event staged. */
  lemma RunAppend(sha: Sha, types: set<Str>, start: World, schedule: seq<Step>, w: World, c: Client, tx: Tx, input: EventInput,
                  e: Event, task: Task)
    returns (longer: seq<Step>, tx': Tx)
    requires Reached(sha, types, start, schedule, w, c, tx) && tx.work.Ready? && tx.staged == [] && Wants(tx.task, input)
    requires forall d :: d in w.txs && d != c ==> input.executionId !in w.txs[d].locks
    requires NewEvent(types, Committed(w), input) == Ok(e) && Advance(sha, tx.task, e) == Some(task)
    ensures tx' == Tx(task, Ready, tx.locks + {input.executionId}, [e])
    ensures Reached(sha, types, start, longer, w, c, tx')
  {
    tx' := RunLock(sha, types, start, schedule, w, c, tx, input);
    longer := schedule + [Lock(c, input)];
    tx' := RunNumber(sha, types, start, longer, w, c, tx');
    longer := longer + [Number(c)];
    tx' := RunInsert(sha, types, start, longer, w, c, tx', e, task);
    longer := longer + [Insert(c)];
  }

  lemma RunCommit(sha: Sha, types: set<Str>, start: World, schedule: seq<Step>, w: World, c: Client, tx: Tx)
    requires Reached(sha, types, start, schedule, w, c, tx) && CanCommit(tx)
    ensures Run(sha, types, start, schedule + [Commit(c)]) == Some(AfterCommit(Put(w, c, tx), c))
  {
    RunStep(sha, types, start, schedule, Put(w, c, tx), Commit(c), AfterCommit(Put(w, c, tx), c));
  }

  // ---------------------------------------------------------------- without a prelude

  /** One more committed event, and one more committed seal. */
  function Appended(w: World, e: Event): World { w.(events := w.events + [e]) }

  function WithSeal(w: World, r: SealRecord): World { w.(seals := w.seals + [r]) }

  lemma AppendedPut(w: World, c: Client, tx: Tx, e: Event)
    ensures Appended(Put(w, c, tx), e) == Put(Appended(w, e), c, tx)
  {
  }

  /** A client that was idle appends one event and commits it. */
  lemma AppendAlone(sha: Sha, types: set<Str>, start: World, schedule: seq<Step>, w: World, c: Client, input: EventInput, e: Event)
    returns (longer: seq<Step>)
    requires Run(sha, types, start, schedule) == Some(w) && c !in w.txs && Unlocked(w, input.executionId)
    requires NewEvent(types, Committed(w), input) == Ok(e)
    ensures Run(sha, types, start, longer) == Some(Appended(w, e))
  {
    var tx := Tx(Appending, Ready, {}, []);
    RunStep(sha, types, start, schedule, w, Begin(c), Put(w, c, tx));
    longer, tx := RunAppend(sha, types, start, schedule + [Begin(c)], w, c, tx, input, e, Appending);
    RunCommit(sha, types, start, longer, w, c, tx);
    longer := longer + [Commit(c)];
    assert w.txs[c := tx] - {c} == w.txs;
  }

  /** What a seal without prelude has done when it has listed the events and locked nothing. */
  function ListedTx(seal: SealInput, x: Execution, events: seq<Event>, hash: Str): Tx
  {
    Tx(Sealing(seal, x, Listed(seal.parentEventIds, events, hash)), Ready, {}, [])
  }

  lemma BeginNow(sha: Sha, types: set<Str>, w: World, c: Client, seal: SealInput, x: Execution)
    requires c !in w.txs && GetExecution(Committed(w), seal.organizationId, seal.executionId) == Some(x)
    ensures Next(sha, types, w, BeginSeal(c, seal))
         == Some(Put(w, c, Tx(Sealing(seal, x, Preluding(0, seal.parentEventIds)), Ready, {}, [])))
  {
  }

  lemma SeesAll(sha: Sha, w: World, org: Str, id: Str)
    requires Inv(sha, w) && GetExecution(Committed(w), org, id).Some?
    ensures ListEvents(Committed(w).events, org, id) == EventsFor(w.events, id)
  {
    assert ExecutionSound(Committed(w), id);
    ListIsFor(Committed(w), org, id);
  }

  lemma ListedNow(sha: Sha, types: set<Str>, w: World, c: Client, seal: SealInput, x: Execution, hash: Str)
    requires Inv(sha, w) && seal.preludeEvents == []
    requires GetExecution(Committed(w), seal.organizationId, seal.executionId) == Some(x)
    requires HashGraph(sha, AsSealed(x, seal), EventsFor(w.events, seal.executionId)) == Ok(hash)
    ensures var before := Tx(Sealing(seal, x, Preluding(0, seal.parentEventIds)), Ready, {}, []);
      Next(sha, types, Put(w, c, before), List(c))
        == Some(Put(w, c, ListedTx(seal, x, EventsFor(w.events, seal.executionId), hash)))
  {
    var before := Tx(Sealing(seal, x, Preluding(0, seal.parentEventIds)), Ready, {}, []);
    SeesAll(sha, w, seal.organizationId, seal.executionId);
    EmptyView(w, before, c);
    PutTwice(w, c, before, ListedTx(seal, x, EventsFor(w.events, seal.executionId), hash));
  }

  lemma ListAlone(sha: Sha, types: set<Str>, w: World, c: Client, seal: SealInput, x: Execution, hash: Str)
    returns (schedule: seq<Step>)
    requires Inv(sha, w) && c !in w.txs && seal.preludeEvents == []
    requires GetExecution(Committed(w), seal.organizationId, seal.executionId) == Some(x)
    requires HashGraph(sha, AsSealed(x, seal), EventsFor(w.events, seal.executionId)) == Ok(hash)
    ensures Reached(sha, types, w, schedule, w, c, ListedTx(seal, x, EventsFor(w.events, seal.executionId), hash))
  {
    var before := Tx(Sealing(seal, x, Preluding(0, seal.parentEventIds)), Ready, {}, []);
    var after := ListedTx(seal, x, EventsFor(w.events, seal.executionId), hash);
    BeginNow(sha, types, w, c, seal, x);
    ListedNow(sha, types, w, c, seal, x, hash);
    RunStep(sha, types, w, [], w, BeginSeal(c, seal), Put(w, c, before));
    schedule := [] + [BeginSeal(c, seal)];
    RunStep(sha, types, w, schedule, Put(w, c, before), List(c), Put(w, c, after));
    schedule := schedule + [List(c)];
  }

  /** The seal goes on from its list as if nothing had happened. */
  lemma SealStale(sha: Sha, types: set<Str>, start: World, schedule: seq<Step>, w: World, c: Client, seal: SealInput,
                  x: Execution, listed: seq<Event>, hash: Str, sealed: Event, graphHash: Str)
    returns (longer: seq<Step>)
    requires Reached(sha, types, start, schedule, w, c, ListedTx(seal, x, listed, hash))
    requires c !in w.txs && Unlocked(w, seal.executionId)
    requires NewEvent(types, Committed(w), SealedInput(seal, seal.parentEventIds, hash)) == Ok(sealed)
    requires HashGraph(sha, AsSealed(x, seal), listed + [sealed]) == Ok(graphHash)
    ensures Run(sha, types, start, longer)
         == Some(WithSeal(Appended(w, sealed), SealRecord(seal, x, sealed.eventSequence, graphHash)))
  {
    var hashed := Sealing(seal, x, Hashed(listed, sealed, graphHash));
    var tx: Tx;
    longer, tx := RunAppend(sha, types, start, schedule, w, c, ListedTx(seal, x, listed, hash),
                            SealedInput(seal, seal.parentEventIds, hash), sealed, hashed);
    RunCommit(sha, types, start, longer, w, c, tx);
    longer := longer + [Commit(c)];
    assert w.txs[c := tx] - {c} == w.txs;
  }

  // ---------------------------------------------------------------- the sealed event, one later than listed

  lemma {:induction false} FindEventGrows(events: seq<Event>, e: Event, id: Str)
    ensures FindEvent(events + [e], id)
         == if FindEvent(events, id).Some? then FindEvent(events, id) else if e.id == id then Some(e) else None
  {
    if events == [] {
      assert [] + [e] == [e] && [e][1..] == [];
    } else {
      assert (events + [e])[1..] == events[1..] + [e];
      FindEventGrows(events[1..], e, id);
    }
  }

  lemma {:induction false} ParentsStay(events: seq<Event>, e: Event, input: EventInput, n: int, m: int, parents: seq<Str>)
    requires ParentsFault(events, input, n, parents) == None && n <= m
    ensures ParentsFault(events + [e], input, m, parents) == None
  {
    if parents != [] {
      FindEventGrows(events, e, parents[0]);
      ParentsStay(events, e, input, n, m, parents[1..]);
    }
  }

  /** An event that could be appended can still be appended after another one, one number later. */
  lemma StillAppends(types: set<Str>, t: Tables, e: Event, input: EventInput, f: Event)
    requires ExecutionSound(t, input.executionId) && ExecutionSound(AddEvent(t, e), input.executionId)
    requires NewEvent(types, t, input) == Ok(f) && e.executionId == input.executionId && e.id != input.id
    requires |EventsFor(t.events, input.executionId)| + 2 <= Ledgers.MAX_INT4
    ensures NewEvent(types, AddEvent(t, e), input) == Ok(f.(eventSequence := f.eventSequence + 1))
    ensures f.eventSequence == |EventsFor(t.events, input.executionId)| + 1
  {
    NextSequenceIsLength(t, input);
    NextSequenceIsLength(AddEvent(t, e), input);
    EventsForAppend(t.events, e, input.executionId);
    FindEventGrows(t.events, e, input.id);
    ParentsStay(t.events, e, input, f.eventSequence, f.eventSequence + 1, UniqueSortedIds(input.parentEventIds));
  }

  ghost predicate Printable(events: seq<Event>)
  {
    forall i :: 0 <= i < |events| ==>
      Canonical.SafeInteger(events[i].eventSequence) && Canonical.Canonicalize(Canonical.Obj(events[i].metadata)).Ok?
  }

  lemma ResolvedHashes(sha: Sha, x: Execution, events: seq<Event>)
    requires Sorting.SortBy(EventLe, events) == events && ParentsResolve(events) && Printable(events)
    ensures HashGraph(sha, x, events).Ok?
  {
    forall i | 0 <= i < |events|
      ensures Canonical.SafeInteger(Nodes(events)[i].sequence) && Canonical.InDomain(Canonical.Obj(Nodes(events)[i].metadata))
    {
      NodePrintable(events[i]);
    }
    GraphPrints(sha, BuildExecutionGraph(x, events).value);
  }

  lemma ResolvesGrows(events: seq<Event>, f: Event)
    requires ParentsResolve(events) && forall k :: 0 <= k < |f.parentEventIds| ==> Earlier(events, |events|, f.parentEventIds[k])
    ensures ParentsResolve(events + [f])
  {
    var all := events + [f];
    forall i, k | 0 <= i < |all| && 0 <= k < |all[i].parentEventIds| ensures HasEvent(all, all[i].parentEventIds[k]) {
      var p := all[i].parentEventIds[k];
      assert i < |events| ==> HasEvent(events, p);
      assert i == |events| ==> Earlier(events, |events|, p);
      var m :| 0 <= m < |events| && events[m].id == p;
      assert all[m].id == p;
    }
  }

  lemma DagPrints(events: seq<Event>)
    requires Dag(events)
    ensures Printable(events)
  {
    forall i | 0 <= i < |events|
      ensures Canonical.SafeInteger(events[i].eventSequence) && Canonical.Canonicalize(Canonical.Obj(events[i].metadata)).Ok?
    {
      assert DagAt(events, i);
    }
  }

  /** The events listed and an event numbered behind a gap still make a graph. */
  lemma GapHashes(sha: Sha, types: set<Str>, x: Execution, t: Tables, input: EventInput, f: Event)
    requires ExecutionSound(t, input.executionId) && NewEvent(types, t, input) == Ok(f)
    requires |EventsFor(t.events, input.executionId)| + 2 <= Ledgers.MAX_INT4
    ensures HashGraph(sha, x, EventsFor(t.events, input.executionId) + [f.(eventSequence := f.eventSequence + 1)]).Ok?
  {
    var mine, late := EventsFor(t.events, input.executionId), f.(eventSequence := f.eventSequence + 1);
    NextSequenceIsLength(t, input);
    DagResolves(mine);
    forall k | 0 <= k < |late.parentEventIds| ensures Earlier(mine, |mine|, late.parentEventIds[k]) {
      ParentIsEarlier(t, input, f, k);
    }
    ResolvesGrows(mine, late);
    GapSorted(mine, late);
    DagPrints(mine);
    ResolvedHashes(sha, x, mine + [late]);
  }

  lemma GapSorted(mine: seq<Event>, late: Event)
    requires Dag(mine) && late.eventSequence > |mine|
    ensures Sorting.SortBy(EventLe, mine + [late]) == mine + [late]
  {
    var all := mine + [late];
    forall i, j | 0 <= i < j < |all| ensures EventLe(all[i], all[j]) {
      DagSequence(mine, i);
      if j < |mine| {
        DagSequence(mine, j);
      }
    }
    Sorting.SortSorted(EventLe, all);
  }

  // ---------------------------------------------------------------- exactly the seals with a prelude cover

  /** A seal could run now, and so could an append to the same execution before it: nobody holds its
      row, both events would be accepted, and there is room for both. */
  ghost predicate Raceable(sha: Sha, types: set<Str>, w: World, seal: SealInput, x: Execution, hash: Str, other: EventInput,
                           e: Event, sealed: Event)
  {
    && Inv(sha, w) && Unlocked(w, seal.executionId)
    && GetExecution(Committed(w), seal.organizationId, seal.executionId) == Some(x)
    && HashGraph(sha, AsSealed(x, seal), EventsFor(w.events, seal.executionId)) == Ok(hash)
    && NewEvent(types, Committed(w), SealedInput(seal, seal.parentEventIds, hash)) == Ok(sealed)
    && other.executionId == seal.executionId && NewEvent(types, Committed(w), other) == Ok(e) && e.id != sealed.id
    && |EventsFor(w.events, seal.executionId)| + 2 <= Ledgers.MAX_INT4
  }

  /** The sealed event as it is numbered when the other event came first. */
  function Late(sealed: Event): Event { sealed.(eventSequence := sealed.eventSequence + 1) }

  /** The schedule: list, let the other event be appended and committed, then seal. */
  lemma RaceRuns(sha: Sha, types: set<Str>, w: World, seal: SealInput, x: Execution, hash: Str, other: EventInput, e: Event,
                 late: Event, c: Client, d: Client, graphHash: Str)
    returns (schedule: seq<Step>)
    requires Inv(sha, w) && Unlocked(w, seal.executionId) && seal.preludeEvents == []
    requires GetExecution(Committed(w), seal.organizationId, seal.executionId) == Some(x)
    requires HashGraph(sha, AsSealed(x, seal), EventsFor(w.events, seal.executionId)) == Ok(hash)
    requires other.executionId == seal.executionId && NewEvent(types, Committed(w), other) == Ok(e)
    requires NewEvent(types, Committed(Appended(w, e)), SealedInput(seal, seal.parentEventIds, hash)) == Ok(late)
    requires c !in w.txs && d !in w.txs && c != d
    requires HashGraph(sha, AsSealed(x, seal), EventsFor(w.events, seal.executionId) + [late]) == Ok(graphHash)
    ensures Run(sha, types, w, schedule)
         == Some(WithSeal(Appended(Appended(w, e), late), SealRecord(seal, x, late.eventSequence, graphHash)))
  {
    var mine := EventsFor(w.events, seal.executionId);
    var listed := ListedTx(seal, x, mine, hash);
    schedule := ListAlone(sha, types, w, c, seal, x, hash);
    assert Committed(Put(w, c, listed)) == Committed(w) && Unlocked(Put(w, c, listed), seal.executionId);
    schedule := AppendAlone(sha, types, w, schedule, Put(w, c, listed), d, other, e);
    AppendedPut(w, c, listed, e);
    schedule := SealStale(sha, types, w, schedule, Appended(w, e), c, seal, x, mine, hash, late, graphHash);
  }

  lemma RaceAppends(sha: Sha, types: set<Str>, w: World, seal: SealInput, x: Execution, hash: Str, other: EventInput, e: Event,
                    sealed: Event)
    requires Raceable(sha, types, w, seal, x, hash, other, e, sealed)
    ensures NewEvent(types, AddEvent(Committed(w), e), SealedInput(seal, seal.parentEventIds, hash)) == Ok(Late(sealed))
    ensures sealed.eventSequence == |EventsFor(w.events, seal.executionId)| + 1
    ensures HashGraph(sha, AsSealed(x, seal), EventsFor(w.events, seal.executionId) + [Late(sealed)]).Ok?
  {
    var input := SealedInput(seal, seal.parentEventIds, hash);
    assert ExecutionSound(Committed(w), seal.executionId);
    LateAppends(sha, types, Committed(w), AsSealed(x, seal), other, e, input, sealed);
  }

  /** Two appends to one execution that either could come first. */
  lemma LateAppends(sha: Sha, types: set<Str>, t: Tables, x: Execution, other: EventInput, e: Event, input: EventInput, f: Event)
    requires ExecutionSound(t, input.executionId) && NewEvent(types, t, input) == Ok(f)
    requires other.executionId == input.executionId && NewEvent(types, t, other) == Ok(e) && e.id != f.id
    requires |EventsFor(t.events, input.executionId)| + 2 <= Ledgers.MAX_INT4
    ensures NewEvent(types, AddEvent(t, e), input) == Ok(Late(f)) && f.eventSequence == |EventsFor(t.events, input.executionId)| + 1
    ensures HashGraph(sha, x, EventsFor(t.events, input.executionId) + [Late(f)]).Ok?
  {
    EventKeepsSound(types, t, other, input.executionId);
    StillAppends(types, t, e, input, f);
    GapHashes(sha, types, x, t, input, f);
  }

  lemma RaceEvents(events: seq<Event>, e: Event, f: Event, id: Str)
    requires e.executionId == id && f.executionId == id
    ensures EventsFor(events + [e] + [f], id) == EventsFor(events, id) + [e] + [f]
  {
    EventsForAppend(events, e, id);
    EventsForAppend(events + [e], f, id);
  }

  lemma RaceHappens(sha: Sha, types: set<Str>, w: World, seal: SealInput, x: Execution, hash: Str, other: EventInput,
                    e: Event, sealed: Event)
    returns (schedule: seq<Step>, r: SealRecord)
    requires Raceable(sha, types, w, seal, x, hash, other, e, sealed) && seal.preludeEvents == []
    ensures Run(sha, types, w, schedule) == Some(WithSeal(Appended(Appended(w, e), Late(sealed)), r))
    ensures r.seal == seal && r.execution == x && r.sequence == |EventsFor(w.events, seal.executionId)| + 2
    ensures HashGraph(sha, AsSealed(x, seal), EventsFor(w.events, seal.executionId) + [Late(sealed)]) == Ok(r.graphHash)
    ensures e.executionId == seal.executionId && sealed.executionId == seal.executionId
  {
    RaceAppends(sha, types, w, seal, x, hash, other, e, sealed);
    var graphHash := HashGraph(sha, AsSealed(x, seal), EventsFor(w.events, seal.executionId) + [Late(sealed)]).value;
    var c, d := TwoIdle(w);
    schedule := RaceRuns(sha, types, w, seal, x, hash, other, e, Late(sealed), c, d, graphHash);
    r := SealRecord(seal, x, Late(sealed).eventSequence, graphHash);
  }

  /** A seal without prelude lists before it locks: in some schedule an event committed in between is
      missing from the hash it puts into the ledger, unless the two graphs collide. */
  lemma EmptyPreludeMisses(sha: Sha, types: set<Str>, w: World, seal: SealInput, x: Execution, hash: Str, other: EventInput,
                           e: Event, sealed: Event)
    returns (schedule: seq<Step>, v: World)
    requires Raceable(sha, types, w, seal, x, hash, other, e, sealed) && seal.preludeEvents == []
    requires var mine := EventsFor(w.events, seal.executionId);
      CollisionFreeOn(sha, {GraphBytes(AsSealed(x, seal), mine + [Late(sealed)]),
                            GraphBytes(AsSealed(x, seal), mine + [e] + [Late(sealed)])})
    ensures Run(sha, types, w, schedule) == Some(v)
    ensures |v.seals| == |w.seals| + 1 && v.seals[|w.seals|].seal == seal && !Covers(sha, v.events, v.seals[|w.seals|])
  {
    var r: SealRecord;
    schedule, r := RaceHappens(sha, types, w, seal, x, hash, other, e, sealed);
    v := WithSeal(Appended(Appended(w, e), Late(sealed)), r);
    RaceMisses(sha, types, w, schedule, v, r, e, Late(sealed));
  }

  lemma RaceMisses(sha: Sha, types: set<Str>, w: World, schedule: seq<Step>, v: World, r: SealRecord, e: Event, late: Event)
    requires Inv(sha, w) && Run(sha, types, w, schedule) == Some(v) && v.events == w.events + [e] + [late]
    requires e.executionId == r.seal.executionId && late.executionId == r.seal.executionId
    requires var mine, x := EventsFor(w.events, r.seal.executionId), AsSealed(r.execution, r.seal);
      && r.sequence == |mine| + 2 && HashGraph(sha, x, mine + [late]) == Ok(r.graphHash)
      && CollisionFreeOn(sha, {GraphBytes(x, mine + [late]), GraphBytes(x, mine + [e] + [late])})
    ensures !Covers(sha, v.events, r)
  {
    var mine, x := EventsFor(w.events, r.seal.executionId), AsSealed(r.execution, r.seal);
    RunKeeps(sha, types, w, schedule);
    assert ExecutionSound(Committed(v), r.seal.executionId);
    RaceEvents(w.events, e, late, r.seal.executionId);
    DagHashes(sha, x, mine + [e] + [late]);
    MoreEventsOtherHash(sha, x, mine + [late], mine + [e] + [late]);
    StaleMisses(sha, v.events, r, mine, e, late);
  }

  lemma StaleMisses(sha: Sha, events: seq<Event>, r: SealRecord, mine: seq<Event>, e: Event, late: Event)
    requires EventsFor(events, r.seal.executionId) == mine + [e] + [late] && r.sequence == |mine| + 2
    requires HashGraph(sha, AsSealed(r.execution, r.seal), mine + [late]) == Ok(r.graphHash)
    requires HashGraph(sha, AsSealed(r.execution, r.seal), mine + [e] + [late]) != Ok(r.graphHash)
    ensures !Covers(sha, events, r)
  {
    var all := mine + [e] + [late];
    assert all[..r.sequence] == all;
  }

  /** Transactions are finitely many. */
  lemma TwoIdle(w: World) returns (c: Client, d: Client)
    ensures c !in w.txs && d !in w.txs && c != d
  {
    c := AboveAll(w.txs.Keys);
    d := c + 1;
  }

  lemma {:induction false} AboveAll(clients: set<Client>) returns (c: Client)
    ensures forall d :: d in clients ==> d < c
  {
    c := 0;
    if clients != {} {
      var d :| d in clients;
      var rest := AboveAll(clients - {d});
      c := if rest > d then rest else d + 1;
      assert clients == (clients - {d}) + {d};
    }
  }

  /** Every run from here covers every commit of this seal. */
  ghost predicate AlwaysCovers(sha: Sha, types: set<Str>, w: World, seal: SealInput)
  {
    forall schedule: seq<Step>, k: nat :: CoversAt(sha, types, w, seal, schedule, k)
  }

  ghost predicate CoversAt(sha: Sha, types: set<Str>, w: World, seal: SealInput, schedule: seq<Step>, k: nat)
  {
    match Run(sha, types, w, schedule)
    case None => true
    case Some(v) => |w.seals| <= k < |v.seals| && v.seals[k].seal == seal ==> Covers(sha, v.events, v.seals[k])
  }

  /** A seal covers its events in every schedule exactly when it has a prelude. */
  lemma CoversExactly(sha: Sha, types: set<Str>, w: World, seal: SealInput, x: Execution, hash: Str, other: EventInput,
                      e: Event, sealed: Event)
    requires Raceable(sha, types, w, seal, x, hash, other, e, sealed)
    requires var mine := EventsFor(w.events, seal.executionId);
      CollisionFreeOn(sha, {GraphBytes(AsSealed(x, seal), mine + [Late(sealed)]),
                            GraphBytes(AsSealed(x, seal), mine + [e] + [Late(sealed)])})
    ensures AlwaysCovers(sha, types, w, seal) <==> seal.preludeEvents != []
  {
    if seal.preludeEvents == [] {
      var schedule, v := EmptyPreludeMisses(sha, types, w, seal, x, hash, other, e, sealed);
      assert !CoversAt(sha, types, w, seal, schedule, |w.seals|);
    } else {
      forall schedule: seq<Step>, k: nat ensures CoversAt(sha, types, w, seal, schedule, k) {
        if Run(sha, types, w, schedule).Some? {
          RunKeeps(sha, types, w, schedule);
        }
      }
    }
  }
}
