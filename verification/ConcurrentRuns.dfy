/** What one client's seal does when nobody is in its way: what the kernel's call does. */
module ConcurrentRuns {
  import opened Basics
  import opened Records
  import opened Kernel
  import opened Reachable
  import opened ConcurrentSeal
  import Ledgers
  import Seals

  // ---------------------------------------------------------------- one more event in a transaction

  lemma SeenThroughPut(w: World, c: Client, tx: Tx, other: Tx)
    ensures View(Put(w, c, tx), other) == View(w, other) && Committed(Put(w, c, tx)) == Committed(w)
  {
  }

  /** Lock, read the sequence, insert: the event the tables seen so far take. */
  lemma StageOne(sha: Sha, types: set<Str>, start: World, schedule: seq<Step>, w: World, c: Client, tx: Tx, input: EventInput,
                 e: Event, task: Task)
    returns (longer: seq<Step>, tx': Tx)
    requires Reached(sha, types, start, schedule, w, c, tx) && tx.work.Ready? && Wants(tx.task, input)
    requires forall d :: d in w.txs && d != c ==> input.executionId !in w.txs[d].locks
    requires NewEvent(types, View(w, tx), input) == Ok(e) && Advance(sha, tx.task, e) == Some(task)
    ensures tx' == Tx(task, Ready, tx.locks + {input.executionId}, tx.staged + [e])
    ensures Reached(sha, types, start, longer, w, c, tx') && View(w, tx') == AddEvent(View(w, tx), e)
  {
    var locked := RunLock(sha, types, start, schedule, w, c, tx, input);
    var numbered := locked.(work := Numbered(input, NextSequence(View(w, tx), input)));
    SeenThroughPut(w, c, locked, locked);
    assert View(w, locked) == View(w, tx) == View(w, numbered);
    PutTwice(w, c, locked, numbered);
    RunStep(sha, types, start, schedule + [Lock(c, input)], Put(w, c, locked), Number(c), Put(w, c, numbered));
    tx' := Tx(task, Ready, tx.locks + {input.executionId}, tx.staged + [e]);
    SeenThroughPut(w, c, numbered, numbered);
    PutTwice(w, c, numbered, tx');
    RunStep(sha, types, start, schedule + [Lock(c, input)] + [Number(c)], Put(w, c, numbered), Insert(c), Put(w, c, tx'));
    longer := schedule + [Lock(c, input)] + [Number(c)] + [Insert(c)];
    assert w.events + (tx.staged + [e]) == (w.events + tx.staged) + [e];
  }

  // ---------------------------------------------------------------- the prelude

  function SealTx(seal: SealInput, x: Execution, i: nat, chained: seq<Str>, staged: seq<Event>): Tx
  {
    Tx(Sealing(seal, x, Preluding(i, chained)), Ready, if i == 0 then {} else {seal.executionId}, staged)
  }

  lemma PreludeOne(sha: Sha, types: set<Str>, start: World, schedule: seq<Step>, w: World, c: Client, seal: SealInput, x: Execution,
                   i: nat, u: Tables, before: seq<Str>, staged: seq<Event>, e: Event)
    returns (longer: seq<Step>)
    requires Reached(sha, types, start, schedule, w, c, SealTx(seal, x, i, before, staged)) && c !in w.txs
    requires Unlocked(w, seal.executionId) && i < |seal.preludeEvents| && u == View(w, SealTx(seal, x, i, before, staged))
    requires NewEvent(types, u, PreludeInput(seal, i, before)) == Ok(e)
    ensures Reached(sha, types, start, longer, w, c, SealTx(seal, x, i + 1, [e.id], staged + [e]))
    ensures AddEvent(u, e) == View(w, SealTx(seal, x, i + 1, [e.id], staged + [e]))
  {
    var tx := SealTx(seal, x, i, before, staged);
    var tx': Tx;
    longer, tx' := StageOne(sha, types, start, schedule, w, c, tx, PreludeInput(seal, i, before), e, Sealing(seal, x, Preluding(i + 1, [e.id])));
    assert tx.locks + {seal.executionId} == {seal.executionId};
  }

  /** Some schedule leads to the first `i` prelude events staged, and the tables and parents are those seen then. */
  ghost predicate PreludeReached(sha: Sha, types: set<Str>, start: World, w: World, c: Client, seal: SealInput, x: Execution,
                                 i: nat, s: (Tables, seq<Str>))
  {
    exists schedule, staged ::
      && Reached(sha, types, start, schedule, w, c, SealTx(seal, x, i, s.1, staged))
      && s.0 == View(w, SealTx(seal, x, i, s.1, staged))
  }

  lemma PreludeNext(sha: Sha, types: set<Str>, start: World, w: World, c: Client, seal: SealInput, x: Execution, i: nat,
                    s: (Tables, seq<Str>))
    requires c !in w.txs && Unlocked(w, seal.executionId) && i < |seal.preludeEvents|
    requires PreludeReached(sha, types, start, w, c, seal, x, i, s) && PreludeStep(types, s.0, seal, i, s.1).Ok?
    ensures PreludeReached(sha, types, start, w, c, seal, x, i + 1, PreludeStep(types, s.0, seal, i, s.1).value)
  {
    var schedule, staged :|
      && Reached(sha, types, start, schedule, w, c, SealTx(seal, x, i, s.1, staged))
      && s.0 == View(w, SealTx(seal, x, i, s.1, staged));
    var e := NewEvent(types, s.0, PreludeInput(seal, i, s.1)).value;
    var longer := PreludeOne(sha, types, start, schedule, w, c, seal, x, i, s.0, s.1, staged, e);
  }

  lemma PreludeAlone(sha: Sha, types: set<Str>, start: World, schedule: seq<Step>, w: World, c: Client, seal: SealInput, x: Execution)
    requires Reached(sha, types, start, schedule, w, c, SealTx(seal, x, 0, seal.parentEventIds, []))
    requires c !in w.txs && Unlocked(w, seal.executionId) && Prelude(types, Committed(w), seal).Ok?
    ensures PreludeReached(sha, types, start, w, c, seal, x, |seal.preludeEvents|, Prelude(types, Committed(w), seal).value)
  {
    var first := (Committed(w), seal.parentEventIds);
    var holds := (i: nat, s: (Tables, seq<Str>)) => PreludeReached(sha, types, start, w, c, seal, x, i, s);
    assert w.events + [] == w.events && first.0 == View(w, SealTx(seal, x, 0, first.1, []));
    assert PreludeReached(sha, types, start, w, c, seal, x, 0, first);
    var steps := PreludeSteps(types, seal);
    forall i: nat, u | i < |seal.preludeEvents| && holds(i, u) && steps(i, u).Ok? ensures holds(i + 1, steps(i, u).value) {
      PreludeNext(sha, types, start, w, c, seal, x, i, u);
    }
    FoldReaches(steps, first, |seal.preludeEvents|, holds);
  }

  // ---------------------------------------------------------------- the rest of the seal

  lemma ListsItself(sha: Sha, types: set<Str>, start: World, schedule: seq<Step>, w: World, c: Client, tx: Tx, hash: Str)
    returns (tx': Tx)
    requires Reached(sha, types, start, schedule, w, c, tx) && CanList(tx)
    requires var seal := tx.task.seal;
      HashGraph(sha, AsSealed(tx.task.execution, seal), ListEvents(View(w, tx).events, seal.organizationId, seal.executionId)) == Ok(hash)
    ensures var seal := tx.task.seal;
      tx' == tx.(task := tx.task.(phase := Listed(tx.task.phase.chained, ListEvents(View(w, tx).events, seal.organizationId, seal.executionId), hash)))
    ensures Reached(sha, types, start, schedule + [List(c)], w, c, tx') && View(w, tx') == View(w, tx)
  {
    var seal := tx.task.seal;
    tx' := tx.(task := tx.task.(phase := Listed(tx.task.phase.chained, ListEvents(View(w, tx).events, seal.organizationId, seal.executionId), hash)));
    SeenThroughPut(w, c, tx, tx);
    PutTwice(w, c, tx, tx');
    RunStep(sha, types, start, schedule, Put(w, c, tx), List(c), Put(w, c, tx'));
  }

  /** What is committed: the events staged, and the seal. */
  lemma SealCommits(sha: Sha, types: set<Str>, start: World, schedule: seq<Step>, w: World, c: Client, tx: Tx, seal: SealInput, x: Execution,
                    before: seq<Event>, sealed: Event, hash: Str)
    requires Reached(sha, types, start, schedule, w, c, tx) && c !in w.txs
    requires tx.work.Ready? && tx.task == Sealing(seal, x, Hashed(before, sealed, hash))
    ensures Run(sha, types, start, schedule + [Commit(c)])
         == Some(World(w.executions, w.events + tx.staged, w.txs, w.seals + [SealRecord(seal, x, sealed.eventSequence, hash)]))
  {
    RunCommit(sha, types, start, schedule, w, c, tx);
    assert w.txs[c := tx] - {c} == w.txs;
  }

  lemma FinishAlone(sha: Sha, types: set<Str>, start: World, schedule: seq<Step>, w: World, c: Client, seal: SealInput, x: Execution,
                    parents: seq<Str>, staged: seq<Event>, preSealHash: Str, sealed: Event, hash: Str)
    returns (longer: seq<Step>)
    requires var tx := SealTx(seal, x, |seal.preludeEvents|, parents, staged);
      && Reached(sha, types, start, schedule, w, c, tx) && c !in w.txs && Unlocked(w, seal.executionId)
      && var events := ListEvents(View(w, tx).events, seal.organizationId, seal.executionId);
      && HashGraph(sha, AsSealed(x, seal), events) == Ok(preSealHash)
      && NewEvent(types, View(w, tx), SealedInput(seal, parents, preSealHash)) == Ok(sealed)
      && HashGraph(sha, AsSealed(x, seal), events + [sealed]) == Ok(hash)
    ensures Run(sha, types, start, longer)
         == Some(World(w.executions, w.events + (staged + [sealed]), w.txs, w.seals + [SealRecord(seal, x, sealed.eventSequence, hash)]))
  {
    var tx := SealTx(seal, x, |seal.preludeEvents|, parents, staged);
    var events := ListEvents(View(w, tx).events, seal.organizationId, seal.executionId);
    var listed := ListsItself(sha, types, start, schedule, w, c, tx, preSealHash);
    var done: Tx;
    longer, done := StageOne(sha, types, start, schedule + [List(c)], w, c, listed, SealedInput(seal, parents, preSealHash), sealed,
                             Sealing(seal, x, Hashed(events, sealed, hash)));
    SealCommits(sha, types, start, longer, w, c, done, seal, x, events, sealed, hash);
    longer := longer + [Commit(c)];
  }

  lemma SealBegins(sha: Sha, types: set<Str>, start: World, schedule: seq<Step>, w: World, c: Client, seal: SealInput, x: Execution)
    requires Run(sha, types, start, schedule) == Some(w) && c !in w.txs
    requires GetExecution(Committed(w), seal.organizationId, seal.executionId) == Some(x)
    ensures Reached(sha, types, start, schedule + [BeginSeal(c, seal)], w, c, SealTx(seal, x, 0, seal.parentEventIds, []))
  {
    BeginNow(sha, types, w, c, seal, x);
    RunStep(sha, types, start, schedule, w, BeginSeal(c, seal), Put(w, c, SealTx(seal, x, 0, seal.parentEventIds, [])));
  }

  lemma EntryBears(sha: Sha, v: Tables, u: Tables, input: SealInput, requestHash: Option<Str>, hash: Str)
    requires AppendEntry(sha, v, SealEntry(input, requestHash, hash)) == Ok(u)
    ensures u.events == v.events && Ledgers.At(u.ledgers, input.organizationId).entries != []
    ensures LastEntry(u, input.organizationId).executionGraphHash == Some(hash)
  {
    AppendEntryEffect(sha, v, SealEntry(input, requestHash, hash));
  }

  /** What the kernel's call computes on the way. */
  lemma SealParts(sha: Sha, types: set<Str>, t: Tables, seal: SealInput, u: Tables)
    returns (x: Execution, w: Tables, parents: seq<Str>, preSealHash: Str, sealed: Event, hash: Str)
    requires SealExecution(sha, types, t, seal) == Ok(u)
    ensures GetExecution(t, seal.organizationId, seal.executionId) == Some(x)
    ensures Prelude(types, t, seal) == Ok((w, parents))
    ensures HashGraph(sha, AsSealed(x, seal), ListEvents(w.events, seal.organizationId, seal.executionId)) == Ok(preSealHash)
    ensures NewEvent(types, w, SealedInput(seal, parents, preSealHash)) == Ok(sealed)
    ensures HashGraph(sha, AsSealed(x, seal), ListEvents(w.events, seal.organizationId, seal.executionId) + [sealed]) == Ok(hash)
    ensures u.events == w.events + [sealed] && Ledgers.At(u.ledgers, seal.organizationId).entries != []
    ensures LastEntry(u, seal.organizationId).executionGraphHash == Some(hash)
  {
    x := GetExecution(t, seal.organizationId, seal.executionId).value;
    w, parents := Prelude(types, t, seal).value.0, Prelude(types, t, seal).value.1;
    var events, entry;
    events, preSealHash, sealed, hash, entry := Seals.FinishSealSteps(sha, types, w, seal, x, parents);
    EntryBears(sha, AddEvent(w, sealed), u, seal, entry.requestHash, hash);
  }

  lemma PartsAlone(sha: Sha, types: set<Str>, start: World, w: World, c: Client, seal: SealInput, x: Execution,
                   t: Tables, parents: seq<Str>, preSealHash: Str, sealed: Event, hash: Str)
    returns (longer: seq<Step>, v: World)
    requires c !in w.txs && Unlocked(w, seal.executionId)
    requires PreludeReached(sha, types, start, w, c, seal, x, |seal.preludeEvents|, (t, parents))
    requires HashGraph(sha, AsSealed(x, seal), ListEvents(t.events, seal.organizationId, seal.executionId)) == Ok(preSealHash)
    requires NewEvent(types, t, SealedInput(seal, parents, preSealHash)) == Ok(sealed)
    requires HashGraph(sha, AsSealed(x, seal), ListEvents(t.events, seal.organizationId, seal.executionId) + [sealed]) == Ok(hash)
    ensures Run(sha, types, start, longer) == Some(v)
    ensures v == World(w.executions, t.events + [sealed], w.txs, w.seals + [SealRecord(seal, x, sealed.eventSequence, hash)])
  {
    var before, staged :|
      && Reached(sha, types, start, before, w, c, SealTx(seal, x, |seal.preludeEvents|, parents, staged))
      && t == View(w, SealTx(seal, x, |seal.preludeEvents|, parents, staged));
    longer := FinishAlone(sha, types, start, before, w, c, seal, x, parents, staged, preSealHash, sealed, hash);
    assert w.events + (staged + [sealed]) == t.events + [sealed];
    v := World(w.executions, t.events + [sealed], w.txs, w.seals + [SealRecord(seal, x, sealed.eventSequence, hash)]);
  }

  /** In every world a schedule leads to, an idle client whose execution nobody has locked seals as the kernel's
      call does: the same events, and the graph hash of its entry. */
  lemma SealAlone(sha: Sha, types: set<Str>, start: World, schedule: seq<Step>, w: World, c: Client, seal: SealInput, u: Tables)
    returns (longer: seq<Step>, v: World)
    requires Run(sha, types, start, schedule) == Some(w) && c !in w.txs && Unlocked(w, seal.executionId)
    requires SealExecution(sha, types, Committed(w), seal) == Ok(u)
    ensures Run(sha, types, start, longer) == Some(v) && v.events == u.events && v.txs == w.txs
    ensures |v.seals| == |w.seals| + 1 && v.seals[..|w.seals|] == w.seals && v.seals[|w.seals|].seal == seal
    ensures Ledgers.At(u.ledgers, seal.organizationId).entries != []
    ensures LastEntry(u, seal.organizationId).executionGraphHash == Some(v.seals[|w.seals|].graphHash)
    ensures u.events != [] && v.seals[|w.seals|].sequence == u.events[|u.events| - 1].eventSequence
  {
    var x, t, parents, preSealHash, sealed, hash := SealParts(sha, types, Committed(w), seal, u);
    SealBegins(sha, types, start, schedule, w, c, seal, x);
    PreludeAlone(sha, types, start, schedule + [BeginSeal(c, seal)], w, c, seal, x);
    longer, v := PartsAlone(sha, types, start, w, c, seal, x, t, parents, preSealHash, sealed, hash);
  }
}
