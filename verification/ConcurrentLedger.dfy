/** Ledger appends from many clients at once: the row lock on `chain_state`, read-committed
    reads, commits and rollbacks at any point, over every interleaving. */
module ConcurrentLedger {
  import opened Basics
  import opened Ledgers
  import opened Evidence

  type Client = nat

  /** How far a client is inside `appendLedgerEntryInTransaction`: the chain state it read under
      the lock, then the prior hashes it selected. */
  datatype Work =
    | Ready
    | Locked(input: EntryInput, latestSequence: int, latestEntryHash: Option<Str>)
    | Selected(input: EntryInput, latestSequence: int, latestEntryHash: Option<Str>, prior: seq<Str>)

  /** An open transaction. The keys of `staged` are the organizations whose chain row it has
      locked; the values are the rows it has inserted and nobody else sees. */
  datatype Tx = Tx(work: Work, staged: map<Str, seq<Staged>>, done: seq<EntryInput>)

  /** `log` records the inputs of committed appends in commit order; no step reads it. */
  datatype World = World(ledgers: map<Str, Ledger>, txs: map<Client, Tx>, log: seq<EntryInput>)

  datatype Step =
    | Begin(c: Client)
    | Lock(c: Client, input: EntryInput)
    | Select(c: Client)
    | Write(c: Client)
    | Commit(c: Client)
    | Rollback(c: Client)

  function InsertAll(l: Ledger, rows: seq<Staged>): Ledger
  {
    if rows == [] then l else InsertRows(InsertAll(l, rows[..|rows| - 1]), rows[|rows| - 1])
  }

  /** What a transaction sees: committed rows and its own. */
  function View(w: World, tx: Tx, org: Str): Ledger
  {
    if org in tx.staged then InsertAll(At(w.ledgers, org), tx.staged[org]) else At(w.ledgers, org)
  }

  predicate Free(w: World, c: Client, org: Str)
  {
    forall d :: d in w.txs && d != c ==> org !in w.txs[d].staged
  }

  function Close(w: World, c: Client): World { w.(txs := w.txs - {c}) }

  function AfterLock(w: World, tx: Tx, input: EntryInput): Tx
  {
    var org := input.organizationId;
    var view := View(w, tx, org);
    tx.(staged := if org in tx.staged then tx.staged else tx.staged[org := []],
        work := Locked(input, view.latestSequence, view.latestEntryHash))
  }

  function AfterSelect(w: World, tx: Tx): Tx
    requires tx.work.Locked?
  {
    var input := tx.work.input;
    tx.(work := Selected(input, tx.work.latestSequence, tx.work.latestEntryHash,
                         PriorAt(View(w, tx, input.organizationId).entries, input.interval, tx.work.latestSequence + 1)))
  }

  function StageOf(sha: Sha, work: Work): Result<Staged, Fault>
    requires work.Selected?
  {
    Stage(sha, work.input, work.latestSequence, work.latestEntryHash, work.prior)
  }

  function AfterWrite(tx: Tx, staged: Staged): Tx
    requires tx.work.Selected? && tx.work.input.organizationId in tx.staged
  {
    var org := tx.work.input.organizationId;
    Tx(Ready, tx.staged[org := tx.staged[org] + [staged]], tx.done + [tx.work.input])
  }

  function Published(ledgers: map<Str, Ledger>, tx: Tx): map<Str, Ledger>
  {
    map org | org in ledgers.Keys + tx.staged.Keys ::
      if org in tx.staged then InsertAll(At(ledgers, org), tx.staged[org]) else ledgers[org]
  }

  /** The next state; `None` when the step cannot be taken. A failed write rolls back. */
  function Next(sha: Sha, w: World, step: Step): Option<World>
  {
    match step
    case Begin(c) => if c in w.txs then None else Some(w.(txs := w.txs[c := Tx(Ready, map[], [])]))
    case Lock(c, input) =>
      if c in w.txs && w.txs[c].work.Ready? && Free(w, c, input.organizationId)
      then Some(w.(txs := w.txs[c := AfterLock(w, w.txs[c], input)])) else None
    case Select(c) =>
      if c in w.txs && w.txs[c].work.Locked? then Some(w.(txs := w.txs[c := AfterSelect(w, w.txs[c])])) else None
    case Write(c) =>
      if c in w.txs && w.txs[c].work.Selected? && w.txs[c].work.input.organizationId in w.txs[c].staged then
        var staged := StageOf(sha, w.txs[c].work);
        Some(if staged.Ok? then w.(txs := w.txs[c := AfterWrite(w.txs[c], staged.value)]) else Close(w, c))
      else None
    case Commit(c) =>
      if c in w.txs && w.txs[c].work.Ready?
      then Some(World(Published(w.ledgers, w.txs[c]), w.txs - {c}, w.log + w.txs[c].done)) else None
    case Rollback(c) => if c in w.txs then Some(Close(w, c)) else None
  }

  /** The state after a schedule, when every step of it can be taken. */
  function Run(sha: Sha, schedule: seq<Step>): Option<World>
  {
    if schedule == [] then Some(World(map[], map[], []))
    else
      match Run(sha, schedule[..|schedule| - 1])
      case None => None
      case Some(w) => Next(sha, w, schedule[|schedule| - 1])
  }

  // ---------------------------------------------------------------- one organization, one client

  /** The inputs that concern one organization. */
  function Only(inputs: seq<EntryInput>, org: Str): seq<EntryInput>
  {
    if inputs == [] then []
    else
      var rest, last := Only(inputs[..|inputs| - 1], org), inputs[|inputs| - 1];
      if last.organizationId == org then rest + [last] else rest
  }

  /** Appending the inputs one after the other, nobody else around. */
  function Replay(sha: Sha, l: Ledger, inputs: seq<EntryInput>): Option<Ledger>
  {
    if inputs == [] then Some(l)
    else
      match Replay(sha, l, inputs[..|inputs| - 1])
      case None => None
      case Some(m) =>
        match Append(sha, m, inputs[|inputs| - 1])
        case Err(_) => None
        case Ok(r) => Some(r)
  }

  lemma {:induction false} OnlyConcat(a: seq<EntryInput>, b: seq<EntryInput>, org: Str)
    ensures Only(a + b, org) == Only(a, org) + Only(b, org)
  {
    if b == [] {
      assert a + b == a;
    } else {
      assert (a + b)[..|a + b| - 1] == a + b[..|b| - 1];
      OnlyConcat(a, b[..|b| - 1], org);
    }
  }

  lemma {:induction false} ReplayConcat(sha: Sha, l: Ledger, a: seq<EntryInput>, b: seq<EntryInput>)
    ensures Replay(sha, l, a + b)
         == (if Replay(sha, l, a).None? then None else Replay(sha, Replay(sha, l, a).value, b))
  {
    if b == [] {
      assert a + b == a;
    } else {
      assert (a + b)[..|a + b| - 1] == a + b[..|b| - 1];
      ReplayConcat(sha, l, a, b[..|b| - 1]);
    }
  }

  // ---------------------------------------------------------------- the invariant

  /** What a transaction did to one organization is what it would have done alone, starting from
      the rows committed now. */
  ghost predicate TxOk(sha: Sha, ledgers: map<Str, Ledger>, tx: Tx, org: Str)
  {
    if org in tx.staged
    then Replay(sha, At(ledgers, org), Only(tx.done, org)) == Some(InsertAll(At(ledgers, org), tx.staged[org]))
    else Only(tx.done, org) == []
  }

  /** What a transaction read under the lock still holds. */
  ghost predicate WorkOk(w: World, tx: Tx)
  {
    tx.work.Ready? || (
      var org := tx.work.input.organizationId;
      && org in tx.staged
      && tx.work.latestSequence == View(w, tx, org).latestSequence
      && tx.work.latestEntryHash == View(w, tx, org).latestEntryHash
      && (tx.work.Selected? ==> tx.work.prior == Prior(View(w, tx, org), tx.work.input)))
  }

  /** No chain row is locked twice. */
  ghost predicate Exclusive(w: World)
  {
    forall c, d :: c in w.txs && d in w.txs && c != d ==> w.txs[c].staged.Keys !! w.txs[d].staged.Keys
  }

  ghost predicate Inv(sha: Sha, w: World)
  {
    && Exclusive(w)
    && (forall c, org :: c in w.txs ==> TxOk(sha, w.ledgers, w.txs[c], org))
    && (forall c :: c in w.txs ==> WorkOk(w, w.txs[c]))
    && (forall org :: Serial(sha, w, org))
  }

  /** The committed rows of an organization are those of its own committed inputs, run alone. */
  ghost predicate Serial(sha: Sha, w: World, org: Str)
  {
    Replay(sha, EmptyLedger(), Only(w.log, org)) == Some(At(w.ledgers, org))
  }

  lemma CloseKeeps(sha: Sha, w: World, c: Client)
    requires Inv(sha, w)
    ensures Inv(sha, Close(w, c))
  {
    forall org ensures Serial(sha, Close(w, c), org) {
      assert Serial(sha, w, org);
    }
  }

  /** Only one transaction changes, and only locks rows that were free. */
  lemma UpdateKeeps(sha: Sha, w: World, c: Client, tx: Tx)
    requires Inv(sha, w)
    requires forall d :: d in w.txs && d != c ==> w.txs[d].staged.Keys !! tx.staged.Keys
    requires forall org :: TxOk(sha, w.ledgers, tx, org)
    requires WorkOk(w, tx)
    ensures Inv(sha, w.(txs := w.txs[c := tx]))
  {
    var v := w.(txs := w.txs[c := tx]);
    forall org ensures Serial(sha, v, org) {
      assert Serial(sha, w, org);
    }
    forall d | d in v.txs ensures WorkOk(v, v.txs[d]) {
      if d != c {
        assert WorkOk(w, w.txs[d]);
      }
    }
    forall d, org | d in v.txs ensures TxOk(sha, v.ledgers, v.txs[d], org) {
      if d != c {
        assert TxOk(sha, w.ledgers, w.txs[d], org);
      }
    }
  }

  lemma LockKeeps(sha: Sha, w: World, c: Client, input: EntryInput)
    requires Inv(sha, w) && c in w.txs && w.txs[c].work.Ready? && Free(w, c, input.organizationId)
    ensures Inv(sha, w.(txs := w.txs[c := AfterLock(w, w.txs[c], input)]))
  {
    var old_, tx := w.txs[c], AfterLock(w, w.txs[c], input);
    forall org ensures TxOk(sha, w.ledgers, tx, org) {
      assert TxOk(sha, w.ledgers, old_, org);
    }
    UpdateKeeps(sha, w, c, tx);
  }

  lemma SelectKeeps(sha: Sha, w: World, c: Client)
    requires Inv(sha, w) && c in w.txs && w.txs[c].work.Locked?
    ensures Inv(sha, w.(txs := w.txs[c := AfterSelect(w, w.txs[c])]))
  {
    var tx := AfterSelect(w, w.txs[c]);
    assert WorkOk(w, w.txs[c]);
    forall org ensures TxOk(sha, w.ledgers, tx, org) {
      assert TxOk(sha, w.ledgers, w.txs[c], org);
    }
    UpdateKeeps(sha, w, c, tx);
  }

  lemma WriteKeeps(sha: Sha, w: World, c: Client, staged: Staged)
    requires Inv(sha, w) && c in w.txs && w.txs[c].work.Selected?
    requires w.txs[c].work.input.organizationId in w.txs[c].staged && StageOf(sha, w.txs[c].work) == Ok(staged)
    ensures Inv(sha, w.(txs := w.txs[c := AfterWrite(w.txs[c], staged)]))
  {
    var old_, tx := w.txs[c], AfterWrite(w.txs[c], staged);
    var input := old_.work.input;
    assert WorkOk(w, old_);
    forall org ensures TxOk(sha, w.ledgers, tx, org) {
      assert TxOk(sha, w.ledgers, old_, org);
      OnlyConcat(old_.done, [input], org);
      assert Only([input], org) == (if input.organizationId == org then [input] else []);
      if org == input.organizationId {
      }
    }
    UpdateKeeps(sha, w, c, tx);
  }

  lemma CommitIsSerial(sha: Sha, w: World, c: Client, org: Str)
    requires c in w.txs && Serial(sha, w, org) && TxOk(sha, w.ledgers, w.txs[c], org)
    ensures Serial(sha, World(Published(w.ledgers, w.txs[c]), w.txs - {c}, w.log + w.txs[c].done), org)
  {
    var tx := w.txs[c];
    OnlyConcat(w.log, tx.done, org);
    ReplayConcat(sha, EmptyLedger(), Only(w.log, org), Only(tx.done, org));
  }

  lemma CommitKeeps(sha: Sha, w: World, c: Client)
    requires Inv(sha, w) && c in w.txs && w.txs[c].work.Ready?
    ensures Inv(sha, World(Published(w.ledgers, w.txs[c]), w.txs - {c}, w.log + w.txs[c].done))
  {
    var v := World(Published(w.ledgers, w.txs[c]), w.txs - {c}, w.log + w.txs[c].done);
    forall org ensures Serial(sha, v, org) {
      assert Serial(sha, w, org) && TxOk(sha, w.ledgers, w.txs[c], org);
      CommitIsSerial(sha, w, c, org);
    }
    forall d, org | d in v.txs ensures TxOk(sha, v.ledgers, v.txs[d], org) {
      assert TxOk(sha, w.ledgers, w.txs[d], org);
      if org in w.txs[d].staged {
      }
    }
    forall d | d in v.txs ensures WorkOk(v, v.txs[d]) {
      assert WorkOk(w, w.txs[d]);
      if !w.txs[d].work.Ready? {
      }
    }
  }

  lemma StepKeeps(sha: Sha, w: World, step: Step)
    requires Inv(sha, w) && Next(sha, w, step).Some?
    ensures Inv(sha, Next(sha, w, step).value)
  {
    match step
    case Begin(c) => UpdateKeeps(sha, w, c, Tx(Ready, map[], []));
    case Lock(c, input) => LockKeeps(sha, w, c, input);
    case Select(c) => SelectKeeps(sha, w, c);
    case Write(c) =>
      if StageOf(sha, w.txs[c].work).Ok? {
        WriteKeeps(sha, w, c, StageOf(sha, w.txs[c].work).value);
      } else {
        CloseKeeps(sha, w, c);
      }
    case Commit(c) => CommitKeeps(sha, w, c);
    case Rollback(c) => CloseKeeps(sha, w, c);
  }

  /** Every schedule keeps the locks exclusive and the committed rows serial. */
  lemma {:induction false} RunKeeps(sha: Sha, schedule: seq<Step>)
    requires Run(sha, schedule).Some?
    ensures Inv(sha, Run(sha, schedule).value)
  {
    if schedule == [] {
      forall org ensures Serial(sha, World(map[], map[], []), org) {
      }
    } else {
      RunKeeps(sha, schedule[..|schedule| - 1]);
      StepKeeps(sha, Run(sha, schedule[..|schedule| - 1]).value, schedule[|schedule| - 1]);
    }
  }

  // ---------------------------------------------------------------- no fork

  lemma {:induction false} ReplaySound(sha: Sha, org: Str, inputs: seq<EntryInput>)
    requires Replay(sha, EmptyLedger(), Only(inputs, org)).Some?
    ensures Sound(sha, org, Replay(sha, EmptyLedger(), Only(inputs, org)).value)
  {
    if inputs == [] {
    } else {
      var last := inputs[|inputs| - 1];
      var rest := Only(inputs[..|inputs| - 1], org);
      if last.organizationId == org {
        assert (rest + [last])[..|rest|] == rest;
        ReplaySound(sha, org, inputs[..|inputs| - 1]);
        AppendKeepsSound(sha, Replay(sha, EmptyLedger(), rest).value, last);
      } else {
        ReplaySound(sha, org, inputs[..|inputs| - 1]);
      }
    }
  }

  /** Every committed append for the organization used this interval. */
  ghost predicate OneInterval(log: seq<EntryInput>, org: Str, interval: int)
  {
    forall i :: 0 <= i < |log| && log[i].organizationId == org ==> log[i].interval == interval
  }

  lemma {:induction false} ReplayTiled(sha: Sha, org: Str, interval: int, inputs: seq<EntryInput>)
    requires Replay(sha, EmptyLedger(), Only(inputs, org)).Some? && OneInterval(inputs, org, interval)
    ensures Tiled(sha, interval, Replay(sha, EmptyLedger(), Only(inputs, org)).value)
  {
    if inputs == [] {
    } else {
      var last := inputs[|inputs| - 1];
      var rest := Only(inputs[..|inputs| - 1], org);
      if last.organizationId == org {
        assert (rest + [last])[..|rest|] == rest;
        ReplayTiled(sha, org, interval, inputs[..|inputs| - 1]);
        ReplaySound(sha, org, inputs[..|inputs| - 1]);
        AppendKeepsTiled(sha, org, Replay(sha, EmptyLedger(), rest).value, last);
      } else {
        ReplayTiled(sha, org, interval, inputs[..|inputs| - 1]);
      }
    }
  }

  /** In every interleaving with commits and rollbacks, an organization's committed rows are those
      of its own committed appends run alone, its chain is linked from 1 to n with the chain state
      at the tip, and with one interval its checkpoints tile the chain. */
  lemma NeverForks(sha: Sha, schedule: seq<Step>, org: Str, interval: int)
    requires Run(sha, schedule).Some?
    ensures var w := Run(sha, schedule).value;
      && Serial(sha, w, org)
      && Sound(sha, org, At(w.ledgers, org))
      && (OneInterval(w.log, org, interval) ==> Tiled(sha, interval, At(w.ledgers, org)))
  {
    RunKeeps(sha, schedule);
    var w := Run(sha, schedule).value;
    assert Serial(sha, w, org);
    ReplaySound(sha, org, w.log);
    if OneInterval(w.log, org, interval) {
      ReplayTiled(sha, org, interval, w.log);
    }
  }

  // ---------------------------------------------------------------- one append, nobody in its way

  /** From the start of the transaction to its end. */
  function OneAppend(c: Client, input: EntryInput): seq<Step>
  {
    [Begin(c), Lock(c, input), Select(c), Write(c), Commit(c)]
  }

  lemma RunPush(sha: Sha, schedule: seq<Step>, step: Step)
    ensures Run(sha, schedule + [step])
         == if Run(sha, schedule).None? then None else Next(sha, Run(sha, schedule).value, step)
  {
    assert (schedule + [step])[..|schedule|] == schedule;
  }

  lemma PutTwice(w: World, c: Client, a: Tx, b: Tx)
    ensures w.(txs := w.txs[c := a]).txs[c := b] == w.txs[c := b]
  {
  }

  /** An idle client's transaction up to its write, while nobody else holds the organization's row. */
  lemma AppendPrepared(sha: Sha, schedule: seq<Step>, w: World, c: Client, input: EntryInput)
    requires Run(sha, schedule) == Some(w) && c !in w.txs && Free(w, c, input.organizationId)
    ensures var l := At(w.ledgers, input.organizationId);
      Run(sha, schedule + [Begin(c)] + [Lock(c, input)] + [Select(c)])
      == Some(w.(txs := w.txs[c := Tx(Selected(input, l.latestSequence, l.latestEntryHash, Prior(l, input)),
                                      map[input.organizationId := []], [])]))
  {
    var org, l := input.organizationId, At(w.ledgers, input.organizationId);
    var begun := Tx(Ready, map[], []);
    var locked := Tx(Locked(input, l.latestSequence, l.latestEntryHash), map[org := []], []);
    var selected := Tx(Selected(input, l.latestSequence, l.latestEntryHash, Prior(l, input)), map[org := []], []);
    RunPush(sha, schedule, Begin(c));
    var w1 := w.(txs := w.txs[c := begun]);
    assert Free(w1, c, org) && AfterLock(w1, begun, input) == locked;
    PutTwice(w, c, begun, locked);
    RunPush(sha, schedule + [Begin(c)], Lock(c, input));
    var w2 := w.(txs := w.txs[c := locked]);
    assert AfterSelect(w2, locked) == selected;
    PutTwice(w, c, locked, selected);
    RunPush(sha, schedule + [Begin(c)] + [Lock(c, input)], Select(c));
  }

  function SelectedAlone(w: World, input: EntryInput): Tx
  {
    var l := At(w.ledgers, input.organizationId);
    Tx(Selected(input, l.latestSequence, l.latestEntryHash, Prior(l, input)), map[input.organizationId := []], [])
  }

  /** The last two steps. */
  lemma WriteAlone(sha: Sha, schedule: seq<Step>, w: World, c: Client, input: EntryInput, staged: Staged)
    requires c !in w.txs && Run(sha, schedule) == Some(w.(txs := w.txs[c := SelectedAlone(w, input)]))
    requires StageOf(sha, SelectedAlone(w, input).work) == Ok(staged)
    ensures Run(sha, schedule + [Write(c)] + [Commit(c)])
         == Some(World(w.ledgers[input.organizationId := InsertRows(At(w.ledgers, input.organizationId), staged)], w.txs, w.log + [input]))
  {
    var selected := SelectedAlone(w, input);
    var written := AfterWrite(selected, staged);
    WrittenAlone(sha, w, c, input, selected, staged);
    RunPush(sha, schedule, Write(c));
    PutTwice(w, c, selected, written);
    RunPush(sha, schedule + [Write(c)], Commit(c));
  }

  lemma FailAlone(sha: Sha, schedule: seq<Step>, w: World, c: Client, input: EntryInput)
    requires c !in w.txs && Run(sha, schedule) == Some(w.(txs := w.txs[c := SelectedAlone(w, input)]))
    requires StageOf(sha, SelectedAlone(w, input).work).Err?
    ensures Run(sha, schedule + [Write(c)]) == Some(w)
  {
    RunPush(sha, schedule, Write(c));
    assert w.txs[c := SelectedAlone(w, input)] - {c} == w.txs;
  }

  /** An idle client whose organization's row nobody holds appends its entry and commits it, alone in the log
      and on the chain; if the append throws, the client is idle again and nothing else has changed. */
  lemma AppendAlone(sha: Sha, schedule: seq<Step>, w: World, c: Client, input: EntryInput)
    requires Run(sha, schedule) == Some(w) && c !in w.txs && Free(w, c, input.organizationId)
    ensures var org, steps := input.organizationId, schedule + OneAppend(c, input);
      match Append(sha, At(w.ledgers, org), input)
      case Ok(l) => Run(sha, steps) == Some(World(w.ledgers[org := l], w.txs, w.log + [input]))
      case Err(_) => Run(sha, steps[..|steps| - 1]) == Some(w)
  {
    var prepared := schedule + [Begin(c)] + [Lock(c, input)] + [Select(c)];
    AppendPrepared(sha, schedule, w, c, input);
    assert schedule + OneAppend(c, input) == prepared + [Write(c)] + [Commit(c)];
    assert (prepared + [Write(c)] + [Commit(c)])[..|prepared| + 1] == prepared + [Write(c)];
    var staged := StageOf(sha, SelectedAlone(w, input).work);
    if staged.Ok? {
      WriteAlone(sha, prepared, w, c, input, staged.value);
    } else {
      FailAlone(sha, prepared, w, c, input);
    }
  }

  lemma WrittenAlone(sha: Sha, w: World, c: Client, input: EntryInput, selected: Tx, staged: Staged)
    requires c !in w.txs && selected.work.Selected? && selected.work.input == input
    requires selected.staged == map[input.organizationId := []] && selected.done == []
    ensures var org, written := input.organizationId, AfterWrite(selected, staged);
      && written == Tx(Ready, map[org := [staged]], [input])
      && w.txs[c := selected][c := written] - {c} == w.txs
      && Published(w.ledgers, written) == w.ledgers[org := InsertRows(At(w.ledgers, org), staged)]
  {
    var org, written := input.organizationId, AfterWrite(selected, staged);
    var none: seq<Staged> := [];
    assert none + [staged] == [staged] && selected.staged[org := [staged]] == map[org := [staged]];
    assert w.txs[c := selected][c := written] - {c} == w.txs;
    PublishedOne(w.ledgers, written, org, staged);
  }

  lemma PublishedOne(ledgers: map<Str, Ledger>, tx: Tx, org: Str, staged: Staged)
    requires tx.staged == map[org := [staged]]
    ensures Published(ledgers, tx) == ledgers[org := InsertRows(At(ledgers, org), staged)]
  {
    var none: seq<Staged> := [];
    assert [staged][..0] == none && InsertAll(At(ledgers, org), [staged]) == InsertRows(At(ledgers, org), staged);
    var published := Published(ledgers, tx);
    assert published.Keys == ledgers.Keys + {org};
  }

  // ---------------------------------------------------------------- the contrast

  /** The first kernel: read the newest hash, then insert, with no lock in between. */
  datatype OldRow = OldRow(previousEntryHash: Option<Str>, entryHash: Str)
  datatype OldStep = OldRead(c: Client) | OldInsert(c: Client, payload: Str)
  datatype OldWorld = OldWorld(rows: seq<OldRow>, read: map<Client, Option<Str>>)

  function OldNext(hash: (Option<Str>, Str) -> Str, w: OldWorld, step: OldStep): Option<OldWorld>
  {
    match step
    case OldRead(c) =>
      Some(w.(read := w.read[c := if w.rows == [] then None else Some(w.rows[|w.rows| - 1].entryHash)]))
    case OldInsert(c, payload) =>
      if c !in w.read then None
      else Some(OldWorld(w.rows + [OldRow(w.read[c], hash(w.read[c], payload))], w.read - {c}))
  }

  function OldRun(hash: (Option<Str>, Str) -> Str, w: OldWorld, schedule: seq<OldStep>): Option<OldWorld>
    decreases |schedule|
  {
    if schedule == [] then Some(w)
    else
      match OldNext(hash, w, schedule[0])
      case None => None
      case Some(v) => OldRun(hash, v, schedule[1..])
  }

  /** Without the lock, any two clients can fork any table: two rows on one predecessor. */
  lemma UnlockedForks(hash: (Option<Str>, Str) -> Str, rows: seq<OldRow>, p: Str, q: Str)
    ensures var w := OldRun(hash, OldWorld(rows, map[]), [OldRead(0), OldRead(1), OldInsert(0, p), OldInsert(1, q)]);
      && w.Some? && |w.value.rows| == |rows| + 2
      && w.value.rows[|rows|].previousEntryHash == w.value.rows[|rows| + 1].previousEntryHash
  {
    var tip := if rows == [] then None else Some(rows[|rows| - 1].entryHash);
    var w1 := OldWorld(rows, map[0 := tip]);
    var w2 := OldWorld(rows, map[0 := tip, 1 := tip]);
    var w3 := OldWorld(rows + [OldRow(tip, hash(tip, p))], w2.read - {0});
    var w4 := OldWorld(w3.rows + [OldRow(tip, hash(tip, q))], w3.read - {1});
    assert OldRun(hash, w3, [OldInsert(1, q)]) == Some(w4) by {
      assert OldRun(hash, w4, []) == Some(w4);
    }
    assert OldRun(hash, w2, [OldInsert(0, p), OldInsert(1, q)]) == OldRun(hash, w3, [OldInsert(1, q)]);
    assert OldNext(hash, w1, OldRead(1)) == Some(w2);
    assert OldRun(hash, w1, [OldRead(1), OldInsert(0, p), OldInsert(1, q)])
        == OldRun(hash, w2, [OldInsert(0, p), OldInsert(1, q)]);
  }
}
