/** Idempotent replay as interleaved transactions over one unique index. Each client is a
    transaction that claims a key once and then works, completes and commits, or rolls back.
    A retry by the same device is another client. */
module Idempotency {
  import opened Prelude

  /** The columns of the unique constraint. */
  datatype Scope = Scope(restaurant: int, endpoint: string, key: string)

  datatype Status = InFlight | Completed

  datatype KeyRow = KeyRow(hash: string, status: Status, response: string, responseStatus: int)

  datatype Phase =
    | Ready                                          // about to insert the key
    | Blocked                                        // waiting on the index for another's insert
    | Lost                                           // the insert returned no row; about to select
    | Retrying                                       // nothing was there; about to insert again
    | RetryBlocked
    | Working                                        // owns the key, replay = False
    | Done                                           // `complete` has been called
    | Committed
    | RolledBack
    | Replayed(response: string, responseStatus: int)
    | KeyReuse                                       // same key, different body
    | InProgress                                     // told to retry shortly

  /** `row` is the key row this transaction has inserted and not yet committed. */
  datatype Client = Client(scope: Scope, hash: string, phase: Phase, row: Option<KeyRow>)

  /** The guarded work, recorded when it commits together with its key. */
  datatype Work = Work(scope: Scope, client: nat, hash: string, response: string, responseStatus: int)

  datatype System = System(clients: seq<Client>, table: map<Scope, KeyRow>, work: seq<Work>)

  /** What a client may do next. `gone` settles whether an insert that waited for a
      holder which rolled back goes ahead itself or comes back empty-handed; both are allowed. */
  datatype Action =
    | Insert
    | Wake(gone: bool)
    | Select
    | Complete(response: string, responseStatus: int)
    | Commit
    | Rollback

  ghost predicate HeldByOther(s: System, t: nat)
    requires t < |s.clients|
  {
    exists u :: 0 <= u < |s.clients| && u != t && s.clients[u].row.Some? && s.clients[u].scope == s.clients[t].scope
  }

  function Claimed(c: Client): Client
  {
    c.(phase := Working, row := Some(KeyRow(c.hash, InFlight, "", 0)))
  }

  /** `existing.response_status or 200`. */
  function StatusOr200(status: int): int { if status == 0 then 200 else status }

  /** `INSERT .. ON CONFLICT DO NOTHING`: wait for an uncommitted holder, lose to a
      committed row, or own the key. The second attempt reports a loss as in progress. */
  ghost function TryInsert(s: System, t: nat, again: bool): Client
    requires t < |s.clients|
  {
    var c := s.clients[t];
    if HeldByOther(s, t) then c.(phase := if again then RetryBlocked else Blocked)
    else if c.scope in s.table then c.(phase := if again then InProgress else Lost)
    else Claimed(c)
  }

  ghost function AfterWait(s: System, t: nat, again: bool, gone: bool): Client
    requires t < |s.clients|
  {
    var c := s.clients[t];
    if c.scope in s.table || gone then c.(phase := if again then InProgress else Lost) else Claimed(c)
  }

  /** The re-select after a lost insert sees committed rows only. */
  function AfterSelect(s: System, c: Client): Phase
  {
    if c.scope !in s.table then Retrying
    else
      var existing := s.table[c.scope];
      if existing.hash != c.hash then KeyReuse
      else if existing.status == Completed then Replayed(existing.response, StatusOr200(existing.responseStatus))
      else InProgress
  }

  predicate Open(p: Phase)
  {
    p in {Ready, Blocked, Lost, Retrying, RetryBlocked, Working, Done}
  }

  function With(s: System, t: nat, c: Client): System
    requires t < |s.clients|
  {
    s.(clients := s.clients[t := c])
  }

  /** A step that touches the client alone, or None when it is not possible now. */
  ghost function Move(s: System, t: nat, a: Action): Option<Client>
    requires t < |s.clients|
  {
    var c := s.clients[t];
    match a
    case Insert =>
      if c.phase == Ready || c.phase == Retrying then Some(TryInsert(s, t, c.phase == Retrying)) else None
    case Wake(gone) =>
      if (c.phase == Blocked || c.phase == RetryBlocked) && !HeldByOther(s, t)
      then Some(AfterWait(s, t, c.phase == RetryBlocked, gone)) else None
    case Select =>
      if c.phase == Lost then Some(c.(phase := AfterSelect(s, c))) else None
    case Complete(response, status) =>
      if c.phase == Working then Some(c.(phase := Done, row := Some(KeyRow(c.hash, Completed, response, status))))
      else if c.phase.Replayed? then Some(c)   // completing a replayed slot is a no-op
      else None
    case Rollback =>
      if Open(c.phase) then Some(c.(phase := RolledBack, row := None)) else None
    case Commit => None
  }

  /** The commit makes the key row and the work visible together. */
  function Committing(s: System, t: nat, row: KeyRow): System
    requires t < |s.clients|
  {
    var c := s.clients[t];
    System(s.clients[t := c.(phase := Committed, row := None)],
           s.table[c.scope := row],
           s.work + [Work(c.scope, t, c.hash, row.response, row.responseStatus)])
  }

  /** One step of client `t`, or None when that step is not possible now. */
  ghost function Next(s: System, t: nat, a: Action): Option<System>
    requires t < |s.clients|
  {
    var c := s.clients[t];
    if a == Commit then
      if c.phase == Done && c.row.Some? then Some(Committing(s, t, c.row.value)) else None
    else
      var moved := Move(s, t, a);
      if moved.Some? then Some(With(s, t, moved.value)) else None
  }

  function Start(requests: seq<(Scope, string)>): System
  {
    System(seq(|requests|, i requires 0 <= i < |requests| => Client(requests[i].0, requests[i].1, Ready, None)),
           map[], [])
  }

  ghost predicate Runs(s: System, steps: seq<(nat, Action)>)
    decreases |steps|
  {
    |steps| == 0 ||
    (steps[0].0 < |s.clients| && Next(s, steps[0].0, steps[0].1).Some? &&
     Runs(Next(s, steps[0].0, steps[0].1).value, steps[1..]))
  }

  ghost function After(s: System, steps: seq<(nat, Action)>): System
    requires Runs(s, steps)
    decreases |steps|
  {
    if |steps| == 0 then s else After(Next(s, steps[0].0, steps[0].1).value, steps[1..])
  }

  // ------------------------------------------------------- the invariant

  // A client holds a row exactly while it works or is done, and the row is its own.
  ghost predicate RowMatchesPhase(c: Client)
  {
    && (c.row.Some? <==> c.phase in {Working, Done})
    && (c.row.Some? ==> c.row.value.hash == c.hash && (c.row.value.status == Completed <==> c.phase == Done))
  }

  ghost predicate RowsMatchPhases(s: System)
  {
    forall t :: 0 <= t < |s.clients| ==> RowMatchesPhase(s.clients[t])
  }

  // The unique index: one uncommitted holder per key, and none for a committed key.
  ghost predicate IndexUnique(s: System)
  {
    && (forall t, u :: 0 <= t < u < |s.clients| && s.clients[t].row.Some? && s.clients[u].row.Some? ==>
          s.clients[t].scope != s.clients[u].scope)
    && (forall t :: 0 <= t < |s.clients| && s.clients[t].row.Some? ==> s.clients[t].scope !in s.table)
  }

  ghost predicate RecordedBy(row: KeyRow, w: Work)
  {
    row == KeyRow(w.hash, Completed, w.response, w.responseStatus)
  }

  // Committed keys and committed work are the same thing, and work never repeats a key.
  ghost predicate KeysAreWork(s: System)
  {
    && (forall i, j :: 0 <= i < j < |s.work| ==> s.work[i].scope != s.work[j].scope)
    && (forall i :: 0 <= i < |s.work| ==> s.work[i].scope in s.table && RecordedBy(s.table[s.work[i].scope], s.work[i]))
    && (forall k :: k in s.table ==> exists i :: 0 <= i < |s.work| && s.work[i].scope == k)
  }

  // Each committed client is the author of exactly the work recorded under its name.
  ghost predicate WorkersCommitted(s: System)
  {
    && (forall i :: 0 <= i < |s.work| ==>
          s.work[i].client < |s.clients| && s.clients[s.work[i].client].phase == Committed &&
          s.clients[s.work[i].client].scope == s.work[i].scope && s.clients[s.work[i].client].hash == s.work[i].hash)
    && (forall t :: 0 <= t < |s.clients| && s.clients[t].phase == Committed ==>
          exists i :: 0 <= i < |s.work| && s.work[i].client == t)
  }

  // What a client was told agrees with the committed row, and will for good.
  ghost predicate AnswerIsRecorded(s: System, c: Client)
  {
    && (c.phase.Replayed? ==> c.scope in s.table && s.table[c.scope].hash == c.hash &&
                              s.table[c.scope].response == c.phase.response &&
                              StatusOr200(s.table[c.scope].responseStatus) == c.phase.responseStatus)
    && (c.phase.KeyReuse? ==> c.scope in s.table && s.table[c.scope].hash != c.hash)
  }

  ghost predicate AnswersAreRecorded(s: System)
  {
    forall t :: 0 <= t < |s.clients| ==> AnswerIsRecorded(s, s.clients[t])
  }

  ghost predicate Inv(s: System)
  {
    RowsMatchPhases(s) && IndexUnique(s) && KeysAreWork(s) && WorkersCommitted(s) && AnswersAreRecorded(s)
  }

  lemma CommitKeepsKeys(s: System, t: nat, row: KeyRow)
    requires KeysAreWork(s) && t < |s.clients| && s.clients[t].scope !in s.table
    requires row.hash == s.clients[t].hash && row.status == Completed
    ensures KeysAreWork(Committing(s, t, row))
  {
    var s' := Committing(s, t, row);
    assert s'.work[|s.work|].scope == s.clients[t].scope;
    assert forall i :: 0 <= i < |s.work| ==> s'.work[i] == s.work[i] && s.work[i].scope in s.table;
  }

  lemma CommitKeepsWorkers(s: System, t: nat, row: KeyRow)
    requires WorkersCommitted(s) && t < |s.clients| && s.clients[t].phase == Done
    ensures WorkersCommitted(Committing(s, t, row))
  {
    var s' := Committing(s, t, row);
    assert s'.work[|s.work|].client == t;
    assert forall i :: 0 <= i < |s.work| ==> s'.work[i] == s.work[i];
  }

  lemma CommitKeepsClients(s: System, t: nat, row: KeyRow)
    requires RowsMatchPhases(s) && IndexUnique(s) && t < |s.clients| && s.clients[t].row == Some(row)
    ensures RowsMatchPhases(Committing(s, t, row)) && IndexUnique(Committing(s, t, row))
  {
    forall u | 0 <= u < |s.clients|
      ensures RowMatchesPhase(Committing(s, t, row).clients[u])
    {
      assert RowMatchesPhase(s.clients[u]);
    }
  }

  lemma CommitKeepsAnswers(s: System, t: nat, row: KeyRow)
    requires AnswersAreRecorded(s) && t < |s.clients| && s.clients[t].scope !in s.table
    ensures AnswersAreRecorded(Committing(s, t, row))
  {
    forall u | 0 <= u < |s.clients|
      ensures AnswerIsRecorded(Committing(s, t, row), Committing(s, t, row).clients[u])
    {
      assert AnswerIsRecorded(s, s.clients[u]);
    }
  }

  lemma CommitKeepsInv(s: System, t: nat, row: KeyRow)
    requires Inv(s) && t < |s.clients| && s.clients[t].phase == Done && s.clients[t].row == Some(row)
    ensures Inv(Committing(s, t, row))
  {
    assert RowMatchesPhase(s.clients[t]);
    CommitKeepsClients(s, t, row);
    CommitKeepsKeys(s, t, row);
    CommitKeepsWorkers(s, t, row);
    CommitKeepsAnswers(s, t, row);
  }

  // A move that keeps the client itself consistent, and claims only a key nobody holds.
  ghost predicate GoodMove(s: System, t: nat, c: Client)
    requires t < |s.clients|
  {
    && c.scope == s.clients[t].scope && c.hash == s.clients[t].hash
    && (c.phase == Committed <==> s.clients[t].phase == Committed)
    && RowMatchesPhase(c) && AnswerIsRecorded(s, c)
    && (c.row.Some? && s.clients[t].row.None? ==> c.scope !in s.table && !HeldByOther(s, t))
  }

  lemma MoveIsGood(s: System, t: nat, a: Action)
    requires RowsMatchPhases(s) && KeysAreWork(s) && AnswersAreRecorded(s) && t < |s.clients| && Move(s, t, a).Some?
    ensures GoodMove(s, t, Move(s, t, a).value)
  {
    assert RowMatchesPhase(s.clients[t]) && AnswerIsRecorded(s, s.clients[t]);
  }

  lemma GoodMoveKeepsIndex(s: System, t: nat, c: Client)
    requires IndexUnique(s) && t < |s.clients| && GoodMove(s, t, c)
    ensures IndexUnique(With(s, t, c))
  {
  }

  lemma GoodMoveKeepsWorkers(s: System, t: nat, c: Client)
    requires WorkersCommitted(s) && t < |s.clients| && GoodMove(s, t, c)
    ensures WorkersCommitted(With(s, t, c))
  {
  }

  lemma GoodMoveKeepsClients(s: System, t: nat, c: Client)
    requires RowsMatchPhases(s) && AnswersAreRecorded(s) && t < |s.clients| && GoodMove(s, t, c)
    ensures RowsMatchPhases(With(s, t, c)) && AnswersAreRecorded(With(s, t, c))
  {
    forall u | 0 <= u < |s.clients|
      ensures RowMatchesPhase(With(s, t, c).clients[u]) && AnswerIsRecorded(With(s, t, c), With(s, t, c).clients[u])
    {
      assert RowMatchesPhase(s.clients[u]) && AnswerIsRecorded(s, s.clients[u]);
    }
  }

  lemma GoodMoveKeepsInv(s: System, t: nat, c: Client)
    requires Inv(s) && t < |s.clients| && GoodMove(s, t, c)
    ensures Inv(With(s, t, c))
  {
    GoodMoveKeepsClients(s, t, c);
    GoodMoveKeepsIndex(s, t, c);
    GoodMoveKeepsWorkers(s, t, c);
  }

  lemma StepKeepsInv(s: System, t: nat, a: Action)
    requires Inv(s) && t < |s.clients| && Next(s, t, a).Some?
    ensures Inv(Next(s, t, a).value)
    ensures var s' := Next(s, t, a).value;
      |s'.clients| == |s.clients| &&
      forall u :: 0 <= u < |s.clients| ==>
        s'.clients[u].scope == s.clients[u].scope && s'.clients[u].hash == s.clients[u].hash
  {
    if a == Commit {
      CommitKeepsInv(s, t, s.clients[t].row.value);
    } else {
      MoveIsGood(s, t, a);
      GoodMoveKeepsInv(s, t, Move(s, t, a).value);
    }
  }

  /** The state a run of these requests reaches. */
  ghost function Reached(requests: seq<(Scope, string)>, steps: seq<(nat, Action)>): System
    requires Runs(Start(requests), steps)
  {
    After(Start(requests), steps)
  }

  lemma {:induction false} RunKeepsInv(s: System, steps: seq<(nat, Action)>)
    requires Inv(s) && Runs(s, steps)
    ensures Inv(After(s, steps)) && |After(s, steps).clients| == |s.clients|
    ensures forall t :: 0 <= t < |s.clients| ==>
              After(s, steps).clients[t].scope == s.clients[t].scope &&
              After(s, steps).clients[t].hash == s.clients[t].hash
    decreases |steps|
  {
    if |steps| != 0 {
      StepKeepsInv(s, steps[0].0, steps[0].1);
      RunKeepsInv(Next(s, steps[0].0, steps[0].1).value, steps[1..]);
    }
  }

  lemma ReachedKeepsInv(requests: seq<(Scope, string)>, steps: seq<(nat, Action)>)
    requires Runs(Start(requests), steps)
    ensures Inv(Reached(requests, steps)) && |Reached(requests, steps).clients| == |requests|
    ensures forall t :: 0 <= t < |requests| ==>
              Reached(requests, steps).clients[t].scope == requests[t].0 &&
              Reached(requests, steps).clients[t].hash == requests[t].1
  {
    RunKeepsInv(Start(requests), steps);
  }

  // -------------------------------------------------------- the promises

  /** Exactly once, under every interleaving: no two clients of one key both commit, nor does
      the work log repeat a key; every replay gives the response that the key's one committed
      work stored, for the same body; and no committed key is left in flight. */
  lemma ExactlyOnce(requests: seq<(Scope, string)>, steps: seq<(nat, Action)>)
    requires Runs(Start(requests), steps)
    ensures var s := Reached(requests, steps);
      && |s.clients| == |requests|
      && (forall i, j :: 0 <= i < j < |s.work| ==> s.work[i].scope != s.work[j].scope)
      && (forall t, u | 0 <= t < u < |requests| ::
            s.clients[t].phase == Committed && s.clients[u].phase == Committed ==> requests[t].0 != requests[u].0)
      && (forall t :: 0 <= t < |requests| && s.clients[t].phase.Replayed? ==>
            exists i :: 0 <= i < |s.work| && s.work[i].scope == requests[t].0 && s.work[i].hash == requests[t].1 &&
                        s.work[i].response == s.clients[t].phase.response &&
                        StatusOr200(s.work[i].responseStatus) == s.clients[t].phase.responseStatus)
      && (forall k :: k in s.table ==> s.table[k].status == Completed)
  {
    ReachedKeepsInv(requests, steps);
    var s := Reached(requests, steps);
    forall t, u | 0 <= t < u < |requests| && s.clients[t].phase == Committed && s.clients[u].phase == Committed
      ensures requests[t].0 != requests[u].0
    {
      var i :| 0 <= i < |s.work| && s.work[i].client == t;
      var j :| 0 <= j < |s.work| && s.work[j].client == u;
    }
  }

  // ------------------------------------------------ where responses come from

  lemma {:induction false} RunSplits(s: System, steps: seq<(nat, Action)>, n: nat)
    requires Runs(s, steps) && n <= |steps|
    ensures Runs(s, steps[..n]) && Runs(After(s, steps[..n]), steps[n..])
    ensures After(After(s, steps[..n]), steps[n..]) == After(s, steps)
    decreases |steps|
  {
    if n == 0 {
      assert steps[n..] == steps;
    } else {
      RunSplits(Next(s, steps[0].0, steps[0].1).value, steps[1..], n - 1);
      assert steps[..n][1..] == steps[1..][..n - 1] && steps[1..][n - 1..] == steps[n..];
    }
  }

  lemma LastStep(s: System, steps: seq<(nat, Action)>)
    requires Runs(s, steps) && |steps| > 0
    ensures var n := |steps| - 1;
      && Runs(s, steps[..n]) && steps[n].0 < |After(s, steps[..n]).clients|
      && Next(After(s, steps[..n]), steps[n].0, steps[n].1) == Some(After(s, steps))
  {
    var n := |steps| - 1;
    RunSplits(s, steps, n);
    var last := steps[n..];
    assert last == [steps[n]] && last[1..] == [];
  }

  /** The k-th step of the run is client `t`, at work, calling `complete` with these arguments. */
  ghost predicate CompletesAt(s: System, steps: seq<(nat, Action)>, k: nat, t: nat, response: string, status: int)
  {
    && k < |steps| && steps[k] == (t, Complete(response, status))
    && Runs(s, steps[..k]) && t < |After(s, steps[..k]).clients| && After(s, steps[..k]).clients[t].phase == Working
  }

  ghost predicate HasCompleted(s: System, steps: seq<(nat, Action)>, t: nat, response: string, status: int)
  {
    exists k: nat :: CompletesAt(s, steps, k, t, response, status)
  }

  lemma EarlierCompletion(s: System, steps: seq<(nat, Action)>, n: nat, t: nat, response: string, status: int)
    requires n <= |steps| && HasCompleted(s, steps[..n], t, response, status)
    ensures HasCompleted(s, steps, t, response, status)
  {
    var k: nat :| CompletesAt(s, steps[..n], k, t, response, status);
    assert steps[..n][..k] == steps[..k];
    assert CompletesAt(s, steps, k, t, response, status);
  }

  // Whatever is waiting to be committed, or has been, was passed to `complete` by its client.
  ghost predicate ResponsesAreGiven(s: System, steps: seq<(nat, Action)>, now: System)
  {
    && (forall t :: 0 <= t < |now.clients| && now.clients[t].phase == Done && now.clients[t].row.Some? ==>
          HasCompleted(s, steps, t, now.clients[t].row.value.response, now.clients[t].row.value.responseStatus))
    && (forall i :: 0 <= i < |now.work| ==>
          HasCompleted(s, steps, now.work[i].client, now.work[i].response, now.work[i].responseStatus))
  }

  lemma StepKeepsGiven(s: System, steps: seq<(nat, Action)>)
    requires Runs(s, steps) && |steps| > 0 && Runs(s, steps[..|steps| - 1])
    requires ResponsesAreGiven(s, steps[..|steps| - 1], After(s, steps[..|steps| - 1]))
    ensures ResponsesAreGiven(s, steps, After(s, steps))
  {
    var n := |steps| - 1;
    var was, now, t, a := After(s, steps[..n]), After(s, steps), steps[n].0, steps[n].1;
    LastStep(s, steps);
    forall u | 0 <= u < |now.clients| && now.clients[u].phase == Done && now.clients[u].row.Some?
      ensures HasCompleted(s, steps, u, now.clients[u].row.value.response, now.clients[u].row.value.responseStatus)
    {
      if u == t && a.Complete? {
        assert CompletesAt(s, steps, n, t, a.response, a.responseStatus);
      } else {
        EarlierCompletion(s, steps, n, u, was.clients[u].row.value.response, was.clients[u].row.value.responseStatus);
      }
    }
    forall i | 0 <= i < |now.work|
      ensures HasCompleted(s, steps, now.work[i].client, now.work[i].response, now.work[i].responseStatus)
    {
      EarlierCompletion(s, steps, n, now.work[i].client, now.work[i].response, now.work[i].responseStatus);
    }
  }

  lemma {:induction false} RunKeepsGiven(requests: seq<(Scope, string)>, steps: seq<(nat, Action)>)
    requires Runs(Start(requests), steps)
    ensures ResponsesAreGiven(Start(requests), steps, Reached(requests, steps))
    decreases |steps|
  {
    if |steps| != 0 {
      LastStep(Start(requests), steps);
      RunKeepsGiven(requests, steps[..|steps| - 1]);
      StepKeepsGiven(Start(requests), steps);
    }
  }

  /** Committed work carries what its client passed to `complete` while it was at work, and the
      request it was for. */
  lemma WorkIsWhatWasCompleted(requests: seq<(Scope, string)>, steps: seq<(nat, Action)>, i: nat)
    requires Runs(Start(requests), steps) && i < |Reached(requests, steps).work|
    ensures var w := Reached(requests, steps).work[i];
      && w.client < |requests| && requests[w.client] == (w.scope, w.hash)
      && exists k: nat :: CompletesAt(Start(requests), steps, k, w.client, w.response, w.responseStatus)
  {
    ReachedKeepsInv(requests, steps);
    RunKeepsGiven(requests, steps);
    var w := Reached(requests, steps).work[i];
    assert HasCompleted(Start(requests), steps, w.client, w.response, w.responseStatus);
  }

  /** A replay answers with what a committed client of the same key and the same body passed to
      `complete`, a missing status reading as 200. */
  lemma ReplayIsWhatWasCompleted(requests: seq<(Scope, string)>, steps: seq<(nat, Action)>, t: nat)
    returns (u: nat, status: int)
    requires Runs(Start(requests), steps) && t < |requests| && t < |Reached(requests, steps).clients|
    requires Reached(requests, steps).clients[t].phase.Replayed?
    ensures u < |requests| && u < |Reached(requests, steps).clients| &&
            Reached(requests, steps).clients[u].phase == Committed
    ensures requests[u] == requests[t]
    ensures exists k: nat :: CompletesAt(Start(requests), steps, k, u,
                                         Reached(requests, steps).clients[t].phase.response, status)
    ensures Reached(requests, steps).clients[t].phase.responseStatus == if status == 0 then 200 else status
  {
    var s := Reached(requests, steps);
    ReachedKeepsInv(requests, steps);
    ExactlyOnce(requests, steps);
    var i :| 0 <= i < |s.work| && s.work[i].scope == requests[t].0 && s.work[i].hash == requests[t].1 &&
             s.work[i].response == s.clients[t].phase.response &&
             StatusOr200(s.work[i].responseStatus) == s.clients[t].phase.responseStatus;
    WorkIsWhatWasCompleted(requests, steps, i);
    u, status := s.work[i].client, s.work[i].responseStatus;
  }

  lemma StepKeepsKey(s: System, t: nat, a: Action, k: Scope)
    requires RowsMatchPhases(s) && IndexUnique(s) && t < |s.clients| && Next(s, t, a).Some? && k in s.table
    ensures k in Next(s, t, a).value.table && Next(s, t, a).value.table[k] == s.table[k]
  {
  }

  lemma {:induction false} CommittedKeysStay(s: System, steps: seq<(nat, Action)>, k: Scope)
    requires Inv(s) && Runs(s, steps) && k in s.table
    ensures k in After(s, steps).table && After(s, steps).table[k] == s.table[k]
    decreases |steps|
  {
    if |steps| != 0 {
      StepKeepsInv(s, steps[0].0, steps[0].1);
      StepKeepsKey(s, steps[0].0, steps[0].1, k);
      CommittedKeysStay(Next(s, steps[0].0, steps[0].1).value, steps[1..], k);
    }
  }

  lemma LateInsertLoses(s: System, t: nat)
    requires IndexUnique(s) && t < |s.clients| && s.clients[t].phase == Ready && s.clients[t].scope in s.table
    ensures Next(s, t, Insert).Some? && Next(s, t, Insert).value.clients[t].phase == Lost
  {
    assert !HeldByOther(s, t);
  }

  lemma CommittedKeyHasNoWorker(s: System, t: nat)
    requires RowsMatchPhases(s) && IndexUnique(s) && t < |s.clients| && s.clients[t].scope in s.table
    ensures s.clients[t].phase != Working && s.clients[t].phase != Done
  {
    assert RowMatchesPhase(s.clients[t]);
  }

  /** Once a key's work has committed, no claim of it is ever at work again, in any later state;
      and a claim that has still to start loses its insert at once. */
  lemma CommittedKeyIsNotReclaimed(requests: seq<(Scope, string)>, first: seq<(nat, Action)>, later: seq<(nat, Action)>,
                                   t: nat)
    requires Runs(Start(requests), first) && Runs(Reached(requests, first), later)
    requires t < |requests| && requests[t].0 in Reached(requests, first).table
    ensures var s := After(Reached(requests, first), later);
      && t < |s.clients| && s.clients[t].phase != Working && s.clients[t].phase != Done
      && (s.clients[t].phase == Ready ==> Next(s, t, Insert).Some? && Next(s, t, Insert).value.clients[t].phase == Lost)
  {
    ReachedKeepsInv(requests, first);
    RunKeepsInv(Reached(requests, first), later);
    CommittedKeysStay(Reached(requests, first), later, requests[t].0);
    var s := After(Reached(requests, first), later);
    CommittedKeyHasNoWorker(s, t);
    if s.clients[t].phase == Ready {
      LateInsertLoses(s, t);
    }
  }

  /** What the re-select of a lost claim decides: a replay exactly when the committed body is
      the same, key reuse exactly when it differs, another insert exactly when the key is gone,
      and never a row that is still in flight. */
  lemma SelectDecides(requests: seq<(Scope, string)>, steps: seq<(nat, Action)>, t: nat)
    requires Runs(Start(requests), steps) && t < |requests|
    requires t < |Reached(requests, steps).clients| && Reached(requests, steps).clients[t].phase == Lost
    ensures var s := Reached(requests, steps);
      && Next(s, t, Select).Some?
      && var p := Next(s, t, Select).value.clients[t].phase;
         && (p == Retrying <==> requests[t].0 !in s.table)
         && (p.Replayed? <==> requests[t].0 in s.table && s.table[requests[t].0].hash == requests[t].1)
         && (p == KeyReuse <==> requests[t].0 in s.table && s.table[requests[t].0].hash != requests[t].1)
         && p != InProgress
  {
    ReachedKeepsInv(requests, steps);
  }

  /** A claim that comes after the commit of its key, or has waited for it, loses its insert and then
      answers with what was committed: the same response for the same body, key reuse for another. */
  lemma LateClaimIsAnswered(requests: seq<(Scope, string)>, steps: seq<(nat, Action)>, t: nat, first: Action)
    requires Runs(Start(requests), steps) && t < |requests| && t < |Reached(requests, steps).clients|
    requires requests[t].0 in Reached(requests, steps).table
    requires match Reached(requests, steps).clients[t].phase
             case Ready => first == Insert
             case Blocked => first.Wake? && !HeldByOther(Reached(requests, steps), t)
             case _ => false
    ensures var s := Reached(requests, steps);
      && Runs(s, [(t, first), (t, Select)])
      && t < |After(s, [(t, first), (t, Select)]).clients|
      && After(s, [(t, first), (t, Select)]).clients[t].phase
         == if s.table[requests[t].0].hash != requests[t].1 then KeyReuse
            else Replayed(s.table[requests[t].0].response,
                          if s.table[requests[t].0].responseStatus == 0 then 200
                          else s.table[requests[t].0].responseStatus)
  {
    ReachedKeepsInv(requests, steps);
    var s := Reached(requests, steps);
    if first == Insert {
      LateInsertLoses(s, t);
    }
    var one := Next(s, t, first).value;
    var two := Next(one, t, Select).value;
    var none: seq<(nat, Action)> := [];
    var last := [(t, Select)];
    assert last[1..] == none && [(t, first), (t, Select)][1..] == last;
    assert After(two, none) == two && After(one, last) == two;
    assert Runs(two, none) && Runs(one, last);
  }

  // Once the one holder of a key lets go of its row, nobody holds the key.
  lemma LettingGoFrees(s: System, s': System, t: nat, u: nat)
    requires IndexUnique(s) && t < |s.clients| && u < |s.clients|
    requires s.clients[u].row.Some? && s.clients[u].scope == s.clients[t].scope
    requires |s'.clients| == |s.clients| && s'.clients[u].row.None? && s'.clients[t].scope == s.clients[t].scope
    requires forall v :: 0 <= v < |s.clients| && v != u ==> s'.clients[v] == s.clients[v]
    ensures !HeldByOther(s', t)
  {
  }

  lemma HolderCanEnd(s: System, t: nat) returns (u: nat)
    requires RowsMatchPhases(s) && IndexUnique(s) && t < |s.clients| && s.clients[t].phase in {Blocked, RetryBlocked}
    requires Next(s, t, Wake(false)).None?
    ensures u < |s.clients| && u != t && Next(s, u, Rollback).Some?
    ensures Next(Next(s, u, Rollback).value, t, Wake(false)).Some?
    ensures s.clients[u].phase == Done ==>
              Next(s, u, Commit).Some? && Next(Next(s, u, Commit).value, t, Wake(false)).Some?
  {
    u :| u < |s.clients| && u != t && s.clients[u].row.Some? && s.clients[u].scope == s.clients[t].scope;
    assert RowMatchesPhase(s.clients[u]);
    LettingGoFrees(s, With(s, u, s.clients[u].(phase := RolledBack, row := None)), t, u);
    LettingGoFrees(s, Committing(s, u, s.clients[u].row.value), t, u);
  }

  /** A waiting client always waits on a transaction that is still open, can end, and on
      ending either way lets it through. */
  lemma BlockedMeansHolderCanEnd(requests: seq<(Scope, string)>, steps: seq<(nat, Action)>, t: nat) returns (u: nat)
    requires Runs(Start(requests), steps) && t < |Reached(requests, steps).clients|
    requires Reached(requests, steps).clients[t].phase in {Blocked, RetryBlocked}
    requires Next(Reached(requests, steps), t, Wake(false)).None?
    ensures var s := Reached(requests, steps);
      && u < |s.clients| && u != t && Next(s, u, Rollback).Some?
      && Next(Next(s, u, Rollback).value, t, Wake(false)).Some?
      && (s.clients[u].phase == Done ==>
           Next(s, u, Commit).Some? && Next(Next(s, u, Commit).value, t, Wake(false)).Some?)
  {
    ReachedKeepsInv(requests, steps);
    u := HolderCanEnd(Reached(requests, steps), t);
  }

  /** A first claim of a key works, can complete with any answer, and can then commit it. */
  lemma FreshKeyCommits(s: System, t: nat, response: string, status: int)
    requires t < |s.clients| && s.clients[t].phase == Ready && s.clients[t].scope !in s.table
    requires forall u :: 0 <= u < |s.clients| && u != t ==>
               s.clients[u].row.None? || s.clients[u].scope != s.clients[t].scope
    ensures Runs(s, [(t, Insert), (t, Complete(response, status)), (t, Commit)])
    ensures var end := After(s, [(t, Insert), (t, Complete(response, status)), (t, Commit)]);
      && |end.clients| == |s.clients| && end.clients[t].phase == Committed
      && end.table == s.table[s.clients[t].scope := KeyRow(s.clients[t].hash, Completed, response, status)]
      && end.work == s.work + [Work(s.clients[t].scope, t, s.clients[t].hash, response, status)]
  {
    var one := Next(s, t, Insert).value;
    var two := Next(one, t, Complete(response, status)).value;
    var three := Next(two, t, Commit).value;
    var none: seq<(nat, Action)> := [];
    var last, rest := [(t, Commit)], [(t, Complete(response, status)), (t, Commit)];
    assert last[1..] == none && rest[1..] == last;
    assert [(t, Insert), (t, Complete(response, status)), (t, Commit)][1..] == rest;
    assert After(three, none) == three && After(two, last) == three && After(one, rest) == three;
    assert Runs(three, none) && Runs(two, last) && Runs(one, rest);
  }

  /** A rollback takes the key with it: the next claim of the key works. */
  lemma RollbackFreesKey(requests: seq<(Scope, string)>, steps: seq<(nat, Action)>, t: nat, u: nat)
    requires Runs(Start(requests), steps)
    requires var s := Reached(requests, steps);
      t < |s.clients| && u < |s.clients| && t != u && s.clients[t].row.Some? &&
      s.clients[u].phase == Ready && s.clients[u].scope == s.clients[t].scope
    ensures Next(Reached(requests, steps), t, Rollback).Some?
    ensures var s := Next(Reached(requests, steps), t, Rollback).value;
      Next(s, u, Insert).Some? && Next(s, u, Insert).value.clients[u].phase == Working
  {
    ReachedKeepsInv(requests, steps);
    var s := Next(Reached(requests, steps), t, Rollback).value;
    assert !HeldByOther(s, u);
  }
}
