/**
 What holds in every reachable state, item by item: of each stream entry, each
 handler, each message on the network, each KDS row and each task. Most facts, once
 true, stay true while the state grows; a step then only owes them for the items it
 adds or changes.
 */
module Invariant {
  import opened Common
  import opened Idempotency
  import opened Protocol
  import F = Fulfillment
  import K = Kds
  import D = Dispatcher

  // ----- facts that stay true -----

  /** The task has been queued and everything it depends on is done. */
  ghost predicate Cleared(s: Sys, t: TaskId) {
    t in s.f.tasks && s.f.tasks[t].status != F.Created && F.DepsDone(s.f, t)
  }

  /** The task is past dispatching: displayed or further on, or given up. */
  predicate Left(s: Sys, t: TaskId) {
    t in s.f.tasks && D.IsTerminal(s.f.tasks[t].status)
  }

  predicate IsRowOf(s: Sys, k: KdsId, t: TaskId) {
    k < |s.k.rows| && s.k.rows[k].req.task == t
  }

  predicate DoneTask(s: Sys, t: TaskId) {
    t in s.f.tasks && s.f.tasks[t].status == F.Done
  }

  predicate StartedTask(s: Sys, t: TaskId) {
    t in s.f.tasks && s.f.tasks[t].status in {F.InProgress, F.Done}
  }

  // ----- items -----

  ghost predicate EntryOk(s: Sys, e: Entry) {
    && e.task in s.f.tasks
    && (e.stage.Working? && (e.stage.phase.AskCandidates? || e.stage.phase.Deliver? || e.stage.phase.Mark?) ==>
          Cleared(s, e.task))
    && (e.stage.Working? && e.stage.phase.Mark? && e.stage.phase.kdsTask.Some? ==>
          IsRowOf(s, e.stage.phase.kdsTask.value, e.task))
    && (e.stage in {Closed(Dispatched), Closed(Stale)} ==> Left(s, e.task))
  }

  ghost predicate RequestOk(s: Sys, r: Request) {
    match r
    case DeliverReq(e, _, req) =>
      && e < |s.entries| && s.entries[e].task == req.task && Cleared(s, req.task)
      && req.key == KDSIdempotencyKey(req.task)
    case MarkReq(e, t, _, shown, _) =>
      && e < |s.entries| && s.entries[e].task == t && Cleared(s, t)
      && (shown.Some? ==> IsRowOf(s, shown.value, t))
    case FailedReq(t, _) => t in s.f.tasks
    case StartReq(c, t, station, row, at) =>
      && c < |s.claims| && s.claims[c].task == t && s.claims[c].station == station && s.claims[c].row == row
    case CompleteReq(d, t, station, row, at) =>
      && d < |s.completions| && s.completions[d].task == t && s.completions[d].station == station
      && s.completions[d].row == row
  }

  ghost predicate ResponseOk(s: Sys, x: Response) {
    match x
    case DeliverRsp(e, answer) =>
      e < |s.entries| && (answer.DeliveredAs? ==> IsRowOf(s, answer.kdsTask, s.entries[e].task))
    case MarkRsp(e, answer) => e < |s.entries| && (answer != D.MarkFailed ==> Left(s, s.entries[e].task))
    case StartRsp(c, ok) => c < |s.claims| && (ok ==> StartedTask(s, s.claims[c].task))
    case CompleteRsp(d, ok) => d < |s.completions| && (ok ==> DoneTask(s, s.completions[d].task))
  }

  ghost predicate ClaimOk(s: Sys, c: Claim) {
    && IsRowOf(s, c.row, c.task) && s.k.rows[c.row].station == c.station
    && (c.phase == Started ==> StartedTask(s, c.task))
  }

  ghost predicate CompletionOk(s: Sys, d: Completion) {
    && IsRowOf(s, d.row, d.task) && s.k.rows[d.row].station == d.station
    && (d.phase in {Accepted, Finished} ==> DoneTask(s, d.task))
  }

  /** A row on a screen belongs to a cleared task, and a completed row to a done one. */
  ghost predicate RowOk(s: Sys, row: K.Row) {
    && Cleared(s, row.req.task)
    && (row.status == K.Completed ==> DoneTask(s, row.req.task))
  }

  /** A placed task points at its own row; once started it names that row's station. */
  ghost predicate TaskOk(s: Sys, t: TaskId)
    requires t in s.f.tasks
  {
    var task := s.f.tasks[t];
    F.Placed?(task.status) ==>
      && task.kdsTask.Some? && IsRowOf(s, task.kdsTask.value, t)
      && (task.status in {F.InProgress, F.Done} ==> task.station == Some(s.k.rows[task.kdsTask.value].station))
  }

  ghost predicate ItemsOk(s: Sys) {
    && (forall i | 0 <= i < |s.entries| :: EntryOk(s, s.entries[i]))
    && (forall r | r in s.requests :: RequestOk(s, r))
    && s.missed <= s.requests
    && (forall x | x in s.responses :: ResponseOk(s, x))
    && (forall i | 0 <= i < |s.claims| :: ClaimOk(s, s.claims[i]))
    && (forall i | 0 <= i < |s.completions| :: CompletionOk(s, s.completions[i]))
    && (forall i | 0 <= i < |s.k.rows| :: RowOk(s, s.k.rows[i]))
    && (forall t | t in s.f.tasks :: TaskOk(s, t))
  }

  // One conjunct of the item facts each, so that a proof can name the item it is about.

  lemma EntryFact(s: Sys, e: nat)
    requires ItemsOk(s) && e < |s.entries|
    ensures EntryOk(s, s.entries[e])
  {
  }

  lemma RequestFact(s: Sys, r: Request)
    requires ItemsOk(s) && r in s.requests
    ensures RequestOk(s, r)
  {
  }

  lemma DeliveryFact(s: Sys, r: Request)
    requires ItemsOk(s) && r in s.requests && r.DeliverReq?
    ensures r.entry < |s.entries| && s.entries[r.entry].task == r.delivery.task && Cleared(s, r.delivery.task)
    ensures r.delivery.key == KDSIdempotencyKey(r.delivery.task)
  {
  }

  lemma MissedFact(s: Sys)
    requires ItemsOk(s)
    ensures s.missed <= s.requests
  {
  }

  lemma ResponseFact(s: Sys, x: Response)
    requires ItemsOk(s) && x in s.responses
    ensures ResponseOk(s, x)
  {
  }

  lemma ClaimFact(s: Sys, c: nat)
    requires ItemsOk(s) && c < |s.claims|
    ensures ClaimOk(s, s.claims[c])
  {
  }

  lemma CompletionFact(s: Sys, d: nat)
    requires ItemsOk(s) && d < |s.completions|
    ensures CompletionOk(s, s.completions[d])
  {
  }

  lemma RowFact(s: Sys, k: KdsId)
    requires ItemsOk(s) && k < |s.k.rows|
    ensures RowOk(s, s.k.rows[k])
  {
  }

  lemma TaskFact(s: Sys, t: TaskId)
    requires ItemsOk(s) && t in s.f.tasks
    ensures TaskOk(s, t)
  {
  }

  // ----- growth -----

  predicate SameEntry(a: Entry, b: Entry) {
    b.task == a.task && b.root == a.root && b.attempt == a.attempt && b.slept == a.slept
  }

  predicate SameClaim(a: Claim, b: Claim) { b == a.(phase := b.phase) }

  predicate SameCompletion(a: Completion, b: Completion) { b == a.(phase := b.phase) }

  /** Nothing recorded is ever lost, and what is recorded about an item's identity never changes. */
  ghost predicate Grows(s: Sys, s': Sys) {
    && F.DbStep(s.f, s'.f) && K.DbStep(s.k, s'.k)
    && |s.entries| <= |s'.entries| && (forall i | 0 <= i < |s.entries| :: SameEntry(s.entries[i], s'.entries[i]))
    && |s.claims| <= |s'.claims| && (forall i | 0 <= i < |s.claims| :: SameClaim(s.claims[i], s'.claims[i]))
    && |s.completions| <= |s'.completions|
    && (forall i | 0 <= i < |s.completions| :: SameCompletion(s.completions[i], s'.completions[i]))
    && s.requests <= s'.requests && s.responses <= s'.responses
  }

  lemma ClearedStays(s: Sys, s': Sys, t: TaskId)
    requires F.DbStep(s.f, s'.f) && Cleared(s, t)
    ensures Cleared(s', t)
  {
  }

  lemma DoneStays(s: Sys, s': Sys, t: TaskId)
    requires F.DbStep(s.f, s'.f)
    ensures DoneTask(s, t) ==> DoneTask(s', t)
    ensures StartedTask(s, t) ==> StartedTask(s', t)
    ensures Left(s, t) ==> Left(s', t)
  {
  }

  lemma EntryStays(s: Sys, s': Sys, e: Entry)
    requires Grows(s, s') && EntryOk(s, e)
    ensures EntryOk(s', e)
  {
  }

  lemma RequestStays(s: Sys, s': Sys, r: Request)
    requires Grows(s, s') && RequestOk(s, r)
    ensures RequestOk(s', r)
  {
    if r.DeliverReq? {
      ClearedStays(s, s', r.delivery.task);
      assert SameEntry(s.entries[r.entry], s'.entries[r.entry]);
    } else if r.MarkReq? {
      ClearedStays(s, s', r.task);
      assert SameEntry(s.entries[r.entry], s'.entries[r.entry]);
    } else if r.StartReq? {
      assert SameClaim(s.claims[r.claim], s'.claims[r.claim]);
    } else if r.CompleteReq? {
      assert SameCompletion(s.completions[r.completion], s'.completions[r.completion]);
    }
  }

  lemma ResponseStays(s: Sys, s': Sys, x: Response)
    requires Grows(s, s') && ResponseOk(s, x)
    ensures ResponseOk(s', x)
  {
    match x
    case DeliverRsp(e, answer) => assert SameEntry(s.entries[e], s'.entries[e]);
    case MarkRsp(e, answer) =>
      assert SameEntry(s.entries[e], s'.entries[e]);
      DoneStays(s, s', s.entries[e].task);
    case StartRsp(c, ok) =>
      assert SameClaim(s.claims[c], s'.claims[c]);
      DoneStays(s, s', s.claims[c].task);
    case CompleteRsp(d, ok) =>
      assert SameCompletion(s.completions[d], s'.completions[d]);
      DoneStays(s, s', s.completions[d].task);
  }

  lemma HandlersStay(s: Sys, s': Sys, c: Claim, d: Completion)
    requires Grows(s, s')
    ensures ClaimOk(s, c) ==> ClaimOk(s', c)
    ensures CompletionOk(s, d) ==> CompletionOk(s', d)
  {
    DoneStays(s, s', c.task);
    DoneStays(s, s', d.task);
  }

  lemma RowOkStays(s: Sys, s': Sys, row: K.Row)
    requires Grows(s, s') && RowOk(s, row)
    ensures RowOk(s', row)
  {
    ClearedStays(s, s', row.req.task);
    DoneStays(s, s', row.req.task);
  }

  lemma TaskOkStays(s: Sys, s': Sys, t: TaskId)
    requires Grows(s, s') && t in s.f.tasks && TaskOk(s, t) && s'.f.tasks[t] == s.f.tasks[t]
    ensures TaskOk(s', t)
  {
  }

  /** A step of the system that grows it owes the item facts only for what it adds or changes. */
  lemma Carry(s: Sys, s': Sys)
    requires ItemsOk(s) && Grows(s, s')
    requires forall i | 0 <= i < |s'.entries| && (i >= |s.entries| || s'.entries[i] != s.entries[i]) ::
                EntryOk(s', s'.entries[i])
    requires forall r | r in s'.requests && r !in s.requests :: RequestOk(s', r)
    requires s'.missed <= s'.requests
    requires forall x | x in s'.responses && x !in s.responses :: ResponseOk(s', x)
    requires forall i | 0 <= i < |s'.claims| && (i >= |s.claims| || s'.claims[i] != s.claims[i]) ::
             ClaimOk(s', s'.claims[i])
    requires forall i | 0 <= i < |s'.completions| && (i >= |s.completions| || s'.completions[i] != s.completions[i]) ::
                CompletionOk(s', s'.completions[i])
    requires forall i | 0 <= i < |s'.k.rows| && (i >= |s.k.rows| || s'.k.rows[i] != s.k.rows[i]) ::
             RowOk(s', s'.k.rows[i])
    requires forall t | t in s'.f.tasks && (t !in s.f.tasks || s'.f.tasks[t] != s.f.tasks[t]) :: TaskOk(s', t)
    ensures ItemsOk(s')
  {
    hide Cleared, EntryOk, RequestOk, ResponseOk, ClaimOk, CompletionOk, RowOk, TaskOk;
    forall i | 0 <= i < |s'.entries| ensures EntryOk(s', s'.entries[i]) {
      if i < |s.entries| && s'.entries[i] == s.entries[i] { EntryStays(s, s', s.entries[i]); }
    }
    forall r | r in s'.requests ensures RequestOk(s', r) {
      if r in s.requests { RequestStays(s, s', r); }
    }
    forall x | x in s'.responses ensures ResponseOk(s', x) {
      if x in s.responses { ResponseStays(s, s', x); }
    }
    forall i | 0 <= i < |s'.claims| ensures ClaimOk(s', s'.claims[i]) {
      if i < |s.claims| && s'.claims[i] == s.claims[i] {
        HandlersStay(s, s', s.claims[i], Completion("", "", "", 0, 0, Abandoned));
      }
    }
    forall i | 0 <= i < |s'.completions| ensures CompletionOk(s', s'.completions[i]) {
      if i < |s.completions| && s'.completions[i] == s.completions[i] {
        HandlersStay(s, s', Claim("", "", "", 0, 0, Withdrawn), s.completions[i]);
      }
    }
    forall i | 0 <= i < |s'.k.rows| ensures RowOk(s', s'.k.rows[i]) {
      if i < |s.k.rows| && s'.k.rows[i] == s.k.rows[i] { RowOkStays(s, s', s.k.rows[i]); }
    }
    forall t | t in s'.f.tasks ensures TaskOk(s', t) {
      if t in s.f.tasks && s'.f.tasks[t] == s.f.tasks[t] { TaskOkStays(s, s', t); }
    }
  }
}
