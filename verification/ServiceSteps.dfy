/** The steps of the kitchen service, the fulfillment service, the workers and the administration
    keep the item facts. */
module ServiceSteps {
  import opened Common
  import opened Idempotency
  import opened Protocol
  import opened Invariant
  import F = Fulfillment
  import K = Kds
  import D = Dispatcher

  /** The facts about both databases and about every item. */
  ghost predicate Base(s: Sys) {
    F.ValidDb(s.f) && F.ReadyOnlyWhenDone(s.f) && K.Valid(s.k, s.peak) && ItemsOk(s)
  }

  lemma StutterKeeps(s: Sys)
    ensures Grows(s, s) && F.DbStep(s.f, s.f) && K.DbStep(s.k, s.k)
  {
  }

  // ----- administration -----

  lemma AdminKeeps(s: Sys, ev: Event)
    requires Base(s) && IsAdmin(ev)
    ensures Base(AdminStep(s, ev)) && Grows(s, AdminStep(s, ev))
    ensures K.KeepsLimits(s.k, AdminStep(s, ev).k)
  {
    hide ItemsOk, F.ValidDb, F.ReadyOnlyWhenDone, F.DbStep, K.DbStep, K.Valid, K.RaisePeak, K.Fits;
    var s' := AdminStep(s, ev);
    StutterKeeps(s);
    if s' != s {
      if ev.id in s.k.stations { K.CapacityWithinPeak(s.k, s.peak, ev.id); }
      K.StationFacts(s.k, s.peak, ev.id, s'.k.stations[ev.id]);
      MissedFact(s);
      Carry(s, s');
    }
  }

  // ----- the fulfillment service -----

  /** A transaction on one task, and its replies, owe the item facts for that task and those replies. */
  lemma CarryTask(s: Sys, id: TaskId, out: F.Outcome, replies: set<Response>)
    requires ItemsOk(s) && F.Moves(s.f, id, out)
    requires id in s.f.tasks && out.db.tasks[id] != s.f.tasks[id] ==> TaskOk(s.(f := out.db), id)
    requires forall x | x in replies :: ResponseOk(s.(f := out.db), x)
    ensures var s' := s.(f := out.db, responses := s.responses + replies); ItemsOk(s') && Grows(s, s')
  {
    hide ItemsOk, F.DbStep, K.DbStep;
    var s' := s.(f := out.db, responses := s.responses + replies);
    StutterKeeps(s);
    MissedFact(s);
    forall x | x in replies ensures ResponseOk(s', x) { assert ResponseOk(s.(f := out.db), x); }
    forall t | t in s'.f.tasks && s'.f.tasks[t] != s.f.tasks[t] ensures TaskOk(s', t) { assert t == id; }
    Carry(s, s');
  }

  lemma HandleMarkKeeps(s: Sys, r: Request)
    requires Base(s)
    ensures var s' := FulfillmentStep(s, HandleMark(r));
            Base(s') && Grows(s, s') && (F.DoneMeansReady(s.f) ==> F.DoneMeansReady(s'.f))
  {
    hide ItemsOk, F.ValidDb, F.DoneMeansReady, F.ReadyOnlyWhenDone, F.MarkDisplayed, F.DbStep, K.DbStep, K.Valid;
    StutterKeeps(s);
    if r in s.requests && r.MarkReq? {
      RequestFact(s, r);
      if r.shown.None? {
        CarryTask(s, r.task, F.Outcome(s.f, None), {MarkRsp(r.entry, D.MarkFailed)});
      } else {
        var req := F.MarkDisplayedRequest(r.station, r.shown.value, r.at);
        F.MarkDisplayedFacts(s.f, r.task, req);
        var out := F.MarkDisplayed(s.f, r.task, req);
        CarryTask(s, r.task, out, {MarkRsp(r.entry, MarkAnswerOf(out.error))});
      }
    }
  }

  lemma HandleFailedKeeps(s: Sys, r: Request)
    requires Base(s)
    ensures var s' := FulfillmentStep(s, HandleFailed(r));
            Base(s') && Grows(s, s') && (F.DoneMeansReady(s.f) ==> F.DoneMeansReady(s'.f))
  {
    hide ItemsOk, F.ValidDb, F.DoneMeansReady, F.ReadyOnlyWhenDone, F.DispatchFailed, F.DbStep, K.DbStep, K.Valid;
    StutterKeeps(s);
    if r in s.requests && r.FailedReq? {
      F.DispatchFailedFacts(s.f, r.task, Some(r.attempts));
      var out := F.DispatchFailed(s.f, r.task, Some(r.attempts));
      CarryTask(s, r.task, out, {});
      assert s.responses + {} == s.responses;
    }
  }

  lemma HandleStartKeeps(s: Sys, r: Request)
    requires Base(s)
    ensures var s' := FulfillmentStep(s, HandleStart(r));
            Base(s') && Grows(s, s') && (F.DoneMeansReady(s.f) ==> F.DoneMeansReady(s'.f))
  {
    hide ItemsOk, F.ValidDb, F.DoneMeansReady, F.ReadyOnlyWhenDone, F.StartTask, F.DbStep, K.DbStep, K.Valid;
    StutterKeeps(s);
    if r in s.requests && r.StartReq? {
      RequestFact(s, r);
      ClaimFact(s, r.claim);
      var req := F.StartRequest(r.station, r.row, r.at);
      F.StartTaskFacts(s.f, r.task, req);
      var out := F.StartTask(s.f, r.task, req);
      CarryTask(s, r.task, out, {StartRsp(r.claim, out.error.None?)});
    }
  }

  lemma HandleCompleteKeeps(s: Sys, r: Request, unseen: set<TaskId>)
    requires Base(s)
    ensures var s' := FulfillmentStep(s, HandleComplete(r, unseen));
            Base(s') && Grows(s, s') && (unseen == {} && F.DoneMeansReady(s.f) ==> F.DoneMeansReady(s'.f))
  {
    hide ItemsOk, F.ValidDb, F.DoneMeansReady, F.ReadyOnlyWhenDone, F.CompleteTask, F.DbStep, K.DbStep, K.Valid;
    StutterKeeps(s);
    if r in s.requests && r.CompleteReq? && r.task !in unseen {
      RequestFact(s, r);
      var req := F.CompleteRequest(r.station, r.row, r.at);
      F.CompleteTaskFacts(s.f, r.task, req, unseen);
      var out := F.CompleteTask(s.f, r.task, req, unseen);
      if out.db != s.f { CompletedTaskOk(s, r.task, out); }
      CarryTask(s, r.task, out, {CompleteRsp(r.completion, out.error.None?)});
    }
  }

  lemma CompletedTaskOk(s: Sys, t: TaskId, out: F.Outcome)
    requires ItemsOk(s) && F.ValidDb(s.f) && F.Moves(s.f, t, out)
    requires t in s.f.tasks && s.f.tasks[t].status == F.InProgress
    ensures TaskOk(s.(f := out.db), t)
  {
    hide ItemsOk;
    TaskFact(s, t);
    assert F.TaskStep(s.f.tasks[t], out.db.tasks[t]);
  }

  // ----- the kitchen service -----

  lemma LookupKeeps(s: Sys, r: Request)
    requires Base(s)
    ensures var s' := KitchenStep(s, LookupDelivery(r)); Base(s') && Grows(s, s')
  {
    hide ItemsOk, F.ValidDb, F.ReadyOnlyWhenDone, F.DbStep, K.DbStep, K.RowShape, K.SlotsConserved, K.WithinPeak;
    StutterKeeps(s);
    if r in s.requests && r.DeliverReq? {
      RequestFact(s, r);
      MissedFact(s);
      K.SameLookup(s.k, r.delivery.task);
      Carry(s, KitchenStep(s, LookupDelivery(r)));
    }
  }

  /** A delivery appends at most one row, of a cleared task, and answers with the task's row. */
  lemma CarryDelivery(s: Sys, s': Sys, r: Request)
    requires ItemsOk(s) && r in s.requests && r.DeliverReq? && K.DbStep(s.k, s'.k)
    requires s' == s.(k := s'.k, responses := s'.responses)
    requires s'.k.rows == s.k.rows || s'.k.rows == s.k.rows + [K.NewRow(r.station, r.delivery)]
    requires s.responses <= s'.responses
    requires forall x | x in s'.responses && x !in s.responses ::
               x.DeliverRsp? && x.entry == r.entry
               && (x.deliver.DeliveredAs? ==> IsRowOf(s', x.deliver.kdsTask, r.delivery.task))
    ensures ItemsOk(s') && Grows(s, s')
  {
    hide ItemsOk, F.DbStep, K.DbStep, Cleared;
    StutterKeeps(s);
    MissedFact(s);
    DeliveryFact(s, r);
    ClearedStays(s, s', r.delivery.task);
    Carry(s, s');
  }

  lemma InsertKeeps(s: Sys, r: Request)
    requires Base(s)
    ensures var s' := KitchenStep(s, InsertDelivery(r));
            Base(s') && Grows(s, s') && K.KeepsLimits(s.k, s'.k)
  {
    hide ItemsOk, F.ValidDb, F.ReadyOnlyWhenDone, F.DbStep, K.DbStep, K.Valid, K.Fits, Grows,
         K.DeliverTask, K.DeliveryRefusal;
    StutterKeeps(s);
    MissedFact(s);
    if r in s.missed && r.DeliverReq? {
      DeliveryFact(s, r);
      K.DeliverFacts(s.k, s.peak, r.station, r.delivery);
      CarryDelivery(s, KitchenStep(s, InsertDelivery(r)), r);
    }
  }

  /** A transaction that moves one row, with at most one claim, one completion and one request
      beside it, owes the item facts for those alone. */
  lemma CarryRow(s: Sys, s': Sys, k: KdsId)
    requires ItemsOk(s) && Grows(s, s')
    requires s' == s.(k := s'.k, claims := s'.claims, completions := s'.completions, requests := s'.requests)
    requires k < |s.k.rows| == |s'.k.rows| && s'.k.rows == s.k.rows[k := s'.k.rows[k]]
    requires s'.k.rows[k].status == K.Completed ==> DoneTask(s, s.k.rows[k].req.task)
    requires forall r | r in s'.requests && r !in s.requests :: RequestOk(s', r)
    requires forall i | 0 <= i < |s'.claims| && (i >= |s.claims| || s'.claims[i] != s.claims[i]) ::
             ClaimOk(s', s'.claims[i])
    requires forall i | 0 <= i < |s'.completions| && (i >= |s.completions| || s'.completions[i] != s.completions[i]) ::
                CompletionOk(s', s'.completions[i])
    ensures ItemsOk(s')
  {
    hide ItemsOk, F.DbStep, RequestOk, ClaimOk, CompletionOk, Cleared;
    MissedFact(s);
    RowFact(s, k);
    RowOkStays(s, s', s.k.rows[k]);
    assert s'.k.rows[k].req == s.k.rows[k].req;
    Carry(s, s');
  }

  lemma ClaimKeeps(s: Sys, station: StationId, task: TaskId, worker: WorkerId, at: Time)
    requires Base(s)
    ensures var s' := KitchenStep(s, ClaimTask(station, task, worker, at));
            Base(s') && Grows(s, s') && K.KeepsLimits(s.k, s'.k)
  {
    hide ItemsOk, F.ValidDb, F.ReadyOnlyWhenDone, F.DbStep, K.DbStep, K.Valid, K.Fits;
    StutterKeeps(s);
    if K.ClaimRefusal(s.k, station, task).None? {
      K.ClaimFacts(s.k, s.peak, station, task, worker, at);
      CarryRow(s, KitchenStep(s, ClaimTask(station, task, worker, at)), K.FindTask(s.k.rows, task).value);
    }
  }

  lemma ClaimPhaseKeeps(s: Sys, c: nat, phase: ClaimPhase)
    requires Base(s) && c < |s.claims| && (phase == Started ==> StartedTask(s, s.claims[c].task))
    ensures var s' := s.(claims := s.claims[c := s.claims[c].(phase := phase)]); Base(s') && Grows(s, s')
  {
    hide ItemsOk, F.ValidDb, F.ReadyOnlyWhenDone, F.DbStep, K.DbStep, K.Valid;
    StutterKeeps(s);
    ClaimFact(s, c);
    MissedFact(s);
    Carry(s, s.(claims := s.claims[c := s.claims[c].(phase := phase)]));
  }

  lemma CompensateKeeps(s: Sys, c: nat)
    requires Base(s)
    ensures var s' := KitchenStep(s, Compensate(c)); Base(s') && Grows(s, s')
  {
    hide ItemsOk, F.ValidDb, F.ReadyOnlyWhenDone, F.DbStep, K.DbStep, K.Valid;
    StutterKeeps(s);
    if c < |s.claims| && s.claims[c].phase == StartFailed {
      var h := s.claims[c];
      if K.CompensateClaim(s.k, h.task, h.worker) == s.k {
        ClaimPhaseKeeps(s, c, Withdrawn);
      } else {
        K.CompensateFacts(s.k, s.peak, h.task, h.worker);
        ClaimFact(s, c);
        CarryRow(s, KitchenStep(s, Compensate(c)), K.FindTask(s.k.rows, h.task).value);
      }
    }
  }

  lemma CompleteKeeps(s: Sys, station: StationId, task: TaskId, worker: WorkerId, at: Time)
    requires Base(s)
    ensures var s' := KitchenStep(s, CompleteTask(station, task, worker, at)); Base(s') && Grows(s, s')
  {
    hide ItemsOk, F.ValidDb, F.ReadyOnlyWhenDone, F.DbStep, K.DbStep, K.Valid;
    StutterKeeps(s);
    MissedFact(s);
    if K.CompleteRefusal(s.k, station, task, worker).None? {
      Carry(s, KitchenStep(s, CompleteTask(station, task, worker, at)));
    }
  }

  lemma CompletionPhaseKeeps(s: Sys, d: nat, phase: CompletionPhase)
    requires Base(s) && d < |s.completions|
    requires phase in {Accepted, Finished} ==> DoneTask(s, s.completions[d].task)
    ensures var s' := s.(completions := s.completions[d := s.completions[d].(phase := phase)]); Base(s') && Grows(s, s')
  {
    hide ItemsOk, F.ValidDb, F.ReadyOnlyWhenDone, F.DbStep, K.DbStep, K.Valid;
    StutterKeeps(s);
    CompletionFact(s, d);
    MissedFact(s);
    Carry(s, s.(completions := s.completions[d := s.completions[d].(phase := phase)]));
  }

  lemma FinishedRowKeeps(s: Sys, d: nat)
    requires Base(s) && d < |s.completions| && DoneTask(s, s.completions[d].task)
    requires var h := s.completions[d]; K.CompleteRefusal(s.k, h.station, h.task, h.worker).None?
    ensures var h := s.completions[d];
            var s' := s.(k := K.FinishComplete(s.k, h.station, h.task, h.at),
                         completions := s.completions[d := h.(phase := Finished)]);
            Base(s') && Grows(s, s') && K.KeepsLimits(s.k, s'.k)
  {
    hide ItemsOk, F.ValidDb, F.ReadyOnlyWhenDone, F.DbStep, K.DbStep, K.Valid, K.Fits,
         RequestOk, ClaimOk, Cleared;
    StutterKeeps(s);
    CompletionFact(s, d);
    var h := s.completions[d];
    K.FinishFacts(s.k, s.peak, h.station, h.task, h.worker, h.at);
    var s' := s.(k := K.FinishComplete(s.k, h.station, h.task, h.at),
      completions := s.completions[d := h.(phase := Finished)]);
    CarryRow(s, s', K.FindTask(s.k.rows, h.task).value);
  }

  lemma FinishKeeps(s: Sys, d: nat)
    requires Base(s)
    ensures var s' := KitchenStep(s, FinishCompletion(d));
            Base(s') && Grows(s, s') && K.KeepsLimits(s.k, s'.k)
  {
    hide ItemsOk, F.ValidDb, F.ReadyOnlyWhenDone, F.DbStep, K.DbStep, K.Valid, K.Fits, K.FinishComplete, Grows;
    StutterKeeps(s);
    if d < |s.completions| && s.completions[d].phase == Accepted {
      var h := s.completions[d];
      CompletionFact(s, d);
      if K.CompleteRefusal(s.k, h.station, h.task, h.worker).None? {
        FinishedRowKeeps(s, d);
      } else {
        CompletionPhaseKeeps(s, d, Abandoned);
      }
    }
  }

  lemma KitchenKeeps(s: Sys, ev: Event)
    requires Base(s)
    ensures Base(KitchenStep(s, ev)) && Grows(s, KitchenStep(s, ev))
    ensures !ev.Compensate? ==> K.KeepsLimits(s.k, KitchenStep(s, ev).k)
  {
    hide Base, Grows, K.Fits;
    StutterKeeps(s);
    match ev
    case LookupDelivery(r) => LookupKeeps(s, r);
    case InsertDelivery(r) => InsertKeeps(s, r);
    case ClaimTask(station, task, worker, at) => ClaimKeeps(s, station, task, worker, at);
    case ReceiveStart(c, ok) =>
      if c < |s.claims| && StartRsp(c, ok) in s.responses {
        StartReplyFact(s, c, ok);
        ClaimPhaseKeeps(s, c, if ok then Started else StartFailed);
      }
    case LoseStart(c) => if c < |s.claims| { ClaimPhaseKeeps(s, c, StartFailed); }
    case Compensate(c) => CompensateKeeps(s, c);
    case CompleteTask(station, task, worker, at) => CompleteKeeps(s, station, task, worker, at);
    case ReceiveComplete(d, ok) =>
      if d < |s.completions| && CompleteRsp(d, ok) in s.responses {
        CompleteReplyFact(s, d, ok);
        CompletionPhaseKeeps(s, d, if ok then Accepted else Abandoned);
      }
    case LoseComplete(d) => if d < |s.completions| { CompletionPhaseKeeps(s, d, Abandoned); }
    case FinishCompletion(d) => FinishKeeps(s, d);
    case _ =>
  }

  lemma StartReplyFact(s: Sys, c: nat, ok: bool)
    requires Base(s) && c < |s.claims| && StartRsp(c, ok) in s.responses
    ensures ok ==> StartedTask(s, s.claims[c].task)
  {
  }

  lemma CompleteReplyFact(s: Sys, d: nat, ok: bool)
    requires Base(s) && d < |s.completions| && CompleteRsp(d, ok) in s.responses
    ensures ok ==> DoneTask(s, s.completions[d].task)
  {
  }

  // ----- the workers -----

  /** What must be known of a task for its worker to enter a phase. */
  ghost predicate MayEnter(s: Sys, t: TaskId, phase: D.Phase) {
    && (phase.AskCandidates? || phase.Deliver? || phase.Mark? ==> Cleared(s, t))
    && (phase.Mark? && phase.kdsTask.Some? ==> IsRowOf(s, phase.kdsTask.value, t))
    && (phase.Conclude? && !phase.verdict.NotNow? ==> Left(s, t))
  }

  lemma ProceedKeeps(config: D.Config, s: Sys, e: nat, phase: D.Phase, at: Time)
    requires Base(s) && e < |s.entries| && MayEnter(s, s.entries[e].task, phase)
    ensures Base(Proceed(config, s, e, phase, at)) && Grows(s, Proceed(config, s, e, phase, at))
  {
    hide ItemsOk, F.ValidDb, F.ReadyOnlyWhenDone, F.DbStep, K.DbStep, K.Valid;
    StutterKeeps(s);
    EntryFact(s, e);
    MissedFact(s);
    var s' := Proceed(config, s, e, phase, at);
    assert Cleared(s, s.entries[e].task) ==> Cleared(s', s.entries[e].task);
    Carry(s, s');
  }

  lemma WorkerKeeps(config: D.Config, s: Sys, ev: Event)
    requires Base(s)
    ensures Base(WorkerStep(config, s, ev)) && Grows(s, WorkerStep(config, s, ev))
  {
    hide Base, Grows, Proceed;
    StutterKeeps(s);
    match ev
    case Read(e) => if e < |s.entries| { ProceedKeeps(config, s, e, D.AskSnapshot, 0); }
    case AnswerSnapshot(e, answered) => SnapshotKeeps(config, s, e, answered);
    case AnswerReadiness(e, answered) => ReadinessKeeps(config, s, e, answered);
    case AnswerCandidates(e, answered, choice) => CandidatesKeeps(config, s, e, answered, choice);
    case ReceiveDeliver(e, answer, at) => DeliverReplyKeeps(config, s, e, answer, at);
    case ReceiveMark(e, answer) => MarkReplyKeeps(config, s, e, answer);
    case Wake(e) => WakeKeeps(config, s, e);
    case _ =>
  }

  lemma SnapshotKeeps(config: D.Config, s: Sys, e: nat, answered: bool)
    requires Base(s)
    ensures var s' := WorkerStep(config, s, AnswerSnapshot(e, answered)); Base(s') && Grows(s, s')
  {
    hide ItemsOk, Grows, Proceed, F.ValidDb, F.ReadyOnlyWhenDone, K.Valid, Cleared;
    StutterKeeps(s);
    if e < |s.entries| {
      EntryFact(s, e);
      var a := if answered then SnapshotOf(s.f, s.entries[e].task) else D.SnapshotFailed;
      ProceedKeeps(config, s, e, D.AfterSnapshot(a), 0);
    }
  }

  lemma ReadinessKeeps(config: D.Config, s: Sys, e: nat, answered: bool)
    requires Base(s)
    ensures var s' := WorkerStep(config, s, AnswerReadiness(e, answered)); Base(s') && Grows(s, s')
  {
    hide ItemsOk, Grows, Proceed, F.ValidDb, F.ReadyOnlyWhenDone, K.Valid, F.DepsDone, F.UnfinishedDependencies;
    StutterKeeps(s);
    if e < |s.entries| {
      var t := s.entries[e].task;
      EntryFact(s, e);
      F.ReadyMeansDepsDone(s.f, t);
      ProceedKeeps(config, s, e, D.AfterReadiness(if answered then ReadinessOf(s.f, t) else D.ReadinessFailed), 0);
    }
  }

  lemma CandidatesKeeps(config: D.Config, s: Sys, e: nat, answered: bool, choice: Option<StationId>)
    requires Base(s)
    ensures var s' := WorkerStep(config, s, AnswerCandidates(e, answered, choice)); Base(s') && Grows(s, s')
  {
    hide ItemsOk, Grows, Proceed, F.ValidDb, F.ReadyOnlyWhenDone, K.Valid, Cleared;
    StutterKeeps(s);
    if InPhase(s, e, D.AskCandidates) {
      EntryFact(s, e);
      ProceedKeeps(config, s, e, D.Conclude(D.NotNow(D.KitchenServiceUnavailable)), 0);
      ProceedKeeps(config, s, e, D.AfterCandidates(choice), 0);
    }
  }

  lemma DeliverReplyKeeps(config: D.Config, s: Sys, e: nat, answer: D.DeliverAnswer, at: Time)
    requires Base(s)
    ensures var s' := WorkerStep(config, s, ReceiveDeliver(e, answer, at)); Base(s') && Grows(s, s')
  {
    hide ItemsOk, Grows, Proceed, F.ValidDb, F.ReadyOnlyWhenDone, K.Valid, Cleared;
    StutterKeeps(s);
    if e < |s.entries| && s.entries[e].stage.Working? && s.entries[e].stage.phase.Deliver?
       && (answer == D.DeliverFailed || DeliverRsp(e, answer) in s.responses)
    {
      EntryFact(s, e);
      if answer != D.DeliverFailed { ResponseFact(s, DeliverRsp(e, answer)); }
      ProceedKeeps(config, s, e, D.AfterDeliver(s.entries[e].stage.phase.station, answer), at);
    }
  }

  lemma MarkReplyKeeps(config: D.Config, s: Sys, e: nat, answer: D.MarkAnswer)
    requires Base(s)
    ensures var s' := WorkerStep(config, s, ReceiveMark(e, answer)); Base(s') && Grows(s, s')
  {
    hide ItemsOk, Grows, Proceed, F.ValidDb, F.ReadyOnlyWhenDone, K.Valid, Cleared;
    StutterKeeps(s);
    if e < |s.entries| && s.entries[e].stage.Working? && s.entries[e].stage.phase.Mark?
       && (answer == D.MarkFailed || MarkRsp(e, answer) in s.responses)
    {
      if answer != D.MarkFailed { ResponseFact(s, MarkRsp(e, answer)); }
      ProceedKeeps(config, s, e, D.AfterMark(answer), 0);
    }
  }

  lemma WakeKeeps(config: D.Config, s: Sys, e: nat)
    requires Base(s)
    ensures var s' := WorkerStep(config, s, Wake(e)); Base(s') && Grows(s, s')
  {
    hide ItemsOk, F.ValidDb, F.ReadyOnlyWhenDone, F.DbStep, K.DbStep, K.Valid;
    StutterKeeps(s);
    MissedFact(s);
    if e < |s.entries| && s.entries[e].stage.Sleeping? {
      EntryFact(s, e);
      Carry(s, WorkerStep(config, s, Wake(e)));
    }
  }
}
