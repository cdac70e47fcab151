/** Retries end: every message is handled a bounded number of times and meets exactly one fate. */
module Retries {
  import opened Common
  import opened Protocol
  import opened Lineage
  import opened Executions
  import F = Fulfillment
  import D = Dispatcher
  import BO = Backoff
  import Candidates

  // ----- one message on its own -----

  /** The delays of the configuration are within the range the delay loop is exact for. */
  ghost predicate ValidConfig(config: D.Config) {
    && 0 <= config.backoffBase && 0 <= config.backoffMax && BO.Int64(config.backoffMax)
    && BO.NeverOverflows(config.backoffBase, config.backoffMax)
  }

  /** How often a message was handled, how long it slept in between, and how it ended. */
  datatype Life = Life(handlings: nat, slept: int, end: D.Disposal)

  /** The life of a message first read at some attempt, when its n-th handling comes to verdicts(n). */
  function LifeOf(config: D.Config, attempt: int, verdicts: nat -> D.Verdict, n: nat): Life
    decreases config.maxAttempts - attempt
  {
    match D.Dispose(config, attempt, verdicts(n))
    case RetryLater(next, delay) =>
      var rest := LifeOf(config, next, verdicts, n + 1);
      Life(rest.handlings + 1, rest.slept + delay, rest.end)
    case end => Life(1, 0, end)
  }

  /** However the services answer, the message is handled at most max(1, maxAttempts - attempt + 1)
      times and sleeps at most one maximal delay between two handlings; it is dead-lettered exactly
      when it used up all its attempts and the last one failed too, and absorbed otherwise. */
  lemma {:induction false} LifeIsBounded(config: D.Config, attempt: int, verdicts: nat -> D.Verdict, n: nat)
    ensures var life := LifeOf(config, attempt, verdicts, n);
            var most := Max(1, config.maxAttempts - attempt + 1);
            && 1 <= life.handlings <= most
            && (ValidConfig(config) ==> 0 <= life.slept <= (life.handlings - 1) * config.backoffMax)
            && (life.end.DeadLettered? <==> life.handlings == most && verdicts(n + most - 1).NotNow?)
            && (life.end == D.Absorbed <==> !life.end.DeadLettered?)
    decreases config.maxAttempts - attempt
  {
    hide D.Dispose;
    DisposalFacts(config, attempt, verdicts(n));
    var d := D.Dispose(config, attempt, verdicts(n));
    if d.RetryLater? {
      LifeIsBounded(config, attempt + 1, verdicts, n + 1);
      var rest := LifeOf(config, attempt + 1, verdicts, n + 1);
      OneMoreSleep(rest.handlings, config.backoffMax);
    }
  }

  lemma OneMoreSleep(handlings: int, longest: int)
    ensures (handlings - 1) * longest + longest == handlings * longest
  {
  }

  lemma DisposalFacts(config: D.Config, attempt: int, verdict: D.Verdict)
    ensures var d := D.Dispose(config, attempt, verdict);
            && (d.Absorbed? <==> !verdict.NotNow?)
            && (d.DeadLettered? <==> verdict.NotNow? && attempt >= config.maxAttempts)
            && (d.DeadLettered? ==> d.reason == verdict.reason)
            && (d.RetryLater? ==> d.attempt == attempt + 1 <= config.maxAttempts)
            && (d.RetryLater? ==> d.delay == BO.Doubled(config.backoffBase, config.backoffMax, Max(0, attempt - 1)))
            && (d.RetryLater? && ValidConfig(config) ==> 0 <= d.delay <= config.backoffMax)
  {
    if ValidConfig(config) {
      BO.DoublingIsDelay(config.backoffBase, config.backoffMax, BO.Tries(attempt));
      BO.DelayGrows(attempt, config.backoffBase, config.backoffMax);
    }
  }

  // ----- messages among all the others -----

  lemma {:induction false} SomeCopy(entries: seq<Entry>, root: nat) returns (i: nat)
    requires Copies(entries, root) > 0
    ensures i < |entries| && entries[i].root == root
  {
    if entries[|entries| - 1].root == root {
      i := |entries| - 1;
    } else {
      i := SomeCopy(entries[..|entries| - 1], root);
    }
  }

  lemma CopiesAreBounded(config: D.Config, entries: seq<Entry>, root: nat)
    requires LineageOk(config, entries)
    ensures Copies(entries, root) <= MostAttempts(config)
  {
    if Copies(entries, root) > 0 {
      var i := SomeCopy(entries, root);
      assert EntryLineage(config, entries, i);
      var j: nat;
      if Live(entries[i]) { j := i; } else { j :| LiveCopy(entries, j, root); }
      assert EntryLineage(config, entries, j);
    }
  }

  /** Every message ever published has exactly one live copy: queued, in one worker's hands,
      sleeping, or disposed of; that copy is on the attempt that counts its copies. */
  lemma OneLiveCopy(config: D.Config, s: Sys, i: nat)
    requires Reachable(config, s) && i < |s.entries|
    ensures exists j: nat :: LiveCopy(s.entries, j, s.entries[i].root) && s.entries[j].task == s.entries[i].task
                             && s.entries[j].attempt == Copies(s.entries, s.entries[i].root)
    ensures forall j, k | LiveCopy(s.entries, j, s.entries[i].root) && LiveCopy(s.entries, k, s.entries[i].root) ::
            j == k
    ensures Copies(s.entries, s.entries[i].root) <= MostAttempts(config)
  {
    hide Leads, ServiceSteps.Base, Copies;
    ReachableOk(config, s);
    assert EntryLineage(config, s.entries, i);
    var j: nat;
    if Live(s.entries[i]) { j := i; } else { j :| LiveCopy(s.entries, j, s.entries[i].root); }
    assert EntryLineage(config, s.entries, j) && LiveCopy(s.entries, j, s.entries[i].root);
    CopiesAreBounded(config, s.entries, s.entries[i].root);
  }

  /** All the time a message has slept, the delay it is in included. */
  function SleptSoFar(e: Entry): int { e.slept + if e.stage.Sleeping? then e.stage.delay else 0 }

  /** One maximal delay at most before each attempt but the first. */
  ghost predicate SleepOk(config: D.Config, e: Entry) {
    && 0 <= e.slept <= (e.attempt - 1) * config.backoffMax
    && (e.stage.Sleeping? ==> e.stage.attempt == e.attempt + 1 && 0 <= e.stage.delay <= config.backoffMax)
  }

  ghost predicate AllSleepOk(config: D.Config, entries: seq<Entry>) {
    forall i | 0 <= i < |entries| :: SleepOk(config, entries[i])
  }

  lemma SleepStep(config: D.Config, s: Sys, ev: Event)
    requires ValidConfig(config) && AllSleepOk(config, s.entries)
    ensures AllSleepOk(config, Step(config, s, ev).entries)
  {
    hide AdminStep, OrderStep, WorkerStep, FulfillmentStep, KitchenStep;
    AdminFrame(s, ev);
    FulfillmentFrame(s, ev);
    KitchenFrame(s, ev);
    if IsOrder(ev) {
      var more := PublishedEntries(s, ev);
    } else if IsWorker(ev) && WorkerStep(config, s, ev) != s {
      WorkerSleeps(config, s, ev);
    }
  }

  lemma WorkerSleeps(config: D.Config, s: Sys, ev: Event)
    requires ValidConfig(config) && AllSleepOk(config, s.entries)
    requires WorkerStep(config, s, ev) != s
    ensures AllSleepOk(config, WorkerStep(config, s, ev).entries)
  {
    hide D.Dispose, Sends;
    if ev.Wake? {
      OneMoreSleep(s.entries[ev.entry].attempt, config.backoffMax);
    } else {
      var phase := StepPhase(config, s, ev);
      hide WorkerStep;
      if phase.Conclude? { DisposalFacts(config, s.entries[ev.entry].attempt, phase.verdict); }
    }
  }

  lemma {:induction false} SleepRun(config: D.Config, events: seq<Event>)
    requires ValidConfig(config)
    ensures AllSleepOk(config, Run(config, INIT, events).entries)
  {
    hide SleepOk, Step;
    if events != [] {
      var n := |events| - 1;
      SleepRun(config, events[..n]);
      SleepStep(config, Run(config, INIT, events[..n]), events[n]);
    }
  }

  /** Within the limits of the delay loop a message never sleeps longer, over all its copies, than a
      maximal delay before each attempt but the first. */
  lemma SleepIsBounded(config: D.Config, s: Sys, i: nat)
    requires ValidConfig(config) && Reachable(config, s) && i < |s.entries|
    ensures 0 <= SleptSoFar(s.entries[i]) <= (MostAttempts(config) - 1) * config.backoffMax
  {
    hide Run, Leads, ServiceSteps.Base, Copies;
    ReachableOk(config, s);
    var events := LeadsRuns(config, INIT, s);
    SleepRun(config, events);
    var e := s.entries[i];
    assert EntryLineage(config, s.entries, i) && SleepOk(config, e);
    if e.stage.Sleeping? {
      OneMoreSleep(e.attempt, config.backoffMax);
      Scaled(e.attempt, MostAttempts(config) - 1, config.backoffMax);
    } else {
      Scaled(e.attempt - 1, MostAttempts(config) - 1, config.backoffMax);
    }
  }

  lemma Scaled(a: int, b: int, c: int)
    requires a <= b && c >= 0
    ensures a * c <= b * c
  {
  }

  // ----- fates are final -----

  /** Copy i of the message is its live one and has been disposed of. */
  predicate OverAt(entries: seq<Entry>, i: nat, root: nat, fate: Fate) {
    LiveCopy(entries, i, root) && entries[i].stage == Closed(fate)
  }

  lemma SameCopies(entries: seq<Entry>, more: seq<Entry>, root: nat)
    requires |more| <= 1 && (more != [] ==> more[0].root != root)
    ensures Copies(entries + more, root) == Copies(entries, root)
  {
    if more != [] {
      CopiesAppend(entries, more[0], root);
      assert more == [more[0]];
    } else {
      assert entries + more == entries;
    }
  }

  lemma OverStep(config: D.Config, s: Sys, ev: Event, i: nat, root: nat, fate: Fate)
    requires LineageOk(config, s.entries) && OverAt(s.entries, i, root, fate)
    ensures OverAt(Step(config, s, ev).entries, i, root, fate)
    ensures Copies(Step(config, s, ev).entries, root) == Copies(s.entries, root)
  {
    hide AdminStep, OrderStep, WorkerStep, FulfillmentStep, KitchenStep, Copies;
    AdminFrame(s, ev);
    FulfillmentFrame(s, ev);
    KitchenFrame(s, ev);
    assert EntryLineage(config, s.entries, i);
    if IsOrder(ev) {
      var more := PublishedEntries(s, ev);
      SameCopies(s.entries, more, root);
    } else if IsWorker(ev) && WorkerStep(config, s, ev) != s {
      OverWorkerStep(config, s, ev, i, root, fate);
    }
  }

  lemma OverWorkerStep(config: D.Config, s: Sys, ev: Event, i: nat, root: nat, fate: Fate)
    requires LineageOk(config, s.entries) && OverAt(s.entries, i, root, fate) && WorkerStep(config, s, ev) != s
    ensures OverAt(WorkerStep(config, s, ev).entries, i, root, fate)
    ensures Copies(WorkerStep(config, s, ev).entries, root) == Copies(s.entries, root)
  {
    hide WorkerStep, Copies, EntryLineage;
    var e, stage, more := WorkerUpdate(config, s, ev);
    assert LiveCopy(s.entries, e, s.entries[e].root);
    assert e != i && s.entries[e].root != root;
    var moved := s.entries[e := s.entries[e].(stage := stage)];
    CopiesUpdate(s.entries, e, moved[e], root);
    SameCopies(moved, more, root);
  }

  /** Order creation appends at most one entry, the root of a new message. */
  lemma PublishedEntries(s: Sys, ev: Event) returns (more: seq<Entry>)
    ensures OrderStep(s, ev).entries == s.entries + more
    ensures |more| <= 1
    ensures more != []
            ==> more[0].root == |s.entries| && more[0].stage == Queued && more[0].attempt == 1 && more[0].slept == 0
    ensures more != [] ==>
              && ev.Publish? && ev.order in s.publishers && s.publishers[ev.order].phase == Publishing
              && more[0].task in s.publishers[ev.order].tasks
  {
    hide AddOrder, F.MarkTasksQueued, Orderable;
    more := [];
    assert s.entries + [] == s.entries;
    if OrderStep(s, ev).entries != s.entries {
      more := [NewEntry(s.f, s.publishers[ev.order].tasks[|s.publishers[ev.order].published|], |s.entries|)];
    }
  }

  /** A worker's step moves one live, unfinished entry to a later stage; waking also appends its next copy. */
  lemma WorkerUpdate(config: D.Config, s: Sys, ev: Event) returns (e: nat, stage: Stage, more: seq<Entry>)
    requires WorkerStep(config, s, ev) != s
    ensures IsWorker(ev) && e == ev.entry < |s.entries| && !s.entries[e].stage.Closed?
    ensures WorkerStep(config, s, ev).entries == s.entries[e := s.entries[e].(stage := stage)] + more
    ensures StageRank(s.entries[e].stage) < StageRank(stage)
    ensures |more| <= 1
    ensures more != []
            ==> more[0].root == s.entries[e].root && more[0].task == s.entries[e].task && more[0].stage == Queued
  {
    hide StageOf, Sends;
    if ev.Wake? {
      e, stage, more := ev.entry, Closed(Requeued), [Again(s.entries[ev.entry])];
    } else {
      var phase := StepPhase(config, s, ev);
      e, stage, more := ev.entry, StageOf(config, s.entries[ev.entry].attempt, phase), [];
      assert WorkerStep(config, s, ev).entries + [] == WorkerStep(config, s, ev).entries;
      PhaseRank(config, s.entries[e].attempt, phase);
    }
  }

  /** A step leaves an entry alone, adds it to the stream, or is its worker's own. */
  lemma EntryAfter(config: D.Config, s: Sys, ev: Event, e: nat)
    requires e < |Step(config, s, ev).entries|
    ensures || (e < |s.entries| && Step(config, s, ev).entries[e] == s.entries[e])
            || (e >= |s.entries| && Step(config, s, ev).entries[e].stage == Queued)
            || (IsWorker(ev) && e == ev.entry < |s.entries| && WorkerStep(config, s, ev) != s)
  {
    hide AdminStep, OrderStep, WorkerStep, FulfillmentStep, KitchenStep, StageRank;
    AdminFrame(s, ev);
    FulfillmentFrame(s, ev);
    KitchenFrame(s, ev);
    if IsOrder(ev) {
      var more := PublishedEntries(s, ev);
    } else if IsWorker(ev) && WorkerStep(config, s, ev) != s {
      var w, stage, more := WorkerUpdate(config, s, ev);
    }
  }

  /** Where a worker leaves its message on entering a phase. */
  lemma StageExactly(config: D.Config, attempt: int, phase: D.Phase)
    ensures var stage := StageOf(config, attempt, phase);
            && (stage == Closed(Dispatched) <==> phase == D.Conclude(D.Dispatched))
            && (stage == Closed(Stale) <==> phase == D.Conclude(D.Stale))
            && stage != Closed(Requeued)
            && (stage.Closed? && stage.fate.DeadLettered? <==>
                  phase.Conclude? && phase.verdict.NotNow? && attempt >= config.maxAttempts)
            && (stage.Sleeping? ==>
                  && stage.attempt == attempt + 1 <= config.maxAttempts
                  && stage.delay == BO.Doubled(config.backoffBase, config.backoffMax, Max(0, attempt - 1)))
  {
    hide BO.Doubled;
  }

  /** A message is closed as dispatched exactly by an answer to mark-displayed that is not a failure. */
  lemma DispatchedByAnswer(config: D.Config, s: Sys, ev: Event, e: nat)
    requires e < |s.entries| && !s.entries[e].stage.Closed?
    ensures e < |WorkerStep(config, s, ev).entries|
    ensures var entry := s.entries[e];
            WorkerStep(config, s, ev).entries[e].stage == Closed(Dispatched) <==>
              && ev.ReceiveMark? && ev.entry == e && entry.stage.Working? && entry.stage.phase.Mark?
              && ev.mark != D.MarkFailed && MarkRsp(e, ev.mark) in s.responses
  {
    hide StageOf, Sends, SnapshotOf, ReadinessOf, Candidates.RightChoice;
    var a := s.entries[e].attempt;
    match ev
    case Read(_) => StageExactly(config, a, D.AskSnapshot);
    case AnswerSnapshot(_, answered) =>
      StageExactly(config, a,
                   D.AfterSnapshot(if answered then SnapshotOf(s.f, s.entries[e].task) else D.SnapshotFailed));
    case AnswerReadiness(_, answered) =>
      StageExactly(config, a,
                   D.AfterReadiness(if answered then ReadinessOf(s.f, s.entries[e].task) else D.ReadinessFailed));
    case AnswerCandidates(_, answered, choice) =>
      StageExactly(config, a, D.AfterCandidates(choice));
      StageExactly(config, a, D.Conclude(D.NotNow(D.KitchenServiceUnavailable)));
    case ReceiveDeliver(_, answer, _) =>
      if s.entries[e].stage.Working? && s.entries[e].stage.phase.Deliver? {
        StageExactly(config, a, D.AfterDeliver(s.entries[e].stage.phase.station, answer));
      }
    case ReceiveMark(_, answer) => StageExactly(config, a, D.AfterMark(answer));
    case _ =>
  }

  lemma SnapshotCloses(config: D.Config, s: Sys, e: nat, answered: bool)
    requires InPhase(s, e, D.AskSnapshot) && s.entries[e].task in s.f.tasks
    ensures e < |WorkerStep(config, s, AnswerSnapshot(e, answered)).entries|
    ensures WorkerStep(config, s, AnswerSnapshot(e, answered)).entries[e].stage == Closed(Stale) <==>
              && answered
              && s.f.tasks[s.entries[e].task].status in {F.Displayed, F.InProgress, F.Done, F.Cancelled, F.Failed}
  {
    hide Sends;
  }

  lemma OtherwiseNotStale(config: D.Config, s: Sys, ev: Event, e: nat)
    requires e < |s.entries| && !s.entries[e].stage.Closed?
    requires ev.AnswerSnapshot? ==> ev.entry != e || s.entries[e].stage != Working(D.AskSnapshot)
    ensures e < |WorkerStep(config, s, ev).entries|
    ensures var stage := WorkerStep(config, s, ev).entries[e].stage;
            stage != Closed(Stale) && (stage == Closed(Requeued) <==> ev == Wake(e) && s.entries[e].stage.Sleeping?)
  {
    hide Sends, SnapshotOf, ReadinessOf, Candidates.RightChoice;
  }

  /** A message is closed as stale exactly by a snapshot that shows its task past dispatching, and as requeued
      exactly by waking. */
  lemma StaleBySnapshot(config: D.Config, s: Sys, ev: Event, e: nat)
    requires e < |s.entries| && !s.entries[e].stage.Closed? && s.entries[e].task in s.f.tasks
    ensures e < |WorkerStep(config, s, ev).entries|
    ensures var entry, stage := s.entries[e], WorkerStep(config, s, ev).entries[e].stage;
            && (stage == Closed(Stale) <==>
                  && ev == AnswerSnapshot(e, true) && entry.stage == Working(D.AskSnapshot)
                  && s.f.tasks[entry.task].status in {F.Displayed, F.InProgress, F.Done, F.Cancelled, F.Failed})
            && (stage == Closed(Requeued) <==> ev == Wake(e) && entry.stage.Sleeping?)
  {
    hide WorkerStep;
    if ev.AnswerSnapshot? && ev.entry == e && s.entries[e].stage == Working(D.AskSnapshot) {
      SnapshotCloses(config, s, e, ev.answered);
      SnapshotRequeuesNothing(config, s, e, ev.answered);
    } else {
      OtherwiseNotStale(config, s, ev, e);
    }
  }

  lemma SnapshotRequeuesNothing(config: D.Config, s: Sys, e: nat, answered: bool)
    requires InPhase(s, e, D.AskSnapshot)
    ensures e < |WorkerStep(config, s, AnswerSnapshot(e, answered)).entries|
    ensures WorkerStep(config, s, AnswerSnapshot(e, answered)).entries[e].stage != Closed(Requeued)
  {
    hide Sends, SnapshotOf;
  }

  /** A message is dead-lettered only when its attempts are used up, with a report of just that attempt. */
  lemma GivenUpOnLastAttempt(config: D.Config, s: Sys, ev: Event, e: nat)
    requires e < |s.entries| && !s.entries[e].stage.Closed?
    ensures e < |WorkerStep(config, s, ev).entries|
    ensures var entry, stage := s.entries[e], WorkerStep(config, s, ev).entries[e].stage;
            stage.Closed? && stage.fate.DeadLettered? ==>
              && entry.attempt >= config.maxAttempts
              && FailedReq(entry.task, entry.attempt) in WorkerStep(config, s, ev).requests
  {
    hide BO.Doubled, SnapshotOf, ReadinessOf, Candidates.RightChoice;
  }

  /** A message sleeps the delay of its attempt, and only when another attempt is left. */
  lemma SleepsBetweenAttempts(config: D.Config, s: Sys, ev: Event, e: nat)
    requires e < |s.entries| && !s.entries[e].stage.Closed?
    ensures e < |WorkerStep(config, s, ev).entries|
    ensures var entry, stage := s.entries[e], WorkerStep(config, s, ev).entries[e].stage;
            stage.Sleeping? && stage != entry.stage ==>
              && stage.attempt == entry.attempt + 1 <= config.maxAttempts
              && stage.delay == BO.Doubled(config.backoffBase, config.backoffMax, Max(0, entry.attempt - 1))
  {
    hide BO.Doubled, Sends, SnapshotOf, ReadinessOf, Candidates.RightChoice;
  }

  lemma PhaseRank(config: D.Config, attempt: int, phase: D.Phase)
    ensures StageRank(StageOf(config, attempt, phase)) >= 6 - D.Remaining(phase)
  {
  }

  lemma {:induction false} OverThroughout(config: D.Config, s: Sys, events: seq<Event>, i: nat, root: nat, fate: Fate)
    requires Inv(config, s) && OverAt(s.entries, i, root, fate)
    ensures var entries := Run(config, s, events).entries;
            OverAt(entries, i, root, fate) && Copies(entries, root) == Copies(s.entries, root)
  {
    hide Step, Copies, ServiceSteps.Base, LineageOk, OverAt;
    if events != [] {
      var n := |events| - 1;
      OverThroughout(config, s, events[..n], i, root, fate);
      ContinueKeeps(config, s, events[..n]);
      OverStep(config, Run(config, s, events[..n]), events[n], i, root, fate);
    }
  }

  /** A message that was dispatched, dropped as stale or dead-lettered stays so for good: it is
      never handled again and no further copy of it appears. */
  lemma FateIsFinal(config: D.Config, s: Sys, s': Sys, i: nat, root: nat, fate: Fate)
    requires Reachable(config, s) && OverAt(s.entries, i, root, fate) && Leads(config, s, s')
    ensures OverAt(s'.entries, i, root, fate) && Copies(s'.entries, root) == Copies(s.entries, root)
  {
    hide Leads, Inv, Run, OverAt, Copies;
    ReachableOk(config, s);
    var events := LeadsRuns(config, s, s');
    OverThroughout(config, s, events, i, root, fate);
  }

  // ----- the number of steps spent on a message -----

  const STAGES: nat := 8

  function StageRank(stage: Stage): (r: nat)
    ensures r <= STAGES
  {
    match stage
    case Queued => 0
    case Working(phase) => 6 - D.Remaining(phase)
    case Sleeping(_, _) => 7
    case Closed(_) => STAGES
  }

  /** The stages all copies of a message have gone through so far. */
  function Effort(entries: seq<Entry>, root: nat): nat {
    if entries == [] then 0
    else
      var e := entries[|entries| - 1];
      Effort(entries[..|entries| - 1], root) + (if e.root == root then StageRank(e.stage) else 0)
  }

  lemma {:induction false} EffortIsBounded(entries: seq<Entry>, root: nat)
    ensures Effort(entries, root) <= STAGES * Copies(entries, root)
  {
    if entries != [] { EffortIsBounded(entries[..|entries| - 1], root); }
  }

  lemma {:induction false} EffortUpdate(entries: seq<Entry>, i: nat, stage: Stage, root: nat)
    requires i < |entries|
    ensures Effort(entries[i := entries[i].(stage := stage)], root)
            == Effort(entries, root)
              + (if entries[i].root == root then StageRank(stage) - StageRank(entries[i].stage) else 0)
  {
    var n := |entries| - 1;
    var entries' := entries[i := entries[i].(stage := stage)];
    if i < n {
      assert entries'[..n] == entries[..n][i := entries[..n][i].(stage := stage)];
      EffortUpdate(entries[..n], i, stage, root);
    } else {
      assert entries'[..n] == entries[..n];
    }
  }

  lemma EffortAppend(entries: seq<Entry>, more: seq<Entry>, root: nat)
    requires |more| <= 1 && (more != [] ==> more[0].stage == Queued)
    ensures Effort(entries + more, root) == Effort(entries, root)
  {
    if more == [] { assert entries + more == entries; } else { assert (entries + more)[..|entries|] == entries; }
  }

  /** The event is a worker's step on a copy of the message. */
  ghost predicate Handles(config: D.Config, s: Sys, ev: Event, root: nat) {
    IsWorker(ev) && ev.entry < |s.entries| && s.entries[ev.entry].root == root && WorkerStep(config, s, ev) != s
  }

  /** How many of the first n events were a worker's step on the message. */
  ghost function Handlings(config: D.Config, states: seq<Sys>, events: seq<Event>, root: nat, n: nat): nat
    requires |states| == |events| + 1 && n <= |events|
  {
    if n == 0 then 0
    else
      Handlings(config, states, events, root, n - 1)
      + (if Handles(config, states[n - 1], events[n - 1], root) then 1 else 0)
  }

  lemma EffortStep(config: D.Config, s: Sys, ev: Event, root: nat)
    ensures Effort(s.entries, root) + (if Handles(config, s, ev, root) then 1 else 0)
            <= Effort(Step(config, s, ev).entries, root)
  {
    hide AdminStep, OrderStep, WorkerStep, FulfillmentStep, KitchenStep, StageRank, Effort;
    AdminFrame(s, ev);
    FulfillmentFrame(s, ev);
    KitchenFrame(s, ev);
    if IsOrder(ev) {
      var more := PublishedEntries(s, ev);
      EffortAppend(s.entries, more, root);
    } else if IsWorker(ev) && WorkerStep(config, s, ev) != s {
      var e, stage, more := WorkerUpdate(config, s, ev);
      EffortUpdate(s.entries, e, stage, root);
      EffortAppend(s.entries[e := s.entries[e].(stage := stage)], more, root);
    }
  }

  /** Whatever happens around it, the workers take at most a fixed number of steps on one message. */
  lemma {:induction false} RetriesTerminate(config: D.Config, states: seq<Sys>, events: seq<Event>, root: nat, n: nat)
    requires Execution(config, states, events) && Reachable(config, states[0]) && n <= |events|
    ensures Effort(states[0].entries, root) + Handlings(config, states, events, root, n)
            <= Effort(states[n].entries, root) <= STAGES * MostAttempts(config)
  {
    hide Leads, Step, Effort, ServiceSteps.Base, LineageOk, Handles, Copies;
    ReachableOk(config, states[0]);
    ExecutionKeeps(config, states, events, n);
    EffortIsBounded(states[n].entries, root);
    CopiesAreBounded(config, states[n].entries, root);
    if n > 0 {
      RetriesTerminate(config, states, events, root, n - 1);
      assert IsStep(config, states, events, n - 1);
      EffortStep(config, states[n - 1], events[n - 1], root);
    }
  }
}
