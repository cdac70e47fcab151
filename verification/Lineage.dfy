/**
 The life of a message over its retries. The first entry of a message is its root;
 putting it back appends a copy. Whatever the services answer, exactly one copy of
 every message is live, and it gets only so many attempts.
 */
module Lineage {
  import opened Common
  import opened Protocol
  import D = Dispatcher
  import BO = Backoff

  /** Still queued, in a worker's hands, sleeping, or finally disposed of. */
  predicate Live(e: Entry) { e.stage != Closed(Requeued) }

  predicate LiveCopy(entries: seq<Entry>, i: nat, root: nat) {
    i < |entries| && entries[i].root == root && Live(entries[i])
  }

  function Copies(entries: seq<Entry>, root: nat): nat {
    if entries == [] then 0
    else Copies(entries[..|entries| - 1], root) + (if entries[|entries| - 1].root == root then 1 else 0)
  }

  function MostAttempts(config: D.Config): int { Max(1, config.maxAttempts) }

  ghost predicate EntryLineage(config: D.Config, entries: seq<Entry>, i: nat)
    requires i < |entries|
  {
    var e := entries[i];
    && e.root <= i && entries[e.root].root == e.root && entries[e.root].task == e.task && entries[e.root].attempt == 1
    && 1 <= e.attempt <= MostAttempts(config)
    && (e.stage.Sleeping? ==> e.stage.attempt == e.attempt + 1 <= config.maxAttempts)
    && (Live(e) ==> e.attempt == Copies(entries, e.root))
    && (!Live(e) ==> exists j :: LiveCopy(entries, j, e.root))
  }

  ghost predicate LineageOk(config: D.Config, entries: seq<Entry>) {
    && (forall i: nat | i < |entries| :: EntryLineage(config, entries, i))
    && (forall i, j, r | LiveCopy(entries, i, r) && LiveCopy(entries, j, r) :: i == j)
  }

  lemma CopiesAppend(entries: seq<Entry>, e: Entry, root: nat)
    ensures Copies(entries + [e], root) == Copies(entries, root) + (if e.root == root then 1 else 0)
  {
  }

  lemma {:induction false} CopiesUpdate(entries: seq<Entry>, i: nat, e: Entry, root: nat)
    requires i < |entries| && e.root == entries[i].root
    ensures Copies(entries[i := e], root) == Copies(entries, root)
  {
    var n := |entries| - 1;
    if i < n {
      assert entries[i := e][..n] == entries[..n][i := e];
      CopiesUpdate(entries[..n], i, e, root);
    } else {
      assert entries[i := e][..n] == entries[..n];
    }
  }

  lemma {:induction false} NoCopies(entries: seq<Entry>, root: nat)
    requires forall i | 0 <= i < |entries| :: entries[i].root != root
    ensures Copies(entries, root) == 0
  {
    if entries != [] { NoCopies(entries[..|entries| - 1], root); }
  }

  // ----- the steps keep it -----

  /** A worker's entry may move on to any stage but the requeued one. */
  ghost predicate StageOk(config: D.Config, e: Entry, stage: Stage) {
    && stage != Closed(Requeued)
    && (stage.Sleeping? ==> stage.attempt == e.attempt + 1 <= config.maxAttempts)
  }

  lemma StageKeepsLineage(config: D.Config, entries: seq<Entry>, i: nat, stage: Stage)
    requires LineageOk(config, entries) && i < |entries| && Live(entries[i]) && StageOk(config, entries[i], stage)
    ensures LineageOk(config, entries[i := entries[i].(stage := stage)])
  {
    var entries' := entries[i := entries[i].(stage := stage)];
    forall j, r ensures LiveCopy(entries', j, r) <==> LiveCopy(entries, j, r) {}
    forall j: nat | j < |entries'| ensures EntryLineage(config, entries', j) {
      assert EntryLineage(config, entries, j);
      CopiesUpdate(entries, i, entries'[i], entries[j].root);
      if !Live(entries[j]) {
        var x :| LiveCopy(entries, x, entries[j].root);
        assert LiveCopy(entries', x, entries[j].root);
      }
    }
  }

  lemma PublishKeepsLineage(config: D.Config, entries: seq<Entry>, e: Entry)
    requires LineageOk(config, entries)
    requires e.root == |entries| && e.attempt == 1 && e.stage == Queued
    ensures LineageOk(config, entries + [e])
  {
    var entries' := entries + [e];
    forall j | 0 <= j < |entries| ensures entries[j].root != e.root { assert EntryLineage(config, entries, j); }
    NoCopies(entries, e.root);
    CopiesAppend(entries, e, e.root);
    forall j: nat, r: nat | LiveCopy(entries', j, r)
      ensures if j == |entries| then r == e.root else LiveCopy(entries, j, r) {}
    forall j: nat | j < |entries'| ensures EntryLineage(config, entries', j) {
      if j < |entries| { OldLineage(config, entries, e, j); }
    }
  }

  lemma OldLineage(config: D.Config, entries: seq<Entry>, e: Entry, j: nat)
    requires j < |entries| && EntryLineage(config, entries, j) && entries[j].root != e.root
    ensures EntryLineage(config, entries + [e], j)
  {
    CopiesAppend(entries, e, entries[j].root);
    if !Live(entries[j]) {
      var x :| LiveCopy(entries, x, entries[j].root);
      assert LiveCopy(entries + [e], x, entries[j].root);
    }
  }

  /** Waking closes the sleeping copy and makes the next one, with one attempt more. */
  lemma WakeKeepsLineage(config: D.Config, entries: seq<Entry>, i: nat)
    requires LineageOk(config, entries) && i < |entries| && entries[i].stage.Sleeping?
    ensures LineageOk(config, entries[i := entries[i].(stage := Closed(Requeued))] + [Again(entries[i])])
  {
    var e := entries[i];
    var closed := entries[i := e.(stage := Closed(Requeued))];
    var entries' := closed + [Again(e)];
    assert EntryLineage(config, entries, i) && LiveCopy(entries, i, e.root);
    forall j: nat, r: nat | LiveCopy(entries', j, r)
      ensures if j == |entries| then r == e.root else LiveCopy(entries, j, r) && r != e.root
    {
      if j < |entries| { assert LiveCopy(entries, j, r); }
    }
    assert LiveCopy(entries', |entries|, e.root);
    CopiesUpdate(entries, i, closed[i], e.root);
    CopiesAppend(closed, Again(e), e.root);
    forall j: nat | j < |entries'| ensures EntryLineage(config, entries', j) {
      if j < |entries| {
        assert EntryLineage(config, entries, j);
        if entries[j].root != e.root {
          CopiesUpdate(entries, i, closed[i], entries[j].root);
          CopiesAppend(closed, Again(e), entries[j].root);
          if !Live(entries[j]) {
            var x :| LiveCopy(entries, x, entries[j].root);
            assert LiveCopy(entries', x, entries[j].root);
          }
        } else {
          assert Live(entries[j]) ==> LiveCopy(entries, j, e.root);
        }
      }
    }
  }

  lemma WorkerKeepsLineage(config: D.Config, s: Sys, ev: Event)
    requires LineageOk(config, s.entries)
    ensures LineageOk(config, WorkerStep(config, s, ev).entries)
  {
    hide LineageOk, StageOf, Sends, StageOk;
    if WorkerStep(config, s, ev) != s {
      if ev.Wake? {
        WakeKeepsLineage(config, s.entries, ev.entry);
      } else {
        var phase := StepPhase(config, s, ev);
        ProceedKeepsLineage(config, s.entries, ev.entry, phase);
      }
    }
  }

  /** A step of a worker other than waking moves one live entry on to some phase. */
  lemma StepPhase(config: D.Config, s: Sys, ev: Event) returns (phase: D.Phase)
    requires WorkerStep(config, s, ev) != s && !ev.Wake?
    ensures IsWorker(ev) && ev.entry < |s.entries|
            && (s.entries[ev.entry].stage.Queued? || s.entries[ev.entry].stage.Working?)
    ensures WorkerStep(config, s, ev).entries
            == s.entries[ev.entry := s.entries[ev.entry].(stage := StageOf(config, s.entries[ev.entry].attempt, phase))]
    ensures s.entries[ev.entry].stage.Working? ==> D.Remaining(phase) < D.Remaining(s.entries[ev.entry].stage.phase)
  {
    hide StageOf, Sends;
    match ev
    case Read(e) => phase := D.AskSnapshot;
    case AnswerSnapshot(e, answered) =>
      phase := D.AfterSnapshot(if answered then SnapshotOf(s.f, s.entries[e].task) else D.SnapshotFailed);
    case AnswerReadiness(e, answered) =>
      phase := D.AfterReadiness(if answered then ReadinessOf(s.f, s.entries[e].task) else D.ReadinessFailed);
    case AnswerCandidates(e, answered, choice) =>
      phase := if answered then D.AfterCandidates(choice) else D.Conclude(D.NotNow(D.KitchenServiceUnavailable));
    case ReceiveDeliver(e, answer, at) => phase := D.AfterDeliver(s.entries[e].stage.phase.station, answer);
    case ReceiveMark(e, answer) => phase := D.AfterMark(answer);
    case _ => phase := D.AskSnapshot;
  }

  lemma ProceedKeepsLineage(config: D.Config, entries: seq<Entry>, i: nat, phase: D.Phase)
    requires LineageOk(config, entries) && i < |entries| && Live(entries[i])
    ensures LineageOk(config, entries[i := entries[i].(stage := StageOf(config, entries[i].attempt, phase))])
  {
    hide Copies, BO.Doubled;
    assert EntryLineage(config, entries, i);
    StageKeepsLineage(config, entries, i, StageOf(config, entries[i].attempt, phase));
  }
}
