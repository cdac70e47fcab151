/** The simulated cook: polls its station, claims one task, and completes what it claimed. */
module VirtualWorker {
  import opened Common

  datatype KdsTask = KdsTask(task: TaskId, displayed: bool, displayedAt: Time)

  // What the kitchen service may answer to the worker's calls.
  datatype PollAnswer = PollFailed(error: string) | Tasks(list: seq<KdsTask>)
  datatype ClaimAnswer = Claimed | ClaimConflict | ClaimFailed(error: string)
  datatype CompleteAnswer = Completed | CompleteFailed(error: string)

  datatype Call =
    | Poll
    | Claim(task: TaskId, answer: ClaimAnswer)
    | Complete(task: TaskId, result: CompleteAnswer)

  datatype Status = Starting | Polling | Idle | Cooking

  /** Every completion in the log follows a successful claim of the same task. */
  ghost predicate Disciplined(calls: seq<Call>) {
    forall j: nat | j < |calls| && calls[j].Complete? :: ClaimedBefore(calls, j)
  }

  ghost predicate ClaimedBefore(calls: seq<Call>, j: nat)
    requires j < |calls| && calls[j].Complete?
  {
    exists i :: 0 <= i < j && calls[i] == Claim(calls[j].task, Claimed)
  }

  function Earlier(a: KdsTask, b: KdsTask): KdsTask { if b.displayedAt < a.displayedAt then b else a }

  /** The k-th task has been on the screen longest, and is the first listed of those that have. */
  ghost predicate Longest(tasks: seq<KdsTask>, k: int) {
    && 0 <= k < |tasks| && tasks[k].displayed
    && (forall j | 0 <= j < |tasks| && tasks[j].displayed :: tasks[k].displayedAt <= tasks[j].displayedAt)
    && (forall j | 0 <= j < k && tasks[j].displayed :: tasks[k].displayedAt < tasks[j].displayedAt)
  }

  ghost predicate NothingDisplayed(tasks: seq<KdsTask>) {
    forall t | t in tasks :: !t.displayed
  }

  /** The displayed task that has been on the screen longest, the first listed among equals. */
  function SelectDisplayedTask(tasks: seq<KdsTask>): (r: Option<KdsTask>)
    ensures r.None? <==> NothingDisplayed(tasks)
    ensures r.Some? ==> exists k :: Longest(tasks, k) && r.value == tasks[k]
  {
    if tasks == [] then None
    else
      var n := |tasks| - 1;
      assert tasks == tasks[..n] + [tasks[n]];
      var before := SelectDisplayedTask(tasks[..n]);
      var r := if !tasks[n].displayed then before
               else if before.None? then Some(tasks[n])
               else Some(Earlier(before.value, tasks[n]));
      assert r.Some? ==> exists k :: Longest(tasks, k) && r.value == tasks[k] by {
        if r.Some? { LongestOf(tasks, before, r.value); }
      }
      r
  }

  lemma LongestOf(tasks: seq<KdsTask>, before: Option<KdsTask>, r: KdsTask)
    requires tasks != []
    requires var front := tasks[..|tasks| - 1];
             && (before.None? ==> NothingDisplayed(front))
             && (before.Some? ==> exists k :: Longest(front, k) && before.value == front[k])
    requires var last := tasks[|tasks| - 1];
             if !last.displayed then before == Some(r)
             else r == (if before.None? then last else Earlier(before.value, last))
    ensures exists k :: Longest(tasks, k) && r == tasks[k]
  {
    var n := |tasks| - 1;
    assert forall j | 0 <= j < n :: tasks[..n][j] == tasks[j] && tasks[j] in tasks[..n];
    if before.None? {
      assert Longest(tasks, n);
    } else {
      var k :| Longest(tasks[..n], k) && before.value == tasks[..n][k];
      if tasks[n].displayed && tasks[n].displayedAt < tasks[k].displayedAt {
        assert Longest(tasks, n);
      } else {
        assert Longest(tasks, k);
      }
    }
  }

  /** The completions of one task: all but the last failed. */
  ghost predicate Attempts(calls: seq<Call>, task: TaskId, done: bool, most: int) {
    && |calls| <= Max(0, most)
    && (forall i | 0 <= i < |calls| :: calls[i].Complete? && calls[i].task == task)
    && (forall i | 0 <= i < |calls| :: calls[i].result == Completed <==> done && i == |calls| - 1)
    && (done ==> calls != [])
    && (!done ==> |calls| == Max(0, most))
  }

  /** The last call of the log is an accepted completion. */
  predicate EndsAccepted(calls: seq<Call>) {
    calls != [] && calls[|calls| - 1].Complete? && calls[|calls| - 1].result == Completed
  }

  /** A round polls; if a task is displayed it claims the one that has been longest; and if that
      succeeds it completes the same task. It makes no other call. */
  ghost predicate Round(before: seq<Call>, calls: seq<Call>, poll: PollAnswer, claim: ClaimAnswer, most: int) {
    var n := |before|;
    && n < |calls| && calls[..n] == before && calls[n] == Poll
    && if poll.PollFailed? || NothingDisplayed(poll.list) then |calls| == n + 1
       else
         && n + 1 < |calls| && calls[n + 1].Claim? && calls[n + 1].answer == claim
         && (exists k :: Longest(poll.list, k) && calls[n + 1].task == poll.list[k].task)
         && (if claim == Claimed
             then Attempts(calls[n + 2..], calls[n + 1].task, EndsAccepted(calls), most)
             else |calls| == n + 2)
  }

  lemma AttemptsAfterClaim(before: seq<Call>, task: TaskId, more: seq<Call>, done: bool, most: int)
    requires Disciplined(before) && Attempts(more, task, done, most)
    ensures Disciplined(before + [Claim(task, Claimed)] + more)
  {
    var calls := before + [Claim(task, Claimed)] + more;
    forall j: nat | j < |calls| && calls[j].Complete? ensures ClaimedBefore(calls, j) {
      if j < |before| {
        assert ClaimedBefore(before, j);
        var i :| 0 <= i < j && before[i] == Claim(before[j].task, Claimed);
        assert calls[i] == before[i];
      } else {
        assert calls[|before|] == Claim(task, Claimed);
      }
    }
  }

  lemma AttemptsEnd(before: seq<Call>, made: seq<Call>, task: TaskId, done: bool, most: int)
    requires Attempts(made, task, done, most) && before != [] && !before[|before| - 1].Complete?
    ensures EndsAccepted(before + made) <==> done
  {
  }

  lemma NoCompletion(before: seq<Call>, more: seq<Call>)
    requires Disciplined(before) && forall i | 0 <= i < |more| :: !more[i].Complete?
    ensures Disciplined(before + more)
  {
    var calls := before + more;
    forall j: nat | j < |calls| && calls[j].Complete? ensures ClaimedBefore(calls, j) {
      assert ClaimedBefore(before, j);
      var i :| 0 <= i < j && before[i] == Claim(before[j].task, Claimed);
      assert calls[i] == before[i];
    }
  }

  // The three ways a round can go.

  lemma PollOnly(before: seq<Call>, poll: PollAnswer, claim: ClaimAnswer, most: int)
    requires Disciplined(before) && (poll.PollFailed? || NothingDisplayed(poll.list))
    ensures var calls := before + [Poll];
            Disciplined(calls) && Round(before, calls, poll, claim, most) && !EndsAccepted(calls)
  {
    NoCompletion(before, [Poll]);
  }

  lemma ClaimOnly(before: seq<Call>, poll: PollAnswer, claim: ClaimAnswer, task: TaskId, most: int)
    requires Disciplined(before) && poll.Tasks? && !NothingDisplayed(poll.list) && claim != Claimed
    requires exists k :: Longest(poll.list, k) && task == poll.list[k].task
    ensures var calls := before + [Poll] + [Claim(task, claim)];
            Disciplined(calls) && Round(before, calls, poll, claim, most) && !EndsAccepted(calls)
  {
    NoCompletion(before, [Poll]);
    NoCompletion(before + [Poll], [Claim(task, claim)]);
  }

  lemma ClaimAndComplete(before: seq<Call>, poll: PollAnswer, task: TaskId, made: seq<Call>, done: bool, most: int)
    requires Disciplined(before) && poll.Tasks? && !NothingDisplayed(poll.list)
    requires exists k :: Longest(poll.list, k) && task == poll.list[k].task
    requires Attempts(made, task, done, most)
    ensures var calls := before + [Poll] + [Claim(task, Claimed)] + made;
            Disciplined(calls) && Round(before, calls, poll, Claimed, most) && (EndsAccepted(calls) <==> done)
  {
    NoCompletion(before, [Poll]);
    AttemptsAfterClaim(before + [Poll], task, made, done, most);
    AttemptsEnd(before + [Poll] + [Claim(task, Claimed)], made, task, done, most);
    var calls := before + [Poll] + [Claim(task, Claimed)] + made;
    assert calls[|before| + 2..] == made;
  }

  class Worker {
    const completeRetryAttempts: int
    var status: Status
    var currentTask: Option<TaskId>
    var lastError: Option<string>
    var completedTasks: nat
    var calls: seq<Call>

    constructor (completeRetryAttempts: int)
      ensures this.completeRetryAttempts == completeRetryAttempts
      ensures status == Starting && currentTask == None && completedTasks == 0 && calls == []
    {
      this.completeRetryAttempts := completeRetryAttempts;
      status, currentTask, lastError, completedTasks, calls := Starting, None, None, 0, [];
    }

    /** Asks again until one completion is accepted or the attempts are used up. */
    method CompleteWithRetry(task: TaskId, answers: nat -> CompleteAnswer) returns (done: bool)
      modifies this`calls, this`lastError
      ensures |old(calls)| <= |calls| && calls[..|old(calls)|] == old(calls)
      ensures Attempts(calls[|old(calls)|..], task, done, completeRetryAttempts)
      ensures forall i | 0 <= i < |calls| - |old(calls)| ::
                calls[|old(calls)|..][i] == Complete(task, answers(i + 1))
      ensures done ==> lastError == old(lastError)
      ensures !done ==>
                lastError == Some(if completeRetryAttempts >= 1 && answers(completeRetryAttempts).CompleteFailed?
                                  then answers(completeRetryAttempts).error else "complete_failed")
    {
      var error: Option<string> := None;
      ghost var made: seq<Call> := [];
      var attempt := 1;
      while attempt <= completeRetryAttempts
        invariant 1 <= attempt <= Max(0, completeRetryAttempts) + 1
        invariant calls == old(calls) + made && |made| == attempt - 1
        invariant Attempts(made, task, false, attempt - 1)
        invariant forall i | 0 <= i < |made| :: made[i] == Complete(task, answers(i + 1))
        invariant error == if attempt == 1 then None else Some(made[|made| - 1].result.error)
        invariant lastError == old(lastError)
      {
        var answer := answers(attempt);
        calls := calls + [Complete(task, answer)];
        made := made + [Complete(task, answer)];
        assert calls == old(calls) + made;
        if answer == Completed {
          return true;
        }
        error := Some(answer.error);
        attempt := attempt + 1;
      }
      lastError := if error.Some? then error else Some("complete_failed");
      return false;
    }

    /** One round: at most one claim, completions only of the task that was claimed, never more of
        them than the configured attempts, and the count goes up exactly when one was accepted. */
    method RunOnce(poll: PollAnswer, claim: ClaimAnswer, answers: nat -> CompleteAnswer)
      requires Disciplined(calls)
      modifies this
      ensures Disciplined(calls)
      ensures status == Idle
      ensures completedTasks == old(completedTasks) + if EndsAccepted(calls) then 1 else 0
      ensures Round(old(calls), calls, poll, claim, completeRetryAttempts)
      ensures poll.PollFailed? ==> lastError == Some(poll.error)
      ensures poll.Tasks? && NothingDisplayed(poll.list) ==> lastError == old(lastError)
      ensures poll.Tasks? && !NothingDisplayed(poll.list) && claim.ClaimFailed? ==> lastError == Some(claim.error)
      ensures poll.Tasks? && !NothingDisplayed(poll.list) && claim.ClaimConflict? ==> lastError == old(lastError)
      ensures currentTask == if poll.Tasks? && !NothingDisplayed(poll.list) && claim == Claimed then None
                             else old(currentTask)
    {
      hide Disciplined, Attempts, NothingDisplayed, EndsAccepted, Round, Longest;
      ghost var before := calls;
      status := Polling;
      calls := calls + [Poll];
      if poll.PollFailed? {
        PollOnly(before, poll, claim, completeRetryAttempts);
        status := Idle;
        lastError := Some(poll.error);
        return;
      }
      var selected := SelectDisplayedTask(poll.list);
      if selected.None? {
        PollOnly(before, poll, claim, completeRetryAttempts);
        status := Idle;
        return;
      }
      var task := selected.value.task;
      calls := calls + [Claim(task, claim)];
      if claim != Claimed { ClaimOnly(before, poll, claim, task, completeRetryAttempts); }
      if claim.ClaimConflict? {
        status := Idle;
        return;
      }
      if claim.ClaimFailed? {
        status := Idle;
        lastError := Some(claim.error);
        return;
      }
      status := Cooking;
      currentTask := Some(task);
      var done := CompleteWithRetry(task, answers);
      ghost var made := calls[|before| + 2..];
      assert calls == before + [Poll] + [Claim(task, Claimed)] + made;
      ClaimAndComplete(before, poll, task, made, done, completeRetryAttempts);
      if done {
        completedTasks := completedTasks + 1;
      }
      status := Idle;
      currentTask := None;
    }
  }
}
