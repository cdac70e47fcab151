/** Publishing the tasks of a new order and queueing them together. */
module OrderCreation {
  import opened Common
  import opened Fulfillment
  import Message

  function StreamOf(p: Message.Publication): string { Message.StreamName(p.kitchen, p.task.stationType) }

  /** What is remembered of the first n publications when the stream already had some entries. */
  function Remembered(publications: seq<Message.Publication>, n: nat, offset: nat): seq<Published>
    requires n <= |publications|
  {
    seq(n, i requires 0 <= i < n => Published(publications[i].id, StreamOf(publications[i]), offset + i))
  }

  /** The messages of the first n publications, one each, in order. */
  function Written(publications: seq<Message.Publication>, n: nat): (r: seq<Message.Values>)
    requires n <= |publications|
    ensures |r| == n && forall i | 0 <= i < n :: r[i] == Message.BuildRedisTaskMessage(publications[i])
  {
    seq(n, i requires 0 <= i < n => Message.BuildRedisTaskMessage(publications[i]))
  }

  /** Every task is as it was, or queued under the last entry for it. */
  ghost predicate QueuedFrom(before: map<TaskId, Task>, after: map<TaskId, Task>, published: seq<Published>, at: Time) {
    && after.Keys == before.Keys
    && forall t | t in before ::
         || (after[t] == before[t] && forall i | 0 <= i < |published| :: published[i].task != t)
         || (exists i :: LastFor(published, t, i) && QueuedUnder(before[t], after[t], published[i], at))
  }

  lemma EveryQueuedExactly(before: map<TaskId, Task>, published: seq<Published>, at: Time)
    ensures QueuedFrom(before, MarkTasksQueued(before, published, at), published, at)
  {
    QueuedKeys(before, published, at);
    forall t | t in before
      ensures var after := MarkTasksQueued(before, published, at);
              || (after[t] == before[t] && forall i | 0 <= i < |published| :: published[i].task != t)
              || (exists i :: LastFor(published, t, i) && QueuedUnder(before[t], after[t], published[i], at))
    {
      QueuedExactly(before, published, at, t);
    }
  }

  /** The publications as remembered: each under its task's stream and the position of its own message. */
  ghost predicate IsRemembered(published: seq<Published>, publications: seq<Message.Publication>, offset: nat) {
    && |published| == |publications|
    && forall i | 0 <= i < |publications| ::
         && published[i].task == publications[i].id && published[i].messageId == offset + i
         && published[i].stream ==
              "stream:kitchen:" + publications[i].kitchen + ":station:" + publications[i].task.stationType
  }

  lemma RememberedExactly(publications: seq<Message.Publication>, offset: nat)
    ensures IsRemembered(Remembered(publications, |publications|, offset), publications, offset)
  {
  }

  class Service {
    var tasks: map<TaskId, Task>
    var stream: seq<Message.Values>

    constructor (tasks: map<TaskId, Task>)
      ensures this.tasks == tasks && stream == []
    {
      this.tasks, stream := tasks, [];
    }

    /** One transaction: every task in the list is written, one after the other. */
    method MarkTasksAsQueued(published: seq<Published>, at: Time)
      modifies this`tasks
      ensures tasks == MarkTasksQueued(old(tasks), published, at)
      ensures QueuedFrom(old(tasks), tasks, published, at)
    {
      for i := 0 to |published|
        invariant tasks == MarkTasksQueued(old(tasks), published[..i], at)
      {
        assert published[..i + 1][..i] == published[..i];
        var p := published[i];
        if p.task in tasks {
          tasks := tasks[p.task := tasks[p.task].(status := Queued)];
          tasks := tasks[p.task := tasks[p.task].(attempts := 1)];
          tasks := tasks[p.task := tasks[p.task].(queuedAt := Some(at))];
          tasks := tasks[p.task := tasks[p.task].(stream := Some(p.stream))];
          tasks := tasks[p.task := tasks[p.task].(messageId := Some(p.messageId))];
        }
        assert tasks == MarkTasksQueued(old(tasks), published[..i + 1], at);
      }
      assert published[..|published|] == published;
      EveryQueuedExactly(old(tasks), published, at);
    }

    /** All or nothing: when the publication after the first `succeed` ones raises, those messages
        are on the stream, but no task is queued; otherwise every message is on the stream and
        every task is queued under the identifier of its own message. */
    method PublishAndQueueTasks(publications: seq<Message.Publication>, succeed: nat, at: Time)
      returns (queued: Option<nat>)
      modifies this
      ensures succeed < |publications| ==>
                && queued == None && tasks == old(tasks)
                && stream == old(stream) + Written(publications, succeed)
      ensures succeed >= |publications| ==>
                && queued == Some(|publications|)
                && stream == old(stream) + Written(publications, |publications|)
                && exists published :: IsRemembered(published, publications, |old(stream)|)
                                       && QueuedFrom(old(tasks), tasks, published, at)
    {
      hide QueuedFrom, MarkTasksQueued, Message.BuildRedisTaskMessage, Message.StreamName;
      var published: seq<Published> := [];
      for i := 0 to |publications|
        invariant i <= succeed
        invariant tasks == old(tasks) && stream == old(stream) + Written(publications, i)
        invariant published == Remembered(publications, i, |old(stream)|)
      {
        if i == succeed {
          return None;
        }
        stream := stream + [Message.BuildRedisTaskMessage(publications[i])];
        published := published + [Published(publications[i].id, StreamOf(publications[i]), |stream| - 1)];
      }
      RememberedExactly(publications, |old(stream)|);
      MarkTasksAsQueued(published, at);
      return Some(|published|);
    }
  }
}
