/** The key under which the dispatcher delivers a task, the same on every attempt. */
module Idempotency {
  import opened Common

  function KDSIdempotencyKey(task: TaskId): string {
    task + ":dispatch:v1"
  }

  /** Different tasks never share a key, so a replay can only ever answer for the same task. */
  lemma KeyIsInjective(s: TaskId, t: TaskId)
    requires KDSIdempotencyKey(s) == KDSIdempotencyKey(t)
    ensures s == t
  {
    assert KDSIdempotencyKey(s)[..|s|] == s;
    assert KDSIdempotencyKey(t)[..|t|] == t;
  }
}
