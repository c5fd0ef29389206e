/** `publishNotification`, `sendToDeadLetterQueue` and `handler`: the
    dispatch on the event source inside the `try` block, and the `catch`
    block that sends the event to the dead-letter queue, publishes a failure
    notification and rethrows. */
module Dispatch {
  import opened Types
  import opened Payloads
  import opened Backoff
  import opened Replication

  /** `publishNotification(success, message)` started at log position
      `start`: one SNS publish, not retried. */
  function NotifyRun(cfg: Config, w: Oracle, start: nat, success: bool, message: string): Run<()>
  {
    Run(Discard(w.replies(start)), [Call(NotificationRequest(cfg, success, message, w.clock(start)))])
  }

  /** `sendToDeadLetterQueue(event, error)` started at log position `start`:
      one SQS send, not retried. */
  function DeadLetterRun(cfg: Config, w: Oracle, start: nat, event: ReplicationEvent, error: string): Run<()>
  {
    Run(Discard(w.replies(start)), [Call(DeadLetterRequest(cfg, event, error, w.clock(start)))])
  }

  /** The loop of the handler over the target environments for an S3
      event, stopping at the first copy that fails. */
  function ObjectsRun(cfg: Config, w: Oracle, start: nat, key: string, envs: seq<string>): Run<()>
    decreases |envs|
  {
    if envs == [] then Run(Ok(()), [])
    else
      var one := ObjectRun(cfg, w, start, key, envs[0]);
      if one.result.Err? then one
      else
        var rest := ObjectsRun(cfg, w, start + |one.effects|, key, envs[1..]);
        Run(rest.result, one.effects + rest.effects)
  }

  /** What the handler returns when nothing was thrown. */
  const Completed := HttpResponse(200, "{\"message\":\"Replication completed successfully\"}")

  const MissingKey := Error("S3 key not found in event")

  function S3SuccessMessage(key: string): string
  {
    "Successfully replicated S3 object " + key + " to " + Join(TargetEnvironments, ", ")
  }

  const DynamoDBSuccessMessage := "Successfully replicated DynamoDB item to " + Join(TargetEnvironments, ", ")

  /** A replication, then the success notification if it did not throw. */
  function ThenNotify(cfg: Config, w: Oracle, copy: Run<()>, at: nat, message: string): Run<HttpResponse>
  {
    if copy.result.Err? then Run(Err(copy.result.error), copy.effects)
    else
      var notify := NotifyRun(cfg, w, at, true, message);
      Run(if notify.result.Ok? then Ok(Completed) else Err(notify.result.error), copy.effects + notify.effects)
  }

  /** The `try` block of `handler(event)` started at log position `start`;
      `envs` is the list of target environments. */
  function TryRun(cfg: Config, w: Oracle, start: nat, event: ReplicationEvent, envs: seq<string>): Run<HttpResponse>
  {
    var detail := event.detail;
    if detail.eventSource == S3Source then
      var key := detail.requestParameters.key;
      if !Truthy(key) then Run(Err(MissingKey), [])
      else
        var copy := ObjectsRun(cfg, w, start, key.value, envs);
        ThenNotify(cfg, w, copy, start + |copy.effects|, S3SuccessMessage(key.value))
    else if detail.eventSource == DynamoDBSource then
      var copy := ItemRun(cfg, w, start, ItemKey(detail.requestParameters, w.clock(start)), envs);
      ThenNotify(cfg, w, copy, start + |copy.effects|, DynamoDBSuccessMessage)
    else
      Run(Ok(Completed), [])
  }

  /** The `catch` block for the thrown value `e`, started at position
      `start`: send the event to the dead-letter queue, publish the failure,
      rethrow `e`.  A failure of either call is thrown instead, and a failed
      dead-letter send skips the publish. */
  function CatchRun(cfg: Config, w: Oracle, start: nat, event: ReplicationEvent, e: Thrown): Run<HttpResponse>
  {
    var message := ErrorMessage(e);
    var sent := DeadLetterRun(cfg, w, start, event, message);
    if sent.result.Err? then Run(Err(sent.result.error), sent.effects)
    else
      var notify := NotifyRun(cfg, w, start + 1, false, "Replication failed: " + message);
      Run(if notify.result.Ok? then Err(e) else Err(notify.result.error), sent.effects + notify.effects)
  }

  /** The outcome of the `try` block `attempt` started at `start`, with
      the `catch` block run after it when it threw. */
  function Recover(cfg: Config, w: Oracle, start: nat, event: ReplicationEvent, attempt: Run<HttpResponse>): Run<HttpResponse>
  {
    if attempt.result.Ok? then attempt
    else
      var recovery := CatchRun(cfg, w, start + |attempt.effects|, event, attempt.result.error);
      Run(recovery.result, attempt.effects + recovery.effects)
  }

  /** `handler(event)` started at log position `start`, with `envs` as the
      list of target environments (the handler uses `TargetEnvironments`). */
  function HandlerRun(cfg: Config, w: Oracle, start: nat, event: ReplicationEvent, envs: seq<string>): Run<HttpResponse>
  {
    Recover(cfg, w, start, event, TryRun(cfg, w, start, event, envs))
  }

  /** `e` is a notification or a dead-letter message rather than part of a
      replication. */
  predicate IsReport(e: Effect)
  {
    e.Call? && (e.request.Publish? || e.request.SendMessage?)
  }

  /** `e` copies object `key` to `bucket`. */
  predicate CopiesTo(e: Effect, key: string, bucket: string)
  {
    e.Call? && e.request.PutObject? && e.request.bucket == bucket && e.request.key == key
  }

  /** What one `replicateS3Object(key, env)` does, whatever the replies:
      sleeps, reads of the object, and copies of it to `env`'s bucket; if
      it succeeded, its last entry is a copy whose reply was a success. */
  lemma ObjectRunSummary(cfg: Config, w: Oracle, start: nat, key: string, env: string, r: Run<()>)
    requires r == ObjectRun(cfg, w, start, key, env)
    ensures forall e :: e in r.effects ==>
      e.Sleep? || e == Call(GetObject(cfg.prodBucket, key)) || CopiesTo(e, key, TargetBucket(cfg, env))
    ensures r.result.Ok? ==>
      |r.effects| > 0 && CopiesTo(r.effects[|r.effects| - 1], key, TargetBucket(cfg, env))
      && w.replies(start + |r.effects| - 1).Ok?
  {
    var get := RetryRun(w, start, GetObject(cfg.prodBucket, key), MaxRetries, 0);
    if get.result.Err? || get.result.value.body.None? {
      ObjectReadFailureWritesNothing(cfg, w, start, key, env, get, r);
    } else {
      ObjectCopiesVerbatim(cfg, w, start, key, env, get, r);
    }
  }

  lemma ObjectsNil(cfg: Config, w: Oracle, p: nat, key: string, run: Run<()>)
    requires run == ObjectsRun(cfg, w, p, key, [])
    ensures run.result == Ok(()) && run.effects == []
  {
  }

  /** One turn of the S3 loop: the copy for the first environment, then,
      only if it succeeded, the loop over the remaining ones. */
  lemma ObjectsStep(cfg: Config, w: Oracle, p: nat, key: string, envs: seq<string>,
                    one: Run<()>, rest: Run<()>, run: Run<()>)
    requires envs != []
    requires one == ObjectRun(cfg, w, p, key, envs[0])
    requires rest == ObjectsRun(cfg, w, p + |one.effects|, key, envs[1..])
    requires run == ObjectsRun(cfg, w, p, key, envs)
    ensures one.result.Err? ==> run == one
    ensures one.result.Ok? ==> run.result == rest.result && run.effects == one.effects + rest.effects
  {
  }

  lemma ObjectsSingle(cfg: Config, w: Oracle, p: nat, key: string, env: string, one: Run<()>, run: Run<()>)
    requires one == ObjectRun(cfg, w, p, key, env)
    requires run == ObjectsRun(cfg, w, p, key, [env])
    ensures run == one
  {
    var none := ObjectsRun(cfg, w, p + |one.effects|, key, [env][1..]);
    assert [env][1..] == [];
    ObjectsStep(cfg, w, p, key, [env], one, none, run);
    ObjectsNil(cfg, w, p + |one.effects|, key, none);
  }

  lemma ObjectsPair(cfg: Config, w: Oracle, p: nat, key: string, envs: seq<string>, a: string, b: string,
                    first: Run<()>, second: Run<()>, run: Run<()>)
    requires envs == [a, b]
    requires first == ObjectRun(cfg, w, p, key, a)
    requires second == ObjectRun(cfg, w, p + |first.effects|, key, b)
    requires run == ObjectsRun(cfg, w, p, key, envs)
    ensures first.result.Err? ==> run == first
    ensures first.result.Ok? ==> run.result == second.result && run.effects == first.effects + second.effects
  {
    var q := p + |first.effects|;
    assert envs[0] == a && envs[1..] == [b];
    var rest := ObjectsRun(cfg, w, q, key, [b]);
    ObjectsStep(cfg, w, p, key, envs, first, rest, run);
    ObjectsSingle(cfg, w, q, key, b, second, rest);
  }

  /** The S3 loop over dev and staging: the dev copy, and the staging copy
      only if the dev copy succeeded. */
  lemma ObjectsTwo(cfg: Config, w: Oracle, p: nat, key: string, first: Run<()>, second: Run<()>, run: Run<()>)
    requires first == ObjectRun(cfg, w, p, key, "dev")
    requires second == ObjectRun(cfg, w, p + |first.effects|, key, "staging")
    requires run == ObjectsRun(cfg, w, p, key, TargetEnvironments)
    ensures first.result.Err? ==> run == first
    ensures first.result.Ok? ==> run.result == second.result && run.effects == first.effects + second.effects
  {
    ObjectsPair(cfg, w, p, key, TargetEnvironments, "dev", "staging", first, second, run);
  }

  /** Turn `k` of the S3 loop over `envs`, taking the log from `before`
      to `after` with the copy for `envs[k]`, whose outcome is `copied`;
      the whole loop appends `total` to `origin` and the turns from `k` on
      append `rest`.  A failed copy ends the loop with its error; a
      successful one leaves the turns from `k + 1` on, `next`, to append
      the rest. */
  lemma ObjectsProgress(cfg: Config, w: Oracle, key: string, envs: seq<string>, k: nat,
                        origin: seq<Effect>, before: seq<Effect>, after: seq<Effect>,
                        copied: Result<(), Thrown>,
                        total: Run<()>, rest: Run<()>, one: Run<()>, next: Run<()>)
    requires k < |envs|
    requires rest == ObjectsRun(cfg, w, |before|, key, envs[k..])
    requires one == ObjectRun(cfg, w, |before|, key, envs[k])
    requires copied == one.result && after == before + one.effects
    requires next == ObjectsRun(cfg, w, |after|, key, envs[k + 1..])
    requires total.result == rest.result && origin + total.effects == before + rest.effects
    ensures copied.Err? ==> total.result == Err(copied.error) && after == origin + total.effects
    ensures copied.Ok? ==> total.result == next.result && origin + total.effects == after + next.effects
  {
    assert envs[k..][0] == envs[k] && envs[k..][1..] == envs[k + 1..];
    ObjectsStep(cfg, w, |before|, key, envs[k..], one, next, rest);
    AppendTwice(before, one.effects, next.effects);
  }

  /** Some write to `t` recorded in `log` (appended from position `start`)
      succeeded. */
  ghost predicate Delivered(w: Oracle, start: nat, log: seq<Effect>, t: string)
  {
    exists j :: 0 <= j < |log| && WritesTo(log[j], t) && w.replies(start + j).Ok?
  }

  /** What the handler relies on from a replication to `t1` then `t2`
      started at `start`: it reports nothing itself, writes `t1` before
      `t2`, and a success means its last entry was a write to `t2` that
      succeeded. */
  ghost predicate Replicated(w: Oracle, start: nat, copy: Run<()>, t1: string, t2: string)
  {
    && (forall e :: e in copy.effects ==> !IsReport(e))
    && InOrder(w, start, copy.effects, t1, t2)
    && (copy.result.Ok? ==>
          && |copy.effects| > 0
          && WritesTo(copy.effects[|copy.effects| - 1], t2)
          && w.replies(start + |copy.effects| - 1).Ok?)
  }

  /** A successful replication reached both targets. */
  lemma ReplicatedDelivers(w: Oracle, start: nat, copy: Run<()>, t1: string, t2: string)
    requires Replicated(w, start, copy, t1, t2)
    requires copy.result.Ok?
    ensures Delivered(w, start, copy.effects, t1) && Delivered(w, start, copy.effects, t2)
  {
    var k := |copy.effects| - 1;
    assert WritesTo(copy.effects[k], t2) && w.replies(start + k).Ok?;
  }

  /** Two copies of one object, the second made only if the first
      succeeded. */
  lemma {:induction false} SequentialCopies(w: Oracle, p: nat, q: nat, key: string, read: Effect, t1: string, t2: string,
                                            first: Run<()>, second: Run<()>, run: Run<()>)
    requires t1 != t2 && read.Call? && read.request.GetObject?
    requires q == p + |first.effects|
    requires forall e :: e in first.effects ==> e.Sleep? || e == read || CopiesTo(e, key, t1)
    requires first.result.Ok? ==>
      |first.effects| > 0 && CopiesTo(first.effects[|first.effects| - 1], key, t1) && w.replies(p + |first.effects| - 1).Ok?
    requires forall e :: e in second.effects ==> e.Sleep? || e == read || CopiesTo(e, key, t2)
    requires second.result.Ok? ==>
      |second.effects| > 0 && CopiesTo(second.effects[|second.effects| - 1], key, t2) && w.replies(q + |second.effects| - 1).Ok?
    requires first.result.Err? ==> run == first
    requires first.result.Ok? ==> run.result == second.result && run.effects == first.effects + second.effects
    ensures forall e :: e in run.effects ==> e.Sleep? || e == read || CopiesTo(e, key, t1) || CopiesTo(e, key, t2)
    ensures Replicated(w, p, run, t1, t2)
  {
    if first.result.Err? {
      NoSecondWrite(w, p, first.effects, t1, t2);
    } else {
      TwoPhases(w, p, first.effects, second.effects, t1, t2);
      if second.result.Ok? {
        assert run.effects[|run.effects| - 1] == second.effects[|second.effects| - 1];
      }
    }
  }

  /** The dev and staging buckets are distinct. */
  lemma TargetBucketsDistinct(cfg: Config)
    ensures TargetBucket(cfg, "dev") != TargetBucket(cfg, "staging")
  {
    if TargetBucket(cfg, "dev") == TargetBucket(cfg, "staging") {
      TargetBucketInjective(cfg, "dev", "staging");
    }
  }

  lemma ObjectsPairReplicated(cfg: Config, w: Oracle, p: nat, key: string, envs: seq<string>, run: Run<()>)
    requires envs == ["dev", "staging"]
    requires run == ObjectsRun(cfg, w, p, key, envs)
    ensures forall e :: e in run.effects ==>
      || e.Sleep?
      || e == Call(GetObject(cfg.prodBucket, key))
      || CopiesTo(e, key, TargetBucket(cfg, "dev"))
      || CopiesTo(e, key, TargetBucket(cfg, "staging"))
    ensures Replicated(w, p, run, TargetBucket(cfg, "dev"), TargetBucket(cfg, "staging"))
  {
    var first := ObjectRun(cfg, w, p, key, "dev");
    var q := p + |first.effects|;
    var second := ObjectRun(cfg, w, q, key, "staging");
    ObjectsPair(cfg, w, p, key, envs, "dev", "staging", first, second, run);
    ObjectRunSummary(cfg, w, p, key, "dev", first);
    ObjectRunSummary(cfg, w, q, key, "staging", second);
    TargetBucketsDistinct(cfg);
    SequentialCopies(w, p, q, key, Call(GetObject(cfg.prodBucket, key)), TargetBucket(cfg, "dev"), TargetBucket(cfg, "staging"),
                     first, second, run);
  }

  /** The S3 loop of the handler only reads the object and copies it under
      the same key to the dev and staging buckets, dev before staging; a
      success means the copy to staging succeeded last. */
  lemma ObjectsReplicated(cfg: Config, w: Oracle, p: nat, key: string, run: Run<()>)
    requires run == ObjectsRun(cfg, w, p, key, TargetEnvironments)
    ensures forall e :: e in run.effects ==>
      || e.Sleep?
      || e == Call(GetObject(cfg.prodBucket, key))
      || CopiesTo(e, key, TargetBucket(cfg, "dev"))
      || CopiesTo(e, key, TargetBucket(cfg, "staging"))
    ensures Replicated(w, p, run, TargetBucket(cfg, "dev"), TargetBucket(cfg, "staging"))
  {
    ObjectsPairReplicated(cfg, w, p, key, TargetEnvironments, run);
  }

  /** `replicateDynamoDBItem` as the handler calls it only reads and writes
      items, writes the dev table before the staging table, and a success
      means its last entry was a write to staging that succeeded. */
  lemma ItemReplicated(cfg: Config, w: Oracle, start: nat, itemKey: Item, r: Run<()>)
    requires r == ItemRun(cfg, w, start, itemKey, TargetEnvironments)
    ensures Replicated(w, start, r, TargetTable(cfg, "dev"), TargetTable(cfg, "staging"))
  {
    var get := RetryRun(w, start, GetItem(cfg.prodTable, itemKey), MaxRetries, 0);
    if get.result.Err? || get.result.value.item.None? {
      ItemReadFailureWritesNothing(cfg, w, start, itemKey, TargetEnvironments, get, r);
      NoSecondWrite(w, start, r.effects, TargetTable(cfg, "dev"), TargetTable(cfg, "staging"));
    } else {
      ItemWritesAreReplicas(cfg, w, start, itemKey, get, get.result.value.item.value, start + |get.effects|, r);
      ItemFanOutInOrder(cfg, w, start, itemKey, get, r);
      ItemOutcome(cfg, w, start, itemKey, get, r);
    }
  }

  /** Appending entries that write to neither target keeps a log in order. */
  lemma {:induction false} AppendKeepsOrder(w: Oracle, start: nat, log: seq<Effect>, tail: seq<Effect>, all: seq<Effect>,
                                            t1: string, t2: string)
    requires InOrder(w, start, log, t1, t2)
    requires forall e :: e in tail ==> !WritesTo(e, t1) && !WritesTo(e, t2)
    requires all == log + tail
    ensures InOrder(w, start, all, t1, t2)
  {
    assert forall i :: 0 <= i < |log| ==> all[i] == log[i];
    assert forall i :: |log| <= i < |all| ==> all[i] in tail;
  }

  /** A delivery stays recorded when the log grows. */
  lemma {:induction false} DeliveredExtends(w: Oracle, start: nat, log: seq<Effect>, tail: seq<Effect>, all: seq<Effect>, t: string)
    requires Delivered(w, start, log, t)
    requires all == log + tail
    ensures Delivered(w, start, all, t)
  {
    var j :| 0 <= j < |log| && WritesTo(log[j], t) && w.replies(start + j).Ok?;
    assert all[j] == log[j];
  }

  /** The published success notification for `message`, sent when the
      clock reads `now`. */
  function SuccessCall(cfg: Config, message: string, now: nat): Effect
  {
    Call(Publish(cfg.successTopic, "Replication Success", Notification(true, message, now, SourceEnvironment)))
  }

  /** The success notification is sent only after a replication that
      succeeded, to the success topic; the response is the completed one
      exactly when the notification succeeded too, and a notification that
      fails is thrown like a failed copy. */
  lemma ThenNotifyShape(cfg: Config, w: Oracle, copy: Run<()>, at: nat, message: string, attempt: Run<HttpResponse>)
    requires attempt == ThenNotify(cfg, w, copy, at, message)
    ensures copy.result.Err? ==> attempt.result == Err(copy.result.error) && attempt.effects == copy.effects
    ensures copy.result.Ok? ==>
      && attempt.effects == copy.effects + [SuccessCall(cfg, message, w.clock(at))]
      && attempt.result == if w.replies(at).Ok? then Ok(Completed) else Err(w.replies(at).error)
  {
  }

  /** A replication followed by its success notification keeps the order
      of writes and reports nothing before the notification. */
  lemma NotifyKeepsOrder(cfg: Config, w: Oracle, start: nat, copy: Run<()>, at: nat, message: string,
                         t1: string, t2: string, attempt: Run<HttpResponse>)
    requires Replicated(w, start, copy, t1, t2)
    requires attempt == ThenNotify(cfg, w, copy, at, message)
    ensures InOrder(w, start, attempt.effects, t1, t2)
    ensures forall e :: e in attempt.effects ==> e in copy.effects || IsReport(e)
  {
    ThenNotifyShape(cfg, w, copy, at, message, attempt);
    if copy.result.Ok? {
      AppendKeepsOrder(w, start, copy.effects, [SuccessCall(cfg, message, w.clock(at))], attempt.effects, t1, t2);
    }
  }

  /** The replication's entries open the log of the `try` block. */
  lemma NotifyKeepsCopy(cfg: Config, w: Oracle, copy: Run<()>, at: nat, message: string, attempt: Run<HttpResponse>)
    requires attempt == ThenNotify(cfg, w, copy, at, message)
    ensures |attempt.effects| >= |copy.effects|
    ensures forall k :: 0 <= k < |copy.effects| ==> attempt.effects[k] == copy.effects[k]
  {
    ThenNotifyShape(cfg, w, copy, at, message, attempt);
  }

  /** A completed response after a replication means both targets were
      written. */
  lemma NotifyDelivers(cfg: Config, w: Oracle, start: nat, copy: Run<()>, at: nat, message: string,
                       t1: string, t2: string, attempt: Run<HttpResponse>)
    requires Replicated(w, start, copy, t1, t2)
    requires attempt == ThenNotify(cfg, w, copy, at, message)
    ensures attempt.result.Ok? ==> Delivered(w, start, attempt.effects, t1) && Delivered(w, start, attempt.effects, t2)
  {
    ThenNotifyShape(cfg, w, copy, at, message, attempt);
    if copy.result.Ok? {
      var tail := [SuccessCall(cfg, message, w.clock(at))];
      ReplicatedDelivers(w, start, copy, t1, t2);
      DeliveredExtends(w, start, copy.effects, tail, attempt.effects, t1);
      DeliveredExtends(w, start, copy.effects, tail, attempt.effects, t2);
    }
  }

  /** The dead-letter message for `event` with the message of `e`, sent
      when the clock reads `now`. */
  function DeadLetterCall(cfg: Config, event: ReplicationEvent, e: Thrown, now: nat): Effect
  {
    Call(SendMessage(cfg.dlqUrl, DeadLetter(event, ErrorMessage(e), now)))
  }

  /** The published failure notification for the error message `message`,
      sent when the clock reads `now`. */
  function FailureCall(cfg: Config, message: string, now: nat): Effect
  {
    Call(Publish(cfg.failureTopic, "Replication Failure",
                 Notification(false, "Replication failed: " + message, now, SourceEnvironment)))
  }

  /** The `catch` block always rethrows.  It first sends the event to the
      dead-letter queue with the error's message and the clock reading; if
      that fails, its error is thrown and nothing is published; otherwise
      the failure notification follows, to the failure topic, and the
      original error is rethrown unless the notification failed.  It writes
      to no bucket and no table. */
  lemma CatchReports(cfg: Config, w: Oracle, start: nat, event: ReplicationEvent, e: Thrown, c: Run<HttpResponse>)
    requires c == CatchRun(cfg, w, start, event, e)
    ensures c.result.Err?
    ensures |c.effects| > 0
    ensures c.effects[0] == DeadLetterCall(cfg, event, e, w.clock(start))
    ensures w.replies(start).Err? ==> c.effects == [c.effects[0]] && c.result == Err(w.replies(start).error)
    ensures w.replies(start).Ok? ==>
      && c.effects == [c.effects[0], FailureCall(cfg, ErrorMessage(e), w.clock(start + 1))]
      && c.result == if w.replies(start + 1).Ok? then Err(e) else Err(w.replies(start + 1).error)
    ensures forall x :: x in c.effects ==> IsReport(x)
  {
  }

  /** For an S3 event with a key, the `try` block is the S3 loop followed by
      the success notification. */
  lemma TryS3(cfg: Config, w: Oracle, start: nat, event: ReplicationEvent, envs: seq<string>, key: string,
              copy: Run<()>, at: nat, attempt: Run<HttpResponse>)
    requires event.detail.eventSource == S3Source
    requires event.detail.requestParameters.key == Some(key) && key != ""
    requires copy == ObjectsRun(cfg, w, start, key, envs)
    requires at == start + |copy.effects|
    requires attempt == TryRun(cfg, w, start, event, envs)
    ensures attempt == ThenNotify(cfg, w, copy, at, S3SuccessMessage(key))
  {
  }

  /** For a DynamoDB event, the `try` block is the item replication, keyed
      by the event's key and the clock reading taken first, followed by the
      success notification. */
  lemma TryDynamoDB(cfg: Config, w: Oracle, start: nat, event: ReplicationEvent, envs: seq<string>,
                    copy: Run<()>, at: nat, attempt: Run<HttpResponse>)
    requires event.detail.eventSource == DynamoDBSource
    requires copy == ItemRun(cfg, w, start, ItemKey(event.detail.requestParameters, w.clock(start)), envs)
    requires at == start + |copy.effects|
    requires attempt == TryRun(cfg, w, start, event, envs)
    ensures attempt == ThenNotify(cfg, w, copy, at, DynamoDBSuccessMessage)
  {
  }

  /** The handler is its `try` block followed by the recovery. */
  lemma HandlerRecovers(cfg: Config, w: Oracle, start: nat, event: ReplicationEvent, envs: seq<string>,
                        attempt: Run<HttpResponse>, r: Run<HttpResponse>)
    requires attempt == TryRun(cfg, w, start, event, envs)
    requires r == HandlerRun(cfg, w, start, event, envs)
    ensures r == Recover(cfg, w, start, event, attempt)
  {
  }

  /** When the `try` block throws, the `catch` block follows it. */
  lemma RecoverCatches(cfg: Config, w: Oracle, start: nat, event: ReplicationEvent,
                       attempt: Run<HttpResponse>, c: Run<HttpResponse>, r: Run<HttpResponse>)
    requires attempt.result.Err?
    requires c == CatchRun(cfg, w, start + |attempt.effects|, event, attempt.result.error)
    requires r == Recover(cfg, w, start, event, attempt)
    ensures r.result == c.result && r.effects == attempt.effects + c.effects
  {
  }

  /** A replication `copy` that threw, appended to `origin` to give
      `after`, makes the block throw the same error without notifying. */
  lemma ThenNotifyStops(cfg: Config, w: Oracle, copy: Run<()>, message: string,
                        origin: seq<Effect>, after: seq<Effect>, copied: Result<(), Thrown>, attempt: Run<HttpResponse>)
    requires copied == copy.result && copied.Err? && after == origin + copy.effects
    requires attempt == ThenNotify(cfg, w, copy, |after|, message)
    ensures attempt.result == Err(copied.error) && after == origin + attempt.effects
  {
  }

  /** A replication `copy` that succeeded, appended to `origin` to give
      `mid`, is followed by the success notification recorded in `after`,
      whose outcome `published` decides the block's outcome. */
  lemma ThenNotifyPublishes(cfg: Config, w: Oracle, copy: Run<()>, message: string,
                            origin: seq<Effect>, mid: seq<Effect>, after: seq<Effect>,
                            copied: Result<(), Thrown>, published: Result<(), Thrown>,
                            notify: Run<()>, attempt: Run<HttpResponse>)
    requires copied == copy.result && copied.Ok? && mid == origin + copy.effects
    requires notify == NotifyRun(cfg, w, |mid|, true, message)
    requires published == notify.result && after == mid + notify.effects
    requires attempt == ThenNotify(cfg, w, copy, |mid|, message)
    ensures attempt.result == (if published.Ok? then Ok(Completed) else Err(published.error))
    ensures after == origin + attempt.effects
  {
    AppendTwice(origin, copy.effects, notify.effects);
  }

  /** A `try` block that threw, appended to `origin` to give `mid`, is
      followed by the `catch` block `c`, which decides the outcome. */
  lemma HandlerCatchStep(cfg: Config, w: Oracle, event: ReplicationEvent, envs: seq<string>,
                         origin: seq<Effect>, mid: seq<Effect>, attempt: Run<HttpResponse>,
                         c: Run<HttpResponse>, r: Run<HttpResponse>)
    requires attempt == TryRun(cfg, w, |origin|, event, envs)
    requires attempt.result.Err? && mid == origin + attempt.effects
    requires c == CatchRun(cfg, w, |mid|, event, attempt.result.error)
    requires r == HandlerRun(cfg, w, |origin|, event, envs)
    ensures r.result == c.result && origin + r.effects == mid + c.effects
  {
    AppendTwice(origin, attempt.effects, c.effects);
  }

  /** `log` holds a dead-letter send for `event`, whatever its reply. */
  ghost predicate DeadLetterSent(cfg: Config, event: ReplicationEvent, log: seq<Effect>)
  {
    exists k :: 0 <= k < |log| && log[k].Call? && log[k].request.SendMessage?
      && log[k].request.queue == cfg.dlqUrl && log[k].request.payload.event == event
  }

  /** A `try` block that threw, followed by the `catch` block: the
      handler throws, the `try` block's entries are kept, the event is sent
      to the dead-letter queue right after them with the thrown value's
      message, and what follows only reports. */
  lemma {:induction false} RecoverSendsDeadLetter(cfg: Config, w: Oracle, start: nat, event: ReplicationEvent,
                                        attempt: Run<HttpResponse>, r: Run<HttpResponse>)
    requires attempt.result.Err?
    requires r == Recover(cfg, w, start, event, attempt)
    ensures r.result.Err?
    ensures |r.effects| > |attempt.effects|
    ensures r.effects[..|attempt.effects|] == attempt.effects
    ensures r.effects[|attempt.effects|] == DeadLetterCall(cfg, event, attempt.result.error, w.clock(start + |attempt.effects|))
    ensures forall i :: |attempt.effects| <= i < |r.effects| ==> IsReport(r.effects[i])
    ensures DeadLetterSent(cfg, event, r.effects)
  {
    var n := |attempt.effects|;
    var c := CatchRun(cfg, w, start + n, event, attempt.result.error);
    RecoverCatches(cfg, w, start, event, attempt, c, r);
    CatchReports(cfg, w, start + n, event, attempt.result.error, c);
    assert r.effects[n] == c.effects[0];
    forall i | n <= i < |r.effects|
      ensures IsReport(r.effects[i])
    {
      assert r.effects[i] == c.effects[i - n] && c.effects[i - n] in c.effects;
    }
  }

  /** The handler responds only with the `try` block's own response. */
  lemma RecoverPassesSuccess(cfg: Config, w: Oracle, start: nat, event: ReplicationEvent,
                             attempt: Run<HttpResponse>, r: Run<HttpResponse>)
    requires r == Recover(cfg, w, start, event, attempt)
    ensures attempt.result.Ok? ==> r == attempt
    ensures r.result.Ok? ==> attempt.result.Ok?
  {
  }

  /** The recovery writes to no bucket and no table, so the order of the
      `try` block's writes is kept. */
  lemma RecoverKeepsOrder(cfg: Config, w: Oracle, start: nat, event: ReplicationEvent,
                          attempt: Run<HttpResponse>, r: Run<HttpResponse>, t1: string, t2: string)
    requires InOrder(w, start, attempt.effects, t1, t2)
    requires r == Recover(cfg, w, start, event, attempt)
    ensures InOrder(w, start, r.effects, t1, t2)
    ensures forall e :: e in r.effects ==> e in attempt.effects || IsReport(e)
  {
    if attempt.result.Err? {
      var n := |attempt.effects|;
      var c := CatchRun(cfg, w, start + n, event, attempt.result.error);
      RecoverCatches(cfg, w, start, event, attempt, c, r);
      CatchReports(cfg, w, start + n, event, attempt.result.error, c);
      AppendKeepsOrder(w, start, attempt.effects, c.effects, r.effects, t1, t2);
    }
  }

  /** For an S3 event with a key, the handler only reads the object from
      the production bucket, copies it under the same key to the dev and
      staging buckets, dev before staging, sleeps between retries, and
      reports. */
  lemma HandlerS3Writes(cfg: Config, w: Oracle, start: nat, event: ReplicationEvent, key: string, r: Run<HttpResponse>)
    requires event.detail.eventSource == S3Source
    requires event.detail.requestParameters.key == Some(key) && key != ""
    requires r == HandlerRun(cfg, w, start, event, TargetEnvironments)
    ensures InOrder(w, start, r.effects, TargetBucket(cfg, "dev"), TargetBucket(cfg, "staging"))
    ensures forall e :: e in r.effects ==>
      || e.Sleep?
      || IsReport(e)
      || e == Call(GetObject(cfg.prodBucket, key))
      || CopiesTo(e, key, TargetBucket(cfg, "dev"))
      || CopiesTo(e, key, TargetBucket(cfg, "staging"))
  {
    var copy := ObjectsRun(cfg, w, start, key, TargetEnvironments);
    var at := start + |copy.effects|;
    var attempt := TryRun(cfg, w, start, event, TargetEnvironments);
    TryS3(cfg, w, start, event, TargetEnvironments, key, copy, at, attempt);
    ObjectsReplicated(cfg, w, start, key, copy);
    NotifyKeepsOrder(cfg, w, start, copy, at, S3SuccessMessage(key), TargetBucket(cfg, "dev"), TargetBucket(cfg, "staging"), attempt);
    HandlerRecovers(cfg, w, start, event, TargetEnvironments, attempt, r);
    RecoverKeepsOrder(cfg, w, start, event, attempt, r, TargetBucket(cfg, "dev"), TargetBucket(cfg, "staging"));
  }

  /** A completed response after a replication: the success notification
      was the last entry and the only report. */
  lemma {:induction false} CompletedShape(cfg: Config, w: Oracle, start: nat, copy: Run<()>, at: nat, message: string,
                                          t1: string, t2: string, attempt: Run<HttpResponse>, r: Run<HttpResponse>)
    requires Replicated(w, start, copy, t1, t2)
    requires at == start + |copy.effects|
    requires attempt == ThenNotify(cfg, w, copy, at, message)
    requires attempt.result.Ok? ==> r == attempt
    requires r.result.Ok? ==> attempt.result.Ok?
    ensures r.result.Ok? ==>
      && r.result.value == Completed
      && |r.effects| == |copy.effects| + 1
      && r.effects[|r.effects| - 1] == SuccessCall(cfg, message, w.clock(start + |r.effects| - 1))
      && (forall k :: 0 <= k < |r.effects| - 1 ==> !IsReport(r.effects[k]))
  {
    ThenNotifyShape(cfg, w, copy, at, message, attempt);
    if r.result.Ok? {
      assert forall k :: 0 <= k < |copy.effects| ==> r.effects[k] == copy.effects[k] && copy.effects[k] in copy.effects;
    }
  }

  /** For an S3 event with a key, a completed response means the object was
      copied to both the dev and the staging bucket, and then the success
      notification naming the key and both environments was published, as
      the last entry and the only report. */
  lemma HandlerS3Completes(cfg: Config, w: Oracle, start: nat, event: ReplicationEvent, key: string, r: Run<HttpResponse>)
    requires event.detail.eventSource == S3Source
    requires event.detail.requestParameters.key == Some(key) && key != ""
    requires r == HandlerRun(cfg, w, start, event, TargetEnvironments)
    ensures r.result.Ok? ==>
      && r.result.value == Completed
      && Delivered(w, start, r.effects, TargetBucket(cfg, "dev"))
      && Delivered(w, start, r.effects, TargetBucket(cfg, "staging"))
      && |r.effects| > 0
      && r.effects[|r.effects| - 1] == SuccessCall(cfg, S3SuccessMessage(key), w.clock(start + |r.effects| - 1))
      && (forall k :: 0 <= k < |r.effects| - 1 ==> !IsReport(r.effects[k]))
  {
    var copy := ObjectsRun(cfg, w, start, key, TargetEnvironments);
    var at := start + |copy.effects|;
    var attempt := TryRun(cfg, w, start, event, TargetEnvironments);
    var dev, staging := TargetBucket(cfg, "dev"), TargetBucket(cfg, "staging");
    TryS3(cfg, w, start, event, TargetEnvironments, key, copy, at, attempt);
    ObjectsReplicated(cfg, w, start, key, copy);
    NotifyDelivers(cfg, w, start, copy, at, S3SuccessMessage(key), dev, staging, attempt);
    HandlerRecovers(cfg, w, start, event, TargetEnvironments, attempt, r);
    RecoverPassesSuccess(cfg, w, start, event, attempt, r);
    CompletedShape(cfg, w, start, copy, at, S3SuccessMessage(key), dev, staging, attempt, r);
  }

  /** The `try` block's entries open the handler's log. */
  lemma RecoverKeepsPrefix(cfg: Config, w: Oracle, start: nat, event: ReplicationEvent,
                           attempt: Run<HttpResponse>, r: Run<HttpResponse>)
    requires r == Recover(cfg, w, start, event, attempt)
    ensures |r.effects| >= |attempt.effects|
    ensures forall k :: 0 <= k < |attempt.effects| ==> r.effects[k] == attempt.effects[k]
  {
  }

  /** For a DynamoDB event, the handler first reads the item from the
      production table by the key built from the event and the clock, and
      it writes the dev table before the staging table. */
  lemma HandlerDynamoDBWrites(cfg: Config, w: Oracle, start: nat, event: ReplicationEvent, r: Run<HttpResponse>)
    requires event.detail.eventSource == DynamoDBSource
    requires r == HandlerRun(cfg, w, start, event, TargetEnvironments)
    ensures |r.effects| > 0
    ensures r.effects[0] == Call(GetItem(cfg.prodTable, ItemKey(event.detail.requestParameters, w.clock(start))))
    ensures InOrder(w, start, r.effects, TargetTable(cfg, "dev"), TargetTable(cfg, "staging"))
  {
    var itemKey := ItemKey(event.detail.requestParameters, w.clock(start));
    var copy := ItemRun(cfg, w, start, itemKey, TargetEnvironments);
    var at := start + |copy.effects|;
    var attempt := TryRun(cfg, w, start, event, TargetEnvironments);
    var dev, staging := TargetTable(cfg, "dev"), TargetTable(cfg, "staging");
    TryDynamoDB(cfg, w, start, event, TargetEnvironments, copy, at, attempt);
    ItemReplicated(cfg, w, start, itemKey, copy);
    ItemRunStartsWithRead(cfg, w, start, itemKey, TargetEnvironments, copy);
    NotifyKeepsCopy(cfg, w, copy, at, DynamoDBSuccessMessage, attempt);
    NotifyKeepsOrder(cfg, w, start, copy, at, DynamoDBSuccessMessage, dev, staging, attempt);
    HandlerRecovers(cfg, w, start, event, TargetEnvironments, attempt, r);
    RecoverKeepsPrefix(cfg, w, start, event, attempt, r);
    RecoverKeepsOrder(cfg, w, start, event, attempt, r, dev, staging);
  }

  /** For a DynamoDB event, a completed response means the item was written
      to both the dev and the staging table, and then the success
      notification was published, as the last entry and the only report. */
  lemma HandlerDynamoDBCompletes(cfg: Config, w: Oracle, start: nat, event: ReplicationEvent, r: Run<HttpResponse>)
    requires event.detail.eventSource == DynamoDBSource
    requires r == HandlerRun(cfg, w, start, event, TargetEnvironments)
    ensures r.result.Ok? ==>
      && r.result.value == Completed
      && Delivered(w, start, r.effects, TargetTable(cfg, "dev"))
      && Delivered(w, start, r.effects, TargetTable(cfg, "staging"))
      && |r.effects| > 0
      && r.effects[|r.effects| - 1] == SuccessCall(cfg, DynamoDBSuccessMessage, w.clock(start + |r.effects| - 1))
      && (forall k :: 0 <= k < |r.effects| - 1 ==> !IsReport(r.effects[k]))
  {
    var itemKey := ItemKey(event.detail.requestParameters, w.clock(start));
    var copy := ItemRun(cfg, w, start, itemKey, TargetEnvironments);
    var at := start + |copy.effects|;
    var attempt := TryRun(cfg, w, start, event, TargetEnvironments);
    var dev, staging := TargetTable(cfg, "dev"), TargetTable(cfg, "staging");
    TryDynamoDB(cfg, w, start, event, TargetEnvironments, copy, at, attempt);
    ItemReplicated(cfg, w, start, itemKey, copy);
    NotifyDelivers(cfg, w, start, copy, at, DynamoDBSuccessMessage, dev, staging, attempt);
    HandlerRecovers(cfg, w, start, event, TargetEnvironments, attempt, r);
    RecoverPassesSuccess(cfg, w, start, event, attempt, r);
    CompletedShape(cfg, w, start, copy, at, DynamoDBSuccessMessage, dev, staging, attempt, r);
  }

  /** After a `try` block that threw: if the dead-letter send failed, the
      handler throws that failure and publishes nothing; otherwise it
      publishes the failure notification with the thrown value's message
      and rethrows the original value, unless the notification failed. */
  lemma {:induction false} RecoverReports(cfg: Config, w: Oracle, start: nat, event: ReplicationEvent,
                                          attempt: Run<HttpResponse>, r: Run<HttpResponse>)
    requires attempt.result.Err?
    requires r == Recover(cfg, w, start, event, attempt)
    ensures var n, p := |attempt.effects|, start + |attempt.effects|;
      && (w.replies(p).Err? ==> |r.effects| == n + 1 && r.result == Err(w.replies(p).error))
      && (w.replies(p).Ok? ==>
            && |r.effects| == n + 2
            && r.effects[n + 1] == FailureCall(cfg, ErrorMessage(attempt.result.error), w.clock(p + 1))
            && r.result == if w.replies(p + 1).Ok? then attempt.result else Err(w.replies(p + 1).error))
  {
    var n := |attempt.effects|;
    var c := CatchRun(cfg, w, start + n, event, attempt.result.error);
    RecoverCatches(cfg, w, start, event, attempt, c, r);
    CatchReports(cfg, w, start + n, event, attempt.result.error, c);
    if w.replies(start + n).Ok? {
      assert r.effects[n + 1] == c.effects[1];
    }
  }

  /** A replication that succeeded, followed by a success notification
      that failed: the `catch` block sends the event to the dead-letter
      queue with the notification's error right after the notification, and
      throws. */
  lemma {:induction false} NotifyFailureSendsDeadLetter(cfg: Config, w: Oracle, start: nat, event: ReplicationEvent,
                                               copy: Run<()>, at: nat, message: string,
                                               attempt: Run<HttpResponse>, r: Run<HttpResponse>)
    requires at == start + |copy.effects|
    requires attempt == ThenNotify(cfg, w, copy, at, message)
    requires copy.result.Ok? && w.replies(at).Err?
    requires r == Recover(cfg, w, start, event, attempt)
    ensures r.result.Err?
    ensures |r.effects| > |copy.effects| + 1
    ensures r.effects[|copy.effects|] == SuccessCall(cfg, message, w.clock(at))
    ensures r.effects[|copy.effects| + 1] == DeadLetterCall(cfg, event, w.replies(at).error, w.clock(at + 1))
  {
    ThenNotifyShape(cfg, w, copy, at, message, attempt);
    RecoverSendsDeadLetter(cfg, w, start, event, attempt, r);
    var n := |attempt.effects|;
    assert n == |copy.effects| + 1;
    assert r.effects[|copy.effects|] == r.effects[..n][|copy.effects|] == attempt.effects[|copy.effects|];
  }

  /** For an S3 event with a key: when the object was copied to both
      buckets but the success notification failed, the handler sends the
      event to the dead-letter queue with the notification's error right
      after it, and throws. */
  lemma HandlerS3NotifyFailure(cfg: Config, w: Oracle, start: nat, event: ReplicationEvent, key: string,
                               copy: Run<()>, at: nat, r: Run<HttpResponse>)
    requires event.detail.eventSource == S3Source
    requires event.detail.requestParameters.key == Some(key) && key != ""
    requires copy == ObjectsRun(cfg, w, start, key, TargetEnvironments)
    requires at == start + |copy.effects|
    requires copy.result.Ok? && w.replies(at).Err?
    requires r == HandlerRun(cfg, w, start, event, TargetEnvironments)
    ensures r.result.Err?
    ensures |r.effects| > |copy.effects| + 1
    ensures r.effects[|copy.effects|] == SuccessCall(cfg, S3SuccessMessage(key), w.clock(at))
    ensures r.effects[|copy.effects| + 1] == DeadLetterCall(cfg, event, w.replies(at).error, w.clock(at + 1))
  {
    var attempt := TryRun(cfg, w, start, event, TargetEnvironments);
    TryS3(cfg, w, start, event, TargetEnvironments, key, copy, at, attempt);
    HandlerRecovers(cfg, w, start, event, TargetEnvironments, attempt, r);
    NotifyFailureSendsDeadLetter(cfg, w, start, event, copy, at, S3SuccessMessage(key), attempt, r);
  }

  /** For a DynamoDB event: when the item was written to both tables but
      the success notification failed, the handler sends the event to the
      dead-letter queue with the notification's error right after it, and
      throws. */
  lemma HandlerDynamoDBNotifyFailure(cfg: Config, w: Oracle, start: nat, event: ReplicationEvent,
                                     copy: Run<()>, at: nat, r: Run<HttpResponse>)
    requires event.detail.eventSource == DynamoDBSource
    requires copy == ItemRun(cfg, w, start, ItemKey(event.detail.requestParameters, w.clock(start)), TargetEnvironments)
    requires at == start + |copy.effects|
    requires copy.result.Ok? && w.replies(at).Err?
    requires r == HandlerRun(cfg, w, start, event, TargetEnvironments)
    ensures r.result.Err?
    ensures |r.effects| > |copy.effects| + 1
    ensures r.effects[|copy.effects|] == SuccessCall(cfg, DynamoDBSuccessMessage, w.clock(at))
    ensures r.effects[|copy.effects| + 1] == DeadLetterCall(cfg, event, w.replies(at).error, w.clock(at + 1))
  {
    var attempt := TryRun(cfg, w, start, event, TargetEnvironments);
    TryDynamoDB(cfg, w, start, event, TargetEnvironments, copy, at, attempt);
    HandlerRecovers(cfg, w, start, event, TargetEnvironments, attempt, r);
    NotifyFailureSendsDeadLetter(cfg, w, start, event, copy, at, DynamoDBSuccessMessage, attempt, r);
  }

  /** Whatever the `try` block threw, the handler throws too: it keeps the
      `try` block's entries, sends the event to the dead-letter queue right
      after them with the thrown value's message, and then only reports. */
  lemma HandlerFailureSendsDeadLetter(cfg: Config, w: Oracle, start: nat, event: ReplicationEvent,
                            attempt: Run<HttpResponse>, r: Run<HttpResponse>)
    requires attempt == TryRun(cfg, w, start, event, TargetEnvironments)
    requires attempt.result.Err?
    requires r == HandlerRun(cfg, w, start, event, TargetEnvironments)
    ensures r.result.Err?
    ensures |r.effects| > |attempt.effects|
    ensures r.effects[..|attempt.effects|] == attempt.effects
    ensures r.effects[|attempt.effects|] == DeadLetterCall(cfg, event, attempt.result.error, w.clock(start + |attempt.effects|))
    ensures forall i :: |attempt.effects| <= i < |r.effects| ==> IsReport(r.effects[i])
  {
    HandlerRecovers(cfg, w, start, event, TargetEnvironments, attempt, r);
    RecoverSendsDeadLetter(cfg, w, start, event, attempt, r);
  }

  /** After the `try` block threw, the event is sent to the dead-letter
      queue; when that send succeeds the failure notification with the
      thrown value's message is published and the original value is
      rethrown.  A failure of either call is thrown instead, and a failed
      dead-letter send publishes nothing. */
  lemma HandlerFailureReports(cfg: Config, w: Oracle, start: nat, event: ReplicationEvent,
                              attempt: Run<HttpResponse>, r: Run<HttpResponse>)
    requires attempt == TryRun(cfg, w, start, event, TargetEnvironments)
    requires attempt.result.Err?
    requires r == HandlerRun(cfg, w, start, event, TargetEnvironments)
    ensures var n, p := |attempt.effects|, start + |attempt.effects|;
      && (w.replies(p).Err? ==> |r.effects| == n + 1 && r.result == Err(w.replies(p).error))
      && (w.replies(p).Ok? ==>
            && |r.effects| == n + 2
            && r.effects[n + 1] == FailureCall(cfg, ErrorMessage(attempt.result.error), w.clock(p + 1))
            && r.result == if w.replies(p + 1).Ok? then attempt.result else Err(w.replies(p + 1).error))
  {
    HandlerRecovers(cfg, w, start, event, TargetEnvironments, attempt, r);
    RecoverReports(cfg, w, start, event, attempt, r);
  }

  /** An S3 event without a key (absent or empty) is rejected before any
      read: the handler only sends the event to the dead-letter queue with
      'S3 key not found in event', publishes the failure if that send
      worked, and throws. */
  lemma HandlerMissingKey(cfg: Config, w: Oracle, start: nat, event: ReplicationEvent, r: Run<HttpResponse>)
    requires event.detail.eventSource == S3Source
    requires !Truthy(event.detail.requestParameters.key)
    requires r == HandlerRun(cfg, w, start, event, TargetEnvironments)
    ensures r.result.Err?
    ensures |r.effects| > 0 && r.effects[0] == DeadLetterCall(cfg, event, MissingKey, w.clock(start))
    ensures forall e :: e in r.effects ==> IsReport(e)
    ensures w.replies(start).Ok? ==>
      |r.effects| == 2 && r.effects[1] == FailureCall(cfg, "S3 key not found in event", w.clock(start + 1))
  {
    var attempt := TryRun(cfg, w, start, event, TargetEnvironments);
    assert attempt == Run(Err(MissingKey), []);
    HandlerRecovers(cfg, w, start, event, TargetEnvironments, attempt, r);
    RecoverSendsDeadLetter(cfg, w, start, event, attempt, r);
    RecoverReports(cfg, w, start, event, attempt, r);
  }

  /** An event from any other source is acknowledged without doing
      anything. */
  lemma HandlerUnknownSource(cfg: Config, w: Oracle, start: nat, event: ReplicationEvent, r: Run<HttpResponse>)
    requires event.detail.eventSource != S3Source && event.detail.eventSource != DynamoDBSource
    requires r == HandlerRun(cfg, w, start, event, TargetEnvironments)
    ensures r.result == Ok(Completed) && r.effects == []
  {
  }

  /** Every invocation that throws has issued a dead-letter send for its
      event. */
  lemma HandlerErrorsSendDeadLetter(cfg: Config, w: Oracle, start: nat, event: ReplicationEvent, r: Run<HttpResponse>)
    requires r == HandlerRun(cfg, w, start, event, TargetEnvironments)
    ensures r.result.Err? ==> DeadLetterSent(cfg, event, r.effects)
  {
    var attempt := TryRun(cfg, w, start, event, TargetEnvironments);
    HandlerRecovers(cfg, w, start, event, TargetEnvironments, attempt, r);
    RecoverPassesSuccess(cfg, w, start, event, attempt, r);
    if attempt.result.Err? {
      RecoverSendsDeadLetter(cfg, w, start, event, attempt, r);
    }
  }
}
