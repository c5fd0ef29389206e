/** The handler as the program runs it: one invocation appends to an effect
    log, step by step, each AWS call getting its reply from the oracle.  Every
    operation is proved to do exactly what its spec function says, so the
    lemmas about the spec functions hold of the program. */
module Lambda {
  import opened Types
  import opened Payloads
  import opened Backoff
  import opened Replication
  import opened Dispatch

  class Replicator {
    /** The configuration read from the process environment. */
    const cfg: Config
    /** The replies of the AWS services and the clock readings. */
    const w: Oracle
    /** Everything the invocation has done so far. */
    var log: seq<Effect>

    constructor (cfg: Config, w: Oracle)
      ensures this.cfg == cfg && this.w == w && log == []
    {
      this.cfg := cfg;
      this.w := w;
      log := [];
    }

    /** `client.send(command)`: the call is recorded and answered. */
    method Send(request: Request) returns (reply: Reply)
      modifies this
      ensures reply == w.replies(|old(log)|)
      ensures log == old(log) + [Call(request)]
    {
      reply := w.replies(|log|);
      log := log + [Call(request)];
    }

    /** `await sleep(ms)` */
    method Pause(ms: nat)
      modifies this
      ensures log == old(log) + [Sleep(ms)]
    {
      log := log + [Sleep(ms)];
    }

    /** `Date.now()` */
    function Now(): nat
      reads this
    {
      w.clock(|log|)
    }

    /** `retryWithBackoff(() => client.send(request), retries)` */
    method RetryWithBackoff(request: Request, retries: int) returns (result: Result<Response, Thrown>)
      modifies this
      ensures var run := RetryRun(w, |old(log)|, request, retries, 0);
        result == run.result && log == old(log) + run.effects
    {
      ghost var total := RetryRun(w, |log|, request, retries, 0);
      ghost var rest := total;
      var i: nat := 0;
      while i < retries
        invariant rest == RetryRun(w, |log|, request, retries, i)
        invariant total.result == rest.result && old(log) + total.effects == log + rest.effects
        decreases retries - i
      {
        ghost var before := log;
        var reply := Send(request);
        if reply.Ok? || i >= retries - 1 {
          RetryAttemptEnds(w, request, retries, i, old(log), before, log, reply, total, rest);
          return reply;
        }
        ghost var mid := log;
        Pause(Delay(i));
        ghost var next := RetryRun(w, |log|, request, retries, i + 1);
        RetryAttemptFails(w, request, retries, i, old(log), before, mid, log, reply, total, rest, next);
        rest := next;
        i := i + 1;
      }
      RetryPastEnd(w, request, retries, i, old(log), log, total, rest);
      return Err(MaxRetriesExceeded);
    }
  
    /** `replicateS3Object(key, env)` */
    method ReplicateS3Object(key: string, env: string) returns (result: Result<(), Thrown>)
      modifies this
      ensures var run := ObjectRun(cfg, w, |old(log)|, key, env);
        result == run.result && log == old(log) + run.effects
    {
      ghost var before := log;
      ghost var r := ObjectRun(cfg, w, |log|, key, env);
      ghost var get := RetryRun(w, |log|, GetObject(cfg.prodBucket, key), MaxRetries, 0);
      var response := RetryWithBackoff(GetObject(cfg.prodBucket, key), MaxRetries);
      if response.Err? || response.value.body.None? {
        ObjectReadEnds(cfg, w, key, env, before, log, response, get, r);
        if response.Err? {
          return Err(response.error);
        }
        return Err(Error("Empty object body"));
      }
      var body := response.value.body.value;
      var targetBucket := TargetBucket(cfg, env);
      var request := PutObject(targetBucket, key, body, response.value.metadata);
      ghost var mid := log;
      ghost var put := RetryRun(w, |log|, request, MaxRetries, 0);
      var written := RetryWithBackoff(request, MaxRetries);
      ObjectWritten(cfg, w, key, env, before, mid, log, response, get, written, put, r);
      if written.Err? {
        return Err(written.error);
      }
      return Ok(());
    }

    /** `publishNotification(success, message)` */
    method PublishNotification(success: bool, message: string) returns (result: Result<(), Thrown>)
      modifies this
      ensures var run := NotifyRun(cfg, w, |old(log)|, success, message);
        result == run.result && log == old(log) + run.effects
    {
      var topic := TopicFor(cfg, success);
      var subject := SubjectFor(success);
      var body := Notification(success, message, Now(), SourceEnvironment);
      var reply := Send(Publish(topic, subject, body));
      if reply.Err? {
        return Err(reply.error);
      }
      return Ok(());
    }

    /** `sendToDeadLetterQueue(event, error)` */
    method SendToDeadLetterQueue(event: ReplicationEvent, error: string) returns (result: Result<(), Thrown>)
      modifies this
      ensures var run := DeadLetterRun(cfg, w, |old(log)|, event, error);
        result == run.result && log == old(log) + run.effects
    {
      var reply := Send(SendMessage(cfg.dlqUrl, DeadLetter(event, error, Now())));
      if reply.Err? {
        return Err(reply.error);
      }
      return Ok(());
    }
  
    /** One turn of the loop of `replicateDynamoDBItem`: the augmented copy
        of `item` written, with retries, to the table of `env`. */
    method WriteReplica(item: Item, env: string) returns (result: Result<Response, Thrown>)
      modifies this
      ensures var run := RetryRun(w, |old(log)|, ItemWrite(cfg, w, |old(log)|, item, env), MaxRetries, 0);
        result == run.result && log == old(log) + run.effects
    {
      var request := PutItem(TargetTable(cfg, env), Augment(item, env, Now()));
      result := RetryWithBackoff(request, MaxRetries);
    }

    /** The loop of `replicateDynamoDBItem` over the target environments
      `envs`, writing the augmented copy of `item` to each table in turn
      and stopping at the first write that fails for good. */
    method WriteReplicas(item: Item, envs: seq<string>) returns (result: Result<(), Thrown>)
      modifies this
      ensures var run := FanOutRun(cfg, w, |old(log)|, item, envs);
        result == run.result && log == old(log) + run.effects
    {
      ghost var total := FanOutRun(cfg, w, |log|, item, envs);
      ghost var rest := total;
      for k := 0 to |envs|
        invariant rest == FanOutRun(cfg, w, |log|, item, envs[k..])
        invariant total.result == rest.result && old(log) + total.effects == log + rest.effects
      {
        ghost var before := log;
        ghost var put := RetryRun(w, |log|, ItemWrite(cfg, w, |log|, item, envs[k]), MaxRetries, 0);
        var written := WriteReplica(item, envs[k]);
        ghost var next := FanOutRun(cfg, w, |log|, item, envs[k + 1..]);
        FanOutProgress(cfg, w, item, envs, k, old(log), before, log, written, total, rest, put, next);
        if written.Err? {
          return Err(written.error);
        }
        rest := next;
      }
      FanOutNil(cfg, w, |log|, item, rest);
      return Ok(());
    }

    /** `replicateDynamoDBItem(itemKey)` */
    method ReplicateDynamoDBItem(itemKey: Item) returns (result: Result<(), Thrown>)
      modifies this
      ensures var run := ItemRun(cfg, w, |old(log)|, itemKey, TargetEnvironments);
        result == run.result && log == old(log) + run.effects
    {
      ghost var before := log;
      ghost var r := ItemRun(cfg, w, |log|, itemKey, TargetEnvironments);
      ghost var get := RetryRun(w, |log|, GetItem(cfg.prodTable, itemKey), MaxRetries, 0);
      var response := RetryWithBackoff(GetItem(cfg.prodTable, itemKey), MaxRetries);
      if response.Err? || response.value.item.None? {
        ItemReadEnds(cfg, w, itemKey, TargetEnvironments, before, log, response, get, r);
        if response.Err? {
          return Err(response.error);
        }
        return Err(Error("Item not found"));
      }
      var item := response.value.item.value;
      ghost var fan := FanOutRun(cfg, w, |log|, item, TargetEnvironments);
      ItemReadGoesOn(cfg, w, itemKey, TargetEnvironments, before, log, response, get, item, fan, r);
      result := WriteReplicas(item, TargetEnvironments);
    }
  
    /** The loop of the handler over the target environments `envs` for an
        S3 event, copying object `key` to each bucket in turn and stopping
        at the first copy that throws. */
    method ReplicateObjects(key: string, envs: seq<string>) returns (result: Result<(), Thrown>)
      modifies this
      ensures var run := ObjectsRun(cfg, w, |old(log)|, key, envs);
        result == run.result && log == old(log) + run.effects
    {
      ghost var total := ObjectsRun(cfg, w, |log|, key, envs);
      ghost var rest := total;
      for k := 0 to |envs|
        invariant rest == ObjectsRun(cfg, w, |log|, key, envs[k..])
        invariant total.result == rest.result && old(log) + total.effects == log + rest.effects
      {
        ghost var before := log;
        ghost var one := ObjectRun(cfg, w, |log|, key, envs[k]);
        var copied := ReplicateS3Object(key, envs[k]);
        ghost var next := ObjectsRun(cfg, w, |log|, key, envs[k + 1..]);
        ObjectsProgress(cfg, w, key, envs, k, old(log), before, log, copied, total, rest, one, next);
        if copied.Err? {
          return Err(copied.error);
        }
        rest := next;
      }
      ObjectsNil(cfg, w, |log|, key, rest);
      return Ok(());
    }

    /** The `try` block of `handler(event)`. */
    method Attempt(event: ReplicationEvent) returns (result: Result<HttpResponse, Thrown>)
      modifies this
      ensures var run := TryRun(cfg, w, |old(log)|, event, TargetEnvironments);
        result == run.result && log == old(log) + run.effects
    {
      ghost var attempt := TryRun(cfg, w, |log|, event, TargetEnvironments);
      var detail := event.detail;
      if detail.eventSource == S3Source {
        var key := detail.requestParameters.key;
        if !Truthy(key) {
          return Err(MissingKey);
        }
        ghost var copy := ObjectsRun(cfg, w, |log|, key.value, TargetEnvironments);
        var copied := ReplicateObjects(key.value, TargetEnvironments);
        TryS3(cfg, w, |old(log)|, event, TargetEnvironments, key.value, copy, |log|, attempt);
        if copied.Err? {
          ThenNotifyStops(cfg, w, copy, S3SuccessMessage(key.value), old(log), log, copied, attempt);
          return Err(copied.error);
        }
        ghost var mid := log;
        ghost var notify := NotifyRun(cfg, w, |log|, true, S3SuccessMessage(key.value));
        var published := PublishNotification(true, S3SuccessMessage(key.value));
        ThenNotifyPublishes(cfg, w, copy, S3SuccessMessage(key.value), old(log), mid, log,
                            copied, published, notify, attempt);
        if published.Err? {
          return Err(published.error);
        }
      } else if detail.eventSource == DynamoDBSource {
        var itemKey := ItemKey(detail.requestParameters, Now());
        ghost var copy := ItemRun(cfg, w, |log|, itemKey, TargetEnvironments);
        var copied := ReplicateDynamoDBItem(itemKey);
        TryDynamoDB(cfg, w, |old(log)|, event, TargetEnvironments, copy, |log|, attempt);
        if copied.Err? {
          ThenNotifyStops(cfg, w, copy, DynamoDBSuccessMessage, old(log), log, copied, attempt);
          return Err(copied.error);
        }
        ghost var mid := log;
        ghost var notify := NotifyRun(cfg, w, |log|, true, DynamoDBSuccessMessage);
        var published := PublishNotification(true, DynamoDBSuccessMessage);
        ThenNotifyPublishes(cfg, w, copy, DynamoDBSuccessMessage, old(log), mid, log,
                            copied, published, notify, attempt);
        if published.Err? {
          return Err(published.error);
        }
      }
      return Ok(Completed);
    }

    /** The `catch` block of `handler(event)` for the thrown value `e`. */
    method Catch(event: ReplicationEvent, e: Thrown) returns (result: Result<HttpResponse, Thrown>)
      modifies this
      ensures var run := CatchRun(cfg, w, |old(log)|, event, e);
        result == run.result && log == old(log) + run.effects
    {
      var message := ErrorMessage(e);
      var sent := SendToDeadLetterQueue(event, message);
      if sent.Err? {
        return Err(sent.error);
      }
      var published := PublishNotification(false, "Replication failed: " + message);
      if published.Err? {
        return Err(published.error);
      }
      return Err(e);
    }

    /** `handler(event)`: the `try` block, and the `catch` block when it
        throws. */
    method Handler(event: ReplicationEvent) returns (result: Result<HttpResponse, Thrown>)
      modifies this
      ensures var run := HandlerRun(cfg, w, |old(log)|, event, TargetEnvironments);
        result == run.result && log == old(log) + run.effects
    {
      ghost var attempt := TryRun(cfg, w, |log|, event, TargetEnvironments);
      ghost var r := HandlerRun(cfg, w, |log|, event, TargetEnvironments);
      var outcome := Attempt(event);
      if outcome.Ok? {
        return outcome;
      }
      ghost var c := CatchRun(cfg, w, |log|, event, outcome.error);
      HandlerCatchStep(cfg, w, event, TargetEnvironments, old(log), log, attempt, c, r);
      result := Catch(event, outcome.error);
    }
  }
}
