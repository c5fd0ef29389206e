/** `replicateS3Object` and `replicateDynamoDBItem`: one retried read from the
    production store, a check of what was read, then retried writes to the
    target environments. */
module Replication {
  import opened Types
  import opened Payloads
  import opened Backoff

  /** The outcome of a call whose response is not looked at. */
  function Discard(reply: Reply): Result<(), Thrown>
  {
    if reply.Ok? then Ok(()) else Err(reply.error)
  }

  /** `replicateS3Object(key, env)` started at log position `start`. */
  function ObjectRun(cfg: Config, w: Oracle, start: nat, key: string, env: string): Run<()>
  {
    var get := RetryRun(w, start, GetObject(cfg.prodBucket, key), MaxRetries, 0);
    match get.result
    case Err(e) => Run(Err(e), get.effects)
    case Ok(response) =>
      match response.body
      case None => Run(Err(Error("Empty object body")), get.effects)
      case Some(body) =>
        var put := RetryRun(w, start + |get.effects|,
                            PutObject(TargetBucket(cfg, env), key, body, response.metadata), MaxRetries, 0);
        Run(Discard(put.result), get.effects + put.effects)
  }

  /** When the read fails, its error is rethrown as it is; when it yields no
      body, 'Empty object body' is thrown; either way nothing but the read
      was attempted. */
  lemma ObjectReadFailureWritesNothing(cfg: Config, w: Oracle, start: nat, key: string, env: string,
                                       get: Run<Response>, r: Run<()>)
    requires get == RetryRun(w, start, GetObject(cfg.prodBucket, key), MaxRetries, 0)
    requires get.result.Err? || get.result.value.body.None?
    requires r == ObjectRun(cfg, w, start, key, env)
    ensures r.result == if get.result.Err? then Err(get.result.error) else Err(Error("Empty object body"))
    ensures forall e :: e in r.effects ==> e.Sleep? || e == Call(GetObject(cfg.prodBucket, key))
  {
    RetryOnlyCalls(w, start, GetObject(cfg.prodBucket, key), MaxRetries, get);
  }

  /** The read of `replicateS3Object`, taking the log from `before` to
      `after` with outcome `response`, ends the operation when it fails or
      yields no body. */
  lemma ObjectReadEnds(cfg: Config, w: Oracle, key: string, env: string,
                       before: seq<Effect>, after: seq<Effect>, response: Result<Response, Thrown>,
                       get: Run<Response>, r: Run<()>)
    requires get == RetryRun(w, |before|, GetObject(cfg.prodBucket, key), MaxRetries, 0)
    requires response == get.result && after == before + get.effects
    requires response.Err? || response.value.body.None?
    requires r == ObjectRun(cfg, w, |before|, key, env)
    ensures r.result == if response.Err? then Err(response.error) else Err(Error("Empty object body"))
    ensures after == before + r.effects
  {
  }

  /** A read that yields a body, taking the log from `before` to `mid`, and
      the retried write of that body to `env`'s bucket, taking it on to
      `after` with outcome `written`, make up the whole operation, whose
      outcome is the write's. */
  lemma ObjectWritten(cfg: Config, w: Oracle, key: string, env: string,
                      before: seq<Effect>, mid: seq<Effect>, after: seq<Effect>, response: Result<Response, Thrown>,
                      get: Run<Response>, written: Result<Response, Thrown>, put: Run<Response>, r: Run<()>)
    requires get == RetryRun(w, |before|, GetObject(cfg.prodBucket, key), MaxRetries, 0)
    requires response == get.result && mid == before + get.effects
    requires response.Ok? && response.value.body.Some?
    requires put == RetryRun(w, |mid|, PutObject(TargetBucket(cfg, env), key, response.value.body.value, response.value.metadata),
                             MaxRetries, 0)
    requires written == put.result && after == mid + put.effects
    requires r == ObjectRun(cfg, w, |before|, key, env)
    ensures r.result == Discard(written) && after == before + r.effects
  {
    assert |mid| == |before| + |get.effects|;
    AppendTwice(before, get.effects, put.effects);
  }

  /** A log made of a phase that only reads and sleeps followed by a phase
      that only writes and sleeps and ends with a write: the write occurs,
      and no read follows it. */
  lemma {:induction false} ReadThenWrite(a: seq<Effect>, b: seq<Effect>, read: Effect, write: Effect)
    requires forall e :: e in a ==> e.Sleep? || e == read
    requires forall e :: e in b ==> e.Sleep? || e == write
    requires read.Call? && write.Call? && write != read
    requires |b| > 0 && b[|b| - 1] == write
    ensures var all := a + b;
      && write in all
      && (forall e :: e in all ==> e.Sleep? || e == read || e == write)
      && (forall k1, k2 :: 0 <= k1 < k2 < |all| && all[k1] == write ==> all[k2] != read)
      && |all| > 0 && all[|all| - 1] == write
  {
    var all := a + b;
    assert forall i :: 0 <= i < |a| ==> all[i] in a;
    assert forall i :: |a| <= i < |all| ==> all[i] == b[i - |a|] && all[i] in b;
    assert all[|all| - 1] == b[|b| - 1];
  }

  /** When the read yields a body, the one write is a `PutObject` to the
      environment's bucket with the key, the bytes and the metadata read;
      no read follows a write, and the last entry is an attempt of that
      write, whose reply is the outcome. */
  lemma ObjectCopiesVerbatim(cfg: Config, w: Oracle, start: nat, key: string, env: string,
                             get: Run<Response>, r: Run<()>)
    requires get == RetryRun(w, start, GetObject(cfg.prodBucket, key), MaxRetries, 0)
    requires get.result.Ok? && get.result.value.body.Some?
    requires r == ObjectRun(cfg, w, start, key, env)
    ensures var read := Call(GetObject(cfg.prodBucket, key));
      var write := Call(PutObject(TargetBucket(cfg, env), key, get.result.value.body.value, get.result.value.metadata));
      && write in r.effects
      && (forall e :: e in r.effects ==> e.Sleep? || e == read || e == write)
      && (forall k1, k2 :: 0 <= k1 < k2 < |r.effects| && r.effects[k1] == write ==> r.effects[k2] != read)
      && |r.effects| > 0 && r.effects[|r.effects| - 1] == write
      && r.result == Discard(w.replies(start + |r.effects| - 1))
  {
    var getRequest := GetObject(cfg.prodBucket, key);
    var response := get.result.value;
    var putRequest := PutObject(TargetBucket(cfg, env), key, response.body.value, response.metadata);
    var q: nat := start + |get.effects|;
    var put := RetryRun(w, q, putRequest, MaxRetries, 0);
    assert r == Run(Discard(put.result), get.effects + put.effects);
    RetryOnlyCalls(w, start, getRequest, MaxRetries, get);
    RetryOnlyCalls(w, q, putRequest, MaxRetries, put);
    RetryEndsWithAttempt(w, q, putRequest, MaxRetries, put);
    ReadThenWrite(get.effects, put.effects, Call(getRequest), Call(putRequest));
    var last: nat := start + |r.effects| - 1;
    assert last == q + |put.effects| - 1;
  }

  /** The write of the augmented copy of `item` to one target table, with
      the clock reading taken when the write was prepared. */
  function ItemWrite(cfg: Config, w: Oracle, at: nat, item: Item, env: string): Request
  {
    PutItem(TargetTable(cfg, env), Augment(item, env, w.clock(at)))
  }

  /** The loop over the target environments that writes `item` to each, in
      order, stopping at the first write that fails for good. */
  function FanOutRun(cfg: Config, w: Oracle, start: nat, item: Item, envs: seq<string>): Run<()>
    decreases |envs|
  {
    if envs == [] then Run(Ok(()), [])
    else
      var put := RetryRun(w, start, ItemWrite(cfg, w, start, item, envs[0]), MaxRetries, 0);
      if put.result.Err? then Run(Err(put.result.error), put.effects)
      else
        var rest := FanOutRun(cfg, w, start + |put.effects|, item, envs[1..]);
        Run(rest.result, put.effects + rest.effects)
  }

  /** The loop over no environments does nothing. */
  lemma FanOutNil(cfg: Config, w: Oracle, p: nat, item: Item, fan: Run<()>)
    requires fan == FanOutRun(cfg, w, p, item, [])
    ensures fan.result == Ok(()) && fan.effects == []
  {
  }

  /** One turn of the loop over `envs`, whose first environment is `env`
      and whose remaining ones are `tail`: the retried write for `env`,
      then, only if it succeeded, the loop over `tail` from the position `q`
      after it. */
  lemma FanOutStep(cfg: Config, w: Oracle, p: nat, q: nat, item: Item, envs: seq<string>, env: string, tail: seq<string>,
                   put: Run<Response>, rest: Run<()>, fan: Run<()>)
    requires envs != [] && env == envs[0] && tail == envs[1..]
    requires put == RetryRun(w, p, ItemWrite(cfg, w, p, item, env), MaxRetries, 0)
    requires q == p + |put.effects|
    requires rest == FanOutRun(cfg, w, q, item, tail)
    requires fan == FanOutRun(cfg, w, p, item, envs)
    ensures put.result.Err? ==> fan.result == Err(put.result.error) && fan.effects == put.effects
    ensures put.result.Ok? ==> fan.result == rest.result && fan.effects == put.effects + rest.effects
  {
  }

  /** Turn `k` of the loop over `envs`, taking the log from `before` to
      `after` with the retried write for `envs[k]`, whose outcome is
      `written`; the whole loop appends `total` to `origin` and the turns
      from `k` on append `rest`.  A failed write ends the loop with its
      error; a successful one leaves the turns from `k + 1` on, `next`, to
      append the rest. */
  lemma FanOutProgress(cfg: Config, w: Oracle, item: Item, envs: seq<string>, k: nat,
                       origin: seq<Effect>, before: seq<Effect>, after: seq<Effect>,
                       written: Result<Response, Thrown>,
                       total: Run<()>, rest: Run<()>, put: Run<Response>, next: Run<()>)
    requires k < |envs|
    requires rest == FanOutRun(cfg, w, |before|, item, envs[k..])
    requires put == RetryRun(w, |before|, ItemWrite(cfg, w, |before|, item, envs[k]), MaxRetries, 0)
    requires written == put.result && after == before + put.effects
    requires next == FanOutRun(cfg, w, |after|, item, envs[k + 1..])
    requires total.result == rest.result && origin + total.effects == before + rest.effects
    ensures written.Err? ==> total.result == Err(written.error) && after == origin + total.effects
    ensures written.Ok? ==> total.result == next.result && origin + total.effects == after + next.effects
  {
    assert envs[k..][0] == envs[k] && envs[k..][1..] == envs[k + 1..];
    assert |after| == |before| + |put.effects|;
    FanOutStep(cfg, w, |before|, |after|, item, envs[k..], envs[k], envs[k + 1..], put, next, rest);
    AppendTwice(before, put.effects, next.effects);
  }

  /** The loop over a single environment is that environment's write. */
  lemma FanOutSingle(cfg: Config, w: Oracle, p: nat, item: Item, env: string, put: Run<Response>, fan: Run<()>)
    requires put == RetryRun(w, p, ItemWrite(cfg, w, p, item, env), MaxRetries, 0)
    requires fan == FanOutRun(cfg, w, p, item, [env])
    ensures fan.result == Discard(put.result) && fan.effects == put.effects
  {
    var none := FanOutRun(cfg, w, p + |put.effects|, item, [env][1..]);
    assert [env][1..] == [];
    FanOutStep(cfg, w, p, p + |put.effects|, item, [env], env, [], put, none, fan);
    FanOutNil(cfg, w, p + |put.effects|, item, none);
  }

  /** The loop over dev and staging: the dev write, and the staging write
      only if the dev write succeeded, which then decides the outcome. */
  lemma FanOutTwo(cfg: Config, w: Oracle, p: nat, item: Item, first: Run<Response>, second: Run<Response>, fan: Run<()>)
    requires first == RetryRun(w, p, ItemWrite(cfg, w, p, item, "dev"), MaxRetries, 0)
    requires second == RetryRun(w, p + |first.effects|, ItemWrite(cfg, w, p + |first.effects|, item, "staging"), MaxRetries, 0)
    requires fan == FanOutRun(cfg, w, p, item, TargetEnvironments)
    ensures first.result.Err? ==> fan.result == Err(first.result.error) && fan.effects == first.effects
    ensures first.result.Ok? ==> fan.result == Discard(second.result) && fan.effects == first.effects + second.effects
  {
    var q := p + |first.effects|;
    assert TargetEnvironments[0] == "dev" && TargetEnvironments[1..] == ["staging"];
    var rest := FanOutRun(cfg, w, q, item, ["staging"]);
    FanOutStep(cfg, w, p, q, item, TargetEnvironments, "dev", ["staging"], first, rest, fan);
    FanOutSingle(cfg, w, q, item, "staging", second, rest);
  }

  /** `replicateDynamoDBItem(itemKey)` started at log position `start`,
      looping over `envs` (the handler passes `TargetEnvironments`). */
  function ItemRun(cfg: Config, w: Oracle, start: nat, itemKey: Item, envs: seq<string>): Run<()>
  {
    var get := RetryRun(w, start, GetItem(cfg.prodTable, itemKey), MaxRetries, 0);
    match get.result
    case Err(e) => Run(Err(e), get.effects)
    case Ok(response) =>
      match response.item
      case None => Run(Err(Error("Item not found")), get.effects)
      case Some(item) =>
        var fan := FanOutRun(cfg, w, start + |get.effects|, item, envs);
        Run(fan.result, get.effects + fan.effects)
  }

  /** When the read fails its error is rethrown; when it finds no item,
      'Item not found' is thrown; either way no `PutItem` is issued. */
  lemma ItemReadFailureWritesNothing(cfg: Config, w: Oracle, start: nat, itemKey: Item, envs: seq<string>,
                                     get: Run<Response>, r: Run<()>)
    requires get == RetryRun(w, start, GetItem(cfg.prodTable, itemKey), MaxRetries, 0)
    requires get.result.Err? || get.result.value.item.None?
    requires r == ItemRun(cfg, w, start, itemKey, envs)
    ensures r.result == if get.result.Err? then Err(get.result.error) else Err(Error("Item not found"))
    ensures forall e :: e in r.effects ==> e.Sleep? || e == Call(GetItem(cfg.prodTable, itemKey))
  {
    RetryOnlyCalls(w, start, GetItem(cfg.prodTable, itemKey), MaxRetries, get);
  }

  /** The first thing `replicateDynamoDBItem` does is read the item by the
      given key from the production table. */
  lemma ItemRunStartsWithRead(cfg: Config, w: Oracle, start: nat, itemKey: Item, envs: seq<string>, r: Run<()>)
    requires r == ItemRun(cfg, w, start, itemKey, envs)
    ensures |r.effects| > 0 && r.effects[0] == Call(GetItem(cfg.prodTable, itemKey))
  {
    var get := RetryRun(w, start, GetItem(cfg.prodTable, itemKey), MaxRetries, 0);
    RetryStartsWithAttempt(w, start, GetItem(cfg.prodTable, itemKey), MaxRetries, get);
    if get.result.Ok? && get.result.value.item.Some? {
      var p := start + |get.effects|;
      var item := get.result.value.item.value;
      var fan := FanOutRun(cfg, w, p, item, envs);
      ItemRunFound(cfg, w, start, itemKey, envs, get, p, item, fan, r);
    }
  }

  /** When the item is found, its copies are written by the loop over the
      target environments, which starts at position `p`, right after the
      read. */
  lemma ItemRunFound(cfg: Config, w: Oracle, start: nat, itemKey: Item, envs: seq<string>, get: Run<Response>,
                     p: nat, item: Item, fan: Run<()>, r: Run<()>)
    requires get == RetryRun(w, start, GetItem(cfg.prodTable, itemKey), MaxRetries, 0)
    requires get.result.Ok? && get.result.value.item == Some(item)
    requires p == start + |get.effects|
    requires fan == FanOutRun(cfg, w, p, item, envs)
    requires r == ItemRun(cfg, w, start, itemKey, envs)
    ensures r.result == fan.result && r.effects == get.effects + fan.effects
  {
  }

  /** The read of `replicateDynamoDBItem`, taking the log from `before` to
      `after` with outcome `response`, ends the operation when it fails or
      finds no item. */
  lemma ItemReadEnds(cfg: Config, w: Oracle, itemKey: Item, envs: seq<string>,
                     before: seq<Effect>, after: seq<Effect>, response: Result<Response, Thrown>,
                     get: Run<Response>, r: Run<()>)
    requires get == RetryRun(w, |before|, GetItem(cfg.prodTable, itemKey), MaxRetries, 0)
    requires response == get.result && after == before + get.effects
    requires response.Err? || response.value.item.None?
    requires r == ItemRun(cfg, w, |before|, itemKey, envs)
    ensures r.result == if response.Err? then Err(response.error) else Err(Error("Item not found"))
    ensures after == before + r.effects
  {
  }

  /** A read that finds `item` leaves the rest of the operation to the loop
      `fan` over the environments, started when the log is `after`. */
  lemma ItemReadGoesOn(cfg: Config, w: Oracle, itemKey: Item, envs: seq<string>,
                       before: seq<Effect>, after: seq<Effect>, response: Result<Response, Thrown>,
                       get: Run<Response>, item: Item, fan: Run<()>, r: Run<()>)
    requires get == RetryRun(w, |before|, GetItem(cfg.prodTable, itemKey), MaxRetries, 0)
    requires response == get.result && after == before + get.effects
    requires response.Ok? && response.value.item == Some(item)
    requires fan == FanOutRun(cfg, w, |after|, item, envs)
    requires r == ItemRun(cfg, w, |before|, itemKey, envs)
    ensures r.result == fan.result && before + r.effects == after + fan.effects
  {
    assert |after| == |before| + |get.effects|;
    ItemRunFound(cfg, w, |before|, itemKey, envs, get, |after|, item, fan, r);
    AppendTwice(before, get.effects, fan.effects);
  }

  /** `e` is a write to the bucket or table called `target`. */
  predicate WritesTo(e: Effect, target: string)
  {
    && e.Call?
    && ((e.request.PutItem? && e.request.table == target) || (e.request.PutObject? && e.request.bucket == target))
  }

  /** `r` is `item` prepared for `env` at clock reading `now`: the three
      derived attributes say which environment it was written to, that it
      came from production and when (`now` in decimal, replacing any
      timestamp of `item`'s own), and every other attribute of `item` is
      kept as it is. */
  predicate IsReplica(item: Item, env: string, now: nat, r: Item)
  {
    && r.Keys == item.Keys + DerivedFields
    && r["environment"] == S(env)
    && r["replicatedFrom"] == S(SourceEnvironment)
    && r["replicationTimestamp"] == N(DecimalString(now))
    && (forall k :: k in item && k !in DerivedFields ==> r[k] == item[k])
  }

  /** `e` writes to `env`'s table a replica of `item` for `env` stamped
      with the clock reading at log position `at`. */
  predicate ReplicaWrite(cfg: Config, w: Oracle, item: Item, env: string, at: nat, e: Effect)
  {
    e.Call? && e.request.PutItem? && e.request.table == TargetTable(cfg, env) && IsReplica(item, env, w.clock(at), e.request.item)
  }

  /** Every entry of `log` is a sleep, or a replica write for dev stamped at
      position `p1`, or one for staging stamped at position `p2`. */
  predicate ReplicaLog(cfg: Config, w: Oracle, item: Item, p1: nat, p2: nat, log: seq<Effect>)
  {
    forall e :: e in log ==>
      e.Sleep? || ReplicaWrite(cfg, w, item, "dev", p1, e) || ReplicaWrite(cfg, w, item, "staging", p2, e)
  }

  /** Every entry of `log` is a sleep, the `read`, or a replica write for dev
      stamped at position `p1` or for staging stamped at position `p2`. */
  predicate ReadThenReplicaLog(cfg: Config, w: Oracle, item: Item, read: Effect, p1: nat, p2: nat, log: seq<Effect>)
  {
    forall e :: e in log ==>
      e.Sleep? || e == read || ReplicaWrite(cfg, w, item, "dev", p1, e) || ReplicaWrite(cfg, w, item, "staging", p2, e)
  }

  /** The write of the loop for `env` prepared at position `at` is a replica
      write for `env` stamped with the clock reading at `at`. */
  lemma ItemWriteIsReplica(cfg: Config, w: Oracle, at: nat, item: Item, env: string)
    ensures ReplicaWrite(cfg, w, item, env, at, Call(ItemWrite(cfg, w, at, item, env)))
  {
    AugmentOverrides(item, env, w.clock(at));
  }

  /** A log appended from position `start` writes to `t1` before `t2`: no
      write to `t1` follows a write to `t2`, and every write to `t2` comes
      after a write to `t1` that succeeded. */
  ghost predicate InOrder(w: Oracle, start: nat, log: seq<Effect>, t1: string, t2: string)
  {
    && (forall k1, k2 :: 0 <= k1 < k2 < |log| && WritesTo(log[k1], t2) ==> !WritesTo(log[k2], t1))
    && (forall k :: 0 <= k < |log| && WritesTo(log[k], t2) ==>
          exists j :: 0 <= j < k && WritesTo(log[j], t1) && w.replies(start + j).Ok?)
  }

  /** A log that never writes to `t2` is in order. */
  lemma NoSecondWrite(w: Oracle, start: nat, log: seq<Effect>, t1: string, t2: string)
    requires forall e :: e in log ==> !WritesTo(e, t2)
    ensures InOrder(w, start, log, t1, t2)
  {
    assert forall k :: 0 <= k < |log| ==> log[k] in log;
  }

  /** A phase that ends with a successful write to `t1` and never writes to
      `t2`, followed by a phase that never writes to `t1`, is in order. */
  lemma {:induction false} TwoPhases(w: Oracle, start: nat, first: seq<Effect>, second: seq<Effect>, t1: string, t2: string)
    requires forall e :: e in first ==> !WritesTo(e, t2)
    requires forall e :: e in second ==> !WritesTo(e, t1)
    requires |first| > 0 && WritesTo(first[|first| - 1], t1) && w.replies(start + |first| - 1).Ok?
    ensures InOrder(w, start, first + second, t1, t2)
  {
    var all := first + second;
    assert forall i :: 0 <= i < |first| ==> all[i] in first;
    assert forall i :: |first| <= i < |all| ==> all[i] in second;
    assert all[|first| - 1] == first[|first| - 1];
  }

  /** A log in order stays in order behind a prefix of sleeps and of a
      call that writes to neither table. */
  lemma {:induction false} PrefixKeepsOrder(w: Oracle, start: nat, pre: seq<Effect>, read: Effect, p: nat,
                                            log: seq<Effect>, all: seq<Effect>, t1: string, t2: string)
    requires forall e :: e in pre ==> e.Sleep? || e == read
    requires !WritesTo(read, t1) && !WritesTo(read, t2)
    requires p == start + |pre|
    requires InOrder(w, p, log, t1, t2)
    requires all == pre + log
    ensures InOrder(w, start, all, t1, t2)
  {
    assert forall i :: 0 <= i < |pre| ==> all[i] in pre;
    assert forall i :: |pre| <= i < |all| ==> all[i] == log[i - |pre|];
    forall k | 0 <= k < |all| && WritesTo(all[k], t2)
      ensures exists j :: 0 <= j < k && WritesTo(all[j], t1) && w.replies(start + j).Ok?
    {
      var j :| 0 <= j < k - |pre| && WritesTo(log[j], t1) && w.replies(p + j).Ok?;
      assert all[|pre| + j] == log[j];
    }
  }

  /** The dev and staging tables are distinct. */
  lemma TargetTablesDistinct(cfg: Config)
    ensures TargetTable(cfg, "dev") != TargetTable(cfg, "staging")
  {
    if TargetTable(cfg, "dev") == TargetTable(cfg, "staging") {
      TargetTableInjective(cfg, "dev", "staging");
    }
  }

  /** Every entry of the loop over the target environments is a sleep or
      the augmented copy of the item written to dev's or staging's table,
      stamped with the clock reading at the start of that environment's
      turn: `p` for dev, and for staging the position `q` after dev's
      retried write. */
  lemma FanOutWrites(cfg: Config, w: Oracle, p: nat, item: Item, fan: Run<()>)
    requires fan == FanOutRun(cfg, w, p, item, TargetEnvironments)
    ensures ReplicaLog(cfg, w, item, p, StagingStart(cfg, w, p, item), fan.effects)
  {
    FanOutRequests(cfg, w, p, item, fan);
    OnlyReplicas(cfg, w, item, p, StagingStart(cfg, w, p, item), fan.effects);
  }

  /** The position at which the staging turn of the loop started at `p`
      begins: right after dev's retried write. */
  function StagingStart(cfg: Config, w: Oracle, p: nat, item: Item): nat
  {
    p + |RetryRun(w, p, ItemWrite(cfg, w, p, item, "dev"), MaxRetries, 0).effects|
  }

  /** Every entry of the loop over the target environments is a sleep, the
      write prepared for dev at `p`, or the one prepared for staging at the
      position `q` after dev's retried write. */
  lemma FanOutRequests(cfg: Config, w: Oracle, p: nat, item: Item, fan: Run<()>)
    requires fan == FanOutRun(cfg, w, p, item, TargetEnvironments)
    ensures var q := StagingStart(cfg, w, p, item);
      forall e :: e in fan.effects ==>
        e.Sleep? || e == Call(ItemWrite(cfg, w, p, item, "dev")) || e == Call(ItemWrite(cfg, w, q, item, "staging"))
  {
    var devRequest := ItemWrite(cfg, w, p, item, "dev");
    var first := RetryRun(w, p, devRequest, MaxRetries, 0);
    var q := p + |first.effects|;
    assert StagingStart(cfg, w, p, item) == q;
    var stagingRequest := ItemWrite(cfg, w, q, item, "staging");
    var second := RetryRun(w, q, stagingRequest, MaxRetries, 0);
    RetryOnlyCalls(w, p, devRequest, MaxRetries, first);
    RetryOnlyCalls(w, q, stagingRequest, MaxRetries, second);
    FanOutTwo(cfg, w, p, item, first, second, fan);
    if first.result.Ok? {
      assert forall e :: e in fan.effects ==> e in first.effects || e in second.effects;
    }
  }

  /** A log of sleeps, the write for dev prepared at `p1` and the write for
      staging prepared at `p2` holds only sleeps and replica writes stamped
      with the clock readings at `p1` and `p2`. */
  lemma {:induction false} OnlyReplicas(cfg: Config, w: Oracle, item: Item, p1: nat, p2: nat, log: seq<Effect>)
    requires forall e :: e in log ==>
      e.Sleep? || e == Call(ItemWrite(cfg, w, p1, item, "dev")) || e == Call(ItemWrite(cfg, w, p2, item, "staging"))
    ensures ReplicaLog(cfg, w, item, p1, p2, log)
  {
    ItemWriteIsReplica(cfg, w, p1, item, "dev");
    ItemWriteIsReplica(cfg, w, p2, item, "staging");
  }

  /** Two retried writes, the second started only if the first succeeded:
      the first table is written before the second. */
  lemma TwoWritesInOrder(w: Oracle, p: nat, r1: Request, r2: Request, t1: string, t2: string,
                         first: Run<Response>, second: Run<Response>)
    requires WritesTo(Call(r1), t1) && !WritesTo(Call(r1), t2)
    requires WritesTo(Call(r2), t2) && !WritesTo(Call(r2), t1)
    requires first == RetryRun(w, p, r1, MaxRetries, 0)
    requires second == RetryRun(w, p + |first.effects|, r2, MaxRetries, 0)
    ensures InOrder(w, p, first.effects, t1, t2)
    ensures first.result.Ok? ==> InOrder(w, p, first.effects + second.effects, t1, t2)
  {
    RetryOnlyCalls(w, p, r1, MaxRetries, first);
    RetryOnlyCalls(w, p + |first.effects|, r2, MaxRetries, second);
    NoSecondWrite(w, p, first.effects, t1, t2);
    if first.result.Ok? {
      RetryEndsWithAttempt(w, p, r1, MaxRetries, first);
      TwoPhases(w, p, first.effects, second.effects, t1, t2);
    }
  }

  /** The loop over the target environments writes dev before staging. */
  lemma FanOutOrder(cfg: Config, w: Oracle, p: nat, item: Item, fan: Run<()>)
    requires fan == FanOutRun(cfg, w, p, item, TargetEnvironments)
    ensures InOrder(w, p, fan.effects, TargetTable(cfg, "dev"), TargetTable(cfg, "staging"))
  {
    TargetTablesDistinct(cfg);
    var devRequest := ItemWrite(cfg, w, p, item, "dev");
    var first := RetryRun(w, p, devRequest, MaxRetries, 0);
    var q := p + |first.effects|;
    var stagingRequest := ItemWrite(cfg, w, q, item, "staging");
    var second := RetryRun(w, q, stagingRequest, MaxRetries, 0);
    FanOutTwo(cfg, w, p, item, first, second, fan);
    TwoWritesInOrder(w, p, devRequest, stagingRequest, TargetTable(cfg, "dev"), TargetTable(cfg, "staging"), first, second);
  }

  /** Two retried writes, the second started only if the first succeeded,
      combined into `fan`: the last entry is an attempt of one of the two
      writes, its reply is the outcome, and on a success it is an attempt of
      the second write. */
  lemma TwoWritesOutcome(w: Oracle, p: nat, r1: Request, r2: Request,
                         first: Run<Response>, second: Run<Response>, fan: Run<()>)
    requires first == RetryRun(w, p, r1, MaxRetries, 0)
    requires second == RetryRun(w, p + |first.effects|, r2, MaxRetries, 0)
    requires first.result.Err? ==> fan.result == Err(first.result.error) && fan.effects == first.effects
    requires first.result.Ok? ==> fan.result == Discard(second.result) && fan.effects == first.effects + second.effects
    ensures |fan.effects| > 0
    ensures fan.effects[|fan.effects| - 1] == Call(r1) || fan.effects[|fan.effects| - 1] == Call(r2)
    ensures fan.result == Discard(w.replies(p + |fan.effects| - 1))
    ensures fan.result.Ok? ==> fan.effects[|fan.effects| - 1] == Call(r2)
  {
    if first.result.Err? {
      RetryEndsWithAttempt(w, p, r1, MaxRetries, first);
    } else {
      var q: nat := p + |first.effects|;
      RetryEndsWithAttempt(w, q, r2, MaxRetries, second);
      assert fan.effects[|fan.effects| - 1] == second.effects[|second.effects| - 1];
      var last: nat := p + |fan.effects| - 1;
      assert last == q + |second.effects| - 1;
    }
  }

  /** The loop's last entry is a write attempt to dev's or staging's table,
      its reply is the outcome, and on a success it was a staging write. */
  lemma FanOutOutcome(cfg: Config, w: Oracle, p: nat, item: Item, fan: Run<()>)
    requires fan == FanOutRun(cfg, w, p, item, TargetEnvironments)
    ensures |fan.effects| > 0
    ensures var last := fan.effects[|fan.effects| - 1];
      WritesTo(last, TargetTable(cfg, "dev")) || WritesTo(last, TargetTable(cfg, "staging"))
    ensures fan.result == Discard(w.replies(p + |fan.effects| - 1))
    ensures fan.result.Ok? ==> WritesTo(fan.effects[|fan.effects| - 1], TargetTable(cfg, "staging"))
  {
    var devRequest := ItemWrite(cfg, w, p, item, "dev");
    var first := RetryRun(w, p, devRequest, MaxRetries, 0);
    var q: nat := p + |first.effects|;
    var stagingRequest := ItemWrite(cfg, w, q, item, "staging");
    var second := RetryRun(w, q, stagingRequest, MaxRetries, 0);
    assert WritesTo(Call(devRequest), TargetTable(cfg, "dev"));
    assert WritesTo(Call(stagingRequest), TargetTable(cfg, "staging"));
    FanOutTwo(cfg, w, p, item, first, second, fan);
    TwoWritesOutcome(w, p, devRequest, stagingRequest, first, second, fan);
  }

  /** A read phase followed by replica writes for dev and staging. */
  lemma {:induction false} ReadThenReplicas(cfg: Config, w: Oracle, item: Item, p1: nat, p2: nat, pre: seq<Effect>, read: Effect,
                                            log: seq<Effect>, all: seq<Effect>)
    requires forall e :: e in pre ==> e.Sleep? || e == read
    requires ReplicaLog(cfg, w, item, p1, p2, log)
    requires all == pre + log
    ensures ReadThenReplicaLog(cfg, w, item, read, p1, p2, all)
  {
  }

  /** When the read finds `item`, every entry of the log is a sleep, the
      read, or the copy of `item` augmented for dev or for staging, written
      to that environment's own table and stamped with the clock reading at
      the start of that environment's turn: position `p`, right after the
      read, for dev, and `StagingStart(cfg, w, p, item)`, right after dev's
      retried write, for staging. */
  lemma ItemWritesAreReplicas(cfg: Config, w: Oracle, start: nat, itemKey: Item, get: Run<Response>,
                              item: Item, p: nat, r: Run<()>)
    requires get == RetryRun(w, start, GetItem(cfg.prodTable, itemKey), MaxRetries, 0)
    requires get.result.Ok? && get.result.value.item == Some(item)
    requires p == start + |get.effects|
    requires r == ItemRun(cfg, w, start, itemKey, TargetEnvironments)
    ensures ReadThenReplicaLog(cfg, w, item, Call(GetItem(cfg.prodTable, itemKey)), p, StagingStart(cfg, w, p, item), r.effects)
  {
    var read := Call(GetItem(cfg.prodTable, itemKey));
    var fan := FanOutRun(cfg, w, p, item, TargetEnvironments);
    assert r.effects == get.effects + fan.effects by {
      ItemRunFound(cfg, w, start, itemKey, TargetEnvironments, get, p, item, fan, r);
    }
    assert forall e :: e in get.effects ==> e.Sleep? || e == read by {
      RetryOnlyCalls(w, start, GetItem(cfg.prodTable, itemKey), MaxRetries, get);
    }
    ItemReplicaLog(cfg, w, item, read, get.effects, p, fan, r.effects);
  }

  /** The read phase `pre`, then the loop over the target environments
      started at `p`, holds only sleeps, the read, and the replica writes of
      the loop. */
  lemma ItemReplicaLog(cfg: Config, w: Oracle, item: Item, read: Effect, pre: seq<Effect>, p: nat,
                       fan: Run<()>, all: seq<Effect>)
    requires forall e :: e in pre ==> e.Sleep? || e == read
    requires fan == FanOutRun(cfg, w, p, item, TargetEnvironments)
    requires all == pre + fan.effects
    ensures ReadThenReplicaLog(cfg, w, item, read, p, StagingStart(cfg, w, p, item), all)
  {
    FanOutWrites(cfg, w, p, item, fan);
    ReadThenReplicas(cfg, w, item, p, StagingStart(cfg, w, p, item), pre, read, fan.effects, all);
  }

  /** When the item is found: no dev write follows a staging write, and a
      staging write happens only after a dev write that succeeded, so a dev
      write that fails for good prevents every staging write. */
  lemma ItemFanOutInOrder(cfg: Config, w: Oracle, start: nat, itemKey: Item, get: Run<Response>, r: Run<()>)
    requires get == RetryRun(w, start, GetItem(cfg.prodTable, itemKey), MaxRetries, 0)
    requires get.result.Ok? && get.result.value.item.Some?
    requires r == ItemRun(cfg, w, start, itemKey, TargetEnvironments)
    ensures InOrder(w, start, r.effects, TargetTable(cfg, "dev"), TargetTable(cfg, "staging"))
  {
    var item := get.result.value.item.value;
    var p := start + |get.effects|;
    var fan := FanOutRun(cfg, w, p, item, TargetEnvironments);
    var read := Call(GetItem(cfg.prodTable, itemKey));
    ItemRunFound(cfg, w, start, itemKey, TargetEnvironments, get, p, item, fan, r);
    RetryOnlyCalls(w, start, GetItem(cfg.prodTable, itemKey), MaxRetries, get);
    FanOutOrder(cfg, w, p, item, fan);
    PrefixKeepsOrder(w, start, get.effects, read, p, fan.effects, r.effects, TargetTable(cfg, "dev"), TargetTable(cfg, "staging"));
  }

  /** A run that ends with its last attempt, a write to `t1` or `t2`, still
      does so behind a prefix. */
  lemma {:induction false} PrefixOutcome(w: Oracle, start: nat, pre: seq<Effect>, p: nat, fan: Run<()>, r: Run<()>,
                                         t1: string, t2: string)
    requires p == start + |pre|
    requires r.result == fan.result && r.effects == pre + fan.effects
    requires |fan.effects| > 0
    requires WritesTo(fan.effects[|fan.effects| - 1], t1) || WritesTo(fan.effects[|fan.effects| - 1], t2)
    requires fan.result == Discard(w.replies(p + |fan.effects| - 1))
    requires fan.result.Ok? ==> WritesTo(fan.effects[|fan.effects| - 1], t2)
    ensures |r.effects| > 0
    ensures WritesTo(r.effects[|r.effects| - 1], t1) || WritesTo(r.effects[|r.effects| - 1], t2)
    ensures r.result == Discard(w.replies(start + |r.effects| - 1))
    ensures r.result.Ok? ==> WritesTo(r.effects[|r.effects| - 1], t2)
  {
    assert r.effects[|r.effects| - 1] == fan.effects[|fan.effects| - 1];
  }

  /** When the item is found, the last entry is a write attempt to dev's or
      staging's table, its reply is the outcome, and a success means it was
      a write to staging. */
  lemma ItemOutcome(cfg: Config, w: Oracle, start: nat, itemKey: Item, get: Run<Response>, r: Run<()>)
    requires get == RetryRun(w, start, GetItem(cfg.prodTable, itemKey), MaxRetries, 0)
    requires get.result.Ok? && get.result.value.item.Some?
    requires r == ItemRun(cfg, w, start, itemKey, TargetEnvironments)
    ensures |r.effects| > 0
    ensures var last := r.effects[|r.effects| - 1];
      WritesTo(last, TargetTable(cfg, "dev")) || WritesTo(last, TargetTable(cfg, "staging"))
    ensures r.result == Discard(w.replies(start + |r.effects| - 1))
    ensures r.result.Ok? ==> WritesTo(r.effects[|r.effects| - 1], TargetTable(cfg, "staging"))
  {
    var item := get.result.value.item.value;
    var p: nat := start + |get.effects|;
    var fan := FanOutRun(cfg, w, p, item, TargetEnvironments);
    ItemRunFound(cfg, w, start, itemKey, TargetEnvironments, get, p, item, fan, r);
    FanOutOutcome(cfg, w, p, item, fan);
    PrefixOutcome(w, start, get.effects, p, fan, r, TargetTable(cfg, "dev"), TargetTable(cfg, "staging"));
  }
}
