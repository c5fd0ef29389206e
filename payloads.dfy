/** The constants of the handler and the pure computations between its AWS
    calls: resource names, the augmented DynamoDB item, the lookup key of a
    DynamoDB event, notification and dead-letter payloads, error messages. */
module Payloads {
  import opened Types

  const TargetEnvironments: seq<string> := ["dev", "staging"]
  const MaxRetries: int := 5
  /** Delay before the second attempt, in milliseconds. */
  const InitialDelay: nat := 1000

  const S3Source := "s3.amazonaws.com"
  const DynamoDBSource := "dynamodb.amazonaws.com"
  /** The environment the handler runs in and replicates from. */
  const SourceEnvironment := "prod"

  /** `"company-data-<env>-<region>-<suffix>"` */
  function TargetBucket(cfg: Config, env: string): string
  {
    "company-data-" + env + "-" + cfg.region + "-" + cfg.environmentSuffix
  }

  /** `"pipeline-metadata-<env>-<suffix>"` */
  function TargetTable(cfg: Config, env: string): string
  {
    "pipeline-metadata-" + env + "-" + cfg.environmentSuffix
  }

  lemma {:induction false} MiddleDetermined(p: string, a: string, b: string, q: string)
    requires p + a + q == p + b + q
    ensures a == b
  {
    assert |a| == |b|;
    assert a == (p + a + q)[|p|..|p| + |a|];
    assert b == (p + b + q)[|p|..|p| + |b|];
  }

  /** Distinct target environments never share a bucket. */
  lemma TargetBucketInjective(cfg: Config, env1: string, env2: string)
    requires TargetBucket(cfg, env1) == TargetBucket(cfg, env2)
    ensures env1 == env2
  {
    var q := "-" + cfg.region + "-" + cfg.environmentSuffix;
    assert TargetBucket(cfg, env1) == "company-data-" + env1 + q;
    assert TargetBucket(cfg, env2) == "company-data-" + env2 + q;
    MiddleDetermined("company-data-", env1, env2, q);
  }

  /** Distinct target environments never share a table. */
  lemma TargetTableInjective(cfg: Config, env1: string, env2: string)
    requires TargetTable(cfg, env1) == TargetTable(cfg, env2)
    ensures env1 == env2
  {
    var q := "-" + cfg.environmentSuffix;
    assert TargetTable(cfg, env1) == "pipeline-metadata-" + env1 + q;
    assert TargetTable(cfg, env2) == "pipeline-metadata-" + env2 + q;
    MiddleDetermined("pipeline-metadata-", env1, env2, q);
  }

  function DigitChar(d: nat): (c: char)
    requires d < 10
    ensures '0' <= c <= '9'
  {
    ('0' as int + d) as char
  }

  /** `n.toString()` for a whole number of milliseconds. */
  function DecimalString(n: nat): string
    decreases n
  {
    if n < 10 then [DigitChar(n)] else DecimalString(n / 10) + [DigitChar(n % 10)]
  }

  /** `DecimalString` writes digits only, at least one, and no leading zero. */
  lemma {:induction false} DecimalDigits(n: nat)
    ensures var s := DecimalString(n);
      && |s| >= 1
      && (forall i :: 0 <= i < |s| ==> '0' <= s[i] <= '9')
      && (|s| > 1 ==> s[0] != '0')
    decreases n
  {
    if n >= 10 {
      DecimalDigits(n / 10);
    }
  }

  /** The number a string of decimal digits denotes. */
  function DecimalValue(s: string): int
  {
    if s == [] then 0 else 10 * DecimalValue(s[..|s| - 1]) + (s[|s| - 1] as int - '0' as int)
  }

  /** `DecimalString` loses nothing: the number can be read back. */
  lemma {:induction false} DecimalRoundTrip(n: nat)
    ensures DecimalValue(DecimalString(n)) == n
    decreases n
  {
    var s := DecimalString(n);
    if n >= 10 {
      DecimalRoundTrip(n / 10);
      assert s[..|s| - 1] == DecimalString(n / 10);
    }
  }

  /** The three attributes each replicated item gets. */
  const DerivedFields: set<string> := {"environment", "replicatedFrom", "replicationTimestamp"}

  /** `{...item, environment, replicatedFrom, replicationTimestamp}` */
  function Augment(item: Item, env: string, now: nat): Item
  {
    item + map["environment" := S(env), "replicatedFrom" := S(SourceEnvironment), "replicationTimestamp" := N(DecimalString(now))]
  }

  /** The spread comes first, so the three derived attributes replace any
      attribute of the same name in the source item; every other attribute
      is copied unchanged and none is added. */
  lemma AugmentOverrides(item: Item, env: string, now: nat)
    ensures var r := Augment(item, env, now);
      && r.Keys == item.Keys + DerivedFields
      && r["environment"] == S(env)
      && r["replicatedFrom"] == S(SourceEnvironment)
      && r["replicationTimestamp"] == N(DecimalString(now))
      && (forall k :: k in item && k !in DerivedFields ==> r[k] == item[k])
  {
  }

  /** JavaScript truthiness of an optional string: present and non-empty. */
  predicate Truthy(s: Option<string>)
  {
    s.Some? && s.value != ""
  }

  /** The DynamoDB lookup key built from a DynamoDB event. */
  function ItemKey(params: RequestParameters, now: nat): Item
  {
    map["id" := S(if Truthy(params.key) then params.key.value else "unknown"),
        "timestamp" := N(DecimalString(now))]
  }

  /** The lookup key has exactly an `id` and a `timestamp`: the event's key
      when it is a non-empty string and "unknown" otherwise, and a number
      that reads back as the clock reading it was made from. */
  lemma ItemKeyFields(params: RequestParameters, now: nat)
    ensures var k := ItemKey(params, now);
      && k.Keys == {"id", "timestamp"}
      && k["id"].S?
      && (params.key.Some? && params.key.value != "" ==> k["id"].s == params.key.value)
      && (params.key.None? || params.key.value == "" ==> k["id"].s == "unknown")
      && k["timestamp"].N? && DecimalValue(k["timestamp"].n) == now
  {
    DecimalRoundTrip(now);
  }

  /** `error instanceof Error ? error.message : 'Unknown error'` */
  function ErrorMessage(e: Thrown): string
  {
    match e
    case Error(message) => message
    case NonError => "Unknown error"
  }

  /** `parts.join(sep)` */
  function Join(parts: seq<string>, sep: string): string
    decreases |parts|
  {
    if |parts| == 0 then "" else if |parts| == 1 then parts[0] else parts[0] + sep + Join(parts[1..], sep)
  }

  lemma TargetListing()
    ensures Join(TargetEnvironments, ", ") == "dev, staging"
  {
  }

  function TopicFor(cfg: Config, success: bool): string
  {
    if success then cfg.successTopic else cfg.failureTopic
  }

  function SubjectFor(success: bool): string
  {
    if success then "Replication Success" else "Replication Failure"
  }

  /** The SNS publish of `publishNotification(success, message)` when the
      clock reads `now`. */
  function NotificationRequest(cfg: Config, success: bool, message: string, now: nat): Request
  {
    Publish(TopicFor(cfg, success), SubjectFor(success), Notification(success, message, now, SourceEnvironment))
  }

  /** The SQS send of `sendToDeadLetterQueue(event, error)` when the clock
      reads `now`. */
  function DeadLetterRequest(cfg: Config, event: ReplicationEvent, error: string, now: nat): Request
  {
    SendMessage(cfg.dlqUrl, DeadLetter(event, error, now))
  }
}
