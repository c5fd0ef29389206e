# Cross-environment replication handler

A model of an AWS Lambda replication handler. The handler is triggered by an
event from S3 or DynamoDB in the production environment and copies the object
or item named by the event to the `dev` and `staging` environments:

- every read and write goes through a bounded exponential-backoff retry;
- success is reported on an SNS success topic;
- on any failure the event is sent to an SQS dead-letter queue, a failure is
  announced on the failure topic, and the error is rethrown.

Every AWS call is an entry of an effect log: `Call(request)` for `client.send`,
`Sleep(ms)` for the backoff pause. Nothing about AWS itself is modelled. The
reply to the call recorded at log position `p` is `replies(p)` of an `Oracle`,
and `Date.now()` read while the log holds `p` entries is `clock(p)`.

The modules follow the source's structure:

- `Types`: events, requests, replies, effects, the configuration, and
  `Run<T>`, which is an outcome together with the effects appended.
- `Payloads`: the constants `TARGET_ENVIRONMENTS`, `MAX_RETRIES` and
  `INITIAL_DELAY`, plus the pure pieces between calls: bucket and table names,
  item augmentation, the DynamoDB lookup key, topic and subject choice,
  message bodies, and `Array.join`.
- `Backoff`: `retryWithBackoff` as the spec function `RetryRun`, and its
  properties.
- `Replication`: `replicateS3Object` (`ObjectRun`) and `replicateDynamoDBItem`
  (`ItemRun`, with its loop `FanOutRun`).
- `Dispatch`: `publishNotification`, `sendToDeadLetterQueue`, and `handler`'s
  `try` block (`TryRun`), `catch` block (`CatchRun`) and whole run
  (`HandlerRun`), with the properties of the handler.
- `Lambda`: class `Replicator`, the program itself. It keeps the log in a
  field, and each of its methods does its calls one after another, loops
  included. Each method is proved to produce exactly the outcome and the
  appended effects of its spec function, so every lemma about the spec
  functions is a statement about the program.

Three behaviours of the code, which the model follows:

- `!body` rejects only an absent body, so a zero-length object is copied.
- `!response.Item` rejects only an absent item, so an empty item `{}` is
  replicated.
- Both loops over the environments stop at the first failure.

## Model

| member | source | states |
|---|---|---|
| Payloads.TargetBucket | index.ts:105 | defines the target bucket name `company-data-<env>-<region>-<suffix>` |
| Payloads.TargetTable | index.ts:136 | defines the target table name `pipeline-metadata-<env>-<suffix>` |
| Payloads.Augment | index.ts:139-144 | defines the item written to an environment: the source item spread first, then `environment`, `replicatedFrom` = 'prod' and `replicationTimestamp` = the clock reading as a decimal number |
| Payloads.DecimalString | index.ts:143 | defines `toString()` of a whole number of milliseconds |
| Payloads.ItemKey | index.ts:220-223 | defines the DynamoDB lookup key `{id: {S: key or 'unknown'}, timestamp: {N: now}}` |
| Payloads.ErrorMessage | index.ts:240-241 | defines the message of a thrown value: its `message` for an `Error`, 'Unknown error' otherwise |
| Payloads.Join | index.ts:215 | defines `Array.join` |
| Payloads.Truthy | index.ts:204 | defines JavaScript truthiness of an optional string, as tested by `!key` here and by the fallback to 'unknown' at index.ts:221: present and non-empty |
| Payloads.TopicFor | index.ts:156 | defines the topic choice: the success topic for a success, the failure topic otherwise |
| Payloads.SubjectFor | index.ts:157 | defines the subject choice: 'Replication Success' or 'Replication Failure' |
| Payloads.NotificationRequest | index.ts:156-172 | defines the `PublishCommand` of `publishNotification`: the chosen topic and subject, and a body with `success`, the message, the clock reading and 'prod' |
| Payloads.DeadLetterRequest | index.ts:181-188 | defines the `SendMessageCommand` of `sendToDeadLetterQueue`: the queue URL, and a body with the event, the error message and the clock reading |
| Payloads.TargetBucketInjective | index.ts:105 | two environments whose bucket names `company-data-<env>-<region>-<suffix>` coincide are the same environment |
| Payloads.TargetTableInjective | index.ts:136 | two environments whose table names `pipeline-metadata-<env>-<suffix>` coincide are the same environment |
| Payloads.DigitChar | index.ts:143 | a digit below ten is written as a character between '0' and '9' |
| Payloads.DecimalDigits | index.ts:143 | `n.toString()` for a whole number below 10^21, which covers every `Date.now()` reading, is a non-empty string of decimal digits with no leading zero |
| Payloads.DecimalRoundTrip | index.ts:143 | the decimal string of a clock reading reads back as that reading |
| Payloads.AugmentOverrides | index.ts:139-144 | the augmented item has exactly the source item's attributes plus `environment`, `replicatedFrom` and `replicationTimestamp`; these three have the target environment, 'prod' and the clock reading, whatever the source item held under those names; every other attribute is copied unchanged |
| Payloads.ItemKeyFields | index.ts:220-223 | the DynamoDB lookup key has exactly `id` and `timestamp`: `id` is the event's key when that is a non-empty string and 'unknown' otherwise, and `timestamp` is a number that reads back as the clock reading |
| Payloads.TargetListing | index.ts:52 | the target environments are listed in messages as "dev, staging" |
| Backoff.Pow2 | index.ts:75 | defines `Math.pow(2, i)` for a whole exponent |
| Backoff.Delay | index.ts:75 | defines the sleep after failed attempt `i`: `INITIAL_DELAY * 2^i` ms |
| Backoff.RetryRun | index.ts:62-83 | defines `retryWithBackoff` from attempt `i` on: its outcome and the attempts and sleeps it logs |
| Backoff.Pow2Adds | index.ts:75 | the backoff factor `Math.pow(2, i)` turns a sum of exponents into a product: `2^(a+b) == 2^a * 2^b` |
| Backoff.DelayDoubles | index.ts:56-75 | the first sleep lasts `INITIAL_DELAY` (1000 ms) and each later sleep lasts twice the one before |
| Backoff.RetryShape | index.ts:62-83 | attempts and sleeps alternate, starting and ending with an attempt; there are at most `retries` attempts; every attempt before the last failed; the outcome is the last attempt's reply, unchanged; the sleep after failed attempt `i` lasts `1000 * 2^i` ms; a run that stops before the bound stopped on a success |
| Backoff.RetryZeroAttempts | index.ts:66-82 | with `retries <= 0` nothing is called and 'Max retries exceeded' is thrown |
| Backoff.RetryOnlyCalls | index.ts:62-83 | the wrapper only makes the one call it retries and sleeps; it makes that call iff `retries > 0` |
| Backoff.RetryStartsWithAttempt | index.ts:66-68 | the first attempt comes before any sleep |
| Backoff.RetryEndsWithAttempt | index.ts:66-77 | with at least one attempt allowed, the run ends with an attempt whose reply is the outcome |
| Backoff.RetryReturnsFirstSuccess | index.ts:66-68 | when attempt `j` is the first to succeed, the wrapper returns its response after exactly `j + 1` attempts and `j` sleeps, and attempts nothing after it |
| Backoff.RetryExhausted | index.ts:69-77 | when every attempt fails, exactly `retries` attempts and `retries - 1` sleeps are made and the last attempt's error is rethrown |
| Replication.ObjectRun | index.ts:85-115 | defines `replicateS3Object`: the retried read, the body check, the retried write, and what they log |
| Replication.ObjectReadFailureWritesNothing | index.ts:97-103 | a failed read rethrows its error and a read with no body throws 'Empty object body'; in both cases the only calls are reads |
| Replication.ObjectCopiesVerbatim | index.ts:97-113 | after a read with a body, the only write is a `PutObject` to the environment's bucket with the same key, the bytes read and the metadata read; no read follows a write; the last entry is an attempt of that write, and its reply is the outcome |
| Replication.ItemWrite | index.ts:136-145 | defines the `PutItem` of one turn of the DynamoDB loop |
| Replication.StagingStart | index.ts:135-147 | defines the log position where the loop's staging turn begins: right after dev's retried write |
| Replication.FanOutRun | index.ts:135-149 | defines the DynamoDB loop over the environments, stopping at the first write that fails for good |
| Replication.ItemRun | index.ts:117-150 | defines `replicateDynamoDBItem`: the retried read, the item check, the loop, and what they log |
| Replication.FanOutSingle | index.ts:135-149 | the loop over one environment is that environment's retried write |
| Replication.FanOutTwo | index.ts:135-149 | the loop over dev and staging writes dev first; a dev write that fails for good ends the loop with its error, with no staging write |
| Replication.ItemReadFailureWritesNothing | index.ts:128-133 | a failed read rethrows its error and a read with no item throws 'Item not found'; in both cases the only calls are reads |
| Replication.ItemRunStartsWithRead | index.ts:121-128 | the first call is the read of the item by the given key from the production table |
| Replication.ItemWriteIsReplica | index.ts:136-144 | the write for an environment prepared at a log position goes to that environment's table and carries the item with every source attribute kept except the three derived ones, `environment` = the environment, `replicatedFrom` = 'prod', and `replicationTimestamp` = the clock reading at that position in decimal, replacing any timestamp of the source item |
| Replication.TargetTablesDistinct | index.ts:136 | the dev and staging tables differ |
| Replication.FanOutWrites | index.ts:135-149 | every entry of the loop is a sleep or a write of the replica (as in `ItemWriteIsReplica`) to dev's or staging's own table, stamped with the clock reading at the start of that environment's turn: the loop's start for dev, the position right after dev's retried write for staging |
| Replication.TwoWritesInOrder | index.ts:135-149 | of two retried writes, the second started only after the first succeeded, the first target is written first |
| Replication.FanOutOrder | index.ts:135-149 | no dev write follows a staging write, and every staging write follows a dev write that succeeded |
| Replication.TwoWritesOutcome | index.ts:135-149 | after two sequential retried writes the last entry is an attempt of one of them, its reply is the outcome, and on a success it is an attempt of the second write |
| Replication.FanOutOutcome | index.ts:135-149 | the loop's last entry is a write attempt to dev's or staging's table, its reply is the outcome, and on a success it was a write to staging |
| Replication.ItemWritesAreReplicas | index.ts:117-150 | when the item is found, every entry is a sleep, the read, or the replica written to dev's or staging's table, stamped with the clock reading at the start of that environment's turn (right after the read for dev, right after dev's retried write for staging) |
| Replication.ItemFanOutInOrder | index.ts:117-150 | when the item is found, dev is written before staging, and a dev write that fails for good prevents every staging write |
| Replication.ItemOutcome | index.ts:117-150 | when the item is found, the last entry is a write attempt to dev's or staging's table, its reply is the outcome, and a success ends with a write to staging |
| Dispatch.NotifyRun | index.ts:152-175 | defines `publishNotification`: one publish, not retried |
| Dispatch.DeadLetterRun | index.ts:177-191 | defines `sendToDeadLetterQueue`: one send, not retried |
| Dispatch.S3SuccessMessage | index.ts:213-216 | defines the success message of an S3 replication: 'Successfully replicated S3 object <key> to dev, staging' |
| Dispatch.ObjectsRun | index.ts:209-211 | defines the S3 loop over the environments, stopping at the first copy that throws |
| Dispatch.ThenNotify | index.ts:209-236 | defines a replication followed, if it did not throw, by the success notification and the 200 response |
| Dispatch.TryRun | index.ts:198-236 | defines the `try` block: the dispatch on the event source |
| Dispatch.CatchRun | index.ts:237-249 | defines the `catch` block: dead-letter send, failure notification, rethrow |
| Dispatch.Recover | index.ts:198-250 | defines the `try` block's outcome with the `catch` block run after it when it threw |
| Dispatch.HandlerRun | index.ts:193-251 | defines `handler` |
| Dispatch.ObjectRunSummary | index.ts:85-115 | one `replicateS3Object` only sleeps, reads the object and copies it to the environment's bucket; a success ends with a copy whose reply was a success |
| Dispatch.ObjectsSingle | index.ts:209-211 | the S3 loop over one environment is that environment's `replicateS3Object` |
| Dispatch.ObjectsPair | index.ts:209-211 | the S3 loop over two environments runs the second copy only after the first succeeded |
| Dispatch.ObjectsTwo | index.ts:209-211 | the S3 loop copies to dev, then to staging only if the dev copy succeeded |
| Dispatch.ReplicatedDelivers | index.ts:209-211 | a replication that succeeded wrote both targets successfully |
| Dispatch.SequentialCopies | index.ts:209-211 | two copies of one object, the second only after the first succeeded: only reads, sleeps and copies to the two buckets, in order, and a success ends with a successful copy to the second |
| Dispatch.TargetBucketsDistinct | index.ts:105 | the dev and staging buckets differ |
| Dispatch.ObjectsPairReplicated | index.ts:209-211 | the S3 loop over dev and staging only reads the object and copies it under the same key to both buckets, dev before staging; a success ends with a successful staging copy |
| Dispatch.ObjectsReplicated | index.ts:209-211 | the same for the handler's own list of target environments |
| Dispatch.ItemReplicated | index.ts:117-150 | `replicateDynamoDBItem` reports nothing, writes dev before staging, and a success ends with a successful staging write |
| Dispatch.ThenNotifyShape | index.ts:213-236 | the success notification follows only a replication that succeeded, goes to the success topic with subject 'Replication Success', and the response is 200 exactly when it succeeded; a failed notification is thrown |
| Dispatch.NotifyKeepsOrder | index.ts:213-216 | the notification keeps the order of writes and adds only reports |
| Dispatch.NotifyKeepsCopy | index.ts:209-216 | the replication's entries open the `try` block's log |
| Dispatch.NotifyDelivers | index.ts:209-236 | a completed response means both targets were written successfully |
| Dispatch.CatchReports | index.ts:237-249 | the `catch` block always throws; it first sends the event to the dead-letter queue with the error's message ('Unknown error' for a non-Error); a failed dead-letter send throws its error and publishes nothing; otherwise 'Replication failed: <message>' goes to the failure topic and the original error is rethrown unless the publish failed; it writes nothing else |
| Dispatch.RecoverSendsDeadLetter | index.ts:237-250 | after a throw, the handler throws, keeps the `try` block's entries, sends the event to the dead-letter queue right after them with the thrown value's message, and then only reports |
| Dispatch.RecoverPassesSuccess | index.ts:233-236 | the handler succeeds exactly with the `try` block's own success |
| Dispatch.RecoverKeepsOrder | index.ts:237-250 | the recovery writes no bucket or table, so the order of writes is kept |
| Dispatch.CompletedShape | index.ts:209-236 | a completed response after a replication: the success notification is the last entry and the only report |
| Dispatch.RecoverKeepsPrefix | index.ts:237-250 | the `try` block's entries open the handler's log |
| Dispatch.RecoverReports | index.ts:244-249 | after a throw and a successful dead-letter send, the failure notification with the thrown value's message follows, and the original value is rethrown unless the notification failed; a failed dead-letter send publishes nothing |
| Dispatch.NotifyFailureSendsDeadLetter | index.ts:213-249 | a success notification that fails after a successful replication is routed into the failure path: the event is sent to the dead-letter queue with the notification's error right after it, and the handler throws |
| Dispatch.HandlerS3Writes | index.ts:202-216 | for an S3 event with a key, the handler only reads the object, copies it under the same key to the dev and staging buckets, dev first, sleeps, and reports |
| Dispatch.HandlerS3Completes | index.ts:202-236 | for an S3 event, a completed response means the object was copied to both buckets and then exactly one success notification, naming the key and "dev, staging", was published as the last entry |
| Dispatch.HandlerDynamoDBWrites | index.ts:217-225 | for a DynamoDB event, the first call is the read from the production table by the key built from the event and the clock, and dev is written before staging |
| Dispatch.HandlerDynamoDBCompletes | index.ts:217-236 | for a DynamoDB event, a completed response means the item was written to both tables and then exactly one success notification was published as the last entry |
| Dispatch.HandlerS3NotifyFailure | index.ts:209-249 | for an S3 event, a success notification that fails after both copies leads to a dead-letter send of the event with that error, and a throw |
| Dispatch.HandlerDynamoDBNotifyFailure | index.ts:225-249 | for a DynamoDB event, a success notification that fails after both writes leads to a dead-letter send of the event with that error, and a throw |
| Dispatch.HandlerFailureSendsDeadLetter | index.ts:237-250 | whatever the `try` block threw, the handler throws, keeps the block's entries, sends the event to the dead-letter queue right after them with the thrown value's message, and then only reports |
| Dispatch.HandlerFailureReports | index.ts:244-249 | after a successful dead-letter send, the failure notification carries 'Replication failed: <message>', and the original value is rethrown; a failure of either call is thrown instead, and a failed dead-letter send publishes nothing |
| Dispatch.HandlerMissingKey | index.ts:203-249 | an S3 event with an absent or empty key is rejected before any read: the handler only sends the event to the dead-letter queue with 'S3 key not found in event', publishes the failure if that send succeeded, and throws |
| Dispatch.HandlerUnknownSource | index.ts:202-236 | an event from any other source gets the 200 response with no call at all |
| Dispatch.HandlerErrorsSendDeadLetter | index.ts:198-250 | every invocation that throws has issued a dead-letter send for its event (whatever that send's reply; a failed send is the error thrown, by `Dispatch.HandlerFailureReports`) |
| Lambda.Replicator.constructor | index.ts:31-36 | an invocation starts with the given configuration and oracle and an empty log |
| Lambda.Replicator.Now | index.ts:143 | defines `Date.now()` (also read at index.ts:222, and as `new Date()` at index.ts:166 and 186): the clock reading at the current length of the log |
| Lambda.Replicator.Send | index.ts:68 | a call is appended to the log and answered by the oracle's reply for its position |
| Lambda.Replicator.Pause | index.ts:58-60 | a sleep of the requested length is appended to the log |
| Lambda.Replicator.RetryWithBackoff | index.ts:62-83 | the loop returns exactly `RetryRun`'s outcome and appends exactly its attempts and sleeps |
| Lambda.Replicator.ReplicateS3Object | index.ts:85-115 | returns exactly `ObjectRun`'s outcome and appends exactly its effects |
| Lambda.Replicator.WriteReplica | index.ts:136-147 | a turn of the DynamoDB loop is the retried write of the augmented item, stamped with the clock at that point |
| Lambda.Replicator.WriteReplicas | index.ts:135-149 | the loop over the environments returns exactly `FanOutRun`'s outcome and appends exactly its effects |
| Lambda.Replicator.ReplicateDynamoDBItem | index.ts:117-150 | returns exactly `ItemRun`'s outcome over the target environments and appends exactly its effects |
| Lambda.Replicator.PublishNotification | index.ts:152-175 | one publish to the topic and subject chosen by `success`, with the message, the clock reading and 'prod'; returns its outcome |
| Lambda.Replicator.SendToDeadLetterQueue | index.ts:177-191 | one send to the dead-letter queue with the event, the error message and the clock reading; returns its outcome |
| Lambda.Replicator.ReplicateObjects | index.ts:209-211 | the S3 loop returns exactly `ObjectsRun`'s outcome and appends exactly its effects |
| Lambda.Replicator.Attempt | index.ts:198-236 | the `try` block returns exactly `TryRun`'s outcome and appends exactly its effects |
| Lambda.Replicator.Catch | index.ts:237-249 | the `catch` block returns exactly `CatchRun`'s outcome and appends exactly its effects |
| Lambda.Replicator.Handler | index.ts:193-251 | the handler returns exactly `HandlerRun`'s outcome and appends exactly its effects, so every `Dispatch.Handler…` lemma holds of the program |

The constants of the handler are declared once and used everywhere:
`Payloads.TargetEnvironments` is `TARGET_ENVIRONMENTS` (index.ts:52),
`Payloads.MaxRetries` is `MAX_RETRIES` (index.ts:55), `Payloads.InitialDelay`
is `INITIAL_DELAY` (index.ts:56), `Payloads.S3Source` and
`Payloads.DynamoDBSource` are the event sources compared at index.ts:202 and
index.ts:217, and `Payloads.SourceEnvironment` is the 'prod' written at
index.ts:142 and index.ts:167. `Backoff.MaxRetriesExceeded` is the error thrown
at index.ts:82, `Dispatch.MissingKey` the one thrown at index.ts:205,
`Dispatch.DynamoDBSuccessMessage` the message published at index.ts:227-230,
and `Dispatch.Completed` the response returned at index.ts:233-236.

## Left out

- AWS SDK clients and command objects: each call is a `Request` value in the log, and its outcome comes from the oracle.
- Loading configuration from environment variables, and the region fallback: the configuration is a `Config` value.
- Real waiting in `sleep`: the requested delay is recorded as a `Sleep` entry.
- `Date.now()` is a clock reading indexed by log position; `toISOString()` formatting is left out, and the notification and dead-letter timestamps are those millisecond readings.
- `JSON.stringify` of the notification, dead-letter and response bodies: payloads are structured values, and the response body is the literal string.
- `transformToByteArray` failing is not modelled: a present body is converted, and those bytes are the body.
- `console.log` and `console.error` logging.
- Promises and concurrent invocations: each invocation is one sequential run.
- `Math.pow` is floating point in the source; here it is exact, which agrees for every delay the handler can reach.
- Malformed events (a missing `detail` or `requestParameters`, which would throw a `TypeError`) cannot be expressed, because those fields are always present in `ReplicationEvent`.
- `Dispatch.TryRun`, `Dispatch.HandlerRun`, `Replication.ItemRun`, `Replication.FanOutRun` and `Dispatch.ObjectsRun` take the list of target environments as a parameter; the program always passes `TargetEnvironments`.
- `Payloads.DecimalString`: clock readings are unbounded naturals and are always written as plain decimal digits; JavaScript's `toString()` switches to exponent form only from 10^21 on, far beyond any `Date.now()` reading (at most 8.64e15).
