/** Values the replication Lambda consumes and produces, and the effects it
    has on the AWS services around it.  Every AWS call is modelled as a
    `Request` recorded in an effect log; its outcome is not computed but read
    from an oracle supplied with the invocation. */
module Types {

  datatype Option<T> = None | Some(value: T)

  datatype Result<T, E> = Ok(value: T) | Err(error: E)

  newtype byte = x: int | 0 <= x < 256

  type Bytes = seq<byte>

  /** User metadata of an S3 object. */
  type Metadata = map<string, string>

  /** A DynamoDB attribute value (the tags of the wire format). */
  datatype AttributeValue =
    | S(s: string)
    | N(n: string)
    | B(b: Bytes)
    | BOOL(flag: bool)
    | NULL
    | L(l: seq<AttributeValue>)
    | M(m: map<string, AttributeValue>)

  type Item = map<string, AttributeValue>

  /** The triggering event; absent optional fields are `None`. */
  datatype RequestParameters = RequestParameters(bucketName: Option<string>, tableName: Option<string>, key: Option<string>)

  datatype EventDetail = EventDetail(eventSource: string, eventName: string, requestParameters: RequestParameters)

  datatype ReplicationEvent = ReplicationEvent(detail: EventDetail)

  /** What a `throw` carries: an `Error` object with its message, or any
      other thrown value (which has no message). */
  datatype Thrown = Error(message: string) | NonError

  /** The structured body of an SNS notification; `timestamp` is the clock
      reading in milliseconds that the ISO-8601 string was formatted from. */
  datatype Notification = Notification(success: bool, message: string, timestamp: nat, environment: string)

  /** The structured body of a dead-letter queue message. */
  datatype DeadLetter = DeadLetter(event: ReplicationEvent, error: string, timestamp: nat)

  /** One call into an AWS client (`client.send(command)`). */
  datatype Request =
    | GetObject(bucket: string, key: string)
    | PutObject(bucket: string, key: string, body: Bytes, metadata: Option<Metadata>)
    | GetItem(table: string, itemKey: Item)
    | PutItem(table: string, item: Item)
    | Publish(topic: string, subject: string, message: Notification)
    | SendMessage(queue: string, payload: DeadLetter)

  /** An entry of the effect log: a call, or a backoff sleep of `ms` milliseconds. */
  datatype Effect = Call(request: Request) | Sleep(ms: nat)

  /** The fields of an SDK response the handler looks at (`Body`, `Metadata`, `Item`). */
  datatype Response = Response(body: Option<Bytes>, metadata: Option<Metadata>, item: Option<Item>)

  /** The outcome of one call: a response, or the value the client threw. */
  type Reply = Result<Response, Thrown>

  /** The environment of one invocation.  The call recorded at log position
      `p` gets `replies(p)`; `Date.now()` read while the log holds `p`
      entries gives `clock(p)`. */
  datatype Oracle = Oracle(replies: nat -> Reply, clock: nat -> nat)

  /** The configuration read from the process environment. */
  datatype Config = Config(
    region: string,
    prodBucket: string,
    prodTable: string,
    successTopic: string,
    failureTopic: string,
    dlqUrl: string,
    environmentSuffix: string)

  /** What a piece of the handler does when started with the log at some
      position: its outcome and the effects it appends. */
  datatype Run<T> = Run(result: Result<T, Thrown>, effects: seq<Effect>)

  /** The handler's return value `{statusCode, body}`. */
  datatype HttpResponse = HttpResponse(statusCode: int, body: string)

  /** Appending to a log in two steps is appending once. */
  lemma AppendTwice<T>(log: seq<T>, a: seq<T>, b: seq<T>)
    ensures (log + a) + b == log + (a + b)
  {
  }
}
