/** The storage service: downloads and uploads through the retry loop with
    the transfer policy, and a single-shot existence probe. The storage
    client is a scripted queue of responses that records every request it
    is sent. */
module Storage {
  import opened Types
  import opened ErrorHandling

  /** The policy of both transfers: up to three retries, so four requests. */
  const TransferRetryConfig := RetryConfig(3, 1000, 5000, 2)

  const NoBodyMessage := "No image data received from S3"
  /** Raised by a download whose response has no body; flagged retryable. */
  const NoBodyError := RetryableError(NoBodyMessage, true, S3)

  const JpegContentType := "image/jpeg"
  const OneYearCacheControl := "max-age=31536000"
  const ProcessedByKey := "processed-by"
  const ProcessedByValue := "image-compression-lambda"

  /** What an upload sends as the object's content: a buffer, or (in the
      legacy handler) the source stream piped through a WebP converter that
      resizes to the given box. */
  datatype PutBody =
    | Buffer(bytes: Bytes)
    | ConvertedStream(source: ByteStream, width: nat, height: nat)

  /** A request sent to the storage client. The `destination` of a put is
      the bucket setting as read, possibly unset. */
  datatype Command =
    | GetObject(bucket: string, key: string)
    | PutObject(
        destination: Option<string>,
        key: string,
        body: PutBody,
        contentType: string,
        cacheControl: Option<string>,
        metadata: seq<(string, string)>)
  {
    function Key(): string {
      match this
      case GetObject(_, k) => k
      case PutObject(_, k, _, _, _, _) => k
    }
  }

  /** A response to one request: it resolves (with a body or without one), or
      it rejects with an error. */
  datatype SendResult = Responded(body: Option<ByteStream>) | Rejected(error: Thrown)

  /** The responses the client will give, in order: those queued, then the
      fallback for every later request. */
  datatype Script = Script(queue: seq<SendResult>, fallback: SendResult) {
    function At(k: nat): SendResult {
      if k < |queue| then queue[k] else fallback
    }

    function Drop(n: nat): (s: Script)
      ensures forall k: nat :: s.At(k) == At(n + k)
    {
      if n <= |queue| then Script(queue[n..], fallback) else Script([], fallback)
    }
  }

  /** Dropping `a` responses and then `b` more is dropping `a + b`. */
  lemma DropDrop(s: Script, a: nat, b: nat)
    ensures s.Drop(a).Drop(b) == s.Drop(a + b)
  {
    if a + b <= |s.queue| {
      assert s.queue[a..][b..] == s.queue[a + b..];
    }
  }

  /** Dropping nothing leaves the script as it is. */
  lemma DropNone(s: Script)
    ensures s.Drop(0) == s
  {
    assert s.queue[0..] == s.queue;
  }

  /** `n` copies of `c`. */
  function Repeat(c: Command, n: nat): (cs: seq<Command>)
    ensures |cs| == n
    ensures forall i :: 0 <= i < n ==> cs[i] == c
  {
    if n == 0 then [] else Repeat(c, n - 1) + [c]
  }

  class S3Client {
    var script: Script
    var sent: seq<Command>

    constructor(script: Script)
      ensures this.script == script && sent == []
    {
      this.script := script;
      sent := [];
    }

    /** Sends one request: answers with the next scripted response. */
    method Send(c: Command) returns (r: SendResult)
      modifies this
      ensures r == old(script).At(0)
      ensures script == old(script).Drop(1)
      ensures sent == old(sent) + [c]
    {
      r := script.At(0);
      script := script.Drop(1);
      sent := sent + [c];
    }
  }

  /** The outcome of one download attempt given the response to its request. */
  function DownloadAttempt(response: SendResult): (r: Outcome<ByteStream>)
    ensures response.Rejected? ==> r == Err(response.error)
    ensures response.Responded? && response.body.None? ==> r == Err(NoBodyError)
    ensures response.Responded? && response.body.Some? ==> r == Ok(response.body.value)
  {
    match response
    case Rejected(e) => Err(e)
    case Responded(None) => Err(NoBodyError)
    case Responded(Some(body)) => Ok(body)
  }

  /** The download operation as `withRetry` sees it: attempt `k` gets the
      `k`-th scripted response. */
  function DownloadOp(script: Script): nat -> Outcome<ByteStream> {
    (k: nat) => DownloadAttempt(script.At(k))
  }

  /** The outcome of one upload attempt: the public URL once the put resolves. */
  function UploadAttempt(response: SendResult, url: string): (r: Outcome<string>)
    ensures response.Rejected? ==> r == Err(response.error)
    ensures response.Responded? ==> r == Ok(url)
  {
    match response
    case Rejected(e) => Err(e)
    case Responded(_) => Ok(url)
  }

  function UploadOp(script: Script, url: string): nat -> Outcome<string> {
    (k: nat) => UploadAttempt(script.At(k), url)
  }

  /** The put request of an upload: the captured destination bucket, the
      given key, the buffer, a JPEG content type, a one-year cache lifetime
      and the `processed-by` tag. */
  function PutRequest(destinationBucket: Option<string>, key: string, buffer: Bytes): (c: Command)
    ensures c.PutObject? && c.destination == destinationBucket && c.Key() == key && c.body == Buffer(buffer)
    ensures c.contentType == JpegContentType && c.cacheControl == Some(OneYearCacheControl)
    ensures (ProcessedByKey, ProcessedByValue) in c.metadata
  {
    PutObject(destinationBucket, key, Buffer(buffer), JpegContentType, Some(OneYearCacheControl),
              [(ProcessedByKey, ProcessedByValue)])
  }

  class S3Service {
    const s3: S3Client
    /** `DESTINATION_BUCKET` as read when the service was built. */
    const destinationBucket: Option<string>

    constructor(s3: S3Client, destinationBucket: Option<string>)
      ensures this.s3 == s3 && this.destinationBucket == destinationBucket
    {
      this.s3 := s3;
      this.destinationBucket := destinationBucket;
    }

    /** The public URL of an uploaded key. */
    function PublicUrlOf(key: string): string {
      PublicUrl(TemplateText(destinationBucket), key)
    }

    /** Sends `c` once per attempt the retry loop made. */
    method SendEach(c: Command, attempts: nat)
      modifies s3
      ensures s3.sent == old(s3.sent) + Repeat(c, attempts)
      ensures s3.script == old(s3.script).Drop(attempts)
    {
      var i := 0;
      while i < attempts
        invariant i <= attempts
        invariant s3.sent == old(s3.sent) + Repeat(c, i)
        invariant s3.script == old(s3.script).Drop(i)
      {
        var _ := s3.Send(c);
        i := i + 1;
      }
    }

    /** Fetches `key` from `sourceBucket` under the transfer policy: the body
        of the first response that has one, or the last error once an attempt
        ends retrying or the four attempts are spent. */
    method DownloadImage(sourceBucket: string, key: string) returns (r: Outcome<ByteStream>)
      modifies s3
      ensures var op := DownloadOp(old(s3.script));
              && r == RetryOutcome(op, TransferRetryConfig)
              && s3.sent == old(s3.sent) + Repeat(GetObject(sourceBucket, key), AttemptCount(op, TransferRetryConfig))
              && s3.script == old(s3.script).Drop(AttemptCount(op, TransferRetryConfig))
    {
      var op := DownloadOp(s3.script);
      var calls, sleeps;
      r, calls, sleeps := WithRetry(op, TransferRetryConfig);
      SendEach(GetObject(sourceBucket, key), calls);
    }

    /** Stores `buffer` under `key` in the destination bucket under the
        transfer policy, returning the object's public URL. */
    method UploadCompressedImage(key: string, buffer: Bytes) returns (r: Outcome<string>)
      modifies s3
      ensures var op := UploadOp(old(s3.script), PublicUrlOf(key));
              && r == RetryOutcome(op, TransferRetryConfig)
              && s3.sent == old(s3.sent) + Repeat(PutRequest(destinationBucket, key, buffer), AttemptCount(op, TransferRetryConfig))
              && s3.script == old(s3.script).Drop(AttemptCount(op, TransferRetryConfig))
    {
      var op := UploadOp(s3.script, PublicUrlOf(key));
      var calls, sleeps;
      r, calls, sleeps := WithRetry(op, TransferRetryConfig);
      SendEach(PutRequest(destinationBucket, key, buffer), calls);
    }

    /** Sends one get request and reports whether it resolved; any error
        means false. */
    method CheckImageExists(bucket: string, key: string) returns (found: bool)
      modifies s3
      ensures found <==> old(s3.script).At(0).Responded?
      ensures s3.sent == old(s3.sent) + [GetObject(bucket, key)]
      ensures s3.script == old(s3.script).Drop(1)
    {
      var response := s3.Send(GetObject(bucket, key));
      found := response.Responded?;
    }
  }

  // Properties of the transfers.

  /** Neither transfer sends more than four requests. */
  lemma TransfersBounded(script: Script, url: string)
    ensures 1 <= AttemptCount(DownloadOp(script), TransferRetryConfig) <= 4
    ensures 1 <= AttemptCount(UploadOp(script, url), TransferRetryConfig) <= 4
  {
  }

  /** A response is retried unless it carries a body or rejects with an
      explicitly non-retryable error. */
  predicate RetriedResponse(response: SendResult) {
    match response
    case Responded(body) => body.None?
    case Rejected(e) => !(e.RetryableError? && !e.retryable)
  }

  /** The download returns the first body, after one request per response up
      to and including it, provided every earlier response was retried. */
  lemma FirstBodyReturned(script: Script, i: nat, body: ByteStream)
    requires i <= TransferRetryConfig.maxRetries && script.At(i) == Responded(Some(body))
    requires forall j :: 0 <= j < i ==> RetriedResponse(script.At(j))
    ensures AttemptCount(DownloadOp(script), TransferRetryConfig) == i + 1
    ensures RetryOutcome(DownloadOp(script), TransferRetryConfig) == Ok(body)
  {
    var op := DownloadOp(script);
    forall j | 0 <= j < i
      ensures !EndsRetrying(op(j))
    {
      assert RetriedResponse(script.At(j));
    }
    FirstSuccessReturned(op, TransferRetryConfig, i);
  }

  /** Two rejected requests followed by a resolved one: three requests, for
      a download (given a body) as for an upload. */
  lemma TwoFailuresThenSuccess(e1: Thrown, e2: Thrown, body: ByteStream, rest: seq<SendResult>, fallback: SendResult, url: string)
    requires !e1.RetryableError? && !e2.RetryableError?
    ensures var script := Script([Rejected(e1), Rejected(e2), Responded(Some(body))] + rest, fallback);
            && AttemptCount(DownloadOp(script), TransferRetryConfig) == 3
            && RetryOutcome(DownloadOp(script), TransferRetryConfig) == Ok(body)
            && AttemptCount(UploadOp(script, url), TransferRetryConfig) == 3
            && RetryOutcome(UploadOp(script, url), TransferRetryConfig) == Ok(url)
  {
    var script := Script([Rejected(e1), Rejected(e2), Responded(Some(body))] + rest, fallback);
    FirstBodyReturned(script, 2, body);
    FirstSuccessReturned(UploadOp(script, url), TransferRetryConfig, 2);
  }

  /** Responses without a body are retried like failures: if none ever has a
      body, all four requests are made and the no-body error is raised. */
  lemma MissingBodyRetried(script: Script)
    requires forall k: nat :: script.At(k) == Responded(None)
    ensures AttemptCount(DownloadOp(script), TransferRetryConfig) == 4
    ensures RetryOutcome(DownloadOp(script), TransferRetryConfig) == Err(NoBodyError)
  {
    AlwaysFailingExhaustsBudget(DownloadOp(script), TransferRetryConfig);
  }

  /** When every request is rejected with a retried error, four requests are
      made and the fourth error reaches the caller unchanged. */
  lemma LastErrorPropagates(script: Script, url: string)
    requires forall k: nat :: script.At(k).Rejected? && RetriedResponse(script.At(k))
    ensures AttemptCount(DownloadOp(script), TransferRetryConfig) == 4
    ensures RetryOutcome(DownloadOp(script), TransferRetryConfig) == Err(script.At(3).error)
    ensures AttemptCount(UploadOp(script, url), TransferRetryConfig) == 4
    ensures RetryOutcome(UploadOp(script, url), TransferRetryConfig) == Err(script.At(3).error)
  {
    var down, up := DownloadOp(script), UploadOp(script, url);
    forall k: nat
      ensures !EndsRetrying(down(k)) && !EndsRetrying(up(k))
    {
      assert RetriedResponse(script.At(k));
    }
    AlwaysFailingExhaustsBudget(down, TransferRetryConfig);
    AlwaysFailingExhaustsBudget(up, TransferRetryConfig);
  }

  /** A successful upload returns the public URL of its key, from which the
      key can be read back. */
  lemma UploadUrl(script: Script, bucket: string, key: string)
    requires RetryOutcome(UploadOp(script, PublicUrl(bucket, key)), TransferRetryConfig).Ok?
    ensures var url := RetryOutcome(UploadOp(script, PublicUrl(bucket, key)), TransferRetryConfig).value;
            url == PublicUrl(bucket, key) && KeyOfUrl(url, bucket) == Some(key)
  {
    KeyOfUrlRoundTrip(bucket, key);
  }
}
