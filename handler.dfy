/** The invocation handler: validate the environment, the event and the key,
    then download, process and upload, and map the outcome to a 200, 400 or
    500 response. Every failure is caught and answered; nothing is thrown.
    The pure `Handle` gives the response together with the requests sent to
    storage; `Run` performs the same invocation against a storage client. */
module Handler {
  import opened Types
  import opened Validation
  import opened ErrorHandling
  import opened ImageProcessing
  import opened Storage

  const SuccessMessage := "Image processed successfully"
  const ValidationFailureMessage := "Validation error"
  const InternalErrorMessage := "Internal server error"
  const ProcessingFailedMessage := "Image processing failed"
  const NoBufferMessage := "No processed image buffer available for upload"

  datatype Body =
    | Processed(message: string, originalKey: string, newDimensions: Dimensions, destinationUrl: string)
    | ValidationFailed(message: string, error: string, requestId: string)
    | InternalError(message: string, error: string, requestId: string, processingTimeMs: nat)

  datatype Response = Response(statusCode: nat, body: Body)

  /** A finished invocation: its response and the storage requests it sent. */
  datatype Invocation = Invocation(response: Response, sends: seq<Command>)

  /** The catch block: a `ValidationError` is a client error, anything else
      (including values that are not errors at all) a server error. */
  function ErrorResponse(e: Thrown, requestId: string, elapsedMs: nat): (r: Response)
    ensures e.ValidationError? <==> r.statusCode == 400
    ensures e.ValidationError? ==> r.body == ValidationFailed(ValidationFailureMessage, e.message, requestId)
    ensures !e.ValidationError? ==>
              r.statusCode == 500 && r.body == InternalError(InternalErrorMessage, ErrorText(e), requestId, elapsedMs)
  {
    if e.ValidationError? then
      Response(400, ValidationFailed(ValidationFailureMessage, e.message, requestId))
    else
      Response(500, InternalError(InternalErrorMessage, ErrorText(e), requestId, elapsedMs))
  }

  /** The three checks in order (environment, event, key), yielding the source
      bucket and key of the first record. The first failing check decides. */
  function ValidateInvocation(destinationBucket: Option<string>, event: Option<RawEvent>)
    : (r: Outcome<(string, string)>)
    ensures r.Ok? <==>
              && Truthy(destinationBucket)
              && event.Some? && WellFormedEvent(event.value)
              && ValidateImageKey(ImageKey(event.value)).Ok?
    ensures r.Ok? ==> r.value == (SourceBucket(event.value), ImageKey(event.value))
    ensures r.Err? ==> r.error.ValidationError?
    ensures !Truthy(destinationBucket) ==> r == Err(ValidationError(MissingBucketMessage))
    ensures Truthy(destinationBucket) && ValidateS3Event(event).Err? ==> r == Err(ValidateS3Event(event).error)
    ensures Truthy(destinationBucket) && ValidateS3Event(event).Ok? ==>
              var key := ImageKey(event.value);
              ValidateImageKey(key).Err? ==> r == Err(ValidateImageKey(key).error)
  {
    match ValidateEnvironmentVariables(destinationBucket)
    case Err(e) => Err(e)
    case Ok(_) =>
      match ValidateS3Event(event)
      case Err(e) => Err(e)
      case Ok(s3Event) =>
        var key := ImageKey(s3Event);
        match ValidateImageKey(key)
        case Err(e) => Err(e)
        case Ok(_) => Ok((SourceBucket(s3Event), key))
  }

  /** The buffer to upload, or the error thrown for a failed or empty
      processing result. An empty error text counts as absent. */
  function UploadBuffer(result: ProcessingResult): (r: Outcome<Bytes>)
    ensures r.Ok? <==> result.success && result.processedBuffer.Some?
    ensures r.Ok? ==> r.value == result.processedBuffer.value
    ensures !result.success ==>
              r == Err(PlainError(if Truthy(result.error) then result.error.value else ProcessingFailedMessage))
    ensures result.success && result.processedBuffer.None? ==> r == Err(PlainError(NoBufferMessage))
  {
    if !result.success then
      Err(PlainError(if Truthy(result.error) then result.error.value else ProcessingFailedMessage))
    else if result.processedBuffer.None? then
      Err(PlainError(NoBufferMessage))
    else
      Ok(result.processedBuffer.value)
  }

  /** Everything after the download: check the processing result, upload the
      buffer under the source key, and answer. `script` holds the responses
      left once the download is done. */
  function UploadStage(
    destinationBucket: Option<string>, key: string, result: ProcessingResult,
    script: Script, requestId: string, elapsedMs: nat): (inv: Invocation)
    ensures inv.response.statusCode == 200 || inv.response.statusCode == 400 || inv.response.statusCode == 500
    ensures inv.response.statusCode == 200 <==> inv.response.body.Processed?
    ensures UploadBuffer(result).Err? ==>
              inv == Invocation(ErrorResponse(UploadBuffer(result).error, requestId, elapsedMs), [])
    ensures |inv.sends| <= 4
    ensures forall i :: 0 <= i < |inv.sends| ==> inv.sends[i].PutObject? && inv.sends[i].Key() == key
    ensures inv.response.statusCode == 200 ==>
              && |inv.sends| > 0
              && inv.response.body.originalKey == key
              && inv.response.body.newDimensions == result.newDimensions
              && inv.response.body.destinationUrl == PublicUrl(TemplateText(destinationBucket), key)
    ensures UploadBuffer(result).Ok? ==>
              var upload := UploadOp(script, PublicUrl(TemplateText(destinationBucket), key));
              && inv.sends == Repeat(PutRequest(destinationBucket, key, UploadBuffer(result).value),
                                     AttemptCount(upload, TransferRetryConfig))
              && (RetryOutcome(upload, TransferRetryConfig).Err? ==>
                    inv.response == ErrorResponse(RetryOutcome(upload, TransferRetryConfig).error, requestId, elapsedMs))
              && (RetryOutcome(upload, TransferRetryConfig).Ok? ==> inv.response.statusCode == 200)
  {
    match UploadBuffer(result)
    case Err(e) => Invocation(ErrorResponse(e, requestId, elapsedMs), [])
    case Ok(buffer) =>
      var upload := UploadOp(script, PublicUrl(TemplateText(destinationBucket), key));
      var puts := Repeat(PutRequest(destinationBucket, key, buffer), AttemptCount(upload, TransferRetryConfig));
      match RetryOutcome(upload, TransferRetryConfig)
      case Err(e) => Invocation(ErrorResponse(e, requestId, elapsedMs), puts)
      case Ok(url) =>
        Invocation(Response(200, Processed(SuccessMessage, key, result.newDimensions, url)), puts)
  }

  /** The download of `key` from `bucket` and everything after it, once the
      checks have passed. */
  function Transfer(
    destinationBucket: Option<string>, bucket: string, key: string, requestId: string,
    script: Script, codec: Codec, elapsedMs: nat): (inv: Invocation)
    ensures inv.response.statusCode == 200 || inv.response.statusCode == 400 || inv.response.statusCode == 500
    ensures inv.response.statusCode == 200 <==> inv.response.body.Processed?
    ensures 1 <= |inv.sends| <= 8 && inv.sends[0] == GetObject(bucket, key)
    ensures forall i :: 0 <= i < |inv.sends| ==> inv.sends[i].Key() == key
    ensures inv.response.statusCode == 200 ==>
              && inv.response.body.originalKey == key
              && inv.response.body.destinationUrl == PublicUrl(TemplateText(destinationBucket), key)
              && inv.sends[|inv.sends| - 1].PutObject?
              && RetryOutcome(DownloadOp(script), TransferRetryConfig).Ok?
              && inv.response.body.newDimensions ==
                   ProcessImage(RetryOutcome(DownloadOp(script), TransferRetryConfig).value,
                                key, destinationBucket, codec).newDimensions
    ensures RetryOutcome(DownloadOp(script), TransferRetryConfig).Err? ==>
              && inv.response == ErrorResponse(RetryOutcome(DownloadOp(script), TransferRetryConfig).error, requestId, elapsedMs)
              && inv.sends == Repeat(GetObject(bucket, key), AttemptCount(DownloadOp(script), TransferRetryConfig))
  {
    var download := DownloadOp(script);
    var n := AttemptCount(download, TransferRetryConfig);
    var gets := Repeat(GetObject(bucket, key), n);
    match RetryOutcome(download, TransferRetryConfig)
    case Err(e) => Invocation(ErrorResponse(e, requestId, elapsedMs), gets)
    case Ok(stream) =>
      var rest := UploadStage(destinationBucket, key, ProcessImage(stream, key, destinationBucket, codec),
                              script.Drop(n), requestId, elapsedMs);
      Invocation(rest.response, gets + rest.sends)
  }

  /** One invocation. `destinationBucket` is the `DESTINATION_BUCKET` setting,
      `script` the storage client's responses, `codec` the image codec and
      `elapsedMs` the time since the invocation started. */
  function Handle(
    destinationBucket: Option<string>, event: Option<RawEvent>, requestId: string,
    script: Script, codec: Codec, elapsedMs: nat): (inv: Invocation)
    ensures inv.response.statusCode == 200 || inv.response.statusCode == 400 || inv.response.statusCode == 500
    ensures inv.response.statusCode == 200 <==> inv.response.body.Processed?
    ensures ValidateInvocation(destinationBucket, event).Err? ==>
              && inv.sends == []
              && inv.response == ErrorResponse(ValidateInvocation(destinationBucket, event).error, requestId, elapsedMs)
              && inv.response.statusCode == 400
    ensures ValidateInvocation(destinationBucket, event).Ok? ==>
              && 1 <= |inv.sends| <= 8
              && inv.sends[0] == GetObject(SourceBucket(event.value), ImageKey(event.value))
              && (forall i :: 0 <= i < |inv.sends| ==> inv.sends[i].Key() == ImageKey(event.value))
    ensures inv.response.statusCode == 200 ==>
              && ValidateInvocation(destinationBucket, event).Ok?
              && inv.response.body.originalKey == ImageKey(event.value)
              && inv.response.body.destinationUrl == PublicUrl(destinationBucket.value, ImageKey(event.value))
              && inv.sends[|inv.sends| - 1].PutObject?
              && RetryOutcome(DownloadOp(script), TransferRetryConfig).Ok?
              && inv.response.body.newDimensions ==
                   ProcessImage(RetryOutcome(DownloadOp(script), TransferRetryConfig).value,
                                ImageKey(event.value), destinationBucket, codec).newDimensions
    ensures ValidateInvocation(destinationBucket, event).Ok? && RetryOutcome(DownloadOp(script), TransferRetryConfig).Err? ==>
              && inv.response == ErrorResponse(RetryOutcome(DownloadOp(script), TransferRetryConfig).error, requestId, elapsedMs)
              && inv.sends == Repeat(GetObject(SourceBucket(event.value), ImageKey(event.value)),
                                     AttemptCount(DownloadOp(script), TransferRetryConfig))
  {
    match ValidateInvocation(destinationBucket, event)
    case Err(e) => Invocation(ErrorResponse(e, requestId, elapsedMs), [])
    case Ok((bucket, key)) =>
      assert bucket == SourceBucket(event.value) && key == ImageKey(event.value);
      Transfer(destinationBucket, bucket, key, requestId, script, codec, elapsedMs)
  }

  /** The stage after the download performed through `service`: sends and
      answers exactly what `UploadStage` gives for the client's remaining
      responses. */
  method RunUpload(
    service: S3Service, key: string, result: ProcessingResult,
    requestId: string, elapsedMs: nat) returns (response: Response)
    modifies service.s3
    ensures var inv := UploadStage(service.destinationBucket, key, result, old(service.s3.script), requestId, elapsedMs);
            && response == inv.response
            && service.s3.sent == old(service.s3.sent) + inv.sends
            && service.s3.script == old(service.s3.script).Drop(|inv.sends|)
  {
    var buffer := UploadBuffer(result);
    if buffer.Err? {
      DropNone(service.s3.script);
      return ErrorResponse(buffer.error, requestId, elapsedMs);
    }
    var uploaded := service.UploadCompressedImage(key, buffer.value);
    if uploaded.Err? {
      return ErrorResponse(uploaded.error, requestId, elapsedMs);
    }
    response := Response(200, Processed(SuccessMessage, key, result.newDimensions, uploaded.value));
  }

  /** The download and the stage after it, performed on a storage client:
      sends and answers exactly what `Transfer` gives. */
  method RunTransfer(
    destinationBucket: Option<string>, bucket: string, key: string, requestId: string,
    client: S3Client, codec: Codec, elapsedMs: nat) returns (response: Response)
    modifies client
    ensures var inv := Transfer(destinationBucket, bucket, key, requestId, old(client.script), codec, elapsedMs);
            && response == inv.response
            && client.sent == old(client.sent) + inv.sends
            && client.script == old(client.script).Drop(|inv.sends|)
  {
    ghost var script, sent := client.script, client.sent;
    ghost var n := AttemptCount(DownloadOp(script), TransferRetryConfig);
    ghost var gets := Repeat(GetObject(bucket, key), n);
    var service := new S3Service(client, destinationBucket);
    var downloaded := service.DownloadImage(bucket, key);
    if downloaded.Err? {
      return ErrorResponse(downloaded.error, requestId, elapsedMs);
    }
    var result := ProcessImage(downloaded.value, key, destinationBucket, codec);
    ghost var stage := UploadStage(destinationBucket, key, result, script.Drop(n), requestId, elapsedMs);
    assert Transfer(destinationBucket, bucket, key, requestId, script, codec, elapsedMs)
        == Invocation(stage.response, gets + stage.sends);
    response := RunUpload(service, key, result, requestId, elapsedMs);
    assert client.sent == sent + gets + stage.sends;
    assert sent + gets + stage.sends == sent + (gets + stage.sends);
    DropDrop(script, n, |stage.sends|);
  }

  /** The invocation performed against a storage client: the checks, then
      the service's download and upload. Sends exactly what `Handle` lists,
      consumes one response per request, and answers what `Handle` answers. */
  method Run(
    destinationBucket: Option<string>, event: Option<RawEvent>, requestId: string,
    client: S3Client, codec: Codec, elapsedMs: nat) returns (response: Response)
    modifies client
    ensures var inv := Handle(destinationBucket, event, requestId, old(client.script), codec, elapsedMs);
            && response == inv.response
            && client.sent == old(client.sent) + inv.sends
            && client.script == old(client.script).Drop(|inv.sends|)
  {
    var validated := ValidateInvocation(destinationBucket, event);
    if validated.Err? {
      DropNone(client.script);
      return ErrorResponse(validated.error, requestId, elapsedMs);
    }
    var (bucket, key) := validated.value;
    response := RunTransfer(destinationBucket, bucket, key, requestId, client, codec, elapsedMs);
  }

  // Properties of an invocation.

  /** A failed processing result is a server error carrying the result's
      error text (or the generic text), and nothing is uploaded. */
  lemma ProcessingFailureSkipsUpload(
    destinationBucket: Option<string>, event: Option<RawEvent>, requestId: string,
    script: Script, codec: Codec, elapsedMs: nat)
    requires ValidateInvocation(destinationBucket, event).Ok?
    requires RetryOutcome(DownloadOp(script), TransferRetryConfig).Ok?
    requires !ProcessImage(RetryOutcome(DownloadOp(script), TransferRetryConfig).value,
                           ImageKey(event.value), destinationBucket, codec).success
    ensures var inv := Handle(destinationBucket, event, requestId, script, codec, elapsedMs);
            var result := ProcessImage(RetryOutcome(DownloadOp(script), TransferRetryConfig).value,
                                       ImageKey(event.value), destinationBucket, codec);
            && inv.response.statusCode == 500
            && inv.response.body.error == (if Truthy(result.error) then result.error.value else ProcessingFailedMessage)
            && inv.sends == Repeat(GetObject(SourceBucket(event.value), ImageKey(event.value)),
                                   AttemptCount(DownloadOp(script), TransferRetryConfig))
            && forall i :: 0 <= i < |inv.sends| ==> !inv.sends[i].PutObject?
  {
  }

  /** A download that never gets a body is answered with a server error
      carrying the no-body message after four requests, none of them a put. */
  lemma MissingBodyIsServerError(
    destinationBucket: Option<string>, event: Option<RawEvent>, requestId: string,
    script: Script, codec: Codec, elapsedMs: nat)
    requires ValidateInvocation(destinationBucket, event).Ok?
    requires forall k: nat :: script.At(k) == Responded(None)
    ensures var inv := Handle(destinationBucket, event, requestId, script, codec, elapsedMs);
            && inv.response == Response(500, InternalError(InternalErrorMessage, NoBodyMessage, requestId, elapsedMs))
            && |inv.sends| == 4
  {
    MissingBodyRetried(script);
  }

  /** A processing result reported as successful always has a buffer, so
      the no-buffer branch is never taken after `ProcessImage`: the upload
      stage runs exactly when processing succeeded. */
  lemma NoBufferUnreachable(stream: ByteStream, key: string, destinationBucket: Option<string>, codec: Codec)
    ensures var result := ProcessImage(stream, key, destinationBucket, codec);
            UploadBuffer(result).Ok? <==> result.success
  {
  }

  /** The successful path end to end: one get that returns the image, a codec
      that reads and resizes it, one put; the response names the source key,
      the clamped dimensions and the object's public URL. */
  lemma SuccessfulInvocation(
    destinationBucket: string, event: RawEvent, requestId: string,
    stream: ByteStream, fallback: SendResult, codec: Codec, elapsedMs: nat)
    requires destinationBucket != ""
    requires ValidateInvocation(Some(destinationBucket), Some(event)).Ok?
    requires ProcessImage(stream, ImageKey(event), Some(destinationBucket), codec).success
    ensures var script := Script([Responded(Some(stream)), Responded(None)], fallback);
            var inv := Handle(Some(destinationBucket), Some(event), requestId, script, codec, elapsedMs);
            var result := ProcessImage(stream, ImageKey(event), Some(destinationBucket), codec);
            && inv.response == Response(200, Processed(SuccessMessage, ImageKey(event), result.newDimensions,
                                                         PublicUrl(destinationBucket, ImageKey(event))))
            && inv.sends == [GetObject(SourceBucket(event), ImageKey(event)),
                             PutRequest(Some(destinationBucket), ImageKey(event), result.processedBuffer.value)]
  {
    var script := Script([Responded(Some(stream)), Responded(None)], fallback);
    FirstBodyReturned(script, 0, stream);
    var upload := UploadOp(script.Drop(1), PublicUrl(destinationBucket, ImageKey(event)));
    FirstSuccessReturned(upload, TransferRetryConfig, 0);
  }
}
