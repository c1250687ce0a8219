# Image-compression lambda: a verified model

This project models the decision logic of the image-compression lambda. The lambda is triggered by a storage event for an uploaded photo. It checks its configuration, the event and the object key. It then downloads the image, clamps it to a 4096-pixel box and re-encodes it. Finally it uploads the result under the same key to the destination bucket and answers with a 200, 400 or 500 response. The deployed legacy handler (`index.ts`) is modelled as well: it has its own clamp, its own upload, and it re-throws errors.

All I/O is abstract:
- The storage client is a scripted queue of responses (`Storage.Script`) that records every request it is sent (`Storage.S3Client.sent`).
- A downloaded stream is its chunks in arrival order plus how it ended (`Types.ByteStream`).
- The image codec is a pair of functions that may fail (`ImageProcessing.Codec`).
- `DESTINATION_BUCKET`, the request id and the elapsed time are parameters.

Modules, one per source file:
- `Types`: the values a `throw` can carry (`ValidationError`, `RetryableError` with its flag and type, any other `Error`, a non-`Error` value), outcomes, dimensions, bytes and streams. It also holds ASCII lower-casing, JavaScript truthiness of strings and the public object URL `https://<bucket>.s3.amazonaws.com/<key>`, with its inverse.
- `Validation` (`src/validation.ts`): the three guard checks.
- `ErrorHandling` (`src/errorHandler.ts`):
  - the retry loop, written as an imperative `WithRetry` method. It is proved against the specification functions `AttemptCount`, `RetryOutcome` and `Backoff`. The operation is given as the outcome of its `k`-th call, and the sleeps taken are returned as a sequence of durations.
  - the keyword classifier and the retryability table.
- `ImageProcessing` (`src/imageProcessor.ts`):
  - the clamp, in exact integer arithmetic. `Math.round(M / (w / h))` is `RoundDiv(M * h, w)`, which rounds half up.
  - stream buffering, as an imperative `StreamToBuffer` method.
  - the metadata defaults, and the result envelope of `processImage`.
- `Storage` (`src/s3Service.ts`): the client and service classes. `S3Service` holds the client and the destination bucket it captured when built. Its download and upload run `WithRetry` under the transfer policy `(3, 1000, 5000, 2)`, so at most four requests are made.
- `Handler` (`src/handler.ts`):
  - `Handle` is a pure function from the setting, the event, the script and the codec to the response and the requests sent.
  - `Run` performs the same invocation on an `S3Client` through an `S3Service`, and is proved to send and answer exactly what `Handle` says.
- `LegacyIndex` (`index.ts`): the module-load guard, the clamp with reassigned `width`/`height` locals (proved equal to `CalculateDimensions`), and the handler method over an `S3Client`.

The retry loop never consults the classifier. Only a `RetryableError` raised with `retryable = false` ends it before the attempt budget is spent. A response without a body raises a `RetryableError` flagged retryable, so it is retried like any failure.

## Model

| member | source | states |
|---|---|---|
| Types.ErrorText | services/lambdas/src/handler.ts:105 | the reported text of a thrown value is its message when it is an `Error`, otherwise "Unknown error" |
| Types.Lower | services/lambdas/src/validation.ts:73 | `toLowerCase` keeps the length and maps each character to its lower-case form (ASCII letters only) |
| Types.PublicUrl | services/lambdas/src/s3Service.ts:74 | the URL is the scheme and the bucket, then the `.s3.amazonaws.com/` host suffix, then the key |
| Types.KeyOfUrl | services/lambdas/src/s3Service.ts:74 | a key read back from a URL of a bucket rebuilds that URL |
| Types.KeyOfUrlRoundTrip | services/lambdas/src/s3Service.ts:74 | the public URL of a bucket and key determines the key: reading it back gives the key |
| Validation.ValidateEnvironmentVariables | services/lambdas/src/validation.ts:10-18 | fails, with the fixed message, iff the bucket setting is unset or empty |
| Validation.SourceBucket | services/lambdas/src/handler.ts:28 | the first record of an accepted event names a non-empty bucket |
| Validation.ImageKey | services/lambdas/src/handler.ts:29 | the first record of an accepted event names a non-empty key |
| Validation.ValidateS3Event | services/lambdas/src/validation.ts:20-48 | accepts iff the event exists, `Records` is a non-empty array and its first record has `s3`, a non-empty bucket name and a non-empty key; on success returns the event unchanged; every failure is a `ValidationError` |
| Validation.EventErrorMessages | services/lambdas/src/validation.ts:21-45 | the checks run in order, so the first one failing names the error: missing event or `Records`, empty `Records`, missing `s3`, missing bucket name, missing key |
| Validation.OnlyFirstRecordInspected | services/lambdas/src/validation.ts:31-47 | appending any records after the first changes neither the verdict nor the error |
| Validation.ValidateImageKey | services/lambdas/src/validation.ts:50-81 | accepts iff the key starts with `photos/` exactly and its lower-cased form ends in an allowed extension; an empty key, a key outside the prefix and a key with another extension each get their own message, in that order |
| Validation.AnyCaseExtensionAccepted | services/lambdas/src/validation.ts:72-74 | any spelling, in any case, of an allowed extension after any stem under `photos/` is accepted |
| Validation.PrefixIsCaseSensitive | services/lambdas/src/validation.ts:56-60 | a key whose first seven characters differ from `photos/` in any way (e.g. `Photos/`) is rejected |
| Validation.LastCharacterRejects | services/lambdas/src/validation.ts:63-80 | a key whose last character is not `g`, `p` or `f` in any case has no valid extension |
| Validation.JpgKeyAccepted | services/lambdas/tests/validation.test.ts:58 | `photos/test.jpg` is accepted |
| Validation.PngKeyAccepted | services/lambdas/tests/validation.test.ts:59 | `photos/image.png` is accepted |
| Validation.WebpKeyAccepted | services/lambdas/tests/validation.test.ts:60 | `photos/photo.webp` is accepted |
| Validation.JpegKeyAccepted | services/lambdas/tests/validation.test.ts:61 | `photos/picture.jpeg` is accepted |
| Validation.UpperCaseKeyAccepted | services/lambdas/src/validation.ts:72-74 | `photos/HOLIDAY.JPG` is accepted: the extension is compared after lower-casing |
| Validation.RejectedKeyExamples | services/lambdas/tests/validation.test.ts:69-81 | the listed keys, and `Photos/test.jpg`, are rejected |
| ErrorHandling.FirstStop | services/lambdas/src/errorHandler.ts:50-79 | the first attempt from `k` on that succeeds or raises an explicitly non-retryable error, or the last one: every attempt before it goes on retrying |
| ErrorHandling.FirstStopAt | services/lambdas/src/errorHandler.ts:50-79 | an attempt that stops the loop (or is the last) with every earlier attempt retried is where the loop stops |
| ErrorHandling.AttemptCount | services/lambdas/src/errorHandler.ts:50 | the operation is called at least once and at most `maxRetries + 1` times |
| ErrorHandling.WithRetry | services/lambdas/src/errorHandler.ts:42-97 | the loop calls the operation exactly `AttemptCount` times, returns or re-throws the last outcome (`RetryOutcome`) and sleeps `Backoff` between attempts |
| ErrorHandling.AlwaysFailingExhaustsBudget | services/lambdas/src/errorHandler.ts:63-96 | an operation that always fails with retried errors is called exactly `maxRetries + 1` times and its last error is re-thrown |
| ErrorHandling.FirstSuccessReturned | services/lambdas/src/errorHandler.ts:53-59 | the first success is returned after as many calls as its index plus one |
| ErrorHandling.ExplicitNonRetryableStops | services/lambdas/src/errorHandler.ts:73-79 | a `RetryableError` with `retryable = false` ends the loop after the attempt that raised it and is re-thrown |
| ErrorHandling.FirstStopDependsOnlyOnStops | services/lambdas/src/errorHandler.ts:60-93 | where the loop stops depends only on which attempts succeed or raise an explicitly non-retryable error |
| ErrorHandling.AttemptCountIgnoresMessages | services/lambdas/src/errorHandler.ts:60-93 | the number of calls does not depend on error messages, so the classifier plays no part in retrying |
| ErrorHandling.ClassifiedNonRetryableStillRetried | services/lambdas/src/errorHandler.ts:60-93 | an error the classifier deems non-retryable, raised as a plain `Error`, is still retried until the budget is spent |
| ErrorHandling.BackoffLength | services/lambdas/src/errorHandler.ts:88-92 | `n` sleeps for the `n` gaps between `n + 1` calls, and the `k`-th sleep is the `k`-th delay: the base delay, then each previous delay times the multiplier, capped |
| ErrorHandling.DelayClosedForm | services/lambdas/src/errorHandler.ts:48-92 | with base no larger than the cap and multiplier at least one, the `k`-th sleep is `min(base * multiplier^k, max)` |
| ErrorHandling.DefaultPolicyBackoff | services/lambdas/src/errorHandler.ts:35-40 | the default policy is (2, 1000, 10000, 2), and its two sleeps are 1000 and 2000 ms |
| ErrorHandling.RetryExamples | services/lambdas/tests/errorHandler.test.ts:62-124 | the call counts and results of the retry cases exercised: 1 call on success; 3 calls, then success, after two failures; 3 calls, then the error, on persistent failure; 1 call on an explicitly non-retryable error, which is re-thrown |
| ErrorHandling.ClassifyError | services/lambdas/src/errorHandler.ts:99-131 | the type returned is mentioned by a keyword in the lower-cased message (or is `Unknown`), and no type of higher priority is mentioned |
| ErrorHandling.ClassificationDeterminedByMentions | services/lambdas/src/errorHandler.ts:99-131 | conversely, the mentioned type with no higher-priority type mentioned is the classification |
| ErrorHandling.ClassificationIgnoresCase | services/lambdas/src/errorHandler.ts:100 | the classification of a message and of its lower-cased form agree |
| ErrorHandling.IsRetryableError | services/lambdas/src/errorHandler.ts:133-150 | an error is not retryable iff it is classified as a validation or image-processing error |
| ErrorHandling.RetryabilityFollowsClassification | services/lambdas/src/errorHandler.ts:133-150 | retryability is fixed by the classification alone |
| ErrorHandling.ValidationMessageExample | services/lambdas/tests/errorHandler.test.ts:5-10 | any message that lower-cases to "invalid input validation failed" (as the test's does) is a validation error and not retryable |
| ErrorHandling.S3MessageExample | services/lambdas/tests/errorHandler.test.ts:12-15 | any message that lower-cases to "s3 bucket access denied" is a storage error and retryable |
| ErrorHandling.ImageMessageExample | services/lambdas/tests/errorHandler.test.ts:17-22 | any message that lower-cases to "sharp image format not supported" is an image-processing error and not retryable |
| ErrorHandling.NetworkMessageExample | services/lambdas/tests/errorHandler.test.ts:24-27 | any message that lower-cases to "network timeout connection failed" is a network error and retryable |
| ErrorHandling.UnknownMessageExample | services/lambdas/tests/errorHandler.test.ts:29-32 | any message that lower-cases to "some random error" is unclassified and retryable |
| ImageProcessing.RoundDiv | services/lambdas/src/imageProcessor.ts:116 | the result is the quotient rounded to the nearest integer, halves up |
| ImageProcessing.RoundsToUnique | services/lambdas/src/imageProcessor.ts:116 | at most one integer is the rounded quotient |
| ImageProcessing.ScaledSideBounds | services/lambdas/src/imageProcessor.ts:112-123 | scaling the shorter side of an oversize image gives at most 4096 and at most that side |
| ImageProcessing.CalculateDimensions | services/lambdas/src/imageProcessor.ts:104-124 | an image within 4096 x 4096 is unchanged; otherwise the longer side (height on ties) becomes 4096 and the other is the rounded proportional value; sides never exceed 4096 or the input |
| ImageProcessing.CalculateDimensionsIdempotent | services/lambdas/src/imageProcessor.ts:108-110 | clamping a clamped size changes nothing |
| ImageProcessing.CalculateDimensionsDetermined | services/lambdas/src/imageProcessor.ts:112-123 | the clamp's contract pins its result down: any size satisfying it is the one computed |
| ImageProcessing.DimensionExamples | services/lambdas/tests/imageProcessor.test.ts:38-62 | 2000x1500 stays, 8000x4000 gives 4096x2048, 3000x6000 gives 2048x4096, 6000x6000 gives 4096x4096 |
| ImageProcessing.ConcatAppend | services/lambdas/src/imageProcessor.ts:83-85 | concatenating two runs of chunks is concatenating their concatenations |
| ImageProcessing.ConcatAt | services/lambdas/src/imageProcessor.ts:79-85 | byte `j` of chunk `i` sits in the buffer right after the bytes of earlier chunks: arrival order is kept |
| ImageProcessing.StreamToBuffer | services/lambdas/src/imageProcessor.ts:75-91 | resolves with the chunks concatenated in arrival order when the stream ends, and rejects with the stream's error when it fails |
| ImageProcessing.GetImageMetadata | services/lambdas/src/imageProcessor.ts:93-102 | fails iff the codec does; missing sides are 0, a missing or empty format is "unknown" and any other is kept, the size is the buffer length and the quality 80 |
| ImageProcessing.ProcessImage | services/lambdas/src/imageProcessor.ts:15-73 | never throws: the result echoes the key and is either a success, which carries the clamped dimensions, the resized buffer and the public URL, or a failure, which carries dimensions 0x0 and the error text of the first failing step, with no buffer and no URL |
| ImageProcessing.SuccessUrlNamesKey | services/lambdas/src/imageProcessor.ts:62 | the URL of a successful result reads back as the original key |
| Storage.S3Service.constructor | services/lambdas/src/s3Service.ts:10-13 | the service keeps the client and the destination bucket setting read when it is built |
| Storage.DownloadAttempt | services/lambdas/src/s3Service.ts:22-38 | a rejected request re-throws its error; a response without a body raises the retryable no-body error; otherwise the body is returned |
| Storage.UploadAttempt | services/lambdas/src/s3Service.ts:72-79 | a resolved put returns the URL; a rejected one re-throws its error |
| Storage.PutRequest | services/lambdas/src/s3Service.ts:60-70 | the put names the captured destination bucket, the given key and buffer, `image/jpeg`, `max-age=31536000` and the `processed-by` tag |
| Storage.S3Service.DownloadImage | services/lambdas/src/s3Service.ts:15-48 | returns what the retry loop returns under the transfer policy, sends one get of the bucket and key per attempt, and consumes that many responses |
| Storage.S3Service.UploadCompressedImage | services/lambdas/src/s3Service.ts:50-89 | returns what the retry loop returns under the transfer policy (the public URL of the key on success), and sends one put per attempt |
| Storage.S3Service.CheckImageExists | services/lambdas/src/s3Service.ts:91-103 | sends exactly one get and returns true iff it resolves; never throws, never retries |
| Storage.TransfersBounded | services/lambdas/src/s3Service.ts:41-46 | a download or an upload makes between one and four requests |
| Storage.FirstBodyReturned | services/lambdas/src/s3Service.ts:16-38 | the body of the first response that has one is returned, after one request per response up to it, when the earlier responses were retried |
| Storage.TwoFailuresThenSuccess | services/lambdas/tests/s3Service.test.ts:58-125 | two rejected requests and then a resolved one: exactly three requests, for a download and for an upload |
| Storage.MissingBodyRetried | services/lambdas/src/s3Service.ts:29-34 | responses without a body are retried: four requests, then the no-body error |
| Storage.LastErrorPropagates | services/lambdas/src/s3Service.ts:16-48 | when every request is rejected with a retried error, four requests are made and the fourth error reaches the caller, for a download and for an upload to any URL |
| Storage.UploadUrl | services/lambdas/src/s3Service.ts:74 | a successful upload returns the public URL of its key, from which the key reads back |
| Handler.ErrorResponse | services/lambdas/src/handler.ts:85-110 | a `ValidationError` gives 400 with "Validation error", its message and the request id; anything else gives 500 with "Internal server error", the error text, the request id and the elapsed time |
| Handler.ValidateInvocation | services/lambdas/src/handler.ts:22-34 | passes iff the setting, the event and the first record's key all pass; the first failing check (environment, then event, then key) names the error |
| Handler.UploadBuffer | services/lambdas/src/handler.ts:50-57 | a failed result raises its error text, or "Image processing failed" when that is empty or absent; a success without a buffer raises the no-buffer error; otherwise the buffer is uploaded |
| Handler.UploadStage | services/lambdas/src/handler.ts:50-84 | after processing: a result that cannot be uploaded (a failure, or no buffer) sends nothing and gets its error response; otherwise one `PutRequest` of the buffer under the key is sent per upload attempt, a failed upload (retries spent or stopped) is answered with the error response of the re-thrown error, and a successful one with 200 carrying the key, the result's dimensions and the public URL |
| Handler.Transfer | services/lambdas/src/handler.ts:36-84 | once the checks pass: the first request is the get of the bucket and key, every request uses the key and there are at most eight; a failed download is answered with the error response of its error after one get per attempt; a 200 follows a put and names the key, the dimensions of the processed download and the public URL |
| Handler.Handle | services/lambdas/src/handler.ts:13-111 | the status is 200, 400 or 500; a validation failure sends nothing and gives 400; otherwise the first request is the get of the source bucket and key, every request uses the source key and there are at most eight; a failed download (retries spent or stopped) is answered with the error response of its error after one get per attempt; a 200 follows a successful download and a put, and names the source key, the dimensions of the processed download and the public URL |
| Handler.Run | services/lambdas/src/handler.ts:36-84 | performed on a storage client, the invocation answers and sends exactly what `Handle` gives, and consumes one scripted response per request sent |
| Handler.RunTransfer | services/lambdas/src/handler.ts:36-84 | the download and what follows, performed on a storage client, answer and send exactly what `Transfer` gives and consume one response per request |
| Handler.RunUpload | services/lambdas/src/handler.ts:50-84 | the stage after the download, performed through the service, answers and sends exactly what `UploadStage` gives and consumes one response per request |
| Handler.ProcessingFailureSkipsUpload | services/lambdas/src/handler.ts:50-52 | a failed processing result gives 500 with its error text (or "Image processing failed"), and only the download's gets are sent |
| Handler.MissingBodyIsServerError | services/lambdas/src/handler.ts:85-109 | a download that never gets a body is answered 500 with the no-body message after four requests |
| Handler.NoBufferUnreachable | services/lambdas/src/handler.ts:55-57 | after `ProcessImage` the upload stage runs exactly when processing succeeded: a success always carries a buffer |
| Handler.SuccessfulInvocation | services/lambdas/src/handler.ts:60-84 | one get and one put answered successfully give 200 with the source key, the clamped dimensions and the public URL, and the put stores the processed buffer under the source key |
| LegacyIndex.LoadModule | services/lambdas/index.ts:9-11 | loading fails iff `DESTINATION_BUCKET` is unset or empty, and binds a non-empty bucket otherwise |
| LegacyIndex.LoadAgreesWithEnvironmentCheck | services/lambdas/index.ts:9-11 | the load guard accepts exactly what the newer environment check accepts, with the same message |
| LegacyIndex.ClampDimensions | services/lambdas/index.ts:35-49 | the legacy clamp leaves a fitting size unchanged, pins the longer side to 4096 and rounds the other, never enlarges, and equals `CalculateDimensions` |
| LegacyIndex.ClampAgrees | services/lambdas/index.ts:39-49 | the result of either legacy branch is the one `CalculateDimensions` gives |
| LegacyIndex.LegacyPut | services/lambdas/index.ts:66-73 | the legacy put names the bound bucket, the source key, the converted stream and `image/webp`, with no cache lifetime and no metadata |
| LegacyIndex.Handle | services/lambdas/index.ts:13-88 | a rejected get, a get without a body ("Failed to retrieve image from S3"), a failed metadata call, or a failure building and piping the WebP converter for the clamped size is re-thrown after one request; otherwise one put of the converted stream at the clamped size under the source key follows, and a resolved put gives 200 with the key and the size; one scripted response is consumed per request |

## Left out

- Logging, `JSON.stringify` of the legacy body, and the compression-ratio percentage: floating point with `toFixed`, used only in a log line.
- Timers and the clock: sleeps are returned as durations; `processingTimeMs` is a parameter; the `processed-at` upload tag is a clock value and is not modelled.
- `Math.round` over floating-point division is modelled as exact half-up rounding of the integer ratio; floating-point tie artefacts are not captured. Sizes and retry settings are natural numbers, and the backoff multiplier is an integer.
- The image codec of the newer handler (decode, resize, JPEG encode) is an opaque pair of functions that may fail; its output is not modelled. In the legacy handler, building the WebP converter and piping the stream into it is a function of the size that may raise an error. Conversion errors that arise while the put reads the stream surface only as the put's rejection.
- The legacy handler calls the codec's metadata on a converter with no input. The model takes that call's outcome as a parameter that does not depend on the downloaded image.
- Storage SDK requests and stream events are a scripted response queue and a chunk list. A stream that never ends, events after `end`/`error`, and concurrency are out of scope.
- Storage.S3Service.DownloadImage: the requests of all attempts are recorded on the client after the retry loop has run, not interleaved with it. Nothing else happens between attempts, so the recorded order and count are the same.
- Storage.S3Service.UploadCompressedImage: its puts are recorded after the retry loop has run in the same way, with the same order and count.
- `toLowerCase` is modelled on ASCII letters only.
- Every record is an object, and a present bucket name or key is a string. A `null` record raises a `TypeError` in the source. A falsy non-string name or key (`0`, `false`, `null`) is rejected as missing, which the model covers as an absent field. A truthy non-string bucket name passes the checks and reaches the get unchanged. A truthy non-string key raises a `TypeError` at the prefix check, which the handler answers with 500. These two non-string cases are not modelled.
- LegacyIndex.Handle: takes the first record's bucket and key as strings. The `TypeError`s of a malformed event, and `undefined` names, are not modelled.
- Module-level state of the legacy handler (one client per container) is a parameter.
