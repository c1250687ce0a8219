/** The deployed legacy handler: a module-load check of the destination
    bucket, then per record a get, a clamp of the dimensions written with
    reassigned locals, and a put of the stream piped through a WebP
    converter. Errors are re-thrown to the caller. */
module LegacyIndex {
  import opened Types
  import opened Validation
  import opened ImageProcessing
  import opened Storage

  const RetrieveFailedMessage := "Failed to retrieve image from S3"
  const WebpContentType := "image/webp"
  const LegacySuccessMessage := "Image processed successfully"

  /** The module-level guard: loading fails unless `DESTINATION_BUCKET` is
      set and non-empty, and otherwise binds it. */
  function LoadModule(env: Option<string>): (r: Outcome<string>)
    ensures r.Ok? <==> Truthy(env)
    ensures r.Ok? ==> r.value == env.value && r.value != ""
    ensures r.Err? ==> r.error == PlainError(MissingBucketMessage)
  {
    if !Truthy(env) then Err(PlainError(MissingBucketMessage)) else Ok(env.value)
  }

  /** The module-load guard accepts exactly the settings the newer handler's
      environment check accepts, with the same message; only the kind of
      error differs (a plain `Error`, not a `ValidationError`). */
  lemma LoadAgreesWithEnvironmentCheck(env: Option<string>)
    ensures LoadModule(env).Ok? <==> ValidateEnvironmentVariables(env).Ok?
    ensures LoadModule(env).Err? ==>
              LoadModule(env).error.message == ValidateEnvironmentVariables(env).error.message
  {
  }

  /** The clamp as written in the legacy handler: when the wider side is over
      the limit it becomes the limit and the other side is scaled and rounded;
      when height is at least width and over the limit, the same for height. */
  method ClampDimensions(w: nat, h: nat) returns (width: nat, height: nat)
    ensures w > h && w > MaxDimension ==> width == MaxDimension && height == RoundDiv(h * MaxDimension, w)
    ensures w <= h && h > MaxDimension ==> height == MaxDimension && width == RoundDiv(w * MaxDimension, h)
    ensures FitsBox(w, h) ==> width == w && height == h
    ensures width <= MaxDimension && height <= MaxDimension && width <= w && height <= h
    ensures Dimensions(width, height) == CalculateDimensions(w, h)
  {
    width, height := w, h;
    if width > height {
      if width > MaxDimension {
        height := RoundDiv(height * MaxDimension, width);
        width := MaxDimension;
      }
    } else {
      if height > MaxDimension {
        width := RoundDiv(width * MaxDimension, height);
        height := MaxDimension;
      }
    }
    ClampAgrees(w, h, width, height);
  }

  /** Either clamp's result, as the legacy branches leave it, is the one
      `CalculateDimensions` gives: the two are the same function on all
      non-negative integer sizes under exact arithmetic. */
  lemma ClampAgrees(w: nat, h: nat, width: nat, height: nat)
    requires w > h && w > MaxDimension ==> width == MaxDimension && height == RoundDiv(h * MaxDimension, w)
    requires w <= h && h > MaxDimension ==> height == MaxDimension && width == RoundDiv(w * MaxDimension, h)
    requires !(w > h && w > MaxDimension) && !(w <= h && h > MaxDimension) ==> width == w && height == h
    ensures Dimensions(width, height) == CalculateDimensions(w, h)
  {
    if !FitsBox(w, h) {
      assert h * MaxDimension == MaxDimension * h;
      assert w * MaxDimension == MaxDimension * w;
      CalculateDimensionsDetermined(w, h, Dimensions(width, height));
    }
  }

  /** The response body, before it is serialised to JSON. */
  datatype LegacyBody = LegacyBody(message: string, originalKey: string, newDimensions: Dimensions)
  datatype LegacyResponse = LegacyResponse(statusCode: nat, body: LegacyBody)

  /** The put of the legacy handler: the bound bucket, the source key, the
      converted stream and a WebP content type, with no cache lifetime and no
      metadata. */
  function LegacyPut(destinationBucket: string, key: string, source: ByteStream, size: Dimensions): (c: Command)
    ensures c.PutObject? && c.destination == Some(destinationBucket) && c.Key() == key
    ensures c.body == ConvertedStream(source, size.width, size.height) && c.contentType == WebpContentType
    ensures c.cacheControl.None? && c.metadata == []
  {
    PutObject(Some(destinationBucket), key, ConvertedStream(source, size.width, size.height), WebpContentType, None, [])
  }

  /** One invocation for the first record's bucket and key, with the bucket
      bound at load time. `metadata` is what the codec's metadata call gives:
      that call is made on a converter with no input, so its outcome does not
      depend on the downloaded image. `converterError` is what building the
      WebP converter for a size and piping the stream into it raises, if
      anything. */
  method Handle(
    client: S3Client, destinationBucket: string, sourceBucket: string, imageKey: string,
    metadata: Outcome<SharpMetadata>, converterError: Dimensions -> Option<Thrown>)
    returns (r: Outcome<LegacyResponse>)
    requires destinationBucket != ""
    modifies client
    ensures var first := old(client.script).At(0);
            var get := GetObject(sourceBucket, imageKey);
            && (first.Rejected? ==> r == Err(first.error) && client.sent == old(client.sent) + [get])
            && (first == Responded(None) ==>
                  r == Err(PlainError(RetrieveFailedMessage)) && client.sent == old(client.sent) + [get])
            && (first.Responded? && first.body.Some? && metadata.Err? ==>
                  r == Err(metadata.error) && client.sent == old(client.sent) + [get])
    ensures var first := old(client.script).At(0);
            first.Responded? && first.body.Some? && metadata.Ok? ==>
              var size := CalculateDimensions(metadata.value.width.GetOr(0), metadata.value.height.GetOr(0));
              && (converterError(size).Some? ==>
                    r == Err(converterError(size).value)
                    && client.sent == old(client.sent) + [GetObject(sourceBucket, imageKey)])
              && (converterError(size).None? ==>
                    var put := LegacyPut(destinationBucket, imageKey, first.body.value, size);
                    && client.sent == old(client.sent) + [GetObject(sourceBucket, imageKey), put]
                    && (old(client.script).At(1).Rejected? ==> r == Err(old(client.script).At(1).error))
                    && (old(client.script).At(1).Responded? ==>
                          r == Ok(LegacyResponse(200, LegacyBody(LegacySuccessMessage, imageKey, size)))))
    ensures client.script == old(client.script).Drop(|client.sent| - |old(client.sent)|)
  {
    var imageObj := client.Send(GetObject(sourceBucket, imageKey));
    if imageObj.Rejected? {
      return Err(imageObj.error);
    }
    if imageObj.body.None? {
      return Err(PlainError(RetrieveFailedMessage));
    }
    var imageStream := imageObj.body.value;
    if metadata.Err? {
      return Err(metadata.error);
    }
    var width, height := ClampDimensions(metadata.value.width.GetOr(0), metadata.value.height.GetOr(0));
    var failure := converterError(Dimensions(width, height));
    if failure.Some? {
      return Err(failure.value);
    }
    var stored := client.Send(LegacyPut(destinationBucket, imageKey, imageStream, Dimensions(width, height)));
    DropDrop(old(client.script), 1, 1);
    if stored.Rejected? {
      return Err(stored.error);
    }
    r := Ok(LegacyResponse(200, LegacyBody(LegacySuccessMessage, imageKey, Dimensions(width, height))));
  }
}
