/** The image processor: buffering of the downloaded stream, the metadata
    defaults, the clamp of the dimensions to a 4096-pixel box that keeps the
    aspect ratio, and the result envelope of `processImage`, which reports
    every failure as a value instead of throwing. The image codec is a pair
    of functions that may fail. */
module ImageProcessing {
  import opened Types

  const MaxDimension: nat := 4096
  const Quality: nat := 80
  const UnknownFormat := "unknown"

  // Rounding.

  /** `q` is `a / b` rounded to the nearest integer, halves rounded up (the
      result of `Math.round(a / b)` for non-negative `a` and positive `b`). */
  predicate RoundsTo(a: nat, b: nat, q: nat) {
    b > 0 && 2 * b * q <= 2 * a + b < 2 * b * q + 2 * b
  }

  function RoundDiv(a: nat, b: nat): (q: nat)
    requires b > 0
    ensures RoundsTo(a, b, q)
  {
    (2 * a + b) / (2 * b)
  }

  /** At most one integer is the rounded quotient. */
  lemma RoundsToUnique(a: nat, b: nat, q1: nat, q2: nat)
    requires RoundsTo(a, b, q1) && RoundsTo(a, b, q2)
    ensures q1 == q2
  {
    if q1 > q2 {
      MulMonotone(2 * b, q2 + 1, q1);
    } else if q2 > q1 {
      MulMonotone(2 * b, q1 + 1, q2);
    }
  }

  lemma MulMonotone(c: nat, x: nat, y: nat)
    requires x <= y
    ensures c * x <= c * y
  {
  }

  /** Scaling the short side `side` by `MaxDimension / long`, with the long
      side over the limit, gives at most the limit and at most `side`. */
  lemma ScaledSideBounds(side: nat, long: nat)
    requires side <= long && long > MaxDimension
    ensures RoundDiv(MaxDimension * side, long) <= MaxDimension
    ensures RoundDiv(MaxDimension * side, long) <= side
  {
    var q := RoundDiv(MaxDimension * side, long);
    var m := MaxDimension;
    MulMonotone(2 * m, side, long);
    MulMonotone(2 * side, m, long);
    if q > m {
      MulMonotone(2 * long, m + 1, q);
      assert false;
    }
    if q > side {
      MulMonotone(2 * long, side + 1, q);
      assert false;
    }
  }

  // Dimensions.

  predicate FitsBox(width: nat, height: nat) {
    width <= MaxDimension && height <= MaxDimension
  }

  /** Shrinks `width` x `height` to fit a `MaxDimension` box: the longer side
      (width on ties going to height) becomes `MaxDimension` and the other is
      scaled by the same factor and rounded; an image that already fits is
      returned as it is. */
  function CalculateDimensions(width: nat, height: nat): (d: Dimensions)
    ensures FitsBox(width, height) ==> d == Dimensions(width, height)
    ensures FitsBox(d.width, d.height)
    ensures d.width <= width && d.height <= height
    ensures !FitsBox(width, height) && width > height ==>
              d.width == MaxDimension && RoundsTo(MaxDimension * height, width, d.height)
    ensures !FitsBox(width, height) && width <= height ==>
              d.height == MaxDimension && RoundsTo(MaxDimension * width, height, d.width)
  {
    if FitsBox(width, height) then
      Dimensions(width, height)
    else if width > height then
      ScaledSideBounds(height, width);
      Dimensions(MaxDimension, RoundDiv(MaxDimension * height, width))
    else
      ScaledSideBounds(width, height);
      Dimensions(RoundDiv(MaxDimension * width, height), MaxDimension)
  }

  /** Clamping twice is clamping once. */
  lemma CalculateDimensionsIdempotent(width: nat, height: nat)
    ensures var d := CalculateDimensions(width, height);
            CalculateDimensions(d.width, d.height) == d
  {
  }

  /** The clamp of an oversize image is pinned down by its properties: any
      dimensions with the long side at the limit and the short side the
      rounded scaled value are the ones computed. */
  lemma CalculateDimensionsDetermined(width: nat, height: nat, d: Dimensions)
    requires !FitsBox(width, height)
    requires width > height ==> d.width == MaxDimension && RoundsTo(MaxDimension * height, width, d.height)
    requires width <= height ==> d.height == MaxDimension && RoundsTo(MaxDimension * width, height, d.width)
    ensures CalculateDimensions(width, height) == d
  {
    var c := CalculateDimensions(width, height);
    if width > height {
      RoundsToUnique(MaxDimension * height, width, c.height, d.height);
    } else {
      RoundsToUnique(MaxDimension * width, height, c.width, d.width);
    }
  }

  lemma DimensionExamples()
    ensures CalculateDimensions(2000, 1500) == Dimensions(2000, 1500)
    ensures CalculateDimensions(8000, 4000) == Dimensions(4096, 2048)
    ensures CalculateDimensions(3000, 6000) == Dimensions(2048, 4096)
    ensures CalculateDimensions(6000, 6000) == Dimensions(4096, 4096)
  {
  }

  // Streams.

  /** `Buffer.concat`: the chunks joined in order. */
  function Concat(chunks: seq<Bytes>): Bytes {
    if chunks == [] then [] else Concat(chunks[..|chunks| - 1]) + chunks[|chunks| - 1]
  }

  lemma {:induction false} ConcatAppend(a: seq<Bytes>, b: seq<Bytes>)
    ensures Concat(a + b) == Concat(a) + Concat(b)
    decreases |b|
  {
    if b == [] {
      assert a + b == a;
    } else {
      var init, last := b[..|b| - 1], b[|b| - 1];
      assert (a + b)[..|a + b| - 1] == a + init;
      assert (a + b)[|a + b| - 1] == last;
      ConcatAppend(a, init);
    }
  }

  /** Arrival order is kept: byte `j` of chunk `i` sits in the buffer right
      after the bytes of the chunks before it. */
  lemma {:induction false} ConcatAt(chunks: seq<Bytes>, i: nat, j: nat)
    requires i < |chunks| && j < |chunks[i]|
    ensures |Concat(chunks[..i])| + j < |Concat(chunks)|
    ensures Concat(chunks)[|Concat(chunks[..i])| + j] == chunks[i][j]
  {
    assert chunks == chunks[..i] + ([chunks[i]] + chunks[i + 1..]);
    ConcatAppend(chunks[..i], [chunks[i]] + chunks[i + 1..]);
    ConcatAppend([chunks[i]], chunks[i + 1..]);
    var single: seq<Bytes> := [chunks[i]];
    assert single[..0] == [];
    assert Concat([chunks[i]]) == chunks[i];
  }

  /** What `streamToBuffer` resolves or rejects with. */
  function StreamContents(stream: ByteStream): Outcome<Bytes> {
    match stream.end
    case Ended => Ok(Concat(stream.chunks))
    case Failed(e) => Err(e)
  }

  /** Collects the `data` chunks as they arrive, then resolves with their
      concatenation on `end`, or rejects with the error of an `error` event. */
  method StreamToBuffer(stream: ByteStream) returns (r: Outcome<Bytes>)
    ensures r == StreamContents(stream)
  {
    var chunks: seq<Bytes> := [];
    var i := 0;
    while i < |stream.chunks|
      invariant i <= |stream.chunks|
      invariant chunks == stream.chunks[..i]
    {
      chunks := chunks + [stream.chunks[i]];
      i := i + 1;
    }
    assert chunks == stream.chunks;
    if stream.end.Failed? {
      return Err(stream.end.error);
    }
    r := Ok(Concat(chunks));
  }

  // Metadata.

  /** What the codec reports about an encoded image; any field may be absent. */
  datatype SharpMetadata = SharpMetadata(width: Option<nat>, height: Option<nat>, format: Option<string>)

  datatype ImageMetadata = ImageMetadata(width: nat, height: nat, format: string, size: nat, quality: nat)

  /** The image codec: reading the metadata of an encoded image, and resizing
      an image to fit inside the given box as a progressive JPEG at the
      processor's quality. Either may throw. */
  datatype Codec = Codec(
    metadata: Bytes -> Outcome<SharpMetadata>,
    resize: (Bytes, Dimensions) -> Outcome<Bytes>)

  /** The codec's metadata with defaults filled in: missing sides are 0, a
      missing or empty format is "unknown", the size is the buffer's length
      and the quality is the processor's. */
  function GetImageMetadata(buffer: Bytes, codec: Codec): (r: Outcome<ImageMetadata>)
    ensures r.Err? <==> codec.metadata(buffer).Err?
    ensures r.Err? ==> r.error == codec.metadata(buffer).error
    ensures r.Ok? ==>
              var m := codec.metadata(buffer).value;
              && r.value.width == m.width.GetOr(0)
              && r.value.height == m.height.GetOr(0)
              && r.value.format != ""
              && (Truthy(m.format) ==> r.value.format == m.format.value)
              && (!Truthy(m.format) ==> r.value.format == UnknownFormat)
              && r.value.size == |buffer|
              && r.value.quality == Quality
  {
    match codec.metadata(buffer)
    case Err(e) => Err(e)
    case Ok(m) =>
      Ok(ImageMetadata(
        m.width.GetOr(0),
        m.height.GetOr(0),
        if Truthy(m.format) then m.format.value else UnknownFormat,
        |buffer|,
        Quality))
  }

  // The result envelope.

  datatype ProcessingResult = ProcessingResult(
    success: bool,
    originalKey: string,
    newDimensions: Dimensions,
    processedBuffer: Option<Bytes>,
    destinationUrl: Option<string>,
    error: Option<string>)

  /** The shape every result has: a success carries a buffer and a URL and no
      error; a failure carries zero dimensions, an error and nothing else. */
  predicate WellFormedResult(r: ProcessingResult) {
    if r.success then
      r.processedBuffer.Some? && r.destinationUrl.Some? && r.error.None?
    else
      r.newDimensions == Dimensions(0, 0) && r.processedBuffer.None?
      && r.destinationUrl.None? && r.error.Some?
  }

  /** The value `processImage` returns from its catch block. */
  function Failure(originalKey: string, e: Thrown): ProcessingResult {
    ProcessingResult(false, originalKey, Dimensions(0, 0), None, None, Some(ErrorText(e)))
  }

  /** Buffers the stream, reads the metadata, clamps the dimensions and
      resizes. `destinationBucket` is the `DESTINATION_BUCKET` setting the
      URL is built from. Never throws: the first failing step becomes a
      failure result carrying its error text. */
  function ProcessImage(stream: ByteStream, originalKey: string, destinationBucket: Option<string>, codec: Codec)
    : (r: ProcessingResult)
    ensures WellFormedResult(r)
    ensures r.originalKey == originalKey
    ensures stream.end.Failed? ==> r == Failure(originalKey, stream.end.error)
    ensures r.success <==>
              && StreamContents(stream).Ok?
              && GetImageMetadata(StreamContents(stream).value, codec).Ok?
              && var meta := GetImageMetadata(StreamContents(stream).value, codec).value;
                 codec.resize(StreamContents(stream).value, CalculateDimensions(meta.width, meta.height)).Ok?
    ensures r.success ==>
              var buffer := StreamContents(stream).value;
              var meta := GetImageMetadata(buffer, codec).value;
              && r.newDimensions == CalculateDimensions(meta.width, meta.height)
              && r.processedBuffer == Some(codec.resize(buffer, r.newDimensions).value)
              && r.destinationUrl == Some(PublicUrl(TemplateText(destinationBucket), originalKey))
    ensures !r.success && StreamContents(stream).Ok? ==>
              var buffer := StreamContents(stream).value;
              match GetImageMetadata(buffer, codec)
              case Err(e) => r == Failure(originalKey, e)
              case Ok(meta) =>
                match codec.resize(buffer, CalculateDimensions(meta.width, meta.height))
                case Err(e) => r == Failure(originalKey, e)
                case Ok(_) => false
  {
    match StreamContents(stream)
    case Err(e) => Failure(originalKey, e)
    case Ok(buffer) =>
      match GetImageMetadata(buffer, codec)
      case Err(e) => Failure(originalKey, e)
      case Ok(meta) =>
        var dims := CalculateDimensions(meta.width, meta.height);
        match codec.resize(buffer, dims)
        case Err(e) => Failure(originalKey, e)
        case Ok(out) =>
          ProcessingResult(true, originalKey, dims, Some(out),
                           Some(PublicUrl(TemplateText(destinationBucket), originalKey)), None)
  }

  /** A successful result's URL names the object it was made from. */
  lemma SuccessUrlNamesKey(stream: ByteStream, originalKey: string, bucket: string, codec: Codec)
    requires ProcessImage(stream, originalKey, Some(bucket), codec).success
    ensures KeyOfUrl(ProcessImage(stream, originalKey, Some(bucket), codec).destinationUrl.value, bucket)
            == Some(originalKey)
  {
    KeyOfUrlRoundTrip(bucket, originalKey);
  }
}
