/** Invocation preconditions checked before any I/O: the destination bucket
    setting, the shape of the storage event (only its first record) and the
    object key (`photos/` prefix, image extension). Each check either passes
    or raises a `ValidationError`; here that is an `Outcome`. */
module Validation {
  import opened Types

  const MissingBucketMessage := "DESTINATION_BUCKET environment variable is not set"
  const RecordsMissingMessage := "Invalid event structure: Records array is missing"
  const NoRecordsMessage := "No records found in event"
  const S3MissingMessage := "Invalid S3 event record: s3 object is missing"
  const BucketNameMissingMessage := "Invalid S3 event record: bucket name is missing"
  const ObjectKeyMissingMessage := "Invalid S3 event record: object key is missing"
  const EmptyKeyMessage := "Image key is empty"

  function NotInPrefixMessage(key: string): string {
    "Image key '" + key + "' is not in the photos/ prefix"
  }

  function BadExtensionMessage(key: string): string {
    "Image key '" + key + "' does not have a valid image extension"
  }

  /** Checks the `DESTINATION_BUCKET` setting, given as the value read from the
      environment (`None` when the variable is unset). */
  function ValidateEnvironmentVariables(destinationBucket: Option<string>): (r: Outcome<()>)
    ensures r.Err? <==> destinationBucket.None? || destinationBucket.value == ""
    ensures r.Err? ==> r.error == ValidationError(MissingBucketMessage)
  {
    if !Truthy(destinationBucket) then Err(ValidationError(MissingBucketMessage)) else Ok(())
  }

  // The loosely typed event payload. Each `Option` is a property that may be
  // absent (or, for `records`, present but not an array). `obj` is the
  // record's `object` property (`object` is a Dafny keyword).
  datatype RawBucket = RawBucket(name: Option<string>)
  datatype RawObject = RawObject(key: Option<string>)
  datatype RawS3 = RawS3(bucket: Option<RawBucket>, obj: Option<RawObject>)
  datatype RawRecord = RawRecord(s3: Option<RawS3>)
  datatype RawEvent = RawEvent(records: Option<seq<RawRecord>>)

  /** A record that names a bucket and an object key, both non-empty. */
  predicate CompleteRecord(rec: RawRecord) {
    && rec.s3.Some?
    && rec.s3.value.bucket.Some? && Truthy(rec.s3.value.bucket.value.name)
    && rec.s3.value.obj.Some? && Truthy(rec.s3.value.obj.value.key)
  }

  /** The shape the handler relies on: a non-empty `Records` array whose first
      record is complete. Later records may be anything. */
  predicate WellFormedEvent(e: RawEvent) {
    e.records.Some? && |e.records.value| > 0 && CompleteRecord(e.records.value[0])
  }

  function SourceBucket(e: RawEvent): (name: string)
    requires WellFormedEvent(e)
    ensures name != ""
  {
    e.records.value[0].s3.value.bucket.value.name.value
  }

  function ImageKey(e: RawEvent): (key: string)
    requires WellFormedEvent(e)
    ensures key != ""
  {
    e.records.value[0].s3.value.obj.value.key.value
  }

  /** Checks the event (`None` for a missing event) and hands it back unchanged. */
  function ValidateS3Event(event: Option<RawEvent>): (r: Outcome<RawEvent>)
    ensures r.Ok? <==> event.Some? && WellFormedEvent(event.value)
    ensures r.Ok? ==> r.value == event.value
    ensures r.Err? ==> r.error.ValidationError?
  {
    if event.None? || event.value.records.None? then
      Err(ValidationError(RecordsMissingMessage))
    else if |event.value.records.value| == 0 then
      Err(ValidationError(NoRecordsMessage))
    else
      var rec := event.value.records.value[0];
      if rec.s3.None? then
        Err(ValidationError(S3MissingMessage))
      else if rec.s3.value.bucket.None? || !Truthy(rec.s3.value.bucket.value.name) then
        Err(ValidationError(BucketNameMissingMessage))
      else if rec.s3.value.obj.None? || !Truthy(rec.s3.value.obj.value.key) then
        Err(ValidationError(ObjectKeyMissingMessage))
      else
        Ok(event.value)
  }

  /** The checks run in order, so the first failing one names the error. */
  lemma EventErrorMessages(event: Option<RawEvent>)
    ensures event.None? ==> ValidateS3Event(event) == Err(ValidationError(RecordsMissingMessage))
    ensures event.Some? && event.value.records.None? ==>
              ValidateS3Event(event) == Err(ValidationError(RecordsMissingMessage))
    ensures event.Some? && event.value.records == Some([]) ==>
              ValidateS3Event(event) == Err(ValidationError(NoRecordsMessage))
    ensures event.Some? && event.value.records.Some? && |event.value.records.value| > 0 ==>
              var rec := event.value.records.value[0];
              && (rec.s3.None? ==> ValidateS3Event(event) == Err(ValidationError(S3MissingMessage)))
              && (rec.s3.Some? && !(rec.s3.value.bucket.Some? && Truthy(rec.s3.value.bucket.value.name)) ==>
                    ValidateS3Event(event) == Err(ValidationError(BucketNameMissingMessage)))
              && (rec.s3.Some? && rec.s3.value.bucket.Some? && Truthy(rec.s3.value.bucket.value.name)
                  && !(rec.s3.value.obj.Some? && Truthy(rec.s3.value.obj.value.key)) ==>
                    ValidateS3Event(event) == Err(ValidationError(ObjectKeyMissingMessage)))
  {
  }

  /** Records after the first are never looked at: appending any records to a
      one-record event changes neither the verdict nor the error. */
  lemma OnlyFirstRecordInspected(first: RawRecord, rest: seq<RawRecord>)
    ensures var single := ValidateS3Event(Some(RawEvent(Some([first]))));
            var many := ValidateS3Event(Some(RawEvent(Some([first] + rest))));
            && (single.Ok? <==> many.Ok?)
            && (single.Err? ==> many == single)
  {
  }

  const PhotosPrefix := "photos/"
  const ValidExtensions := [".jpg", ".jpeg", ".png", ".webp", ".gif", ".bmp", ".tiff"]

  /** `validExtensions.some(ext => key.toLowerCase().endsWith(ext))` */
  predicate HasValidExtension(key: string) {
    exists i :: 0 <= i < |ValidExtensions| && EndsWith(Lower(key), ValidExtensions[i])
  }

  /** Checks an object key: non-empty, under the case-sensitive `photos/`
      prefix, and ending (ignoring case) in an allowed image extension. */
  function ValidateImageKey(key: string): (r: Outcome<()>)
    ensures r.Ok? <==> PhotosPrefix <= key && HasValidExtension(key)
    ensures key == "" ==> r == Err(ValidationError(EmptyKeyMessage))
    ensures key != "" && !(PhotosPrefix <= key) ==> r == Err(ValidationError(NotInPrefixMessage(key)))
    ensures PhotosPrefix <= key && !HasValidExtension(key) ==>
              r == Err(ValidationError(BadExtensionMessage(key)))
  {
    if key == "" then
      Err(ValidationError(EmptyKeyMessage))
    else if !(PhotosPrefix <= key) then
      Err(ValidationError(NotInPrefixMessage(key)))
    else if !HasValidExtension(key) then
      Err(ValidationError(BadExtensionMessage(key)))
    else
      Ok(())
  }

  /** The extension is matched ignoring case: any spelling of an allowed
      extension, after any stem under `photos/`, is accepted. */
  lemma {:induction false} AnyCaseExtensionAccepted(stem: string, ext: string, i: nat)
    requires i < |ValidExtensions| && Lower(ext) == ValidExtensions[i]
    ensures ValidateImageKey(PhotosPrefix + stem + ext).Ok?
  {
    var key := PhotosPrefix + stem + ext;
    assert PhotosPrefix <= key by {
      assert key[..|PhotosPrefix|] == PhotosPrefix;
    }
    LowerAppend(PhotosPrefix + stem, ext);
    var low := Lower(PhotosPrefix + stem) + Lower(ext);
    assert low[|low| - |ext|..] == Lower(ext);
    assert EndsWith(Lower(key), ValidExtensions[i]);
  }

  /** The prefix is matched exactly: a key whose first seven characters are
      not `photos/` (for instance `Photos/...`) is rejected whatever follows. */
  lemma {:induction false} PrefixIsCaseSensitive(head: string, rest: string)
    requires |head| == |PhotosPrefix| && head != PhotosPrefix
    ensures ValidateImageKey(head + rest).Err?
  {
    assert (head + rest)[..|PhotosPrefix|] == head;
  }

  /** Every allowed extension ends in `g`, `p` or `f`, so a key whose last
      character (lower-cased) is none of these is rejected. */
  lemma {:induction false} LastCharacterRejects(key: string)
    requires key != "" && LowerChar(key[|key| - 1]) !in {'g', 'p', 'f'}
    ensures !HasValidExtension(key)
  {
    var low := Lower(key);
    forall i | 0 <= i < |ValidExtensions|
      ensures !EndsWith(low, ValidExtensions[i])
    {
      var ext := ValidExtensions[i];
      assert ext[|ext| - 1] in {'g', 'p', 'f'};
    }
  }

  // The accepted keys exercised for `validateImageKey`, and an upper-case
  // extension. Each key is split as prefix, stem and extension, and
  // `AnyCaseExtensionAccepted` applies.

  lemma JpgKeyAccepted(key: string)
    requires key == "photos/test.jpg"
    ensures ValidateImageKey(key).Ok?
  {
    assert key == PhotosPrefix + "test" + ".jpg";
    AnyCaseExtensionAccepted("test", ".jpg", 0);
  }

  lemma PngKeyAccepted(key: string)
    requires key == "photos/image.png"
    ensures ValidateImageKey(key).Ok?
  {
    assert key == PhotosPrefix + "image" + ".png";
    AnyCaseExtensionAccepted("image", ".png", 2);
  }

  lemma WebpKeyAccepted(key: string)
    requires key == "photos/photo.webp"
    ensures ValidateImageKey(key).Ok?
  {
    assert key == PhotosPrefix + "photo" + ".webp";
    AnyCaseExtensionAccepted("photo", ".webp", 3);
  }

  lemma JpegKeyAccepted(key: string)
    requires key == "photos/picture.jpeg"
    ensures ValidateImageKey(key).Ok?
  {
    assert key == PhotosPrefix + "picture" + ".jpeg";
    AnyCaseExtensionAccepted("picture", ".jpeg", 1);
  }

  lemma UpperCaseKeyAccepted(key: string)
    requires key == "photos/HOLIDAY.JPG"
    ensures ValidateImageKey(key).Ok?
  {
    assert key == PhotosPrefix + "HOLIDAY" + ".JPG";
    AnyCaseExtensionAccepted("HOLIDAY", ".JPG", 0);
  }

  lemma RejectedKeyExamples()
    ensures ValidateImageKey("").Err?
    ensures ValidateImageKey("test.jpg").Err?
    ensures ValidateImageKey("images/test.jpg").Err?
    ensures ValidateImageKey("Photos/test.jpg").Err?
    ensures ValidateImageKey("photos/test.txt").Err?
    ensures ValidateImageKey("photos/test").Err?
  {
    PrefixIsCaseSensitive("test.jp", "g");
    PrefixIsCaseSensitive("images/", "test.jpg");
    PrefixIsCaseSensitive("Photos/", "test.jpg");
    LastCharacterRejects("photos/test.txt");
    LastCharacterRejects("photos/test");
  }
}
