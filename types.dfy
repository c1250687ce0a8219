/** Shapes shared by the whole lambda: optional values, the values a `throw`
    can carry, outcomes of fallible steps, image dimensions, byte buffers and
    the few string helpers (JavaScript truthiness, ASCII lower-casing, the
    public object URL) that several source files rely on. */
module Types {

  datatype Option<+T> = None | Some(value: T) {
    function GetOr(default: T): T {
      match this
      case Some(v) => v
      case None => default
    }
  }

  /** The `ErrorType` enumeration of the error handler. */
  datatype ErrorType = Validation | S3 | ImageProcessing | Network | Unknown

  /** A value raised by `throw`: a `ValidationError`, a `RetryableError`, any
      other `Error` instance (SDK, codec or `new Error(...)`), or a thrown
      value that is not an `Error` instance at all. */
  datatype Thrown =
    | ValidationError(message: string)
    | RetryableError(message: string, retryable: bool, errorType: ErrorType)
    | PlainError(message: string)
    | NonError
  {
    /** `error instanceof Error` */
    predicate IsError() { !NonError? }
  }

  /** Result of a step that either returns a value or throws. */
  datatype Outcome<+T> = Ok(value: T) | Err(error: Thrown)

  datatype Dimensions = Dimensions(width: nat, height: nat)

  type Byte = b: int | 0 <= b < 256
  type Bytes = seq<Byte>

  /** How a readable stream finished: an `end` event, or an `error` event
      carrying the raised value. */
  datatype StreamEnd = Ended | Failed(error: Thrown)

  /** A readable byte stream, as the `data` chunks it emits in arrival order
      followed by how it finished. */
  datatype ByteStream = ByteStream(chunks: seq<Bytes>, end: StreamEnd)

  /** `error instanceof Error ? error.message : "Unknown error"`, the text
      every catch block in the lambda reports. */
  function ErrorText(e: Thrown): (text: string)
    ensures e.IsError() ==> text == e.message
    ensures !e.IsError() ==> text == "Unknown error"
  {
    if e.NonError? then "Unknown error" else e.message
  }

  /** JavaScript truthiness of an optional string: `undefined` and `""` are falsy. */
  predicate Truthy(s: Option<string>) {
    s.Some? && s.value != ""
  }

  /** How a template literal renders an optional string: `undefined` prints as "undefined". */
  function TemplateText(s: Option<string>): string {
    s.GetOr("undefined")
  }

  /** `String.prototype.toLowerCase`, on ASCII letters. */
  function LowerChar(c: char): char {
    if 'A' <= c <= 'Z' then (c as int + 32) as char else c
  }

  function Lower(s: string): (r: string)
    ensures |r| == |s|
    ensures forall i :: 0 <= i < |s| ==> r[i] == LowerChar(s[i])
  {
    seq(|s|, i requires 0 <= i < |s| => LowerChar(s[i]))
  }

  lemma LowerIdempotent(s: string)
    ensures Lower(Lower(s)) == Lower(s)
  {
    forall i | 0 <= i < |s|
      ensures Lower(Lower(s))[i] == Lower(s)[i]
    {
      var c := s[i];
      assert Lower(s)[i] == LowerChar(c);
    }
  }

  lemma LowerAppend(a: string, b: string)
    ensures Lower(a + b) == Lower(a) + Lower(b)
  {
    forall i | 0 <= i < |a + b|
      ensures Lower(a + b)[i] == (Lower(a) + Lower(b))[i]
    {
      if i < |a| {
        assert (a + b)[i] == a[i];
      } else {
        assert (a + b)[i] == b[i - |a|];
      }
    }
  }

  predicate EndsWith(s: string, suffix: string) {
    |suffix| <= |s| && s[|s| - |suffix|..] == suffix
  }

  /** `sub` occurs in `s` starting at index `i`. */
  predicate OccursAt(s: string, sub: string, i: int) {
    0 <= i && i + |sub| <= |s| && s[i..i + |sub|] == sub
  }

  /** `s.includes(sub)` */
  predicate Contains(s: string, sub: string) {
    exists i :: 0 <= i <= |s| && OccursAt(s, sub, i)
  }

  const UrlScheme := "https://"
  const UrlHostSuffix := ".s3.amazonaws.com/"

  /** `https://${bucket}.s3.amazonaws.com/${key}`: the public URL built both by
      the image processor (imageProcessor.ts) and by the upload (s3Service.ts). */
  function PublicUrl(bucket: string, key: string): (url: string)
    ensures |url| == |UrlScheme| + |bucket| + |UrlHostSuffix| + |key|
    ensures url[..|UrlScheme| + |bucket|] == UrlScheme + bucket
    ensures url[|UrlScheme| + |bucket|..|url| - |key|] == UrlHostSuffix
    ensures url[|url| - |key|..] == key
  {
    UrlScheme + bucket + UrlHostSuffix + key
  }

  /** Recovers the object key from a public URL of `bucket`, if it is one. */
  function KeyOfUrl(url: string, bucket: string): (key: Option<string>)
    ensures key.Some? ==> PublicUrl(bucket, key.value) == url
  {
    var head := UrlScheme + bucket + UrlHostSuffix;
    if head <= url then Some(url[|head|..]) else None
  }

  /** The public URL determines its key: the URL is a faithful encoding of the
      object it names within a bucket. */
  lemma {:induction false} KeyOfUrlRoundTrip(bucket: string, key: string)
    ensures KeyOfUrl(PublicUrl(bucket, key), bucket) == Some(key)
  {
    var head := UrlScheme + bucket + UrlHostSuffix;
    assert PublicUrl(bucket, key) == head + key;
    assert (head + key)[..|head|] == head;
    assert (head + key)[|head|..] == key;
  }
}
