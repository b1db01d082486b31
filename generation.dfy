/**
 * The deterministic parts of prompt and image generation:
 * - turning the model's structured answer into prompt strings, with a
 *   line-by-line fallback;
 * - the parts of an image request;
 * - choosing the image in the model's answer;
 * - the storage key and URL of a generated image.
 *
 * The language model, the object store, `JSON.parse` and `Date.now()` are
 * outside the model. The parsed answer, the model's response, the timestamp
 * and the store's operations are parameters.
 */
module Generation {
  import opened Wrappers
  import opened Text
  import opened JsonValues
  import opened JsonText
  import Base64

  // ---------------------------------------------------------------------------
  // Prompts from the model's answer
  // ---------------------------------------------------------------------------

  /** What calling `.split` on a value that is not a string throws. */
  const SplitNotAFunction := "TypeError: resultArray.split is not a function"

  /** The two fields kept of one generated prompt, without the ones that are `undefined`. */
  function PromptFields(prompt: Json): (r: Json)
    ensures r.JObj?
    ensures forall k :: k in Keys(r.entries) ==> k == "prompt_for_image_generation" || k == "negative_prompts"
    ensures Get(r, "prompt_for_image_generation") == Get(prompt, "prompt_for_image_generation")
    ensures Get(r, "negative_prompts") == Get(prompt, "negative_prompts")
  {
    var first := Property("prompt_for_image_generation", Get(prompt, "prompt_for_image_generation"));
    var second := Property("negative_prompts", Get(prompt, "negative_prompts"));
    var entries := first + second;
    if first == [] then
      assert entries == second;
      JObj(entries)
    else
      assert entries[0] == first[0] && entries[1..] == second;
      LookupSkip(entries, "negative_prompts");
      JObj(entries)
  }

  /**
   * Each item reduced to its two prompt fields and serialised as JSON, in order.
   * A `null` item would make the property read throw, so none is allowed here.
   */
  function StructuredPrompts(items: seq<Json>): (r: seq<string>)
    requires forall i :: 0 <= i < |items| ==> !items[i].JNull?
    ensures |r| == |items|
  {
    seq(|items|, i requires 0 <= i < |items| => Stringify(PromptFields(items[i])))
  }

  /** Prompt `i` is the text of exactly the two fields of item `i`: parsing it gives them back. */
  lemma StructuredPromptAt(items: seq<Json>, i: nat)
    requires forall j :: 0 <= j < |items| ==> !items[j].JNull?
    requires i < |items|
    ensures Parse(StructuredPrompts(items)[i]) == Some(PromptFields(items[i]))
  {
    ParseStringify(PromptFields(items[i]));
  }

  /** The pieces that still hold something once surrounding white space is trimmed, in order. */
  function NonBlank(parts: seq<string>): (r: seq<string>)
    ensures |r| <= |parts|
  {
    if parts == [] then []
    else if |Trim(parts[0])| > 0 then [parts[0]] + NonBlank(parts[1..])
    else NonBlank(parts[1..])
  }

  /** The filter keeps exactly the pieces that are not all white space. */
  lemma {:induction false} NonBlankMembers(parts: seq<string>, p: string)
    requires p in parts
    ensures p in NonBlank(parts) <==> !IsBlank(p)
  {
    TrimEmptyIffBlank(parts[0]);
    NonBlankSubset(parts[1..]);
    if p != parts[0] {
      NonBlankMembers(parts[1..], p);
    }
  }

  /** Every piece kept by the filter was a piece of the input, and none of them is blank. */
  lemma {:induction false} NonBlankSubset(parts: seq<string>)
    ensures forall i :: 0 <= i < |NonBlank(parts)| ==> NonBlank(parts)[i] in parts && !IsBlank(NonBlank(parts)[i])
  {
    if parts != [] {
      NonBlankSubset(parts[1..]);
      TrimEmptyIffBlank(parts[0]);
    }
  }

  /** The filter keeps the order of the pieces: filtering a concatenation filters each part. */
  lemma {:induction false} NonBlankAppend(a: seq<string>, b: seq<string>)
    ensures NonBlank(a + b) == NonBlank(a) + NonBlank(b)
  {
    if a == [] {
      assert a + b == b;
    } else {
      assert (a + b)[0] == a[0];
      assert (a + b)[1..] == a[1..] + b;
      NonBlankAppend(a[1..], b);
    }
  }

  /** Pieces that are none of them blank all survive the filter. */
  lemma {:induction false} NonBlankKeepsAll(parts: seq<string>)
    requires forall i :: 0 <= i < |parts| ==> !IsBlank(parts[i])
    ensures NonBlank(parts) == parts
  {
    if parts != [] {
      TrimEmptyIffBlank(parts[0]);
      NonBlankKeepsAll(parts[1..]);
    }
  }

  /** The fallback: the lines of the answer, in order, without the blank ones. */
  function PromptLines(text: string): (r: seq<string>)
  {
    NonBlank(Split(text, '\n'))
  }

  /** Each fallback prompt is one line of the answer, holds no line break and is not blank. */
  lemma PromptLinesShape(text: string)
    ensures forall i :: 0 <= i < |PromptLines(text)| ==>
              PromptLines(text)[i] in Split(text, '\n') && '\n' !in PromptLines(text)[i] && !IsBlank(PromptLines(text)[i])
  {
    SplitPiecesLackSeparator(text, '\n');
    NonBlankSubset(Split(text, '\n'));
  }

  /** When no line of the answer is blank, the prompts are all of its lines and joining them gives the answer back. */
  lemma PromptLinesOfFullLines(text: string)
    requires forall i :: 0 <= i < |Split(text, '\n')| ==> !IsBlank(Split(text, '\n')[i])
    ensures PromptLines(text) == Split(text, '\n')
    ensures Join(PromptLines(text), '\n') == text
  {
    NonBlankKeepsAll(Split(text, '\n'));
    JoinSplit(text, '\n');
  }

  /**
   * The result of `generatePrompts` from the parsed answer:
   * - a falsy answer is replaced by `""`;
   * - an array maps to the text of each item's two fields, unless an item
   *   is `null`: the read then throws, the error is caught, and the
   *   fallback's `.split` on the array throws;
   * - a string is split into its non-blank lines;
   * - any other value has no `.split`, which throws.
   */
  function PostProcessPrompts(parsed: Json): (r: Result<seq<string>, string>)
    ensures !Truthy(parsed) ==> r == Success([])
    ensures r.Failure? ==> r.error == SplitNotAFunction
    ensures r.Failure? <==>
              Truthy(parsed) && !parsed.JStr?
              && !(parsed.JArr? && forall i :: 0 <= i < |parsed.items| ==> !parsed.items[i].JNull?)
    ensures parsed.JArr? && r.Success? ==> |r.value| == |parsed.items|
    ensures parsed.JStr? ==> r == Success(PromptLines(parsed.s))
  {
    var resultArray := if Truthy(parsed) then parsed else JStr("");
    assert Split("", '\n') == [""];
    match resultArray
    case JArr(items) =>
      if forall i :: 0 <= i < |items| ==> !items[i].JNull? then Success(StructuredPrompts(items))
      else Failure(SplitNotAFunction)
    case JStr(s) => Success(PromptLines(s))
    case _ => Failure(SplitNotAFunction)
  }

  /** For an array answer without `null` items, prompt `i` parses back to exactly the two fields of item `i`. */
  lemma PostProcessStructured(parsed: Json, i: nat)
    requires parsed.JArr? && forall j :: 0 <= j < |parsed.items| ==> !parsed.items[j].JNull?
    requires i < |parsed.items|
    ensures PostProcessPrompts(parsed).Success?
    ensures Parse(PostProcessPrompts(parsed).value[i]) == Some(PromptFields(parsed.items[i]))
  {
    assert Truthy(parsed);
    assert PostProcessPrompts(parsed) == Success(StructuredPrompts(parsed.items));
    StructuredPromptAt(parsed.items, i);
  }

  /** No fallback prompt trims to the empty string. */
  lemma PostProcessFallbackNonBlank(text: string, i: nat)
    requires i < |PromptLines(text)|
    ensures PostProcessPrompts(JStr(text)) == Success(PromptLines(text))
    ensures |Trim(PostProcessPrompts(JStr(text)).value[i])| > 0
  {
    PromptLinesShape(text);
    TrimEmptyIffBlank(PromptLines(text)[i]);
  }

  // ---------------------------------------------------------------------------
  // Image requests and responses
  // ---------------------------------------------------------------------------

  /** Base64 data with its media type, as the model exchanges images. */
  datatype Blob = Blob(data: Option<string>, mimeType: Option<string>)

  /** One part of a request or a response: text, inline data, or neither. */
  datatype Part = Part(text: Option<string>, inlineData: Option<Blob>)

  datatype Content = Content(parts: Option<seq<Part>>)

  datatype Candidate = Candidate(content: Option<Content>)

  /** The model's answer; every level of it may be missing. */
  datatype GenerateContentResponse = GenerateContentResponse(candidates: Option<seq<Candidate>>)

  /** What downloading an object gives: its bytes and, if stored, its content type. */
  datatype Download = Download(body: seq<Base64.byte>, contentType: Option<string>)

  /** The arguments of one upload to the object store. */
  datatype UploadRequest = UploadRequest(bucket: string, key: string, body: seq<Base64.byte>, contentType: Option<string>)

  /** `{ url, storageKey }`, the result of a successful generation. */
  datatype StoredImage = StoredImage(url: string, storageKey: string)

  const NoImageError := "The AI model did not return an image. Please try again."

  /** What `Buffer.from(undefined, 'base64')` throws. */
  const MissingDataError :=
    "The first argument must be of type string or an instance of Buffer, ArrayBuffer, or Array or an Array-like Object. Received undefined"

  /** The text part of a request. */
  function TextPart(text: string): Part {
    Part(Some(text), None)
  }

  /** A reference image is asked for: a key is given and it is not the empty string. */
  predicate ReferenceGiven(referenceImageKey: Option<string>) {
    referenceImageKey.Some? && referenceImageKey.value != ""
  }

  /**
   * The request parts: the prompt's text part, followed by the reference
   * image as inline base64 data where a reference key is given. A failed
   * download ends the generation with its error.
   */
  method BuildRequestParts(prompt: string, referenceImageKey: Option<string>, referenceBucket: string,
                           download: (string, string) -> Result<Download, string>)
    returns (result: Result<seq<Part>, string>)
    ensures !ReferenceGiven(referenceImageKey) ==> result == Success([TextPart(prompt)])
    ensures ReferenceGiven(referenceImageKey) ==>
              match download(referenceBucket, referenceImageKey.value)
              case Failure(e) => result == Failure(e)
              case Success(image) =>
                && result.Success? && |result.value| == 2
                && result.value[0] == TextPart(prompt)
                && result.value[1].text.None? && result.value[1].inlineData.Some?
                && result.value[1].inlineData.value.mimeType == image.contentType
                && result.value[1].inlineData.value.data.Some?
                && Base64.Decode(result.value[1].inlineData.value.data.value) == Some(image.body)
  {
    var parts := [TextPart(prompt)];
    if ReferenceGiven(referenceImageKey) {
      var referenceImage := download(referenceBucket, referenceImageKey.value);
      if referenceImage.Failure? {
        return Failure(referenceImage.error);
      }
      var base64 := Base64.Encode(referenceImage.value.body);
      Base64.DecodeIffEncode(base64, referenceImage.value.body);
      parts := parts + [Part(None, Some(Blob(Some(base64), referenceImage.value.contentType)))];
    }
    result := Success(parts);
  }

  /** The position of the first part that carries inline data, if any does. */
  function FindInlineData(parts: seq<Part>): (r: Option<nat>)
    ensures r.None? <==> forall i :: 0 <= i < |parts| ==> parts[i].inlineData.None?
    ensures r.Some? ==> r.value < |parts| && parts[r.value].inlineData.Some?
    ensures r.Some? ==> forall i :: 0 <= i < r.value ==> parts[i].inlineData.None?
  {
    if parts == [] then None
    else if parts[0].inlineData.Some? then Some(0)
    else
      match FindInlineData(parts[1..])
      case None => None
      case Some(i) => Some(i + 1)
  }

  /** The parts of the first candidate's content, where the response has a first candidate, it has content and the content has parts. */
  function FirstCandidateParts(response: GenerateContentResponse): Option<seq<Part>> {
    if response.candidates.Some? && |response.candidates.value| > 0
       && response.candidates.value[0].content.Some?
    then response.candidates.value[0].content.value.parts
    else None
  }

  /** The inline data of the first part with inline data in the first candidate. */
  function ResponseImage(response: GenerateContentResponse): (r: Option<Blob>)
    ensures r.Some? <==>
              FirstCandidateParts(response).Some?
              && exists i :: 0 <= i < |FirstCandidateParts(response).value|
                             && FirstCandidateParts(response).value[i].inlineData.Some?
    ensures r.Some? ==>
              var parts := FirstCandidateParts(response).value;
              exists i :: 0 <= i < |parts| && parts[i].inlineData == r
                          && forall j :: 0 <= j < i ==> parts[j].inlineData.None?
  {
    match FirstCandidateParts(response)
    case None => None
    case Some(parts) =>
      match FindInlineData(parts)
      case None => None
      case Some(i) => parts[i].inlineData
  }

  /** The text of the media type's second slash-separated segment, or "undefined" where there is no type or no such segment. */
  function Extension(mimeType: Option<string>): string {
    match mimeType
    case None => "undefined"
    case Some(m) =>
      var segments := Split(m, '/');
      if |segments| >= 2 then segments[1] else "undefined"
  }

  /** The storage key of an image generated at time `now`. */
  function StorageKey(now: nat, mimeType: Option<string>): string {
    NatToString(now) + "-generated-image." + Extension(mimeType)
  }

  /** The URL of an object: its bucket, a slash, its key. */
  function ImageUrl(bucket: string, key: string): string {
    bucket + "/" + key
  }

  /** What is uploaded and returned for a response, or why the generation fails before any upload. */
  function StoreRequest(response: GenerateContentResponse, now: nat, generatedBucket: string,
                        decodeBase64: string -> seq<Base64.byte>)
    : (r: Result<(UploadRequest, StoredImage), string>)
    ensures r.Failure? && r.error == NoImageError <==> ResponseImage(response).None?
    ensures r.Failure? <==> ResponseImage(response).None? || ResponseImage(response).value.data.None?
    ensures r.Success? ==>
              var (request, stored) := r.value;
              var image := ResponseImage(response).value;
              && request.bucket == generatedBucket
              && request.key == stored.storageKey == StorageKey(now, image.mimeType)
              && request.body == decodeBase64(image.data.value)
              && request.contentType == image.mimeType
              && stored.url == ImageUrl(generatedBucket, stored.storageKey)
  {
    match ResponseImage(response)
    case None => Failure(NoImageError)
    case Some(image) =>
      if image.data.None? then Failure(MissingDataError)
      else
        var key := StorageKey(now, image.mimeType);
        Success((UploadRequest(generatedBucket, key, decodeBase64(image.data.value), image.mimeType),
                 StoredImage(ImageUrl(generatedBucket, key), key)))
  }

  /**
   * `generateAndStoreImage`: build the request, ask the model, and upload the
   * first image of its answer. `sent` is the request the model received and
   * `uploaded` the upload performed, if any. The model, the download, the
   * upload (`Some(error)` where it throws), Node's base64 decoder and the
   * clock are parameters.
   */
  method GenerateAndStoreImage(prompt: string, referenceImageKey: Option<string>, now: nat,
                               referenceBucket: string, generatedBucket: string,
                               download: (string, string) -> Result<Download, string>,
                               generate: seq<Part> -> Result<GenerateContentResponse, string>,
                               upload: UploadRequest -> Option<string>,
                               decodeBase64: string -> seq<Base64.byte>)
    returns (result: Result<StoredImage, string>, sent: Option<seq<Part>>, uploaded: Option<UploadRequest>)
    ensures sent.None? <==> ReferenceGiven(referenceImageKey) && download(referenceBucket, referenceImageKey.value).Failure?
    ensures sent.None? ==>
              result == Failure(download(referenceBucket, referenceImageKey.value).error) && uploaded.None?
    ensures sent.Some? ==>
              && |sent.value| == (if ReferenceGiven(referenceImageKey) then 2 else 1)
              && sent.value[0] == TextPart(prompt)
    ensures sent.Some? && ReferenceGiven(referenceImageKey) ==>
              var image := download(referenceBucket, referenceImageKey.value).value;
              && sent.value[1].text.None? && sent.value[1].inlineData.Some?
              && sent.value[1].inlineData.value.mimeType == image.contentType
              && sent.value[1].inlineData.value.data.Some?
              && Base64.Decode(sent.value[1].inlineData.value.data.value) == Some(image.body)
    ensures sent.Some? ==>
              match generate(sent.value)
              case Failure(e) => result == Failure(e) && uploaded.None?
              case Success(response) =>
                match StoreRequest(response, now, generatedBucket, decodeBase64)
                case Failure(e) => result == Failure(e) && uploaded.None?
                case Success((request, stored)) =>
                  && uploaded == Some(request)
                  && result == (if upload(request).Some? then Failure(upload(request).value) else Success(stored))
    ensures uploaded.Some? ==>
              sent.Some? && generate(sent.value).Success? && ResponseImage(generate(sent.value).value).Some?
  {
    uploaded := None;
    var parts := BuildRequestParts(prompt, referenceImageKey, referenceBucket, download);
    if parts.Failure? {
      return Failure(parts.error), None, None;
    }
    sent := Some(parts.value);
    var response := generate(parts.value);
    if response.Failure? {
      return Failure(response.error), sent, None;
    }
    var store := StoreRequest(response.value, now, generatedBucket, decodeBase64);
    if store.Failure? {
      return Failure(store.error), sent, None;
    }
    var (request, stored) := store.value;
    uploaded := Some(request);
    var uploadError := upload(request);
    if uploadError.Some? {
      return Failure(uploadError.value), sent, uploaded;
    }
    result := Success(stored);
  }

  // ---------------------------------------------------------------------------
  // Laws of keys and URLs
  // ---------------------------------------------------------------------------

  /** For a media type `type/subtype`, the key extension is the subtype. */
  lemma ExtensionOfMediaType(kind: string, subtype: string)
    requires '/' !in kind && '/' !in subtype
    ensures Extension(Some(kind + "/" + subtype)) == subtype
  {
    assert kind + "/" + subtype == kind + (['/'] + subtype);
    SplitPrefix(kind, '/', subtype);
    SplitOfSeparatorFree(subtype, '/');
  }

  /** A media type without a slash gives the extension "undefined". */
  lemma ExtensionWithoutSlash(m: string)
    requires '/' !in m
    ensures Extension(Some(m)) == "undefined"
  {
    SplitOfSeparatorFree(m, '/');
  }

  lemma KeyLayout(digits: string, extension: string)
    ensures digits + "-generated-image." + extension == digits + ['-'] + ("generated-image." + extension)
  {
  }

  /** The time and the extension can be read back from a storage key: distinct times give distinct keys. */
  lemma StorageKeyInjective(now1: nat, mimeType1: Option<string>, now2: nat, mimeType2: Option<string>)
    requires StorageKey(now1, mimeType1) == StorageKey(now2, mimeType2)
    ensures now1 == now2
    ensures Extension(mimeType1) == Extension(mimeType2)
  {
    var d1, d2 := NatToString(now1), NatToString(now2);
    var e1, e2 := Extension(mimeType1), Extension(mimeType2);
    KeyLayout(d1, e1);
    KeyLayout(d2, e2);
    assert '-' !in d1 by {
      assert forall i :: 0 <= i < |d1| ==> IsDigit(d1[i]);
    }
    assert '-' !in d2 by {
      assert forall i :: 0 <= i < |d2| ==> IsDigit(d2[i]);
    }
    IndexOfAfterPrefix(d1, '-', "generated-image." + e1);
    IndexOfAfterPrefix(d2, '-', "generated-image." + e2);
    var key := StorageKey(now1, mimeType1);
    assert |d1| == |d2|;
    assert d1 == key[..|d1|] == d2;
    NatToStringInjective(now1, now2);
    DropAppend(d1 + "-generated-image.", e1, |d1| + 17);
    DropAppend(d2 + "-generated-image.", e2, |d2| + 17);
  }

  /** A URL names its key: for a bucket without a slash, the key is what follows the first slash. */
  lemma ImageUrlNamesKey(bucket: string, key: string)
    requires '/' !in bucket
    ensures IndexOf(ImageUrl(bucket, key), '/') == Some(|bucket|)
    ensures ImageUrl(bucket, key)[|bucket| + 1..] == key
  {
    assert ImageUrl(bucket, key) == bucket + ['/'] + key;
    IndexOfAfterPrefix(bucket, '/', key);
  }
}
