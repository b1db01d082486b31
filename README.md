# Dataset files and prompt generation, modelled in Dafny

This project models two pieces of an image-prompt benchmarking application.

**Dataset-file handling** (`src/shared/lib/utils/server/file-processing.ts`):
- It builds a `data:` URL from a file's bytes and media type. The syntax is section 3 of RFC 2397; the payload is standard base64, section 4 of RFC 4648.
- It loads the file columns of a dataset row. Each one becomes an in-memory descriptor `{filename, file_data, mimeType, fileSize}`, and a failed download keeps the original value.
- It expands `{{file:NAME}}` placeholders in message text to `[File: <filename>]`.
- It rewrites a message tree: the string properties of objects get their placeholders expanded, and every other shape stays as it is.

**The deterministic parts of generation** (`src/shared/lib/ai/generation.ts`):
- It turns the model's parsed answer into prompt strings. An array gives one JSON string per item, and a parsed answer that is a JSON string falls back to its non-blank lines.
- It builds the request parts: the text part, plus an optional reference image.
- It picks the first inline image in the model's answer.
- It derives the storage key and URL of the generated image.
- It refuses to upload when no image came back.

Files:
- `wrappers.dfy`: `Option` and `Result`.
- `text.dfy`: the JavaScript string operations used (`split`/`join` on one character, `trim`, decimal rendering of integers), plus a first-position search that the model's own readers of data URLs, keys and URLs use.
- `json.dfy`: JavaScript values as JSON shapes. It covers truthiness, property reads (`undefined` is `None`) and the text a template literal produces.
- `base64.dfy`: base64 encoding (section 4 of RFC 4648) and a strict decoder proved to be its exact inverse.
- `json_text.dfy`: `JSON.stringify`, and a parser for its output that reads every value back.
- `file_processing.dfy`: the dataset-file core.
- `generation.dfy`: the generation fragments.

The collaborators are parameters of the operations that use them, or inputs:
- the object-storage download and upload;
- the language model;
- `Date.now()`;
- Node's `Buffer.from(data, 'base64')`;
- the value `JSON.parse` gives for the model's answer, which `PostProcessPrompts` takes as its input.

Thrown exceptions are `Failure` results.

## Model

| member | source | states |
|---|---|---|
| FileProcessing.UploadProperties | src/shared/types/dataset.types.ts:88-95 | Reading `fileKey`, `fileName`, `mimeType` and `fileSize` of an upload record gives its fields. |
| Base64.Encode | src/shared/lib/utils/server/file-processing.ts:13 | `buffer.toString('base64')`: the output has `4*ceil(n/3)` characters, all from the base64 alphabet or `=`. |
| Base64.DecodeEncode | src/shared/lib/utils/server/file-processing.ts:13 | Decoding the encoding of any bytes gives those bytes back. |
| Base64.EncodeDecode | src/shared/lib/utils/server/file-processing.ts:13 | Any text the strict decoder accepts is the encoding of what it decodes to. |
| Base64.DecodeIffEncode | src/shared/lib/utils/server/file-processing.ts:13 | Text `s` decodes to bytes `b` exactly when `s` is the encoding of `b`. |
| FileProcessing.DataUrlRoundTrip | src/shared/lib/utils/server/file-processing.ts:12-14 | For a media type without a comma, reading back the data URL `data:<m>;base64,<payload>` gives the media type and the original bytes. |
| FileProcessing.DataUrlCanonical | src/shared/lib/utils/server/file-processing.ts:12-14 | Every URL that reads back as `(m, b)` is exactly the data URL built from `b` and `m`. |
| FileProcessing.DataUrlIff | src/shared/lib/utils/server/file-processing.ts:12-14 | A URL reads back as `(m, b)` if and only if `m` has no comma and the URL is the one built from `b` and `m`. |
| FileProcessing.EncodeFileToBase64 | src/shared/lib/utils/server/file-processing.ts:12-14 | The data URL of a file: `data:`, the media type, `;base64,`, then the base64 text of the bytes. `DataUrlIff` shows that the reader takes it back to exactly that media type and those bytes. |
| FileProcessing.EncodePdfToBase64 | src/shared/lib/utils/server/file-processing.ts:19-21 | The PDF URL equals the general data URL with media type `application/pdf`. |
| FileProcessing.IsFileColumn | src/shared/lib/utils/server/file-processing.ts:69-71 | True if and only if some column has that name and the type `'file'`. |
| FileProcessing.IsFileColumnPrefix | src/shared/lib/utils/server/file-processing.ts:69-71 | Adding one column to the list adds exactly that column's match to the test. |
| FileProcessing.ProcessedItem | src/shared/lib/utils/server/file-processing.ts:30-63 | The processed row has exactly the input's keys. A key changes only if it names a file column, its upload has a truthy `fileKey`, and the download succeeds. A successfully loaded file column holds the descriptor. |
| FileProcessing.ProcessDatasetItemValue | src/shared/lib/utils/server/file-processing.ts:26-64 | The loop over the columns, which overwrites the copied row in place, yields exactly `ProcessedItem`. |
| FileProcessing.ProcessedItemStep | src/shared/lib/utils/server/file-processing.ts:33-61 | One loop iteration turns the row processed for the first `i` columns into the row processed for `i + 1`. |
| FileProcessing.FailedLoadKeepsValue | src/shared/lib/utils/server/file-processing.ts:55-58 | When the download of a key fails, that key keeps its original value. |
| FileProcessing.LoadedFile | src/shared/lib/utils/server/file-processing.ts:35-58 | What a file column's value becomes: the descriptor when the value and its `fileKey` are truthy and the download succeeds, else nothing. `UploadBecomesDescriptor` and `UploadWithoutKeyStays` state it for upload records. |
| FileProcessing.FileDescriptor | src/shared/lib/utils/server/file-processing.ts:46-51 | The descriptor built from an upload and its bytes. `UploadBecomesDescriptor` shows it is `{filename, file_data, mimeType, fileSize}` from the upload, with the data URL as `file_data`. |
| FileProcessing.UploadBecomesDescriptor | src/shared/lib/utils/server/file-processing.ts:37-54 | An upload with a non-empty key whose download succeeds becomes `{filename, file_data: data URL of the bytes, mimeType, fileSize}`, taken from the upload. |
| FileProcessing.UploadWithoutKeyStays | src/shared/lib/utils/server/file-processing.ts:37 | An upload with an empty `fileKey` is never loaded. |
| FileProcessing.ExtractFileContentForMessage | src/shared/lib/utils/server/file-processing.ts:76-91 | A result exists if and only if the column is a file column and the row holds an object with a `file_data` property there. That result is the row's value itself; otherwise null. |
| FileProcessing.ExtractAfterLoad | src/shared/lib/utils/server/file-processing.ts:76-91 | After loading, a successfully loaded file column is extractable, and its `filename` is the upload's `fileName`. |
| FileProcessing.WordRun | src/shared/lib/utils/server/file-processing.ts:137 | `\w+` as a maximal run: a prefix made only of word characters, with a non-word character or the end after it. |
| FileProcessing.MatchAt | src/shared/lib/utils/server/file-processing.ts:137 | A match found at the start of a text is `{{file:NAME}}` with NAME a non-empty run of word characters. |
| FileProcessing.MatchAtIff | src/shared/lib/utils/server/file-processing.ts:137 | A match for NAME is found at the start of a text if and only if the text starts with `{{file:NAME}}` and NAME is a name. |
| FileProcessing.Substitution | src/shared/lib/utils/server/file-processing.ts:138-142 | What one placeholder becomes: `[File: <filename>]` when the column's file is extractable, else the placeholder itself. `ReplacePlaceholder` states both cases inside any text. |
| FileProcessing.ReplaceFileVariables | src/shared/lib/utils/server/file-processing.ts:131-144 | The global replace as a left-to-right scan. `ReplaceWithoutPlaceholders`, `ReplaceAround`, `ReplaceAppend` and `ReplacePlaceholder` give its laws: text without placeholders is unchanged, each occurrence is substituted, and the text between occurrences keeps its order. |
| FileProcessing.ReplaceWithoutPlaceholders | src/shared/lib/utils/server/file-processing.ts:131-144 | Text with no `{{file:<word chars>}}` occurrence comes back unchanged. |
| FileProcessing.ReplaceAround | src/shared/lib/utils/server/file-processing.ts:137-143 | Replacing in `pre + {{file:NAME}} + post` gives the replaced `pre`, then the placeholder's substitution, then the replaced `post`. The text outside the match keeps its order. |
| FileProcessing.ReplaceAppend | src/shared/lib/utils/server/file-processing.ts:137 | The scan of `a + b`, with `b` starting `{{`, is the scan of `a` followed by the scan of `b`: a match never spans the seam. |
| FileProcessing.ReplacePlaceholder | src/shared/lib/utils/server/file-processing.ts:138-142 | An occurrence becomes `[File: <filename>]` when its column's content is extractable, and is kept verbatim otherwise. |
| FileProcessing.PlaceholderAfterLoad | src/shared/lib/utils/server/file-processing.ts:138-141 | In a row after loading, the placeholder of a successfully loaded file column becomes `[File: <the upload's fileName>]`. |
| FileProcessing.WithText | src/shared/lib/utils/server/file-processing.ts:111-114 | `{...item, text}` for an item that has `text`: the property names stay the same, in the same order. |
| FileProcessing.WithTextSetsText | src/shared/lib/utils/server/file-processing.ts:111-114 | After `{...item, text}`, reading `text` gives the new text. |
| FileProcessing.WithTextKeepsOthers | src/shared/lib/utils/server/file-processing.ts:111-114 | After `{...item, text}`, every other property reads as before. |
| FileProcessing.IsTextItem | src/shared/lib/utils/server/file-processing.ts:109 | The items whose text is rewritten: `type` is the string `text` and `text` is a string. |
| FileProcessing.ProcessContentItem | src/shared/lib/utils/server/file-processing.ts:108-116 | One array item: `null` fails, a text item is rewritten (`TextItemRewritten`), and any other item comes back unchanged. |
| FileProcessing.TextItemRewritten | src/shared/lib/utils/server/file-processing.ts:109-115 | An item with `type === 'text'` and a string `text` keeps its property names, gets `text` replaced, and keeps every other property. |
| FileProcessing.ProcessContentItems | src/shared/lib/utils/server/file-processing.ts:108-117 | The map fails exactly when an item is `null`, where reading `item.type` throws. Otherwise it keeps the length and processes each item in place. |
| FileProcessing.ProcessMessageContentWithFiles | src/shared/lib/utils/server/file-processing.ts:96-126 | Strings and other non-objects come back unchanged, and objects go through the tree rewrite. An array keeps its length: text items get their `text` rewritten, other items are identical, and a `null` item makes it fail. |
| FileProcessing.ProcessObject | src/shared/lib/utils/server/file-processing.ts:149-171 | The rewrite keeps a value's kind, an array's length and an object's property names in order. Anything that is neither array nor object stays as it is. |
| FileProcessing.ProcessObjectForFileContent | src/shared/lib/utils/server/file-processing.ts:149-171 | The recursive walk with its loops over elements and properties yields exactly `ProcessObject`. |
| FileProcessing.ProcessItems | src/shared/lib/utils/server/file-processing.ts:155 | The loop over an array's elements yields the rewritten elements. |
| FileProcessing.ProcessEntries | src/shared/lib/utils/server/file-processing.ts:159-167 | The loop that fills a fresh object yields the rewritten properties, in `Object.entries` order. |
| FileProcessing.ProcessObjectItem | src/shared/lib/utils/server/file-processing.ts:155 | Element `i` of a rewritten array is element `i` rewritten. |
| FileProcessing.ProcessObjectEntry | src/shared/lib/utils/server/file-processing.ts:160-165 | Property `i` keeps its name: a string value has its placeholders replaced, and any other value is rewritten. |
| FileProcessing.ProcessObjectKeepsSkeleton | src/shared/lib/utils/server/file-processing.ts:154-170 | Only the texts of string properties can change. Array lengths, property names, strings at the root or in arrays, and other leaves stay as they were. |
| FileProcessing.ProcessObjectWithoutPlaceholders | src/shared/lib/utils/server/file-processing.ts:154-170 | A tree with no placeholder in any string property comes back unchanged. |
| JsonValues.Lookup | src/shared/lib/utils/server/file-processing.ts:85 | A property read is `undefined` exactly when the object has no property of that name. |
| JsonValues.LookupAt | src/shared/lib/utils/server/file-processing.ts:85 | A property read gives the value of the first property with that name. |
| JsonText.ParseStringify | src/shared/lib/ai/generation.ts:64-67 | `JSON.stringify` loses nothing: parsing its text gives the value back. |
| JsonText.Stringify | src/shared/lib/ai/generation.ts:64-67 | `JSON.stringify` of a value. `ParseStringify` shows that the text parses back to the value. |
| Generation.PromptFields | src/shared/lib/ai/generation.ts:64-67 | The object built for each prompt has only `prompt_for_image_generation` and `negative_prompts`, each read from the item; undefined ones are omitted. |
| Generation.StructuredPrompts | src/shared/lib/ai/generation.ts:63-68 | The mapped array has the input's length. |
| Generation.StructuredPromptAt | src/shared/lib/ai/generation.ts:63-68 | Prompt `i` is the serialisation of exactly the two fields of item `i`: parsing it gives them back. |
| Generation.NonBlank | src/shared/lib/ai/generation.ts:76 | The filter keeps at most as many pieces as it is given. |
| Generation.NonBlankMembers | src/shared/lib/ai/generation.ts:76 | A piece survives the filter if and only if it is not all white space. |
| Generation.NonBlankSubset | src/shared/lib/ai/generation.ts:76 | Every surviving piece is one of the input pieces and is not blank. |
| Generation.NonBlankAppend | src/shared/lib/ai/generation.ts:76 | The filter keeps order: filtering a concatenation is concatenating the filtered parts. |
| Generation.NonBlankKeepsAll | src/shared/lib/ai/generation.ts:76 | Pieces none of which is blank all survive. |
| Generation.PromptLines | src/shared/lib/ai/generation.ts:76 | The fallback: the pieces of the answer split at line breaks, without the blank ones. `PromptLinesShape` and `PromptLinesOfFullLines` state what they are. |
| Generation.PromptLinesShape | src/shared/lib/ai/generation.ts:76 | Every fallback prompt is a line of the answer, holds no line break and is not blank. |
| Generation.PromptLinesOfFullLines | src/shared/lib/ai/generation.ts:76 | When no line is blank, the fallback gives all the lines, and joining them with line breaks gives the answer back. |
| Generation.PostProcessPrompts | src/shared/lib/ai/generation.ts:60-76 | A falsy parsed answer gives `[]`. A parsed JSON string gives its non-blank lines. An array without `null` items gives one prompt per item, in order. An array with a `null` item, or any other truthy value, fails with the `.split` type error. |
| Generation.PostProcessStructured | src/shared/lib/ai/generation.ts:62-69 | For an array answer, prompt `i` parses back to exactly the two fields of input item `i`. |
| Generation.PostProcessFallbackNonBlank | src/shared/lib/ai/generation.ts:76 | No fallback prompt trims to the empty string. |
| Generation.BuildRequestParts | src/shared/lib/ai/generation.ts:84-102 | The part list starts with the text part. It has a second part exactly when a reference key is given, and a failed download ends the generation. The second part carries the downloaded content type and base64 data that decodes to the downloaded bytes. |
| Generation.FindInlineData | src/shared/lib/ai/generation.ts:115 | `find(part => part.inlineData)`: the first part with inline data, or none exactly when no part has any. |
| Generation.FirstCandidateParts | src/shared/lib/ai/generation.ts:115 | The parts of the first candidate's content, where each optional step exists. `ResponseImage` states what is chosen from them. |
| Generation.ResponseImage | src/shared/lib/ai/generation.ts:115 | The image is the inline data of the first such part in the first candidate. There is one exactly when the candidate's parts include inline data. |
| Generation.StoreRequest | src/shared/lib/ai/generation.ts:115-133 | No image part gives the "did not return an image" error, and missing data gives Node's type error. Otherwise the upload goes to the generated-images bucket with key `StorageKey(now, mimeType)`, the decoded bytes and the image's type. The result has that key and the URL `bucket/key`. |
| Generation.Extension | src/shared/lib/ai/generation.ts:121 | The media type's second slash-separated segment, or `undefined`. `ExtensionOfMediaType` and `ExtensionWithoutSlash` state both cases. |
| Generation.StorageKey | src/shared/lib/ai/generation.ts:121 | `<now>-generated-image.<extension>`. `StorageKeyInjective` shows the time and the extension can be read back. |
| Generation.ImageUrl | src/shared/lib/ai/generation.ts:129 | The bucket, a slash, then the key. `ImageUrlNamesKey` shows the key can be read back. |
| Generation.GenerateAndStoreImage | src/shared/lib/ai/generation.ts:79-135 | The whole sequence: download, generate, then upload. The model is sent the prompt's text part and, where a reference key is given, a second part with the download's content type and the base64 of its body. A failure at any step is the result, and the upload happens only when the answer holds an image. On success the result comes from `StoreRequest`. |
| Generation.ExtensionOfMediaType | src/shared/lib/ai/generation.ts:121 | For a media type `type/subtype`, the key's extension is the subtype. |
| Generation.ExtensionWithoutSlash | src/shared/lib/ai/generation.ts:121 | A media type without `/` gives the extension `undefined`. |
| Generation.StorageKeyInjective | src/shared/lib/ai/generation.ts:121 | The time and the extension can be read back from a key, so distinct times give distinct keys. |
| Generation.ImageUrlNamesKey | src/shared/lib/ai/generation.ts:129 | For a bucket name without `/`, the URL's first `/` follows the bucket, and the rest is the key. |
| Text.JoinSplit | src/shared/lib/ai/generation.ts:76 | Joining the pieces of `split('\n')` with `'\n'` gives the text back. |
| Text.SplitJoin | src/shared/lib/ai/generation.ts:76 | Splitting a join of separator-free pieces gives the pieces back. |
| Text.SplitPiecesLackSeparator | src/shared/lib/ai/generation.ts:76 | No piece of a split contains the separator. |
| Text.Split | src/shared/lib/ai/generation.ts:76 | `split` on one character: at least one piece. `JoinSplit`, `SplitJoin` and `SplitPiecesLackSeparator` pin the pieces down. |
| Text.TrimEmptyIffBlank | src/shared/lib/ai/generation.ts:76 | `p.trim().length > 0` holds exactly when `p` is not all white space. |
| Text.Trim | src/shared/lib/ai/generation.ts:76 | `trim` with ECMAScript's white space and line terminators. `TrimEmptyIffBlank` states when the result is empty. |
| Text.NatToStringValue | src/shared/lib/ai/generation.ts:121 | `${Date.now()}` loses nothing: reading the digits back gives the number. |
| Text.NatToStringInjective | src/shared/lib/ai/generation.ts:121 | Distinct timestamps render as distinct digit strings. |

## Left out

- Numbers are integers: JavaScript's floating-point numbers and the number text `JSON.stringify` writes for non-integers are not modelled.
- Strings are sequences of characters. `JSON.stringify`'s handling of lone surrogates is not modelled.
- Prototype properties are not modelled. `column.name in datasetValue` also sees inherited names such as `constructor`, but their values never carry a `fileKey` or `file_data`, so loading a row and extracting a file come out the same.
- ProcessObject and ProcessObjectForFileContent: an own `__proto__` property, which `JSON.parse` can create, is kept under its name. The source writes it onto a fresh object through the prototype setter instead: a string value is dropped and an object value becomes the prototype. The key-set law does not hold in the source for that one name.
- An object of the model may list a name twice, which a JavaScript object cannot. A read takes the first property of the name, and `{...item, text}` replaces every `text` property in place. No contract relies on names being distinct.
- `Object.entries` lists integer-like keys first in JavaScript. The model keeps the object's stored order.
- FileDescriptor: a descriptor property whose value would be `undefined` (a `fileName`, `mimeType` or `fileSize` missing from the stored upload) is left out. The source object holds that key with the value `undefined`. Reads and `JSON.stringify` treat the two alike, but `'mimeType' in descriptor` and `Object.keys` would not.
- `{...item, text}` is modelled only for items that already have `text`, which is the only case the code reaches.
- The object-storage download in `processDatasetItemValue` is the parameter `load`, which answers `None` where the download throws. The `console.error` logging is not modelled.
- `processMessageContentWithFiles`: an array item that is `null` makes `item.type` throw, and the model returns a `Failure` there. The code does this, though the intent reads as "other items are returned as they are".
- PostProcessPrompts: answer text that is not JSON makes `JSON.parse` throw at line 60, outside the `try` of lines 61-73, so `generatePrompts` rejects before any fallback. The model starts from the parsed value and cannot express that path.
- `generatePrompts` request construction (lines 22-59) and `fileToPart` (lines 9-19) are calls to the language model and are not modelled. `JSON.parse(result.text)` is an input: `PostProcessPrompts` takes the parsed value. The `console.error` in the `catch` is not modelled.
- `generateAndStoreImage` collaborators are parameters:
  - the model call;
  - the download and upload;
  - Node's lenient base64 decoder;
  - `Date.now()`.

  The model configuration (model name, image size, search tool) is not modelled, and Gemini parts carry only `text` and `inlineData` here. The `console.error` logged before the missing-image error is not modelled.
- `src/shared/constants/storage.ts` (the `BUCKETS` names) is not part of this model. The reference-image and generated-image buckets are parameters.
- Base64 decoding: Node's `Buffer.from(s, 'base64')` accepts malformed text. The model's decoder is strict and serves only as the inverse that the encoding properties are stated with.
