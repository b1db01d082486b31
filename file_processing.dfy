/**
 * Dataset-file handling: data URLs for file bytes, loading the file columns of
 * a dataset row into in-memory descriptors, the `{{file:NAME}}` placeholders
 * of message text, and the rewrite of a message tree that expands them.
 *
 * A dataset row (`Record<string, any>`) is a map from column names to values;
 * message content is any `Json`. The object-storage download is the
 * parameter `load`, which answers `None` where the download throws.
 */
module FileProcessing {
  import opened Wrappers
  import opened Text
  import opened JsonValues
  import Base64

  // ---------------------------------------------------------------------------
  // Shapes
  // ---------------------------------------------------------------------------

  datatype ColumnType = FileColumn | TextColumn

  /** A column of a dataset: its name, whether it holds files or text, and its annotations. */
  datatype DatasetColumn = DatasetColumn(name: string, columnType: ColumnType, required: bool, description: Option<string>)

  /** The record an upload stores in a file column of a dataset row. */
  datatype DatasetFileUpload = DatasetFileUpload(
    columnId: string, fileName: string, fileKey: string, fileSize: int, mimeType: string, uploadedAt: string)
  {
    /** The upload as it sits in the row (its date serialised as a string). */
    function ToJson(): Json {
      JObj([("columnId", JStr(columnId)), ("fileName", JStr(fileName)), ("fileKey", JStr(fileKey)),
            ("fileSize", JNum(fileSize)), ("mimeType", JStr(mimeType)), ("uploadedAt", JStr(uploadedAt))])
    }
  }

  /** The descriptor of a loaded file handed to an AI model. */
  datatype FileContent = FileContent(filename: string, fileData: string, mimeType: Option<string>, fileSize: Option<int>)
  {
    function ToJson(): Json {
      DescriptorObject(Some(JStr(filename)), fileData,
                       if mimeType.Some? then Some(JStr(mimeType.value)) else None,
                       if fileSize.Some? then Some(JNum(fileSize.value)) else None)
    }
  }

  /** The object `{filename, file_data, mimeType, fileSize}`, without the properties that are `undefined`. */
  function DescriptorObject(filename: Option<Json>, fileData: string, mimeType: Option<Json>, fileSize: Option<Json>): Json {
    JObj(Property("filename", filename) + [("file_data", JStr(fileData))]
         + Property("mimeType", mimeType) + Property("fileSize", fileSize))
  }

  /** The object-storage bucket that holds dataset files. */
  const DatasetsBucket: string := "datasets"

  // ---------------------------------------------------------------------------
  // Data URLs
  // ---------------------------------------------------------------------------

  /** `data:<mimeType>;base64,<payload>` (section 3 of RFC 2397). */
  function EncodeFileToBase64(buffer: seq<Base64.byte>, mimeType: string): string {
    "data:" + mimeType + ";base64," + Base64.Encode(buffer)
  }

  /** The data URL of a PDF file. */
  function EncodePdfToBase64(pdfBuffer: seq<Base64.byte>): (url: string)
    ensures url == EncodeFileToBase64(pdfBuffer, "application/pdf")
  {
    var payload := Base64.Encode(pdfBuffer);
    PdfUrlText(payload);
    "data:application/pdf;base64," + payload
  }

  lemma PdfUrlText(payload: string)
    ensures "data:application/pdf;base64," + payload == "data:" + "application/pdf" + ";base64," + payload
  {
  }

  /**
   * Reads a base64 data URL back: the media type is the text between `data:`
   * and `;base64` before the first comma, the bytes the decoded text after it.
   */
  function ParseDataUrl(url: string): Option<(string, seq<Base64.byte>)> {
    if !StartsWith(url, "data:") then None
    else
      var body := url[5..];
      match IndexOf(body, ',')
      case None => None
      case Some(c) =>
        var header := body[..c];
        if |header| < 7 || header[|header| - 7..] != ";base64" then None
        else
          match Base64.Decode(body[c + 1..])
          case None => None
          case Some(bytes) => Some((header[..|header| - 7], bytes))
  }

  /** A data URL gives back its media type and bytes, for a media type without a comma. */
  lemma DataUrlRoundTrip(buffer: seq<Base64.byte>, mimeType: string)
    requires ',' !in mimeType
    ensures ParseDataUrl(EncodeFileToBase64(buffer, mimeType)) == Some((mimeType, buffer))
  {
    var url := EncodeFileToBase64(buffer, mimeType);
    var payload := Base64.Encode(buffer);
    DataUrlText(mimeType, payload);
    var header := mimeType + ";base64";
    var body := header + [','] + payload;
    assert url[5..] == body;
    assert ',' !in header;
    IndexOfAfterPrefix(header, ',', payload);
    assert body[..|header|] == header;
    assert body[|header| + 1..] == payload;
    assert header[..|header| - 7] == mimeType;
    Base64.DecodeEncode(buffer);
  }

  /** The pieces of a data URL that reads as `(mimeType, buffer)`. */
  lemma DataUrlPieces(url: string, mimeType: string, buffer: seq<Base64.byte>) returns (payload: string)
    requires ParseDataUrl(url) == Some((mimeType, buffer))
    ensures url == "data:" + (mimeType + ";base64" + [','] + payload)
    ensures ',' !in mimeType
    ensures Base64.Decode(payload) == Some(buffer)
  {
    var body := url[5..];
    var c := IndexOf(body, ',').value;
    var header := body[..c];
    payload := body[c + 1..];
    assert header[..c - 7] == mimeType;
    assert header == mimeType + ";base64";
    assert forall i :: 0 <= i < |mimeType| ==> mimeType[i] == header[i];
    assert body == header + [','] + payload;
    assert url == "data:" + body;
  }

  /** Whatever reads as `(mimeType, buffer)` is the data URL of `buffer` under that media type. */
  lemma DataUrlCanonical(url: string, mimeType: string, buffer: seq<Base64.byte>)
    requires ParseDataUrl(url) == Some((mimeType, buffer))
    ensures ',' !in mimeType && url == EncodeFileToBase64(buffer, mimeType)
  {
    var payload := DataUrlPieces(url, mimeType, buffer);
    DataUrlText(mimeType, payload);
    Base64.DecodeIffEncode(payload, buffer);
  }

  /** The two ways of writing the text of a data URL agree. */
  lemma DataUrlText(mimeType: string, payload: string)
    ensures "data:" + (mimeType + ";base64" + [','] + payload) == "data:" + mimeType + ";base64," + payload
  {
    assert ";base64" + [','] == ";base64,";
  }

  /** The data URLs read as `(mimeType, buffer)` are exactly the encodings of `buffer` under a comma-free `mimeType`. */
  lemma DataUrlIff(url: string, mimeType: string, buffer: seq<Base64.byte>)
    ensures ParseDataUrl(url) == Some((mimeType, buffer)) <==> ',' !in mimeType && url == EncodeFileToBase64(buffer, mimeType)
  {
    if ParseDataUrl(url) == Some((mimeType, buffer)) {
      DataUrlCanonical(url, mimeType, buffer);
    }
    if ',' !in mimeType && url == EncodeFileToBase64(buffer, mimeType) {
      DataUrlRoundTrip(buffer, mimeType);
    }
  }

  // ---------------------------------------------------------------------------
  // File columns
  // ---------------------------------------------------------------------------

  /** Whether some column of the list has this name and holds files. */
  function IsFileColumn(columnName: string, columns: seq<DatasetColumn>): (r: bool)
    ensures r <==> exists i :: 0 <= i < |columns| && columns[i].name == columnName && columns[i].columnType == FileColumn
  {
    if |columns| == 0 then false
    else
      var rest := IsFileColumn(columnName, columns[1..]);
      assert forall i :: 1 <= i < |columns| ==> columns[i] == columns[1..][i - 1];
      (columns[0].name == columnName && columns[0].columnType == FileColumn) || rest
  }

  /** Taking one more column into account adds exactly that column's file name. */
  lemma IsFileColumnPrefix(columnName: string, columns: seq<DatasetColumn>, i: nat)
    requires i < |columns|
    ensures IsFileColumn(columnName, columns[..i + 1])
        <==> IsFileColumn(columnName, columns[..i])
             || (columns[i].name == columnName && columns[i].columnType == FileColumn)
  {
    assert forall j :: 0 <= j < i ==> columns[..i + 1][j] == columns[..i][j];
    if IsFileColumn(columnName, columns[..i + 1]) {
      var j :| 0 <= j <= i && columns[..i + 1][j].name == columnName && columns[..i + 1][j].columnType == FileColumn;
      if j < i {
        assert columns[..i][j] == columns[j];
      }
    }
  }

  // ---------------------------------------------------------------------------
  // Loading the files of a dataset row
  // ---------------------------------------------------------------------------

  /**
   * The descriptor built from a row's upload record and the loaded bytes:
   * the file name, the data URL, the media type and the size, each read from
   * the upload.
   */
  function FileDescriptor(upload: Json, buffer: seq<Base64.byte>): Json {
    var mimeType := Get(upload, "mimeType");
    DescriptorObject(Get(upload, "fileName"), EncodeFileToBase64(buffer, TemplateText(mimeType)),
                     mimeType, Get(upload, "fileSize"))
  }

  /**
   * What replaces a file column's value: the descriptor, when the value is
   * truthy, has a truthy `fileKey` and the download of that key succeeds;
   * otherwise `None` and the value stays.
   */
  function LoadedFile(upload: Json, load: (string, Json) -> Option<seq<Base64.byte>>): Option<Json> {
    var fileKey := Get(upload, "fileKey");
    if Truthy(upload) && TruthyOpt(fileKey) then
      match load(DatasetsBucket, fileKey.value)
      case Some(buffer) => Some(FileDescriptor(upload, buffer))
      case None => None
    else None
  }

  /**
   * The row after its file columns are loaded. The keys stay the same; a key
   * changes only when it names a file column, its upload has a truthy
   * `fileKey` and the download succeeds, and then it holds the descriptor.
   */
  function ProcessedItem(datasetValue: map<string, Json>, columns: seq<DatasetColumn>,
                         load: (string, Json) -> Option<seq<Base64.byte>>): (r: map<string, Json>)
    ensures r.Keys == datasetValue.Keys
    ensures forall k :: k in datasetValue && r[k] != datasetValue[k] ==>
              && IsFileColumn(k, columns)
              && TruthyOpt(Get(datasetValue[k], "fileKey"))
              && load(DatasetsBucket, Get(datasetValue[k], "fileKey").value).Some?
    ensures forall k :: k in datasetValue && IsFileColumn(k, columns) && LoadedFile(datasetValue[k], load).Some? ==>
              r[k] == LoadedFile(datasetValue[k], load).value
  {
    map k | k in datasetValue ::
      if IsFileColumn(k, columns) && LoadedFile(datasetValue[k], load).Some?
      then LoadedFile(datasetValue[k], load).value
      else datasetValue[k]
  }

  /** A failed download leaves the value of its column as it was. */
  lemma FailedLoadKeepsValue(datasetValue: map<string, Json>, columns: seq<DatasetColumn>,
                             load: (string, Json) -> Option<seq<Base64.byte>>, k: string)
    requires k in datasetValue
    requires TruthyOpt(Get(datasetValue[k], "fileKey"))
    requires load(DatasetsBucket, Get(datasetValue[k], "fileKey").value).None?
    ensures ProcessedItem(datasetValue, columns, load)[k] == datasetValue[k]
  {
    assert LoadedFile(datasetValue[k], load).None?;
  }

  /** Taking column `i` into account replaces that column's value by its descriptor, where one loads. */
  lemma ProcessedItemStep(datasetValue: map<string, Json>, columns: seq<DatasetColumn>,
                          load: (string, Json) -> Option<seq<Base64.byte>>, i: nat)
    requires i < |columns|
    ensures var column := columns[i];
            var before := ProcessedItem(datasetValue, columns[..i], load);
            ProcessedItem(datasetValue, columns[..i + 1], load)
            == if column.columnType == FileColumn && column.name in datasetValue
                  && LoadedFile(datasetValue[column.name], load).Some?
               then before[column.name := LoadedFile(datasetValue[column.name], load).value]
               else before
  {
    forall k | k in datasetValue {
      IsFileColumnPrefix(k, columns, i);
    }
  }

  /**
   * Loads every file column of the row: a copy of the row, then for each
   * column in order the value of a present file column is replaced by its
   * descriptor where the download succeeds.
   */
  method ProcessDatasetItemValue(datasetValue: map<string, Json>, columns: seq<DatasetColumn>,
                                 load: (string, Json) -> Option<seq<Base64.byte>>)
    returns (processedValue: map<string, Json>)
    ensures processedValue == ProcessedItem(datasetValue, columns, load)
  {
    processedValue := datasetValue;
    assert processedValue == ProcessedItem(datasetValue, columns[..0], load);
    for i := 0 to |columns|
      invariant processedValue == ProcessedItem(datasetValue, columns[..i], load)
    {
      ProcessedItemStep(datasetValue, columns, load, i);
      var column := columns[i];
      if column.columnType == FileColumn && column.name in datasetValue {
        var fileUpload := datasetValue[column.name];
        if Truthy(fileUpload) && TruthyOpt(Get(fileUpload, "fileKey")) {
          var loaded := load(DatasetsBucket, Get(fileUpload, "fileKey").value);
          if loaded.Some? {
            processedValue := processedValue[column.name := FileDescriptor(fileUpload, loaded.value)];
          }
        }
      }
    }
    assert columns[..|columns|] == columns;
  }

  /** The properties of an upload record, read back. */
  lemma UploadProperties(upload: DatasetFileUpload)
    ensures Get(upload.ToJson(), "fileKey") == Some(JStr(upload.fileKey))
    ensures Get(upload.ToJson(), "fileName") == Some(JStr(upload.fileName))
    ensures Get(upload.ToJson(), "mimeType") == Some(JStr(upload.mimeType))
    ensures Get(upload.ToJson(), "fileSize") == Some(JNum(upload.fileSize))
  {
    var es := upload.ToJson().entries;
    LookupSkip(es, "fileName");
    LookupSkip(es, "fileKey");
    LookupSkip(es[1..], "fileKey");
    LookupSkip(es, "fileSize");
    LookupSkip(es[1..], "fileSize");
    LookupSkip(es[2..], "fileSize");
    LookupSkip(es, "mimeType");
    LookupSkip(es[1..], "mimeType");
    LookupSkip(es[2..], "mimeType");
    LookupSkip(es[3..], "mimeType");
    assert es[1..][1..] == es[2..] && es[2..][1..] == es[3..] && es[3..][1..] == es[4..];
  }

  /** A well-formed upload whose file downloads becomes the descriptor of that file. */
  lemma UploadBecomesDescriptor(upload: DatasetFileUpload, load: (string, Json) -> Option<seq<Base64.byte>>)
    requires upload.fileKey != ""
    requires load(DatasetsBucket, JStr(upload.fileKey)).Some?
    ensures LoadedFile(upload.ToJson(), load)
         == Some(FileContent(upload.fileName,
                             EncodeFileToBase64(load(DatasetsBucket, JStr(upload.fileKey)).value, upload.mimeType),
                             Some(upload.mimeType), Some(upload.fileSize)).ToJson())
  {
    var u := upload.ToJson();
    var buffer := load(DatasetsBucket, JStr(upload.fileKey)).value;
    UploadProperties(upload);
    assert LoadedFile(u, load) == Some(FileDescriptor(u, buffer));
    assert TemplateText(Get(u, "mimeType")) == upload.mimeType;
    assert FileDescriptor(u, buffer)
        == DescriptorObject(Some(JStr(upload.fileName)), EncodeFileToBase64(buffer, upload.mimeType),
                            Some(JStr(upload.mimeType)), Some(JNum(upload.fileSize)));
  }

  /** An upload without a file key is never loaded. */
  lemma UploadWithoutKeyStays(upload: DatasetFileUpload, load: (string, Json) -> Option<seq<Base64.byte>>)
    requires upload.fileKey == ""
    ensures LoadedFile(upload.ToJson(), load).None?
  {
    UploadProperties(upload);
  }

  // ---------------------------------------------------------------------------
  // Extracting a file for a message
  // ---------------------------------------------------------------------------

  /**
   * The file content under `columnName` in a processed row: present only for
   * a file column whose value is an object with a `file_data` property, and
   * then that object itself.
   */
  function ExtractFileContentForMessage(value: map<string, Json>, columnName: string, columns: seq<DatasetColumn>)
    : (r: Option<Json>)
    ensures r.Some? <==> IsFileColumn(columnName, columns) && columnName in value
                         && value[columnName].JObj? && "file_data" in Keys(value[columnName].entries)
    ensures r.Some? ==> r.value == value[columnName]
  {
    if !IsFileColumn(columnName, columns) then None
    else
      var fileContent := if columnName in value then Some(value[columnName]) else None;
      if TruthyOpt(fileContent) && IsObjectLike(fileContent.value) && HasProperty(fileContent.value, "file_data")
      then fileContent
      else None
  }

  /** The descriptor a successful load leaves in a file column is what a message extracts there. */
  lemma ExtractAfterLoad(datasetValue: map<string, Json>, columns: seq<DatasetColumn>,
                         load: (string, Json) -> Option<seq<Base64.byte>>, k: string)
    requires k in datasetValue && IsFileColumn(k, columns) && LoadedFile(datasetValue[k], load).Some?
    ensures ExtractFileContentForMessage(ProcessedItem(datasetValue, columns, load), k, columns)
         == LoadedFile(datasetValue[k], load)
    ensures Get(LoadedFile(datasetValue[k], load).value, "filename") == Get(datasetValue[k], "fileName")
  {
    var upload := datasetValue[k];
    var d := LoadedFile(upload, load).value;
    var name := Property("filename", Get(upload, "fileName"));
    assert d.entries[|name|].0 == "file_data";
    assert "file_data" in Keys(d.entries);
  }

  // ---------------------------------------------------------------------------
  // File placeholders in text
  // ---------------------------------------------------------------------------

  /** A character of the regular-expression class `\w`: an ASCII letter, a digit or `_`. */
  predicate IsWordChar(c: char) {
    ('A' <= c <= 'Z') || ('a' <= c <= 'z') || ('0' <= c <= '9') || c == '_'
  }

  /** A column name a placeholder can mention: one or more word characters. */
  predicate IsName(name: string) {
    |name| > 0 && forall i :: 0 <= i < |name| ==> IsWordChar(name[i])
  }

  /** The placeholder `{{file:NAME}}`. */
  function Placeholder(name: string): string {
    "{{file:" + name + "}}"
  }

  /** The longest run of word characters at the start of `s`. */
  function WordRun(s: string): (w: string)
    ensures |w| <= |s| && w == s[..|w|]
    ensures forall i :: 0 <= i < |w| ==> IsWordChar(w[i])
    ensures |w| < |s| ==> !IsWordChar(s[|w|])
  {
    if |s| > 0 && IsWordChar(s[0]) then [s[0]] + WordRun(s[1..]) else ""
  }

  /**
   * The name of the placeholder at the very start of `s`, if one starts
   * there: `{{file:`, a maximal run of word characters, then `}}`. Since `\w+`
   * cannot match a `}`, this is the match the regular expression finds there.
   */
  function MatchAt(s: string): (r: Option<string>)
    ensures r.Some? ==> IsName(r.value) && StartsWith(s, Placeholder(r.value))
  {
    if !StartsWith(s, "{{file:") then None
    else
      var name := WordRun(s[7..]);
      if |name| > 0 && StartsWith(s[7 + |name|..], "}}") then
        assert s[..|Placeholder(name)|] == s[..7] + s[7..][..|name|] + s[7 + |name|..][..2];
        Some(name)
      else None
  }

  /** A placeholder is found exactly where the text starts with `{{file:NAME}}` for a name. */
  lemma MatchAtIff(s: string, name: string)
    ensures MatchAt(s) == Some(name) <==> IsName(name) && StartsWith(s, Placeholder(name))
  {
    if IsName(name) && StartsWith(s, Placeholder(name)) {
      var p := Placeholder(name);
      assert s[..|p|] == p;
      assert s[..7] == p[..7] == "{{file:";
      var t := s[7..];
      assert forall i :: 0 <= i < |name| ==> t[i] == s[7 + i] == p[7 + i] == name[i];
      assert t[..|name|] == name;
      assert t[|name|] == s[7 + |name|] == p[7 + |name|] == '}';
      WordRunOfName(name, t);
      assert s[7 + |name|..][..2] == p[7 + |name|..] == "}}";
    }
  }

  /** The word run of a text starting with a name and then a non-word character is that name. */
  lemma {:induction false} WordRunOfName(name: string, t: string)
    requires IsName(name) && |name| < |t| && t[..|name|] == name && !IsWordChar(t[|name|])
    ensures WordRun(t) == name
  {
    if |name| > 1 {
      WordRunOfName(name[1..], t[1..]);
      assert t[1..][..|name| - 1] == name[1..];
      assert [name[0]] + name[1..] == name;
    } else {
      assert t[1..][0] == t[1];
      assert WordRun(t[1..]) == "";
    }
  }

  /** What a placeholder for the column `name` becomes: the file's name where the row holds a file there, else itself. */
  function Substitution(name: string, processedDatasetValue: map<string, Json>, columns: seq<DatasetColumn>): string {
    match ExtractFileContentForMessage(processedDatasetValue, name, columns)
    case Some(fileContent) => "[File: " + TemplateText(Get(fileContent, "filename")) + "]"
    case None => Placeholder(name)
  }

  /**
   * The text with every placeholder replaced, scanning from left to right as
   * a global regular-expression replace does: a match is replaced and the
   * scan goes on after it; elsewhere one character is kept and the scan moves
   * on by one.
   */
  function ReplaceFileVariables(text: string, processedDatasetValue: map<string, Json>, columns: seq<DatasetColumn>)
    : string
    decreases |text|
  {
    if |text| == 0 then ""
    else
      match MatchAt(text)
      case Some(name) =>
        Substitution(name, processedDatasetValue, columns)
        + ReplaceFileVariables(text[|Placeholder(name)|..], processedDatasetValue, columns)
      case None => [text[0]] + ReplaceFileVariables(text[1..], processedDatasetValue, columns)
  }

  /** Some placeholder starts somewhere in `text`. */
  predicate HasPlaceholder(text: string) {
    exists i :: 0 <= i < |text| && MatchAt(text[i..]).Some?
  }

  /** A text without placeholders comes back unchanged. */
  lemma {:induction false} ReplaceWithoutPlaceholders(text: string, processedDatasetValue: map<string, Json>,
                                                      columns: seq<DatasetColumn>)
    requires !HasPlaceholder(text)
    ensures ReplaceFileVariables(text, processedDatasetValue, columns) == text
  {
    if |text| > 0 {
      assert text[0..] == text;
      assert MatchAt(text).None?;
      forall i | 0 <= i < |text| - 1
        ensures MatchAt(text[1..][i..]).None?
      {
        assert text[1..][i..] == text[i + 1..];
      }
      ReplaceWithoutPlaceholders(text[1..], processedDatasetValue, columns);
      assert [text[0]] + text[1..] == text;
    }
  }

  /** A word run is not cut short by what follows a non-word character. */
  lemma {:induction false} WordRunAppend(t: string, b: string)
    requires |b| > 0 && !IsWordChar(b[0])
    ensures WordRun(t + b) == WordRun(t)
  {
    if |t| > 0 && IsWordChar(t[0]) {
      assert (t + b)[1..] == t[1..] + b;
      WordRunAppend(t[1..], b);
    } else if |t| == 0 {
      assert t + b == b;
    }
  }

  /** Text that starts with `{{` cannot complete a placeholder begun before it. */
  lemma MatchAtAppend(a: string, b: string)
    requires |a| > 0 && |b| >= 2 && b[0] == '{' && b[1] == '{'
    ensures MatchAt(a + b) == MatchAt(a)
  {
    var s := a + b;
    if |a| >= 7 {
      assert s[..7] == a[..7];
      if StartsWith(a, "{{file:") {
        var t := a[7..];
        assert s[7..] == t + b;
        WordRunAppend(t, b);
        var name := WordRun(t);
        var k := 7 + |name|;
        if |name| > 0 {
          if k + 2 <= |a| {
            assert s[k..][..2] == a[k..][..2];
          } else if k == |a| {
            assert s[k..][0] == b[0];
          } else {
            assert s[k..][1] == b[0];
          }
        }
      }
    } else if |s| >= 7 {
      assert s[|a|] == b[0] && s[|a| + 1] == b[1];
      assert s[..7][|a|] == s[|a|];
      if |a| == 1 {
        assert s[..7][2] == '{';
      }
    }
  }

  lemma ReplaceAtMatch(s: string, name: string, processedDatasetValue: map<string, Json>, columns: seq<DatasetColumn>)
    requires MatchAt(s) == Some(name)
    ensures |Placeholder(name)| <= |s|
    ensures ReplaceFileVariables(s, processedDatasetValue, columns)
         == Substitution(name, processedDatasetValue, columns)
            + ReplaceFileVariables(s[|Placeholder(name)|..], processedDatasetValue, columns)
  {
  }

  lemma ReplaceWithoutMatch(s: string, processedDatasetValue: map<string, Json>, columns: seq<DatasetColumn>)
    requires |s| > 0 && MatchAt(s).None?
    ensures ReplaceFileVariables(s, processedDatasetValue, columns)
         == [s[0]] + ReplaceFileVariables(s[1..], processedDatasetValue, columns)
  {
  }

  /** Replacing in a text joined in front of one that starts with `{{` is replacing in each part. */
  lemma {:induction false} ReplaceAppend(a: string, b: string, processedDatasetValue: map<string, Json>,
                                         columns: seq<DatasetColumn>)
    requires |b| >= 2 && b[0] == '{' && b[1] == '{'
    ensures ReplaceFileVariables(a + b, processedDatasetValue, columns)
         == ReplaceFileVariables(a, processedDatasetValue, columns) + ReplaceFileVariables(b, processedDatasetValue, columns)
    decreases |a|
  {
    if |a| == 0 {
      assert a + b == b;
    } else {
      MatchAtAppend(a, b);
      match MatchAt(a)
      case Some(name) =>
        var p := |Placeholder(name)|;
        ReplaceAppend(a[p..], b, processedDatasetValue, columns);
        ReplaceAppendMatch(a, b, name, processedDatasetValue, columns);
      case None =>
        ReplaceAppend(a[1..], b, processedDatasetValue, columns);
        ReplaceAppendNoMatch(a, b, processedDatasetValue, columns);
    }
  }

  lemma ReplaceAppendMatch(a: string, b: string, name: string, processedDatasetValue: map<string, Json>,
                           columns: seq<DatasetColumn>)
    requires MatchAt(a) == Some(name) && MatchAt(a + b) == Some(name)
    requires |Placeholder(name)| <= |a|
    requires var p := |Placeholder(name)|;
             ReplaceFileVariables(a[p..] + b, processedDatasetValue, columns)
             == ReplaceFileVariables(a[p..], processedDatasetValue, columns) + ReplaceFileVariables(b, processedDatasetValue, columns)
    ensures ReplaceFileVariables(a + b, processedDatasetValue, columns)
         == ReplaceFileVariables(a, processedDatasetValue, columns) + ReplaceFileVariables(b, processedDatasetValue, columns)
  {
    var p := |Placeholder(name)|;
    var s := a + b;
    DropAppend(a, b, p);
    ReplaceAtMatch(s, name, processedDatasetValue, columns);
    ReplaceAtMatch(a, name, processedDatasetValue, columns);
    var sub := Substitution(name, processedDatasetValue, columns);
    var x := ReplaceFileVariables(a[p..], processedDatasetValue, columns);
    var y := ReplaceFileVariables(b, processedDatasetValue, columns);
    AppendAssoc(sub, x, y);
  }

  lemma ReplaceAppendNoMatch(a: string, b: string, processedDatasetValue: map<string, Json>, columns: seq<DatasetColumn>)
    requires |a| > 0 && MatchAt(a).None? && MatchAt(a + b).None?
    requires ReplaceFileVariables(a[1..] + b, processedDatasetValue, columns)
             == ReplaceFileVariables(a[1..], processedDatasetValue, columns) + ReplaceFileVariables(b, processedDatasetValue, columns)
    ensures ReplaceFileVariables(a + b, processedDatasetValue, columns)
         == ReplaceFileVariables(a, processedDatasetValue, columns) + ReplaceFileVariables(b, processedDatasetValue, columns)
  {
    var s := a + b;
    assert s[0] == a[0];
    DropAppend(a, b, 1);
    ReplaceWithoutMatch(s, processedDatasetValue, columns);
    ReplaceWithoutMatch(a, processedDatasetValue, columns);
    var x := ReplaceFileVariables(a[1..], processedDatasetValue, columns);
    var y := ReplaceFileVariables(b, processedDatasetValue, columns);
    AppendAssoc([a[0]], x, y);
  }

  /** A placeholder at the start of a text is substituted, and the scan goes on after it. */
  lemma ReplaceAtPlaceholder(name: string, post: string, processedDatasetValue: map<string, Json>,
                             columns: seq<DatasetColumn>)
    requires IsName(name)
    ensures ReplaceFileVariables(Placeholder(name) + post, processedDatasetValue, columns)
         == Substitution(name, processedDatasetValue, columns) + ReplaceFileVariables(post, processedDatasetValue, columns)
  {
    var p := Placeholder(name);
    var b := p + post;
    assert b[..|p|] == p;
    MatchAtIff(b, name);
    assert b[|p|..] == post;
  }

  /** The text around a placeholder is replaced on its own. */
  lemma ReplaceAround(pre: string, name: string, post: string, processedDatasetValue: map<string, Json>,
                      columns: seq<DatasetColumn>)
    requires IsName(name)
    ensures ReplaceFileVariables(pre + Placeholder(name) + post, processedDatasetValue, columns)
         == ReplaceFileVariables(pre, processedDatasetValue, columns)
            + Substitution(name, processedDatasetValue, columns)
            + ReplaceFileVariables(post, processedDatasetValue, columns)
  {
    var b := Placeholder(name) + post;
    assert pre + Placeholder(name) + post == pre + b;
    ReplaceAppend(pre, b, processedDatasetValue, columns);
    ReplaceAtPlaceholder(name, post, processedDatasetValue, columns);
  }

  /**
   * A placeholder in a text becomes `[File: <filename>]` when the row holds a
   * file under its column and stays as it is otherwise; the text around it is
   * replaced on its own.
   */
  lemma ReplacePlaceholder(pre: string, name: string, post: string, processedDatasetValue: map<string, Json>,
                           columns: seq<DatasetColumn>)
    requires IsName(name)
    ensures ExtractFileContentForMessage(processedDatasetValue, name, columns).None? ==>
              ReplaceFileVariables(pre + Placeholder(name) + post, processedDatasetValue, columns)
              == ReplaceFileVariables(pre, processedDatasetValue, columns) + Placeholder(name)
                 + ReplaceFileVariables(post, processedDatasetValue, columns)
    ensures ExtractFileContentForMessage(processedDatasetValue, name, columns).Some? ==>
              ReplaceFileVariables(pre + Placeholder(name) + post, processedDatasetValue, columns)
              == ReplaceFileVariables(pre, processedDatasetValue, columns)
                 + ("[File: " + TemplateText(Get(ExtractFileContentForMessage(processedDatasetValue, name, columns).value,
                                                 "filename")) + "]")
                 + ReplaceFileVariables(post, processedDatasetValue, columns)
  {
    ReplaceAround(pre, name, post, processedDatasetValue, columns);
  }

  /** After a row's files are loaded, a placeholder for a loaded column names the uploaded file. */
  lemma PlaceholderAfterLoad(datasetValue: map<string, Json>, columns: seq<DatasetColumn>,
                             load: (string, Json) -> Option<seq<Base64.byte>>, name: string)
    requires IsName(name) && name in datasetValue && IsFileColumn(name, columns)
    requires LoadedFile(datasetValue[name], load).Some?
    ensures ReplaceFileVariables(Placeholder(name), ProcessedItem(datasetValue, columns, load), columns)
         == "[File: " + TemplateText(Get(datasetValue[name], "fileName")) + "]"
  {
    var row := ProcessedItem(datasetValue, columns, load);
    ExtractAfterLoad(datasetValue, columns, load, name);
    ReplaceAtPlaceholder(name, "", row, columns);
    assert Placeholder(name) + "" == Placeholder(name);
  }

  // ---------------------------------------------------------------------------
  // Message content
  // ---------------------------------------------------------------------------

  /** The error JavaScript raises when structured content holds a `null` item. */
  const NullItemError: string := "TypeError: Cannot read properties of null (reading 'type')"

  /** A content item of type text whose text is a string: the items whose text is rewritten. */
  predicate IsTextItem(item: Json) {
    Get(item, "type") == Some(JStr("text")) && Get(item, "text").Some? && Get(item, "text").value.JStr?
  }

  /** `{...item, text}` for an item that has a `text` property: that property's value replaced in place. */
  function WithText(entries: seq<(string, Json)>, text: string): (r: seq<(string, Json)>)
    ensures Keys(r) == Keys(entries)
  {
    seq(|entries|, i requires 0 <= i < |entries| => if entries[i].0 == "text" then ("text", JStr(text)) else entries[i])
  }

  /** An item of structured content with its text's placeholders replaced, if it is a text item. */
  function ProcessContentItem(item: Json, processedDatasetValue: map<string, Json>, columns: seq<DatasetColumn>)
    : Result<Json, string>
  {
    if item.JNull? then Failure(NullItemError)
    else if IsTextItem(item) then
      Success(JObj(WithText(item.entries,
                            ReplaceFileVariables(Get(item, "text").value.s, processedDatasetValue, columns))))
    else Success(item)
  }

  /**
   * A text item keeps its properties and their order; its `text` becomes the
   * replaced text and every other property keeps its value.
   */
  lemma TextItemRewritten(item: Json, processedDatasetValue: map<string, Json>, columns: seq<DatasetColumn>, key: string)
    requires IsTextItem(item)
    ensures var r := ProcessContentItem(item, processedDatasetValue, columns);
            && r.Success? && r.value.JObj?
            && Keys(r.value.entries) == Keys(item.entries)
            && Get(r.value, "text")
               == Some(JStr(ReplaceFileVariables(Get(item, "text").value.s, processedDatasetValue, columns)))
            && (key != "text" ==> Get(r.value, key) == Get(item, key))
  {
    var text := ReplaceFileVariables(Get(item, "text").value.s, processedDatasetValue, columns);
    WithTextSetsText(item.entries, text);
    if key != "text" {
      WithTextKeepsOthers(item.entries, text, key);
    }
  }

  lemma {:induction false} WithTextSetsText(entries: seq<(string, Json)>, text: string)
    requires "text" in Keys(entries)
    ensures Lookup(WithText(entries, text), "text") == Some(JStr(text))
  {
    var r := WithText(entries, text);
    if entries[0].0 != "text" {
      assert Keys(entries) == [entries[0].0] + Keys(entries[1..]);
      assert r[1..] == WithText(entries[1..], text);
      WithTextSetsText(entries[1..], text);
    }
  }

  lemma {:induction false} WithTextKeepsOthers(entries: seq<(string, Json)>, text: string, key: string)
    requires key != "text"
    ensures Lookup(WithText(entries, text), key) == Lookup(entries, key)
  {
    var r := WithText(entries, text);
    if |entries| > 0 {
      assert r[1..] == WithText(entries[1..], text);
      WithTextKeepsOthers(entries[1..], text, key);
    }
  }

  /** The items of structured content processed one by one; a `null` item fails the whole. */
  function ProcessContentItems(items: seq<Json>, processedDatasetValue: map<string, Json>, columns: seq<DatasetColumn>)
    : (r: Result<seq<Json>, string>)
    ensures r.Failure? <==> exists i :: 0 <= i < |items| && items[i].JNull?
    ensures r.Success? ==>
              && |r.value| == |items|
              && forall i :: 0 <= i < |items| ==>
                   Success(r.value[i]) == ProcessContentItem(items[i], processedDatasetValue, columns)
  {
    if |items| == 0 then Success([])
    else
      var rest := ProcessContentItems(items[1..], processedDatasetValue, columns);
      assert forall i :: 1 <= i < |items| ==> items[i] == items[1..][i - 1];
      match ProcessContentItem(items[0], processedDatasetValue, columns)
      case Failure(e) => Failure(e)
      case Success(first) =>
        match rest
        case Failure(e) => Failure(e)
        case Success(others) => Success([first] + others)
  }

  /**
   * Message content with its file placeholders expanded: a string is kept,
   * structured content has its text items rewritten, an object is rewritten
   * as a tree, and anything else is kept.
   */
  function ProcessMessageContentWithFiles(content: Json, processedDatasetValue: map<string, Json>,
                                          columns: seq<DatasetColumn>): (r: Result<Json, string>)
    ensures r.Failure? <==> content.JArr? && exists i :: 0 <= i < |content.items| && content.items[i].JNull?
    ensures !content.JArr? && !content.JObj? ==> r == Success(content)
    ensures content.JObj? ==> r == Success(ProcessObject(content, processedDatasetValue, columns))
    ensures content.JArr? && r.Success? ==>
              && r.value.JArr? && |r.value.items| == |content.items|
              && forall i :: 0 <= i < |content.items| ==>
                   (if IsTextItem(content.items[i])
                    then Success(r.value.items[i]) == ProcessContentItem(content.items[i], processedDatasetValue, columns)
                    else r.value.items[i] == content.items[i])
  {
    match content
    case JStr(_) => Success(content)
    case JArr(items) =>
      (match ProcessContentItems(items, processedDatasetValue, columns)
       case Failure(e) => Failure(e)
       case Success(processed) => Success(JArr(processed)))
    case JObj(_) => Success(ProcessObject(content, processedDatasetValue, columns))
    case _ => Success(content)
  }

  // ---------------------------------------------------------------------------
  // Rewriting a message tree
  // ---------------------------------------------------------------------------

  /**
   * The tree with its file placeholders expanded: arrays are rewritten element
   * by element, an object's string properties have their placeholders
   * replaced and its other properties are rewritten, and every other value
   * (a string at the root or in an array included) is kept.
   */
  function ProcessObject(obj: Json, processedDatasetValue: map<string, Json>, columns: seq<DatasetColumn>): (r: Json)
    ensures obj.JArr? <==> r.JArr?
    ensures obj.JObj? <==> r.JObj?
    ensures obj.JArr? ==> |r.items| == |obj.items|
    ensures obj.JObj? ==> Keys(r.entries) == Keys(obj.entries)
    ensures !obj.JArr? && !obj.JObj? ==> r == obj
    decreases obj
  {
    match obj
    case JArr(items) =>
      JArr(seq(|items|, i requires 0 <= i < |items| => ProcessObject(items[i], processedDatasetValue, columns)))
    case JObj(entries) =>
      JObj(seq(|entries|, i requires 0 <= i < |entries| =>
                 var e := entries[i];
                 assert e in entries;
                 (e.0, if e.1.JStr? then JStr(ReplaceFileVariables(e.1.s, processedDatasetValue, columns))
                       else ProcessObject(e.1, processedDatasetValue, columns))))
    case _ => obj
  }

  /** Element `i` of a rewritten array is element `i` rewritten. */
  lemma ProcessObjectItem(obj: Json, processedDatasetValue: map<string, Json>, columns: seq<DatasetColumn>, i: nat)
    requires obj.JArr? && i < |obj.items|
    ensures ProcessObject(obj, processedDatasetValue, columns).items[i]
         == ProcessObject(obj.items[i], processedDatasetValue, columns)
  {
  }

  /** Property `i` of a rewritten object keeps its name; a string value has its placeholders replaced, any other value is rewritten. */
  lemma ProcessObjectEntry(obj: Json, processedDatasetValue: map<string, Json>, columns: seq<DatasetColumn>, i: nat)
    requires obj.JObj? && i < |obj.entries|
    ensures var (key, value) := obj.entries[i];
            ProcessObject(obj, processedDatasetValue, columns).entries[i]
            == (key, if value.JStr? then JStr(ReplaceFileVariables(value.s, processedDatasetValue, columns))
                     else ProcessObject(value, processedDatasetValue, columns))
  {
  }

  /**
   * Rewrites a message tree: an array element by element, an object property
   * by property into a fresh object, anything else returned as it is.
   */
  method ProcessObjectForFileContent(obj: Json, processedDatasetValue: map<string, Json>, columns: seq<DatasetColumn>)
    returns (r: Json)
    ensures r == ProcessObject(obj, processedDatasetValue, columns)
    decreases obj, 1
  {
    match obj
    case JArr(items) =>
      var mapped := ProcessItems(obj, processedDatasetValue, columns);
      r := JArr(mapped);
    case JObj(entries) =>
      var processed := ProcessEntries(obj, processedDatasetValue, columns);
      r := JObj(processed);
    case _ =>
      r := obj;
  }

  /** The loop over an array's elements. */
  method ProcessItems(obj: Json, processedDatasetValue: map<string, Json>, columns: seq<DatasetColumn>)
    returns (mapped: seq<Json>)
    requires obj.JArr?
    ensures mapped == ProcessObject(obj, processedDatasetValue, columns).items
    decreases obj, 0
  {
    var items := obj.items;
    ghost var target := ProcessObject(obj, processedDatasetValue, columns).items;
    mapped := [];
    for i := 0 to |items|
      invariant |target| == |items|
      invariant mapped == target[..i]
    {
      var item := ProcessObjectForFileContent(items[i], processedDatasetValue, columns);
      ProcessObjectItem(obj, processedDatasetValue, columns, i);
      TakeOneMore(target, i);
      mapped := mapped + [item];
    }
    assert target[..|items|] == target;
  }

  /** The loop over an object's properties, filling a fresh object. */
  method ProcessEntries(obj: Json, processedDatasetValue: map<string, Json>, columns: seq<DatasetColumn>)
    returns (processed: seq<(string, Json)>)
    requires obj.JObj?
    ensures processed == ProcessObject(obj, processedDatasetValue, columns).entries
    decreases obj, 0
  {
    var entries := obj.entries;
    ghost var target := ProcessObject(obj, processedDatasetValue, columns).entries;
    processed := [];
    for i := 0 to |entries|
      invariant |target| == |entries|
      invariant processed == target[..i]
    {
      var (key, value) := entries[i];
      assert entries[i] in entries;
      ProcessObjectEntry(obj, processedDatasetValue, columns, i);
      TakeOneMore(target, i);
      if value.JStr? {
        processed := processed + [(key, JStr(ReplaceFileVariables(value.s, processedDatasetValue, columns)))];
      } else {
        var rewritten := ProcessObjectForFileContent(value, processedDatasetValue, columns);
        processed := processed + [(key, rewritten)];
      }
    }
    assert target[..|entries|] == target;
  }

  /**
   * The shape of a tree with the texts of its string properties erased: what
   * the rewrite must leave alone.
   */
  function Skeleton(v: Json): Json
    decreases v
  {
    match v
    case JArr(items) => JArr(seq(|items|, i requires 0 <= i < |items| => Skeleton(items[i])))
    case JObj(entries) =>
      JObj(seq(|entries|, i requires 0 <= i < |entries| =>
                 var e := entries[i];
                 assert e in entries;
                 (e.0, if e.1.JStr? then JStr("") else Skeleton(e.1))))
    case _ => v
  }

  /**
   * The rewrite changes nothing but the texts of string properties: array
   * lengths, property names and their order, strings at the root and in
   * arrays, and every other leaf stay as they were.
   */
  lemma {:induction false} ProcessObjectKeepsSkeleton(v: Json, processedDatasetValue: map<string, Json>,
                                                      columns: seq<DatasetColumn>)
    ensures Skeleton(ProcessObject(v, processedDatasetValue, columns)) == Skeleton(v)
    decreases v
  {
    match v
    case JArr(items) =>
      forall i | 0 <= i < |items| {
        ProcessObjectKeepsSkeleton(items[i], processedDatasetValue, columns);
      }
    case JObj(entries) =>
      var processed := ProcessObject(v, processedDatasetValue, columns).entries;
      forall i | 0 <= i < |entries|
        ensures Skeleton(ProcessObject(v, processedDatasetValue, columns)).entries[i] == Skeleton(v).entries[i]
      {
        assert entries[i] in entries;
        assert processed[i] in processed;
        if !entries[i].1.JStr? {
          ProcessObjectKeepsSkeleton(entries[i].1, processedDatasetValue, columns);
        }
      }
    case _ =>
  }

  /** No string property anywhere in the tree holds a placeholder. */
  predicate NoPlaceholderProperties(v: Json)
    decreases v
  {
    match v
    case JArr(items) => forall i :: 0 <= i < |items| ==> NoPlaceholderProperties(items[i])
    case JObj(entries) =>
      forall i :: 0 <= i < |entries| ==>
        var e := entries[i];
        assert e in entries;
        if e.1.JStr? then !HasPlaceholder(e.1.s) else NoPlaceholderProperties(e.1)
    case _ => true
  }

  /** A tree whose string properties hold no placeholder comes back unchanged. */
  lemma {:induction false} ProcessObjectWithoutPlaceholders(v: Json, processedDatasetValue: map<string, Json>,
                                                            columns: seq<DatasetColumn>)
    requires NoPlaceholderProperties(v)
    ensures ProcessObject(v, processedDatasetValue, columns) == v
    decreases v
  {
    match v
    case JArr(items) =>
      forall i | 0 <= i < |items| {
        ProcessObjectWithoutPlaceholders(items[i], processedDatasetValue, columns);
      }
      assert ProcessObject(v, processedDatasetValue, columns).items == items;
    case JObj(entries) =>
      forall i | 0 <= i < |entries|
        ensures ProcessObject(v, processedDatasetValue, columns).entries[i] == entries[i]
      {
        assert entries[i] in entries;
        if entries[i].1.JStr? {
          ReplaceWithoutPlaceholders(entries[i].1.s, processedDatasetValue, columns);
        } else {
          ProcessObjectWithoutPlaceholders(entries[i].1, processedDatasetValue, columns);
        }
      }
      assert ProcessObject(v, processedDatasetValue, columns).entries == entries;
    case _ =>
  }
}
