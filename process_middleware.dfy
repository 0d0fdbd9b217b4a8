/** The cover-image upload: the file filter `checkFileType` and the multipart
    middleware configured with one field, `cover_image`, holding at most one
    file. The multipart parser itself is abstracted to the sequence of file
    parts it announces, in order. */
module ProcessMiddleware {
  import opened JsValues

  /** The parts of a Multer file that the filter and the handler look at
      (encoding, buffer and size are left out). */
  datatype MulterFile = MulterFile(fieldname: string, originalname: string, mimetype: string)

  /** The arguments of the single call the filter makes to its callback `cb(error, acceptFile)`. */
  datatype FilterCallback = FilterCallback(error: Option<string>, acceptFile: bool)

  const CoverImageField: string := "cover_image"
  const InvalidFileType: string := "Invalid file type"

  /** The MIME types the filter lets through under `cover_image`. */
  const ImageMimeTypes: set<string> := {"image/png", "image/jpg", "image/jpeg"}

  /** `checkFileType(file, cb)`: under `cover_image` only the three image types
      are accepted (compared exactly, so `image/PNG` is refused); any other
      field is accepted whatever its type. It reports through one callback. */
  function CheckFileType(file: MulterFile): (cb: FilterCallback)
    ensures cb.error.Some? <==> !cb.acceptFile
    ensures cb.acceptFile <==> file.fieldname != CoverImageField || file.mimetype in ImageMimeTypes
    ensures cb.error.Some? ==> cb.error.value == InvalidFileType
  {
    if file.fieldname == "cover_image" then
      if file.mimetype == "image/png" || file.mimetype == "image/jpg" || file.mimetype == "image/jpeg" then
        FilterCallback(None, true)
      else
        FilterCallback(Some("Invalid file type"), false)
    else
      FilterCallback(None, true)
  }

  /** The `fields([{ name: 'cover_image', maxCount: 1 }])` configuration: how many
      files each field may still receive. A field not listed receives none. */
  const MaxCount: map<string, nat> := map["cover_image" := 1]

  /** Why the middleware's promise rejects. */
  datatype UploadError =
    | UnexpectedFile(field: string)  // Multer's LIMIT_UNEXPECTED_FILE
    | FilterError(message: string)   // the error the file filter passed to its callback
    | MalformedBody                  // the multipart parser failed

  /** The request body as the multipart parser sees it. */
  datatype Form = NotMultipart | Malformed | Multipart(parts: seq<MulterFile>)

  /** `request.files`: field name to the files stored under it. */
  type Files = map<string, seq<MulterFile>>

  /** What awaiting `processFileMiddleware(request, response)` yields: a
      rejection, or success with `request.files` set (None when the body is not
      multipart and the middleware leaves `request.files` undefined). */
  datatype Upload = Rejected(error: UploadError) | Parsed(files: Option<Files>)

  function FilesUnder(files: Files, field: string): seq<MulterFile>
  {
    if field in files then files[field] else []
  }

  /** Multer's handling of the file parts, in order: a part without a file name
      is skipped; under a field with no room left a part rejects (before the
      filter is asked); otherwise the field's count is spent, the filter is
      asked, and its error rejects, a refusal drops the file and an acceptance
      stores it under its field. */
  function Accept(parts: seq<MulterFile>, left: map<string, nat>, files: Files): Upload
    decreases |parts|
  {
    if parts == [] then Parsed(Some(files))
    else
      var f := parts[0];
      if f.originalname == "" then Accept(parts[1..], left, files)
      else if f.fieldname !in left || left[f.fieldname] == 0 then Rejected(UnexpectedFile(f.fieldname))
      else
        var left' := left[f.fieldname := left[f.fieldname] - 1];
        var cb := CheckFileType(f);
        var files' := if cb.acceptFile then files[f.fieldname := FilesUnder(files, f.fieldname) + [f]] else files;
        if cb.error.Some? then Rejected(FilterError(cb.error.value))
        else Accept(parts[1..], left', files')
  }

  /** The parts that carry a file name, in order: the ones Multer looks at. */
  function Announced(parts: seq<MulterFile>): (a: seq<MulterFile>)
    ensures |a| <= |parts|
    ensures forall f :: f in a <==> f in parts && f.originalname != ""
  {
    if parts == [] then []
    else (if parts[0].originalname == "" then [] else [parts[0]]) + Announced(parts[1..])
  }

  /** Skipping nameless parts is the only thing they cause: the upload is
      decided by the announced parts alone. */
  lemma {:induction false} AcceptAnnounced(parts: seq<MulterFile>, left: map<string, nat>, files: Files)
    ensures Accept(parts, left, files) == Accept(Announced(parts), left, files)
    decreases |parts|
  {
    if parts != [] {
      var a := Announced(parts[1..]);
      if parts[0].originalname == "" {
        assert Announced(parts) == a;
        AcceptAnnounced(parts[1..], left, files);
      } else {
        var f := parts[0];
        assert Announced(parts) == [f] + a;
        assert Announced(parts)[1..] == a;
        if f.fieldname in left && left[f.fieldname] != 0 {
          var left' := left[f.fieldname := left[f.fieldname] - 1];
          var files' := if CheckFileType(f).acceptFile then files[f.fieldname := FilesUnder(files, f.fieldname) + [f]] else files;
          AcceptAnnounced(parts[1..], left', files');
        }
      }
    }
  }

  /** `processFileMiddleware(request, response)`. */
  function ProcessFileMiddleware(form: Form): Upload
  {
    match form
    case NotMultipart => Parsed(None)
    case Malformed => Rejected(MalformedBody)
    case Multipart(parts) => Accept(parts, MaxCount, map[])
  }

  /** A file part the configured upload keeps: a named `cover_image` image. */
  predicate Admissible(f: MulterFile)
  {
    f.originalname != "" && f.fieldname == CoverImageField && f.mimetype in ImageMimeTypes
  }

  /** A field with no room left rejects the first named part that follows. */
  lemma {:induction false} AcceptWhenFull(parts: seq<MulterFile>, left: map<string, nat>, files: Files)
    requires parts != [] && parts[0].originalname != ""
    requires forall k :: k in left ==> left[k] == 0
    ensures Accept(parts, left, files) == Rejected(UnexpectedFile(parts[0].fieldname))
  {
  }

  /** Exactly what the configured middleware does with a multipart body, in
      terms of its named parts: none gives an empty `request.files`; a single
      admissible one is stored alone under `cover_image`; one under any other
      field, a second one, or a `cover_image` one of another type rejects the
      request. */
  lemma ProcessMultipart(parts: seq<MulterFile>)
    ensures var u := ProcessFileMiddleware(Multipart(parts));
      var a := Announced(parts);
      if a == [] then u == Parsed(Some(map[]))
      else if a[0].fieldname != CoverImageField then u == Rejected(UnexpectedFile(a[0].fieldname))
      else if a[0].mimetype !in ImageMimeTypes then u == Rejected(FilterError(InvalidFileType))
      else if |a| == 1 then u == Parsed(Some(map[CoverImageField := [a[0]]]))
      else u == Rejected(UnexpectedFile(a[1].fieldname))
  {
    var a := Announced(parts);
    AcceptAnnounced(parts, MaxCount, map[]);
    if a != [] {
      assert a[0] in a;
      if Admissible(a[0]) {
        var left', files' := MaxCount[CoverImageField := 0], map[CoverImageField := [a[0]]];
        assert FilesUnder(map[], CoverImageField) + [a[0]] == [a[0]];
        assert Accept(a, MaxCount, map[]) == Accept(a[1..], left', files');
        if |a| > 1 {
          assert a[1] in a;
          AcceptWhenFull(a[1..], left', files');
        }
      }
    }
  }

  /** A named `cover_image` part of a non-image type anywhere in the body
      rejects the upload, whatever precedes or follows it. */
  lemma {:induction false} AcceptRejectsBadCover(parts: seq<MulterFile>, left: map<string, nat>, files: Files, i: nat)
    requires i < |parts|
    requires parts[i].originalname != "" && parts[i].fieldname == CoverImageField
    requires parts[i].mimetype !in ImageMimeTypes
    ensures Accept(parts, left, files).Rejected?
    decreases i
  {
    var f := parts[0];
    if i > 0 && f.originalname == "" {
      AcceptRejectsBadCover(parts[1..], left, files, i - 1);
    } else if i > 0 && f.fieldname in left && left[f.fieldname] != 0 && CheckFileType(f).error.None? {
      var left' := left[f.fieldname := left[f.fieldname] - 1];
      var files' := if CheckFileType(f).acceptFile then files[f.fieldname := FilesUnder(files, f.fieldname) + [f]] else files;
      AcceptRejectsBadCover(parts[1..], left', files', i - 1);
    }
  }

  /** Whenever the upload succeeds, `request.files` holds at most one file, under
      `cover_image`, and that file is an admissible part of the request. */
  lemma UploadAtMostOneCover(form: Form)
    requires ProcessFileMiddleware(form).Parsed? && ProcessFileMiddleware(form).files.Some?
    ensures var files := ProcessFileMiddleware(form).files.value;
      files.Keys <= {CoverImageField} &&
      |FilesUnder(files, CoverImageField)| <= 1 &&
      forall f :: f in FilesUnder(files, CoverImageField) ==> Admissible(f) && f in form.parts
  {
    ProcessMultipart(form.parts);
  }

  /** The filter's branch for other fields is never reached through this
      configuration: such a part is refused as unexpected, whatever its type. */
  lemma OtherFieldRejected(f: MulterFile, rest: seq<MulterFile>)
    requires f.originalname != "" && f.fieldname != CoverImageField
    ensures CheckFileType(f).acceptFile
    ensures ProcessFileMiddleware(Multipart([f] + rest)) == Rejected(UnexpectedFile(f.fieldname))
  {
  }
}
