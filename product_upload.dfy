/**
 * The product image upload: the express-validator check that admits a file
 * (its size and MIME type), the object key and public URL the handler
 * builds, and the order of the handler's steps.
 *
 * The random uuid, the wall-clock date and the configured bucket are
 * parameters, so admission and naming are total functions. The awaited
 * foreign calls (the group check, the venue lookup, the S3 upload) are
 * given by their outcomes; the handler records each call it issues.
 */
module ProductUpload {
  import opened Wrappers
  import opened Http
  import opened Text

  /** Upload size limit, 5 MB in bytes; a file must be strictly smaller. */
  const FileLimit: nat := 5242880

  const PngMime := "image/png"
  const JpegMime := "image/jpeg"

  const FileRequiredMessage := "Upload File Required With Maximum File Size 5 MB/File.!"
  const FormatMessage := "Format Allowed: .jpeg, .jpg or .png"
  const UnknownFileMessage := "Unknown File.!"

  /** The field the check is attached to, and where express-validator reports it. */
  const UploadField := "data"
  const BodyLocation := "body"

  const VenueGroup := "venue"
  const PublicRead := "public-read"

  /** What multer leaves in `req.file`: its size in bytes and its MIME type. */
  datatype UploadedFile = UploadedFile(size: nat, mimetype: string)

  // ---------------------------------------------------------------------
  // Admission
  // ---------------------------------------------------------------------

  /**
   * The custom check on field `data`: a present file strictly under the
   * limit is admitted with the extension of its MIME type; the size is
   * checked before the type.
   */
  function ValidateUpload(file: Option<UploadedFile>): (r: Result<string>)
    ensures r.Ok? <==> file.Some? && file.value.size < FileLimit
                       && (file.value.mimetype == PngMime || file.value.mimetype == JpegMime)
    ensures file.None? || file.value.size >= FileLimit ==> r == Err(FileRequiredMessage)
    ensures r == Err(FormatMessage) <==>
              file.Some? && file.value.size < FileLimit
              && file.value.mimetype != PngMime && file.value.mimetype != JpegMime
    ensures r.Ok? ==> (r.value == ".png" <==> file.value.mimetype == PngMime)
    ensures r.Ok? ==> (r.value == ".jpeg" <==> file.value.mimetype == JpegMime)
  {
    if file.Some? && file.value.size < FileLimit then
      if file.value.mimetype == PngMime then Ok(".png")
      else if file.value.mimetype == JpegMime then Ok(".jpeg")
      else Err(FormatMessage)
    else
      Err(FileRequiredMessage)
  }

  predicate Admitted(file: Option<UploadedFile>)
  {
    ValidateUpload(file).Ok?
  }

  /** What `validationResult(req)` holds after the check has run. */
  function ValidationErrors(file: Option<UploadedFile>): (errors: seq<FieldError>)
    ensures errors == [] <==> Admitted(file)
    ensures errors != [] ==> errors == [FieldError(BodyLocation, UploadField, ValidateUpload(file).error)]
  {
    match ValidateUpload(file)
    case Ok(_) => []
    case Err(m) => [FieldError(BodyLocation, UploadField, m)]
  }

  /** A file of exactly the limit is refused, whatever its type. */
  lemma LimitIsExclusive(mimetype: string)
    ensures ValidateUpload(Some(UploadedFile(FileLimit, mimetype))) == Err(FileRequiredMessage)
    ensures ValidateUpload(Some(UploadedFile(FileLimit - 1, PngMime))) == Ok(".png")
  {
  }

  // ---------------------------------------------------------------------
  // Object naming
  // ---------------------------------------------------------------------

  /** `getMonth()` counts months from 0. */
  type MonthIndex = m: int | 0 <= m < 12

  type DayOfMonth = d: int | 1 <= d <= 31 witness 1

  /** What `new Date()` reports: `getFullYear()`, `getMonth()` and `getDate()`. */
  datatype CalendarDate = CalendarDate(fullYear: int, monthIndex: MonthIndex, dayOfMonth: DayOfMonth)

  /** The month as the key writes it: `getMonth() + 1`. */
  function KeyMonth(now: CalendarDate): (m: nat)
    ensures 1 <= m <= 12
  {
    now.monthIndex + 1
  }

  /** `${year}/${month}/${day}/${fileName}`: numbers rendered without zero padding. */
  function StorageKey(now: CalendarDate, fileName: string): (key: string)
    ensures |key| > |fileName| && key[|key| - |fileName|..] == fileName
  {
    IntToString(now.fullYear) + "/" + NatToString(KeyMonth(now)) + "/"
    + NatToString(now.dayOfMonth) + "/" + fileName
  }

  /** `'https://' + bucket + '/' + key`. */
  function ObjectUrl(bucket: string, key: string): (url: string)
    ensures |url| == |"https://"| + |bucket| + 1 + |key|
    ensures url[..|"https://"|] == "https://"
    ensures url[|url| - |key|..] == key
  {
    "https://" + bucket + "/" + key
  }

  /** The pieces a storage key is made of. */
  datatype KeyParts = KeyParts(year: int, month: int, day: int, fileName: string)

  /** Reads a storage key back into its pieces. */
  ghost function ParseStorageKey(key: string): Option<KeyParts>
  {
    var parts := Split(key, '/');
    if |parts| != 4 then None
    else
      match (ParseInt(parts[0]), ParseInt(parts[1]), ParseInt(parts[2]))
      case (Some(y), Some(m), Some(d)) => Some(KeyParts(y, m, d, parts[3]))
      case _ => None
  }

  /** A rendered number holds no `/`. */
  lemma NumeralHasNoSlash(s: string)
    requires forall k :: 0 <= k < |s| ==> IsDigit(s[k]) || s[k] == '-'
    ensures '/' !in s
  {
    forall k | 0 <= k < |s| ensures s[k] != '/' { }
  }

  /** A key splits at its `/` into the year, the month, the day and the file name. */
  lemma StorageKeySplits(now: CalendarDate, fileName: string)
    requires '/' !in fileName
    ensures Split(StorageKey(now, fileName), '/')
            == [IntToString(now.fullYear), NatToString(KeyMonth(now)), NatToString(now.dayOfMonth), fileName]
  {
    var y, m, d := IntToString(now.fullYear), NatToString(KeyMonth(now)), NatToString(now.dayOfMonth);
    NumeralHasNoSlash(y);
    NumeralHasNoSlash(m);
    NumeralHasNoSlash(d);
    assert StorageKey(now, fileName) == y + ['/'] + (m + ['/'] + (d + ['/'] + fileName));
    SplitAfter(y, '/', m + ['/'] + (d + ['/'] + fileName));
    SplitAfter(m, '/', d + ['/'] + fileName);
    SplitAfter(d, '/', fileName);
    SplitWhole(fileName, '/');
  }

  /**
   * A key names its date and its file and nothing else: it splits back into
   * the year, the month (1 to 12), the day and the file name, provided the
   * file name has no `/`, as a uuid followed by an extension has not.
   */
  lemma StorageKeyParses(now: CalendarDate, fileName: string)
    requires '/' !in fileName
    ensures ParseStorageKey(StorageKey(now, fileName))
            == Some(KeyParts(now.fullYear, now.monthIndex + 1, now.dayOfMonth, fileName))
  {
    StorageKeySplits(now, fileName);
    IntToStringRoundTrip(now.fullYear);
    IntToStringRoundTrip(KeyMonth(now));
    IntToStringRoundTrip(now.dayOfMonth);
  }

  /**
   * The object of an admitted file is named by the extension of its MIME
   * type, and its URL ends with its key.
   */
  lemma AdmittedObjectNaming(file: Option<UploadedFile>, uuid: string, now: CalendarDate, bucket: string)
    requires Admitted(file)
    ensures var ext := ValidateUpload(file).value;
            var key := StorageKey(now, uuid + ext);
            && (ext == ".png" || ext == ".jpeg")
            && key[|key| - |ext|..] == ext
            && ObjectUrl(bucket, key)[|"https://" + bucket + "/"|..] == key
  {
    var ext := ValidateUpload(file).value;
    var key := StorageKey(now, uuid + ext);
    assert key[|key| - |uuid + ext|..][|uuid|..] == ext;
  }

  // ---------------------------------------------------------------------
  // The handler
  // ---------------------------------------------------------------------

  /** The verified Cognito identity that `validateGroup` returns. */
  datatype Identity = Identity(email: string, sub: string)

  /** The key of the venue profile table. */
  datatype VenueKey = VenueKey(venueEmail: string, cognitoId: string)

  /** The S3 `upload` parameters; the file bytes are left out. */
  datatype PutObjectRequest = PutObjectRequest(acl: string, bucket: string, key: string, contentType: string)

  /** A foreign call the handler issues. */
  datatype Call =
    | CheckGroup(group: string)
    | GetVenue(table: string, key: VenueKey)
    | PutObject(request: PutObjectRequest)

  /** The venue profile table name and the bucket (`AWS_S3_BUCKET`). */
  datatype Config = Config(venueTable: string, bucket: string)

  ghost predicate Uploads(calls: seq<Call>)
  {
    exists k :: 0 <= k < |calls| && calls[k].PutObject?
  }

  /**
   * `productMenuUpload`, run after the check: the group check, then the
   * validation result, then the venue lookup, then the upload. Each
   * outcome parameter says how that awaited call ends; an error thrown on
   * the way is passed to `next`.
   */
  method ProductMenuUpload(group: Result<Identity>, file: Option<UploadedFile>, venueLookup: Outcome,
                           uuid: string, now: CalendarDate, config: Config, upload: Outcome)
    returns (reply: Reply<string>, calls: seq<Call>)
    ensures |calls| >= 1 && calls[0] == CheckGroup(VenueGroup)
    ensures group.Err? ==> reply == Next(group.error) && calls == [CheckGroup(VenueGroup)]
    ensures group.Ok? && !Admitted(file) ==>
              reply == Json(StatusBadRequest, Errors(ValidationErrors(file)))
              && calls == [CheckGroup(VenueGroup)]
    ensures group.Ok? && Admitted(file) ==>
              |calls| >= 2
              && calls[1] == GetVenue(config.venueTable, VenueKey(group.value.email, group.value.sub))
    ensures group.Ok? && Admitted(file) && venueLookup.Fail? ==>
              reply == Next(venueLookup.error) && |calls| == 2
    ensures Uploads(calls) <==> group.Ok? && Admitted(file) && venueLookup.Pass?
    ensures Uploads(calls) ==>
              var key := StorageKey(now, uuid + ValidateUpload(file).value);
              && |calls| == 3
              && calls[2] == PutObject(PutObjectRequest(PublicRead, config.bucket, key, file.value.mimetype))
              && reply == (if upload.Fail? then Next(upload.error)
                           else Json(StatusOk, Envelope(StatusOk, SuccessMessage, Some(ObjectUrl(config.bucket, key)))))
    ensures reply.Json? && reply.status == StatusOk <==>
              group.Ok? && Admitted(file) && venueLookup.Pass? && upload.Pass?
  {
    calls := [CheckGroup(VenueGroup)];
    if group.Err? {
      reply := Next(group.error);
      return;
    }
    var user := group.value;

    var errors := ValidationErrors(file);
    if errors != [] {
      reply := Json(StatusBadRequest, Errors(errors));
      return;
    }

    calls := calls + [GetVenue(config.venueTable, VenueKey(user.email, user.sub))];
    if venueLookup.Fail? {
      reply := Next(venueLookup.error);
      return;
    }

    var fileUpload := file.value;
    var fileExtension: string;
    if fileUpload.mimetype == PngMime {
      fileExtension := ".png";
    } else if fileUpload.mimetype == JpegMime {
      fileExtension := ".jpeg";
    } else {
      // The check admitted only the two image types, so this branch is dead.
      assert false;
      reply := Next(UnknownFileMessage);
      return;
    }

    var fileName := uuid + fileExtension;
    var fullFileName := StorageKey(now, fileName);
    var fileUrl := ObjectUrl(config.bucket, fullFileName);

    calls := calls + [PutObject(PutObjectRequest(PublicRead, config.bucket, fullFileName, fileUpload.mimetype))];
    assert calls[2].PutObject?;
    if upload.Fail? {
      reply := Next(upload.error);
      return;
    }
    reply := Json(StatusOk, Envelope(StatusOk, SuccessMessage, Some(fileUrl)));
  }
}
