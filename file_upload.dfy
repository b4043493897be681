/** Upload checks of the CMS: the MIME types it accepts in three families,
    the size bound, the order in which a file is checked, and the public URL
    of a stored file. The base URL comes from the environment and is a
    parameter here. */
module FileUpload {
  import opened Common

  /** 100 MiB. */
  const MaxFileSize: nat := 100 * 1024 * 1024

  const ImageTypes: seq<string> := ["image/jpeg", "image/png", "image/gif", "image/webp"]
  const VideoTypes: seq<string> := ["video/mp4", "video/avi", "video/mov", "video/wmv", "video/flv"]
  const AudioTypes: seq<string> := ["audio/mp3", "audio/wav", "audio/ogg", "audio/m4a"]

  /** The three families in declaration order, flattened. */
  const AllowedTypes: seq<string> := ImageTypes + VideoTypes + AudioTypes

  /** `getAllowedMimeTypes()`: the families by name. */
  datatype MimeTable = MimeTable(image: seq<string>, video: seq<string>, audio: seq<string>)

  function AllowedMimeTypes(): (t: MimeTable)
    ensures t.image + t.video + t.audio == AllowedTypes
  {
    MimeTable(ImageTypes, VideoTypes, AudioTypes)
  }

  /** `getMaxFileSize()`. */
  function GetMaxFileSize(): (n: nat)
    ensures n == 104857600
  {
    MaxFileSize
  }

  /** The fields of an upload the checks read. */
  datatype UploadedFile = UploadedFile(originalname: string, mimetype: string, size: nat)

  /** `getFileType`: the storage folder of a MIME type's family. */
  function GetFileType(mimetype: string): (r: Result<string>)
    ensures r.Ok? <==> mimetype in AllowedTypes
    ensures r.Ok? ==> (r.value == "images" <==> mimetype in ImageTypes)
    ensures r.Ok? ==> (r.value == "videos" <==> mimetype in VideoTypes)
    ensures r.Ok? ==> (r.value == "audio" <==> mimetype in AudioTypes)
    ensures r.Err? ==> r.error == BadRequest("Unsupported file type: " + mimetype)
  {
    if mimetype in ImageTypes then Ok("images")
    else if mimetype in VideoTypes then Ok("videos")
    else if mimetype in AudioTypes then Ok("audio")
    else Err(BadRequest("Unsupported file type: " + mimetype))
  }

  const NoFileMessage := "No file uploaded"

  /** The size message prints the bound in whole MiB. */
  const SizeMessage := "File size too large. Maximum allowed: " + ShowNat(MaxFileSize / 1024 / 1024) + "MB"

  /** The type message lists the accepted types in order, comma-separated. */
  const TypeMessage := "Invalid file type. Allowed types: " + Join(AllowedTypes, ", ")

  /** The bound printed is 100. */
  lemma SizeMessageText()
    ensures SizeMessage == "File size too large. Maximum allowed: 100MB"
  {
    assert ShowNat(10) == "10";
    assert ShowNat(100) == ShowNat(10) + "0";
  }

  /** A file the checks let through. */
  predicate Acceptable(file: UploadedFile)
  {
    file.size <= MaxFileSize && file.mimetype in AllowedTypes
  }

  /** `validateFile`: presence first, then size, then type; the first check
      that fails decides the error. */
  function ValidateFile(file: Option<UploadedFile>): (r: Outcome)
    ensures r.Pass? <==> file.Some? && Acceptable(file.value)
    ensures file.None? ==> r == Fail(BadRequest(NoFileMessage))
    ensures file.Some? && file.value.size > MaxFileSize ==> r == Fail(BadRequest(SizeMessage))
    ensures file.Some? && file.value.size <= MaxFileSize && file.value.mimetype !in AllowedTypes ==>
      r == Fail(BadRequest(TypeMessage))
  {
    if file.None? then Fail(BadRequest(NoFileMessage))
    else if file.value.size > MaxFileSize then Fail(BadRequest(SizeMessage))
    else if file.value.mimetype !in AllowedTypes then Fail(BadRequest(TypeMessage))
    else Pass
  }

  /** A file that passes validation has a storage folder: the list checked
      is exactly the union of the families classified. */
  lemma AcceptedHasType(file: UploadedFile)
    requires ValidateFile(Some(file)).Pass?
    ensures GetFileType(file.mimetype).Ok?
    ensures GetFileType(file.mimetype).value in {"images", "videos", "audio"}
  {
  }

  /** The size bound is inclusive: exactly 100 MiB passes, one byte more
      does not. */
  lemma SizeBoundary(mimetype: string)
    requires mimetype in AllowedTypes
    ensures ValidateFile(Some(UploadedFile("f", mimetype, 104857600))).Pass?
    ensures ValidateFile(Some(UploadedFile("f", mimetype, 104857601))) == Fail(BadRequest(SizeMessage))
  {
  }

  const DefaultBaseUrl := "http://localhost:3000"

  /** `process.env.BASE_URL || 'http://localhost:3000'`: an empty value falls
      back too. */
  function BaseUrl(env: Option<string>): (b: string)
    ensures Truthy(env) ==> b == env.value
    ensures !Truthy(env) ==> b == DefaultBaseUrl
  {
    if Truthy(env) then env.value else DefaultBaseUrl
  }

  /** `getFileUrl`: the public URL of stored file `filename` in folder
      `fileType`. */
  function GetFileUrl(filename: string, fileType: string, env: Option<string>): string
  {
    BaseUrl(env) + "/uploads/" + fileType + "/" + filename
  }

  /** A file URL is the base URL, then `/uploads/`, then the folder and the
      name. */
  lemma FileUrlShape(filename: string, fileType: string, env: Option<string>)
    ensures var url := GetFileUrl(filename, fileType, env);
      && StartsWith(url, BaseUrl(env) + "/uploads/")
      && url[|BaseUrl(env) + "/uploads/"|..] == fileType + "/" + filename
  {
    var prefix := BaseUrl(env) + "/uploads/";
    var url := GetFileUrl(filename, fileType, env);
    assert url == prefix + (fileType + "/" + filename);
    assert url[..|prefix|] == prefix;
  }

  /** A file name without a slash is the last path segment of its URL. */
  lemma FileUrlLastSegment(filename: string, fileType: string, env: Option<string>)
    requires '/' !in filename
    ensures var parts := Split(GetFileUrl(filename, fileType, env), '/');
      |parts| >= 2 && parts[|parts| - 1] == filename
  {
    var url := GetFileUrl(filename, fileType, env);
    var a := BaseUrl(env) + "/uploads/" + fileType;
    assert url == a + ['/'] + filename;
    SplitLastPart(a, filename, '/');
  }
}
