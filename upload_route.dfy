/** src/app/api/upload/route.ts: the guarded upload of an image or a resume.
    The validation chain runs in a fixed order and the first failing check
    answers. The public upload directory is the map `UploadDir.files` from
    public URL to the file written there; the clock `Date.now()` is the
    parameter `now`. */
module UploadRoute {
  import opened JsValues
  import opened Http
  import Auth
  import Text

  /** What the handler reads of an uploaded `File`. */
  datatype FileInfo = FileInfo(name: string, size: nat, mime: string)

  /** The two form fields `file` and `type`, each possibly absent. */
  datatype UploadForm = UploadForm(file: Option<FileInfo>, kind: Option<string>)

  datatype Kind = Image | Resume

  function KindName(k: Kind): string {
    match k
    case Image => "image"
    case Resume => "resume"
  }

  function Directory(k: Kind): string {
    match k
    case Image => "images"
    case Resume => "resumes"
  }

  const MaxSize: nat := 10 * 1024 * 1024

  const ImageMimes := ["image/jpeg", "image/jpg", "image/png", "image/webp"]
  const ResumeMimes := ["application/pdf", "application/msword",
                        "application/vnd.openxmlformats-officedocument.wordprocessingml.document"]

  function AllowedMimes(k: Kind): seq<string> {
    match k
    case Image => ImageMimes
    case Resume => ResumeMimes
  }

  const NoFileMessage := "No file uploaded"
  const BadKindMessage := "Invalid file type. Must be \"image\" or \"resume\""
  const TooLargeMessage := "File size too large. Maximum 10MB allowed."
  const BadImageMessage := "Invalid image format. Only JPEG, PNG, and WebP are allowed."
  const BadResumeMessage := "Invalid resume format. Only PDF, DOC, and DOCX are allowed."

  function ParseKind(s: Option<string>): (r: Option<Kind>)
    ensures r.Some? <==> s == Some("image") || s == Some("resume")
    ensures r.Some? ==> s == Some(KindName(r.value))
  {
    if s == Some("image") then Some(Image)
    else if s == Some("resume") then Some(Resume)
    else None
  }

  datatype Check = Passed(file: FileInfo, kind: Kind) | Failed(message: string)

  /** The validation chain: file present, then the type, then the size, then
      the MIME whitelist of that type. */
  function Validate(form: UploadForm): (r: Check)
    ensures form.file.None? ==> r == Failed(NoFileMessage)
    ensures form.file.Some? && ParseKind(form.kind).None? ==> r == Failed(BadKindMessage)
    ensures form.file.Some? && ParseKind(form.kind).Some? && form.file.value.size > MaxSize ==>
      r == Failed(TooLargeMessage)
    ensures (form.file.Some? && form.kind == Some("image") && form.file.value.size <= MaxSize
             && form.file.value.mime !in ImageMimes) ==> r == Failed(BadImageMessage)
    ensures (form.file.Some? && form.kind == Some("resume") && form.file.value.size <= MaxSize
             && form.file.value.mime !in ResumeMimes) ==> r == Failed(BadResumeMessage)
    ensures r.Passed? <==>
      && form.file.Some? && ParseKind(form.kind).Some?
      && form.file.value.size <= MaxSize
      && form.file.value.mime in AllowedMimes(ParseKind(form.kind).value)
    ensures r.Passed? ==> r.file == form.file.value && Some(KindName(r.kind)) == form.kind
  {
    if form.file.None? then Failed(NoFileMessage)
    else
      var kind := ParseKind(form.kind);
      if kind.None? then Failed(BadKindMessage)
      else if form.file.value.size > MaxSize then Failed(TooLargeMessage)
      else if kind.value == Image && form.file.value.mime !in ImageMimes then Failed(BadImageMessage)
      else if kind.value == Resume && form.file.value.mime !in ResumeMimes then Failed(BadResumeMessage)
      else Passed(form.file.value, kind.value)
  }

  /** `file.name.split('.').pop()`: the text after the last dot, or the whole
      name when it has none. */
  function Extension(name: string): (ext: string)
    ensures '.' !in ext
    ensures |ext| <= |name| && name[|name| - |ext|..] == ext
    ensures '.' in name ==> |ext| < |name| && name[|name| - |ext| - 1] == '.'
    ensures '.' !in name ==> ext == name
  {
    var pieces := Text.Split(name, '.');
    var ext := pieces[|pieces| - 1];
    if |pieces| == 1 then
      ext
    else
      Text.JoinLast(pieces, ".");
      ext
  }

  /** `${type}_${timestamp}.${fileExtension}`. */
  function FileName(k: Kind, now: nat, name: string): string {
    KindName(k) + "_" + Text.Decimal(now) + "." + Extension(name)
  }

  /** `/uploads/${images|resumes}/${fileName}`. */
  function PublicUrl(k: Kind, fileName: string): string {
    "/uploads/" + Directory(k) + "/" + fileName
  }

  /** The URL of an upload is the type's directory and prefix, the digits of
      the timestamp, a dot, and the original extension, which has no dot. */
  lemma UrlShape(k: Kind, now: nat, name: string)
    ensures var digits, ext := Text.Decimal(now), Extension(name);
      && PublicUrl(k, FileName(k, now, name)) == "/uploads/" + Directory(k) + "/" + KindName(k) + "_" + digits + "." + ext
      && |digits| >= 1 && (forall i :: 0 <= i < |digits| ==> Text.IsDigit(digits[i]))
      && Text.DecimalValue(digits) == now
      && '.' !in ext
  {
    Text.DecimalRoundTrip(now);
    var prefix := "/uploads/" + Directory(k) + "/" + KindName(k) + "_";
    assert PublicUrl(k, FileName(k, now, name)) == prefix + Text.Decimal(now) + "." + Extension(name);
  }

  /** In `d + "." + e` with no dot in `d`, the first dot ends `d`. */
  lemma DotEndsDigits(d: string, e: string)
    requires '.' !in d
    ensures Text.IndexOf(d + "." + e, '.') == Some(|d|)
  {
    var s := d + "." + e;
    assert s[..|d|] == d;
    assert s[|d|] == '.';
  }

  lemma DigitsHaveNoDot(n: nat)
    ensures '.' !in Text.Decimal(n)
  {
    var d := Text.Decimal(n);
    forall i | 0 <= i < |d|
      ensures d[i] != '.'
    {
      assert Text.IsDigit(d[i]);
    }
  }

  /** The common part of every URL of one kind. */
  function UrlPrefix(k: Kind): string {
    "/uploads/" + Directory(k) + "/" + KindName(k) + "_"
  }

  lemma UrlSplits(k: Kind, now: nat, name: string)
    ensures PublicUrl(k, FileName(k, now, name)) == UrlPrefix(k) + (Text.Decimal(now) + "." + Extension(name))
  {
  }

  /** Behind a common prefix, two dot-free heads followed by a dot are equal
      when the whole strings are. */
  lemma SameHeadBeforeDot(p: string, d1: string, e1: string, d2: string, e2: string)
    requires '.' !in d1 && '.' !in d2
    requires p + (d1 + "." + e1) == p + (d2 + "." + e2)
    ensures d1 == d2
  {
    var s1, s2 := d1 + "." + e1, d2 + "." + e2;
    assert s1 == (p + s1)[|p|..];
    assert s2 == (p + s2)[|p|..];
    DotEndsDigits(d1, e1);
    DotEndsDigits(d2, e2);
    assert s1[..|d1|] == d1;
    assert s2[..|d2|] == d2;
  }

  /** Uploads of one type at different milliseconds never share a URL, so one
      never overwrites the other. */
  lemma DistinctTimesDistinctUrls(k: Kind, t1: nat, n1: string, t2: nat, n2: string)
    requires t1 != t2
    ensures PublicUrl(k, FileName(k, t1, n1)) != PublicUrl(k, FileName(k, t2, n2))
  {
    var d1, d2 := Text.Decimal(t1), Text.Decimal(t2);
    UrlSplits(k, t1, n1);
    UrlSplits(k, t2, n2);
    if PublicUrl(k, FileName(k, t1, n1)) == PublicUrl(k, FileName(k, t2, n2)) {
      DigitsHaveNoDot(t1);
      DigitsHaveNoDot(t2);
      SameHeadBeforeDot(UrlPrefix(k), d1, Extension(n1), d2, Extension(n2));
      Text.DecimalRoundTrip(t1);
      Text.DecimalRoundTrip(t2);
      assert false;
    }
  }

  /** `writeFile` can create `join(uploadDir, fileName)`. Only the extension
      comes from the client. `join` reads each `/` in it as a directory step
      below `<type>_<timestamp>.`, a directory the handler never creates, and
      Node refuses any path holding a NUL character. */
  predicate Writable(ext: string) {
    '/' !in ext && '\0' !in ext
  }

  /** A name such as `a.b/c` passes validation but cannot be written: its
      extension is `b/c`. */
  lemma SlashInExtensionIsUnwritable()
    ensures Extension("a.b/c") == "b/c"
    ensures !Writable(Extension("a.b/c"))
  {
    var ext := Extension("a.b/c");
    assert |ext| <= 5 && "a.b/c"[5 - |ext|..] == ext;
    assert "a.b/c"[5 - |ext| - 1] == '.';
    assert |ext| == 3;
  }

  /** The body of a successful response. */
  datatype Uploaded = Uploaded(url: string, fileName: string, fileSize: nat, fileType: string)

  class UploadDir {
    /** Every file written under the public upload root, by its public URL. */
    var files: map<string, FileInfo>

    constructor ()
      ensures files == map[]
    {
      files := map[];
    }

    /** POST: guard, form, validation chain, then the write, which fails for
      an extension that is not a plain file name. */
    method Post(req: Auth.Request, jwt: Auth.Jwt, form: Option<UploadForm>, now: nat) returns (reply: Reply<Uploaded>)
      modifies this
      ensures Auth.RequireAuth(req, jwt).Rejected? ==> reply == Error(401, UnauthorizedMessage) && files == old(files)
      ensures Auth.RequireAuth(req, jwt).Authenticated? && form.None? ==>
        reply == Error(500, InternalErrorMessage) && files == old(files)
      ensures Auth.RequireAuth(req, jwt).Authenticated? && form.Some? && Validate(form.value).Failed? ==>
        reply == Error(400, Validate(form.value).message) && files == old(files)
      ensures Auth.RequireAuth(req, jwt).Authenticated? && form.Some? && Validate(form.value).Passed? ==>
        var f, k := form.value.file.value, Validate(form.value).kind;
        var url := PublicUrl(k, FileName(k, now, f.name));
        && (!Writable(Extension(f.name)) ==> reply == Error(500, InternalErrorMessage) && files == old(files))
        && (Writable(Extension(f.name)) ==>
              && files == old(files)[url := f]
              && reply == Ok(200, Uploaded(url, FileName(k, now, f.name), f.size, f.mime)))
    {
      if Auth.RequireAuth(req, jwt).Rejected? {
        return Error(401, UnauthorizedMessage);
      }
      if form.None? {
        return Error(500, InternalErrorMessage);
      }
      var check := Validate(form.value);
      if check.Failed? {
        return Error(400, check.message);
      }
      var file, kind := check.file, check.kind;
      var fileName := FileName(kind, now, file.name);
      var url := PublicUrl(kind, fileName);
      if !Writable(Extension(file.name)) {
        // `writeFile` throws, and the handler's catch answers 500
        return Error(500, InternalErrorMessage);
      }
      files := files[url := file];
      reply := Ok(200, Uploaded(url, fileName, file.size, file.mime));
    }
  }

  /** A file of exactly the limit passes the size check, one byte more fails it. */
  lemma SizeLimitIsInclusive(name: string)
    ensures Validate(UploadForm(Some(FileInfo(name, MaxSize, "image/png")), Some("image"))).Passed?
    ensures Validate(UploadForm(Some(FileInfo(name, MaxSize + 1, "image/png")), Some("image"))) == Failed(TooLargeMessage)
  {
  }
}
