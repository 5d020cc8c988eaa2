/** The upload side of server.js: the two multer configurations
    (server.js:192-215, 581-618) and the handlers of `/api/upload-image`
    (server.js:446-578), `/api/upload-document` (server.js:621-784) and
    `/api/regenerate-thumbnail` (server.js:808-897), each as one step over
    the disk and the remote store. Every foreign step (bucket listing, the
    remote uploads, the thumbnail renderers) is an outcome passed in. */
module Uploads {
  import opened Common
  import opened Text
  import opened NodePath
  import opened Storage
  import opened Thumbnails

  /* ---------- multer ---------- */

  /** The two multer instances: `upload` for images, `uploadDocument`. */
  datatype UploadKind = ImageUpload | DocumentUpload

  function Prefix(kind: UploadKind): string {
    match kind
    case ImageUpload => "berita-"
    case DocumentUpload => "doc-"
  }

  function SizeLimit(kind: UploadKind): nat {
    match kind
    case ImageUpload => 5 * 1024 * 1024
    case DocumentUpload => 50 * 1024 * 1024
  }

  const DocumentTypes: seq<string> := [
    "application/pdf",
    "application/msword",
    "application/vnd.openxmlformats-officedocument.wordprocessingml.document",
    "application/vnd.ms-excel",
    "application/vnd.openxmlformats-officedocument.spreadsheetml.sheet",
    "application/vnd.ms-powerpoint",
    "application/vnd.openxmlformats-officedocument.presentationml.presentation",
    "image/jpeg",
    "image/png",
    "image/gif",
    "image/webp"
  ]

  /** The `fileFilter` of each instance: any type starting "image/" for images, the
      eleven listed types for documents. */
  predicate Accepts(kind: UploadKind, mimetype: string) {
    match kind
    case ImageUpload => StartsWith(mimetype, "image/")
    case DocumentUpload => mimetype in DocumentTypes
  }

  function RejectMessage(kind: UploadKind): string {
    match kind
    case ImageUpload => "Only image files are allowed!"
    case DocumentUpload => "File type not allowed. Please upload PDF, Word, Excel, PowerPoint, or image files."
  }

  /** The name `diskStorage` gives the file: prefix, `Date.now()`, '-', the
      rounded random number, then the original name's extension. */
  function StoredName(kind: UploadKind, now: nat, rand: nat, originalname: string): string {
    Prefix(kind) + NatToString(now) + "-" + NatToString(rand) + Extname(originalname)
  }

  /** The stem of a stored name. */
  function StoredStem(kind: UploadKind, now: nat, rand: nat): string {
    Prefix(kind) + NatToString(now) + "-" + NatToString(rand)
  }

  /** The file part of a multipart request, as the client sent it. */
  datatype Part = Part(originalname: string, mimetype: string, size: nat)

  /** `req.file` once multer has stored the part. */
  datatype StoredFile = StoredFile(filename: string, originalname: string, mimetype: string, size: nat)

  /** What multer hands on: no file in the field, the stored file, or the
      error it passes to `next` (the handler then never runs). */
  datatype Reception = NoFile | Received(file: StoredFile) | Rejected(message: string)

  /** multer's processing of the single file field: the filter runs first,
      then the part is written under its generated name; a part over the
      size limit is aborted with "File too large" and its partial file is
      removed again. */
  method Receive(kind: UploadKind, disk: Disk, part: Option<Part>, now: nat, rand: nat)
    returns (rec: Reception, disk': Disk)
    ensures part.None? ==> rec == NoFile && disk' == disk
    ensures part.Some? && !Accepts(kind, part.value.mimetype) ==>
      rec == Rejected(RejectMessage(kind)) && disk' == disk
    ensures part.Some? && Accepts(kind, part.value.mimetype) && part.value.size > SizeLimit(kind) ==>
      rec == Rejected("File too large")
      && disk' == disk.(uploads := disk.uploads - {StoredName(kind, now, rand, part.value.originalname)})
    ensures rec.Received? <==> part.Some? && Accepts(kind, part.value.mimetype) && part.value.size <= SizeLimit(kind)
    ensures rec.Received? ==>
      rec.file == StoredFile(StoredName(kind, now, rand, part.value.originalname), part.value.originalname,
                             part.value.mimetype, part.value.size)
      && disk' == disk.(uploads := disk.uploads + {rec.file.filename})
  {
    disk' := disk;
    if part.None? {
      rec := NoFile;
      return;
    }
    var p := part.value;
    if !Accepts(kind, p.mimetype) {
      rec := Rejected(RejectMessage(kind));
      return;
    }
    var name := StoredName(kind, now, rand, p.originalname);
    var written := disk.uploads + {name};
    if p.size > SizeLimit(kind) {
      assert written - {name} == disk.uploads - {name};
      disk' := disk.(uploads := written - {name});
      rec := Rejected("File too large");
    } else {
      disk' := disk.(uploads := written);
      rec := Received(StoredFile(name, p.originalname, p.mimetype, p.size));
    }
  }

  /** The stored name keeps the original's extension (its generated prefix
      and suffix hold no '.'), has no '/', and `path.parse` gives back the
      generated stem. */
  lemma StoredNameShape(kind: UploadKind, now: nat, rand: nat, originalname: string)
    ensures Basename(StoredName(kind, now, rand, originalname)) == StoredName(kind, now, rand, originalname)
    ensures '/' !in StoredName(kind, now, rand, originalname)
    ensures Extname(StoredName(kind, now, rand, originalname)) == Extname(originalname)
    ensures ParseName(StoredName(kind, now, rand, originalname)) == StoredStem(kind, now, rand)
  {
    var a, b := NatToString(now), NatToString(rand);
    NatToStringDigits(now);
    NatToStringDigits(rand);
    assert '.' !in a && '/' !in a by {
      forall k | 0 <= k < |a| ensures a[k] != '.' && a[k] != '/' { assert IsDigit(a[k]); }
    }
    assert '.' !in b && '/' !in b by {
      forall k | 0 <= k < |b| ensures b[k] != '.' && b[k] != '/' { assert IsDigit(b[k]); }
    }
    var stem := StoredStem(kind, now, rand);
    assert '.' !in stem && '/' !in stem;
    ExtnameShape(originalname);
    StemAndExt(stem, Extname(originalname));
  }

  /* ---------- responses ---------- */

  datatype StorageKind = Supabase | Local

  /** The JSON answer of a handler (`status` is 200 for every success). */
  datatype Response =
    | Failure(status: nat, error: string)
    | ImageStored(message: string, imageUrl: string, filename: string, storage: StorageKind)
    | DocumentStored(message: string, documentUrl: string, file: StoredFile,
                     thumbnailUrl: Option<string>, thumbnailFilename: Option<string>, storage: StorageKind)
    | ThumbnailRegenerated(message: string, url: string, thumbnail: string)

  const ImageBucket := "berita-images"
  const DocumentBucket := "dokumentasi-files"
  const ThumbnailBucket := "dokumentasi-thumbnails"

  /** `${req.protocol}://${req.get('host')}/uploads/<filename>`, `origin`
      being the part before "/uploads". */
  function LocalUrl(origin: string, filename: string): string {
    origin + "/uploads/" + filename
  }

  function LocalThumbnailUrl(origin: string, filename: string): string {
    origin + "/uploads/thumbnails/" + filename
  }

  /** The name thumbnails of `filename` are generated under. */
  function ThumbBase(filename: string): string {
    "thumb-" + ParseName(filename)
  }

  /** A document stored by multer gets its thumbnails under `thumb-`, the
      document prefix and its generated suffix, and its extension decides
      whether one is made. */
  lemma DocumentThumbnailBase(now: nat, rand: nat, originalname: string)
    ensures ThumbBase(StoredName(DocumentUpload, now, rand, originalname))
      == "thumb-" + StoredStem(DocumentUpload, now, rand)
    ensures Lower(Extname(StoredName(DocumentUpload, now, rand, originalname))) == Lower(Extname(originalname))
  {
    StoredNameShape(DocumentUpload, now, rand, originalname);
  }

  /* ---------- /api/upload-image ---------- */

  /** `/api/upload-image`. `listOk` is the outcome of `listBuckets`, `netOk`
      the transport outcome of the upload. Every remote failure falls back
      to the local copy with status 200; only a successful remote upload
      removes the local file. A multer error reaches Express's default
      handler, which answers 500. */
  method UploadImage(backend: Backend, rec: Reception, disk: Disk, store: Store, origin: string,
                     listOk: bool, netOk: bool)
    returns (resp: Response, disk': Disk, store': Store)
    requires rec.Received? ==> rec.file.filename in disk.uploads
    ensures rec.NoFile? ==> resp == Failure(400, "No image file uploaded") && disk' == disk && store' == store
    ensures rec.Rejected? ==> resp == Failure(500, rec.message) && disk' == disk && store' == store
    ensures rec.Received? ==> resp.ImageStored? && resp.filename == rec.file.filename
    ensures resp.ImageStored? ==>
      (resp.storage == Supabase <==>
         (RemoteEnabled(backend) && listOk && RemoteUpload(store, ImageBucket, resp.filename, netOk).0))
    ensures resp.ImageStored? && resp.storage == Supabase ==>
      resp.message == "Image uploaded successfully to cloud storage"
      && resp.imageUrl == PublicUrl(backend.client.value, ImageBucket, resp.filename)
      && ImageBucket in store' && resp.filename in store'[ImageBucket]
      && store' == RemoteUpload(store, ImageBucket, resp.filename, netOk).1
      && disk' == disk.(uploads := disk.uploads - {resp.filename})
    ensures resp.ImageStored? && resp.storage == Local ==>
      resp.message == (if RemoteEnabled(backend) then "Image uploaded to local storage (fallback)"
                       else "Image uploaded to local storage")
      && resp.imageUrl == LocalUrl(origin, resp.filename)
      && resp.filename in disk'.uploads
      && disk' == disk && store' == store
  {
    disk', store' := disk, store;
    match rec
    case NoFile =>
      resp := Failure(400, "No image file uploaded");
    case Rejected(m) =>
      resp := Failure(500, m);
    case Received(file) =>
      var f := file.filename;
      if RemoteEnabled(backend) {
        var fallback := false;
        if !listOk {
          fallback := true;  // "Bucket listing failed"
        } else if ImageBucket !in store {
          fallback := true;  // "berita-images bucket does not exist"
        } else {
          var up := RemoteUpload(store, ImageBucket, f, netOk);
          if !up.0 {
            fallback := true;  // "Supabase upload failed"
          } else {
            store' := up.1;
            disk' := disk'.(uploads := disk'.uploads - {f});
            resp := ImageStored("Image uploaded successfully to cloud storage",
                                PublicUrl(backend.client.value, ImageBucket, f), f, Supabase);
          }
        }
        if fallback {
          resp := ImageStored("Image uploaded to local storage (fallback)", LocalUrl(origin, f), f, Local);
        }
      } else {
        resp := ImageStored("Image uploaded to local storage", LocalUrl(origin, f), f, Local);
      }
  }

  /* ---------- /api/upload-document ---------- */

  /** The thumbnail-directory entries a cleanup of `t` leaves. */
  function Without(files: set<string>, t: Option<string>): set<string> {
    if t.Some? then files - {t.value} else files
  }

  /** What the remote branch of `/api/upload-document` answers and leaves
      behind, for the document upload's and the thumbnail upload's outcomes. */
  predicate RemoteDocumentOutcome(client: Client, file: StoredFile, disk: Disk, store: Store,
                                  o: ThumbOracle, netOk: bool, thumbNetOk: bool,
                                  resp: Response, disk': Disk, store': Store)
  {
    && (!RemoteUpload(store, DocumentBucket, file.filename, netOk).0 ==>
          resp == Failure(500, "Failed to upload document")
          && disk' == disk.(uploads := disk.uploads - {file.filename})
          && store' == store)
    && (RemoteUpload(store, DocumentBucket, file.filename, netOk).0 ==>
          var f := file.filename;
          var t := ThumbnailName(Lower(Extname(f)), ThumbBase(f), o);
          var stored := RemoteUpload(store, DocumentBucket, f, netOk).1;
          resp.DocumentStored? && resp.storage == Supabase
          && resp.message == "Document uploaded successfully to cloud storage"
          && resp.documentUrl == PublicUrl(client, DocumentBucket, f) && resp.file == file
          && resp.thumbnailFilename == t
          && (resp.thumbnailUrl.Some? <==> t.Some? && RemoteUpload(stored, ThumbnailBucket, t.value, thumbNetOk).0)
          && (resp.thumbnailUrl.Some? ==>
                resp.thumbnailUrl.value == PublicUrl(client, ThumbnailBucket, t.value)
                && ThumbnailBucket in store' && t.value in store'[ThumbnailBucket])
          && DocumentBucket in store' && f in store'[DocumentBucket]
          && store' == (if t.Some? then RemoteUpload(stored, ThumbnailBucket, t.value, thumbNetOk).1 else stored)
          && disk' == Disk(disk.uploads - {f}, Without(ThumbnailFiles(disk.thumbnails, Lower(Extname(f)), ThumbBase(f), o), t)))
  }

  /** The remote branch of `/api/upload-document` (server.js:632-732). The
      bucket is never checked. A refused document upload sends control to
      the fallback, which reads `thumbnailUrl`, a `let` of the try block:
      the ReferenceError reaches the outer catch (server.js:774-782), which
      deletes the document and answers 500. After a successful upload,
      thumbnail failures only leave `thumbnailUrl` null; the local document
      and the returned thumbnail are deleted, other generated files stay. */
  method UploadDocumentRemote(client: Client, file: StoredFile, disk: Disk, store: Store,
                              o: ThumbOracle, netOk: bool, thumbNetOk: bool)
    returns (resp: Response, disk': Disk, store': Store)
    requires file.filename in disk.uploads
    ensures RemoteDocumentOutcome(client, file, disk, store, o, netOk, thumbNetOk, resp, disk', store')
  {
    var f := file.filename;
    disk', store' := disk, store;
    var up := RemoteUpload(store, DocumentBucket, f, netOk);
    if !up.0 {
      // the fallback's ReferenceError ends in the outer catch
      if f in disk'.uploads {
        disk' := disk'.(uploads := disk'.uploads - {f});
      }
      resp := Failure(500, "Failed to upload document");
      return;
    }
    store' := up.1;
    assert |DocumentBucket| != |ThumbnailBucket|;
    var documentUrl := PublicUrl(client, DocumentBucket, f);
    var thumbnailUrl: Option<string> := None;
    var thumb;
    thumb, disk' := MakeThumbnail(disk', f, Lower(Extname(f)), ThumbBase(f), o);
    if thumb.Some? {
      var tu := RemoteUpload(store', ThumbnailBucket, thumb.value, thumbNetOk);
      store' := tu.1;
      if tu.0 {
        thumbnailUrl := Some(PublicUrl(client, ThumbnailBucket, thumb.value));
      }
    }
    // a generated thumbnail is always on disk, so the existence test passes
    assert thumb.Some? ==> thumb.value in disk'.thumbnails;
    disk' := disk'.(uploads := disk'.uploads - {f});
    if thumb.Some? && thumb.value in disk'.thumbnails {
      disk' := disk'.(thumbnails := disk'.thumbnails - {thumb.value});
    }
    assert DocumentBucket in store' && f in store'[DocumentBucket];
    resp := DocumentStored("Document uploaded successfully to cloud storage", documentUrl, file,
                           thumbnailUrl, thumb, Supabase);
  }

  /** What the local branch of `/api/upload-document` answers and leaves
      behind. */
  predicate LocalDocumentOutcome(file: StoredFile, disk: Disk, origin: string, o: ThumbOracle,
                                 resp: Response, disk': Disk)
  {
    var f := file.filename;
    var t := ThumbnailName(Lower(Extname(f)), ThumbBase(f), o);
    resp.DocumentStored? && resp.storage == Local && resp.message == "Document uploaded to local storage"
    && resp.documentUrl == LocalUrl(origin, f) && resp.file == file
    && resp.thumbnailFilename == t
    && (resp.thumbnailUrl.Some? <==> t.Some?)
    && (t.Some? ==> resp.thumbnailUrl.value == LocalThumbnailUrl(origin, t.value) && t.value in disk'.thumbnails)
    && disk' == Disk(disk.uploads, ThumbnailFiles(disk.thumbnails, Lower(Extname(f)), ThumbBase(f), o))
  }

  /** The local branch of `/api/upload-document` (server.js:733-771): the
      document and its thumbnail stay on disk and are served from there. */
  method UploadDocumentLocal(file: StoredFile, disk: Disk, origin: string, o: ThumbOracle)
    returns (resp: Response, disk': Disk)
    ensures LocalDocumentOutcome(file, disk, origin, o, resp, disk')
  {
    var f := file.filename;
    var thumbnailUrl: Option<string> := None;
    var thumb;
    thumb, disk' := MakeThumbnail(disk, f, Lower(Extname(f)), ThumbBase(f), o);
    if thumb.Some? {
      thumbnailUrl := Some(LocalThumbnailUrl(origin, thumb.value));
    }
    resp := DocumentStored("Document uploaded to local storage", LocalUrl(origin, f), file,
                           thumbnailUrl, thumb, Local);
  }

  /** `/api/upload-document`: the remote branch when remote storage is
      enabled, the local one otherwise. So a document is never stored
      locally while remote storage is configured. */
  method UploadDocument(backend: Backend, rec: Reception, disk: Disk, store: Store, origin: string,
                        o: ThumbOracle, netOk: bool, thumbNetOk: bool)
    returns (resp: Response, disk': Disk, store': Store)
    requires rec.Received? ==> rec.file.filename in disk.uploads
    ensures rec.NoFile? ==> resp == Failure(400, "No document file uploaded") && disk' == disk && store' == store
    ensures rec.Rejected? ==> resp == Failure(500, rec.message) && disk' == disk && store' == store
    ensures rec.Received? && RemoteEnabled(backend) ==>
      RemoteDocumentOutcome(backend.client.value, rec.file, disk, store, o, netOk, thumbNetOk, resp, disk', store')
    ensures rec.Received? && !RemoteEnabled(backend) ==>
      LocalDocumentOutcome(rec.file, disk, origin, o, resp, disk') && store' == store
    ensures RemoteEnabled(backend) && resp.DocumentStored? ==> resp.storage == Supabase
    ensures !RemoteEnabled(backend) ==> store' == store
    ensures rec.Received? ==> resp.Failure? || (resp.DocumentStored? && resp.file == rec.file)
    ensures rec.Received? && resp.Failure? ==>
      RemoteEnabled(backend) && !RemoteUpload(store, DocumentBucket, rec.file.filename, netOk).0
      && resp.status == 500 && rec.file.filename !in disk'.uploads
    ensures resp.DocumentStored? ==>
      resp.thumbnailFilename == ThumbnailName(Lower(Extname(resp.file.filename)), ThumbBase(resp.file.filename), o)
      && (resp.thumbnailUrl.Some? ==> resp.thumbnailFilename.Some?)
      && (resp.file.filename in disk'.uploads <==> resp.storage == Local)
  {
    disk', store' := disk, store;
    match rec
    case NoFile =>
      resp := Failure(400, "No document file uploaded");
    case Rejected(m) =>
      resp := Failure(500, m);
    case Received(file) =>
      if RemoteEnabled(backend) {
        resp, disk', store' := UploadDocumentRemote(backend.client.value, file, disk, store, o, netOk, thumbNetOk);
      } else {
        resp, disk' := UploadDocumentLocal(file, disk, origin, o);
        assert file.filename in disk.uploads;
      }
  }

  /* ---------- /api/regenerate-thumbnail ---------- */

  const LocalhostUploads := "http://localhost:3001/uploads/"

  /** The file name the handler takes from `documentUrl`: the last
      '/'-segment of a URL that contains "/uploads/" or does not start with
      "http", `None` for any other http URL. */
  function DocumentName(url: string): (r: Option<string>)
    ensures r.Some? ==> r.value == AfterLast(url, '/') && '/' !in r.value
    ensures r.None? <==> StartsWith(url, "http") && !Contains(url, "/uploads/")
  {
    LocalhostUploadsContains(url);
    if StartsWith(url, LocalhostUploads) || Contains(url, "/uploads/") then Some(AfterLast(url, '/'))
    else if StartsWith(url, "http") then None
    else Some(AfterLast(url, '/'))
  }

  lemma LocalhostUploadsContains(url: string)
    ensures StartsWith(url, LocalhostUploads) ==> Contains(url, "/uploads/")
  {
    if StartsWith(url, LocalhostUploads) {
      assert url[21..30] == LocalhostUploads[21..30] == "/uploads/";
      ContainsAt(url, "/uploads/", 21);
    }
  }

  /** Names `fs.existsSync(path.join(uploadsDir, name))` finds besides the
      stored files: the directory itself, its parent and `thumbnails/`. */
  const DirectoryEntries: set<string> := {"", ".", "..", "thumbnails"}

  predicate Exists(disk: Disk, name: string) {
    name in disk.uploads || name in DirectoryEntries
  }

  /** None of those directory names has an extension. */
  lemma DirectoryEntriesHaveNoExtension(name: string)
    requires name in DirectoryEntries
    ensures Extname(name) == ""
  {
    if name == "" {
      assert Basename(name) == "";
    } else if name == "thumbnails" {
      assert '/' !in name && '.' !in name;
      OwnBasename(name);
      NoLastIndex(name, '.');
    } else {
      assert name == "." || name == "..";
      assert '/' !in name;
      OwnBasename(name);
      if name == "." {
        assert LastIndexOf(name, '.') == 0;
      }
    }
  }

  /** So the regeneration handler only renders files that are in `uploads/`. */
  lemma DirectoryEntriesUnsupported(name: string)
    ensures name in DirectoryEntries ==> !Supported(Lower(Extname(name)))
  {
    if name in DirectoryEntries {
      DirectoryEntriesHaveNoExtension(name);
      NoExtensionUnsupported();
    }
  }

  lemma NoExtensionUnsupported()
    ensures !Supported(Lower(""))
  {
    assert Lower("") == "";
    assert |""| != |".doc"| && |""| != |".docx"|;
  }

  const NotAFunction := "documentUrl.startsWith is not a function"

  /** `/api/regenerate-thumbnail`: makes the thumbnail of a file that is in
      `uploads/` again and answers with its local URL. */
  method RegenerateThumbnail(documentUrl: Value, disk: Disk, origin: string, o: ThumbOracle)
    returns (resp: Response, disk': Disk)
    ensures !Truthy(documentUrl) ==> resp == Failure(400, "Document URL is required") && disk' == disk
    ensures Truthy(documentUrl) && !documentUrl.Str? ==>
      resp == Failure(500, "Failed to regenerate thumbnail: " + NotAFunction) && disk' == disk
    ensures Truthy(documentUrl) && documentUrl.Str? && DocumentName(documentUrl.s).None? ==>
      resp == Failure(400, "Cannot regenerate thumbnail for external URLs") && disk' == disk
    ensures Truthy(documentUrl) && documentUrl.Str? && DocumentName(documentUrl.s).Some? ==>
      var name := DocumentName(documentUrl.s).value;
      var ext := Lower(Extname(name));
      var t := ThumbnailName(ext, ThumbBase(name), o);
      (!Exists(disk, name) ==> resp == Failure(404, "Document file not found: " + name) && disk' == disk)
      && (Exists(disk, name) && !Supported(ext) ==>
            resp == Failure(400, "File type not supported for thumbnail generation: " + ext) && disk' == disk)
      && (Exists(disk, name) && Supported(ext) ==>
            disk' == disk.(thumbnails := ThumbnailFiles(disk.thumbnails, ext, ThumbBase(name), o))
            && (t.None? ==> resp == Failure(500, "Failed to generate thumbnail - no URL returned"))
            && (t.Some? ==> resp == ThumbnailRegenerated("Thumbnail regenerated successfully",
                                                          LocalThumbnailUrl(origin, t.value), t.value)))
    ensures resp.ThumbnailRegenerated? ==>
      documentUrl.Str? && DocumentName(documentUrl.s).Some?
      && DocumentName(documentUrl.s).value in disk.uploads
      && resp.thumbnail in disk'.thumbnails
      && disk'.uploads == disk.uploads
  {
    disk' := disk;
    if !Truthy(documentUrl) {
      resp := Failure(400, "Document URL is required");
      return;
    }
    if !documentUrl.Str? {
      // `documentUrl.startsWith(...)` throws a TypeError into the outer catch
      resp := Failure(500, "Failed to regenerate thumbnail: " + NotAFunction);
      return;
    }
    var name := DocumentName(documentUrl.s);
    if name.None? {
      resp := Failure(400, "Cannot regenerate thumbnail for external URLs");
      return;
    }
    var filename := name.value;
    if !Exists(disk, filename) {
      resp := Failure(404, "Document file not found: " + filename);
      return;
    }
    var ext := Lower(Extname(filename));
    var base := ThumbBase(filename);
    if !Supported(ext) {
      resp := Failure(400, "File type not supported for thumbnail generation: " + ext);
      return;
    }
    DirectoryEntriesUnsupported(filename);
    assert filename in disk.uploads;
    var thumb;
    thumb, disk' := MakeThumbnail(disk', filename, ext, base, o);
    if thumb.None? {
      resp := Failure(500, "Failed to generate thumbnail - no URL returned");
    } else {
      resp := ThumbnailRegenerated("Thumbnail regenerated successfully",
                                   LocalThumbnailUrl(origin, thumb.value), thumb.value);
    }
  }

  /** The URL a local upload answers with leads the regeneration handler
      back to the same file. */
  lemma LocalUrlNamesFile(origin: string, filename: string)
    requires '/' !in filename
    ensures DocumentName(LocalUrl(origin, filename)) == Some(filename)
  {
    var url := LocalUrl(origin, filename);
    assert url[|origin|..|origin| + 9] == "/uploads/";
    ContainsAt(url, "/uploads/", |origin|);
    assert url == (origin + "/uploads") + ['/'] + filename;
    AfterLastAppend(origin + "/uploads", '/', filename);
  }

  /** A document uploaded in local mode can be regenerated from the URL the
      upload returned: the handler finds the stored file, and its outcome
      then depends only on the original's extension and the renderers. */
  lemma LocalDocumentRegenerates(disk: Disk, origin: string, now: nat, rand: nat, originalname: string)
    requires StoredName(DocumentUpload, now, rand, originalname) in disk.uploads
    ensures var f := StoredName(DocumentUpload, now, rand, originalname);
      DocumentName(LocalUrl(origin, f)) == Some(f)
      && Exists(disk, f)
      && Lower(Extname(f)) == Lower(Extname(originalname))
  {
    StoredNameShape(DocumentUpload, now, rand, originalname);
    LocalUrlNamesFile(origin, StoredName(DocumentUpload, now, rand, originalname));
  }
}
