# Village portal backend: uploads, thumbnails, reset tokens and e-mail decisions

This project models, in Dafny, the parts of the village administration
backend that make decisions which can be stated and proved:

- **The upload and thumbnail pipeline of `server.js`.** This covers:
  - the two multer configurations (generated file name, type filter, size limit);
  - the thumbnail generators for PDF and Office documents;
  - the handlers of `/api/upload-image`, `/api/upload-document` and `/api/regenerate-thumbnail`.

  The server's disk is two sets of file names, one for `uploads/` and one for `uploads/thumbnails/`. The remote object store is a map from bucket to the set of keys it holds. Each handler is a method from the old disk and store to a response and the new disk and store. Every foreign step is an input that says how it ended:
  - the bucket listing;
  - the remote uploads;
  - pdf2pic;
  - sharp;
  - the SVG icon render.
- **The small pure helpers of `server.js`:**
  - `getMimeType`;
  - the ordering of the statistics rows;
  - the complaint counters;
  - the `updateData` record of `PUT /api/pengaduan/:id`;
  - the recipient list from `DESA_EMAIL_RECIPIENTS`;
  - the required-field checks;
  - the start-up choice between remote and local storage.
- **`passwordResetStore.js`.** It is a class whose `Map` field becomes a `map` plus the insertion order of its keys. Every method that reads the clock takes `now` as a parameter.
- **The decisions of `emailTemplates.js` and `emailConfig.js`:**
  - urgency level, colour and icon;
  - the contact block, the attachment line and the subject;
  - WhatsApp number normalisation and the link built from it;
  - the password-reset link;
  - the input guards and mail options of the multi-recipient sender;
  - the reporter skip rule;
  - the status colour table.

JavaScript values are the datatype `Common.Value`. It has undefined, null, booleans, integers and strings, together with JavaScript truthiness and template-literal conversion. A thrown exception is the `Thrown` case of `Common.Result`.

The modules are:

- `Common` (values);
- `Text` (the string built-ins the code calls);
- `NodePath` (Node's POSIX `path.extname` and `path.parse().name`);
- `Storage`;
- `Thumbnails`;
- `Uploads`;
- `ServerHelpers`;
- `PasswordReset`;
- `EmailTemplates`;
- `EmailConfig`.

The model follows the code as written, including these behaviours:

- **A document whose remote upload fails is not kept locally.** The fallback block reads `thumbnailUrl`, but that name was declared with `let` inside the `try`. The resulting ReferenceError reaches the outer catch, which deletes the file and answers 500. So a document is never stored locally while remote storage is configured.
- **The document path never checks that its bucket exists.**
- **The PDF generator never throws.** When both renders of the generic icon fail, it returns null. It does not fail the request.
- **Temporary thumbnails can stay on disk.**
  - After a successful rasterisation, the generic `<name>.png` stays in `uploads/thumbnails/`.
  - When the resize fails, the page image pdf2pic wrote stays as well.
- **Regeneration from a remote URL answers 400, not 404.** A remote URL such as a public object-store URL is an `http` URL without `/uploads/`.
- **Multer rejections answer 500.** There is no error middleware, so a wrong type or an oversized file reaches Express's default handler.

## Model

| member | source | states |
|---|---|---|
| Text.NatToStringDigits | server.js:197 | The decimal rendering of `Date.now()` and of the rounded random number consists of digits only, so it holds neither '.' nor '/'. |
| Text.AfterLast | server.js:2151 | `s.split(c).pop()` never contains `c`. `Text.AfterLastShape` states it is the tail of `s` after the last `c`, and the whole of `s` when there is none. |
| Text.AfterLastAppend | server.js:824 | The last '/'-segment of `prefix + "/" + tail` is `tail` when `tail` has no '/'. |
| Text.SplitPieceFree | server.js:1513 | No piece of `s.split(',')` contains ','. |
| Text.SplitCount | server.js:1513 | `s.split(c)` has exactly one more piece than `s` has occurrences of `c`. |
| Text.JoinSplit | server.js:1513 | Joining the pieces of `s.split(c)` with `c` gives back `s`. |
| Text.JoinContains | emailConfig.js:158 | Every piece of `parts.join(sep)` occurs in the joined string. |
| Text.TrimStart | server.js:1513 | The result is a suffix of the input, everything removed is JavaScript white space, and the result does not start with white space. |
| Text.TrimEnd | server.js:1513 | The result is a prefix of the input, everything removed is JavaScript white space, and the result does not end with white space. |
| Text.TrimIsSlice | server.js:1513 | `trim()` returns a contiguous slice of its input. Everything before and after the slice is white space, and the slice neither starts nor ends with white space. |
| NodePath.Basename | server.js:628 | The last path segment that `path.extname` scans never contains '/'. |
| NodePath.SegmentExt | server.js:628 | The extension of a segment is a tail of that segment. |
| NodePath.ExtnameShape | server.js:627-629 | `path.extname` is empty or a '.' followed by no further '.' or '/'. `path.parse(p).name + path.extname(p)` is the last segment of `p`. |
| NodePath.StemAndExt | server.js:196-199 | A stem without '.' or '/' followed by an extension-shaped tail has that tail as its extension, the stem as its parsed name, and is its own basename. |
| Storage.InitBackend | server.js:236-257 | Remote storage is enabled exactly when both variables are non-empty and client creation succeeds. The status is `not_configured` exactly when a variable is missing and `error` exactly when creation threw. A client exists only in the configured state and carries the two values. |
| Storage.RemoteUpload | server.js:485-496 | A non-overwriting upload succeeds exactly when the transport works, the bucket exists and the key is new. On success the key is in the bucket, other buckets are unchanged and no bucket appears or disappears. A refusal changes nothing. |
| Thumbnails.PdfThumbnailName | server.js:32-93 | The PDF generator returns `<name>-optimized.png` exactly when the first icon render, the rasterisation and the resize all succeed. It returns null only when both generic icon renders fail, and `<name>.png` otherwise. |
| Thumbnails.PdfThumbnailFiles | server.js:37-73 | Any returned file is on disk, and so is the generic icon. Only pdf2pic's page image is ever removed, and only the icon, the page and the resized page are ever added. The page image stays behind when the resize fails. |
| Thumbnails.GenericPdfThumbnail | server.js:96-135 | A successful render adds `<name>.png` and returns it. A failed render (the rethrown error) changes nothing. |
| Thumbnails.PdfThumbnail | server.js:32-93 | The generator's result and thumbnail directory are those of `PdfThumbnailName` and `PdfThumbnailFiles` for the same outcomes. |
| Thumbnails.OfficeIcon | server.js:145-165 | .doc/.docx are blue "DOC", .xls/.xlsx green "XLS" and .ppt/.pptx orange "PPT". Any other extension is the default blue "DOC". Each colour is tied to its case in both directions. |
| Thumbnails.OfficeThumbnail | server.js:138-189 | The icon follows the lower-cased extension of the path. A successful render adds and returns `<name>.png`. A failed render returns null and changes nothing, and the generator never throws. |
| Thumbnails.ThumbnailName | server.js:665-671 | Only ".pdf" and the six Office extensions can yield a thumbnail, always `<name>.png` or, for a PDF, `<name>-optimized.png`. Office files get one exactly when the render succeeds, and PDFs fail only when both icon renders fail. |
| Thumbnails.ThumbnailFiles | server.js:665-671 | A returned thumbnail is on disk, nothing but pdf2pic's page image is removed, and an unsupported extension leaves the directory unchanged. |
| Thumbnails.MakeThumbnail | server.js:665-671 | The extension dispatch produces exactly the name and thumbnail directory of `ThumbnailName` and `ThumbnailFiles`. |
| Uploads.Receive | server.js:192-215 | No file leaves the disk unchanged, and a filtered-out type is rejected with the instance's message before anything is written. An accepted part over the size limit is rejected with "File too large" and its partial file removed. Otherwise the part is stored under its generated name, and only that name is added. The same rules hold for the document instance at server.js:581-618. |
| Uploads.StoredNameShape | server.js:196-199 | The generated name has no '/', is its own basename, keeps the original's extension, and parses back to the generated stem. |
| Uploads.DocumentThumbnailBase | server.js:627-629 | A stored document's thumbnails are named `thumb-doc-<now>-<random>`, and its lower-cased extension is that of the original name. |
| Uploads.UploadImage | server.js:446-578 | No file gives 400 and a multer error gives 500. A received image always gives 200 with its filename. Storage is "supabase" exactly when remote storage is enabled, the listing works and the upload succeeds; then the URL is the public URL, the key is in the bucket and the local file is deleted. Otherwise storage is local, the fallback or local-only message is used, and the URL is `/uploads/<filename>`. In that case the local file stays and the store is unchanged. |
| Uploads.UploadDocumentRemote | server.js:632-733 | A refused document upload ends in 500 with the local file deleted and the store unchanged (outer catch at server.js:774-782). After a successful upload the response carries the document URL and the thumbnail name. The thumbnail URL is set exactly when a thumbnail was made and its upload succeeded. The local document and the returned thumbnail are deleted. |
| Uploads.UploadDocumentLocal | server.js:734-772 | The local branch answers with `/uploads/<filename>`. A thumbnail URL under `/uploads/thumbnails/` is given exactly when a thumbnail was made, and that thumbnail is on disk. The uploads directory is unchanged. |
| Uploads.UploadDocument | server.js:621-784 | No file gives 400 and a multer error gives 500, with nothing changed. For a received file, the endpoint's response, disk and store are exactly those of the remote branch (`Uploads.UploadDocumentRemote`) when remote storage is enabled, and of the local branch (`Uploads.UploadDocumentLocal`) otherwise, with the store unchanged. So a document stays in `uploads/` exactly when it is stored locally, and every failure of a received file is the 500 of a refused remote upload, with the file deleted. |
| Uploads.DocumentName | server.js:821-834 | The file name is the last '/'-segment of the URL and holds no '/'. None, the "external URL" case, is returned exactly for a URL that starts with "http" and does not contain "/uploads/". |
| Uploads.LocalhostUploadsContains | server.js:821 | Every URL starting with the localhost uploads prefix also contains "/uploads/", so the first test of the condition adds nothing. |
| Uploads.DirectoryEntriesHaveNoExtension | server.js:845 | The names `existsSync` finds besides stored files ("", ".", "..", "thumbnails") have no extension. |
| Uploads.DirectoryEntriesUnsupported | server.js:840-867 | None of those directory names has a supported extension. So the regeneration handler answers them with the unsupported-type 400, and it renders thumbnails only for stored files. |
| Uploads.RegenerateThumbnail | server.js:808-897 | The error cases, in order: a missing URL gives 400; a non-string URL gives 500 (no `startsWith`); an external http URL gives 400; a missing file gives 404; an unsupported extension gives 400; a null thumbnail gives 500. A success answers `/uploads/thumbnails/<thumbnail>` for a file in `uploads/`, with the thumbnail on disk and `uploads/` unchanged. |
| Uploads.LocalUrlNamesFile | server.js:821-824 | The local URL of a file name without '/' leads the regeneration handler back to exactly that file name. |
| Uploads.LocalDocumentRegenerates | server.js:760 | The URL a local document upload returns leads regeneration to the stored file, which exists and has the original's extension. |
| ServerHelpers.MimeType | server.js:2148-2162 | A falsy name gives octet-stream and a truthy non-string throws. Every result is octet-stream or a table entry, and a name without '.' is looked up whole, lower-cased. |
| ServerHelpers.MimeTypeByExtension | server.js:2151-2162 | A name of the form `<anything>.<ext>`, with no '.' in `ext`, gets the type of the lower-cased `ext`, whatever comes before it. |
| ServerHelpers.RankRange | server.js:914-928 | A label ranks 1 to 9 exactly when it is one of the nine listed labels, and 999 exactly when it is not. |
| ServerHelpers.Insert | server.js:926-930 | Inserting a row adds exactly that row to the multiset of rows. |
| ServerHelpers.InsertSorted | server.js:926-930 | Inserting into rows sorted by rank keeps them sorted. |
| ServerHelpers.InsertOfRank | server.js:926-930 | Insertion places the row ahead of the rows of its own rank and leaves the other ranks' rows as they were. The sort inserts each head into the already-sorted tail, so rows of each rank keep their input order. |
| ServerHelpers.SortStatistikCorrect | server.js:913-933 | The sorted rows are a permutation of the input and non-decreasing by rank, and rows of equal rank keep their input order (a stable sort). |
| ServerHelpers.SortStatistikPermutes | server.js:926 | Sorting the copy `[...data]` keeps exactly the rows of the input, each as often. |
| ServerHelpers.SortStatistikSorted | server.js:926-930 | The sorted rows are non-decreasing by rank. |
| ServerHelpers.SortStatistikStable | server.js:926-930 | For every rank, the rows of that rank appear in the same order as in the input. |
| ServerHelpers.StatistikResponse | server.js:933 | Missing data (a null `data`, replaced by `[]`) gives an empty list. Otherwise the response is a permutation of the rows, ordered by rank, with rows of equal rank in input order. |
| ServerHelpers.CountTruthy | server.js:1746 | The attachment count is at most the number of rows. |
| ServerHelpers.TruthyFalsyPartition | server.js:1746-1747 | Every row is counted with or without an attachment, never both. |
| ServerHelpers.TwoValuesBounded | server.js:1741-1742 | Rows counted as "pengaduan" and as "aspirasi" are disjoint. |
| ServerHelpers.ThreeValuesBounded | server.js:1743-1745 | The "pending", "proses" and "selesai" counts are disjoint. |
| ServerHelpers.ComputeStats | server.js:1739-1748 | The total is the row count, the two attachment counters add up to the total, and neither the classification counters nor the status counters exceed it. |
| ServerHelpers.UpdateData | server.js:1554-1557 | The record has `status` exactly when it is truthy and `catatan_admin` exactly when it is not undefined (null is sent on). It has the handling date exactly when the status is "selesai", and no other key. |
| ServerHelpers.TrimmedPieceClean | server.js:1513 | A trimmed piece without ',' neither contains ',' nor starts or ends with white space. |
| ServerHelpers.DesaRecipientsShape | server.js:1512-1514 | An unset or empty variable gives the default address. Otherwise there is one address per comma-separated piece, each trimmed and free of ','. |
| ServerHelpers.AllTruthy | server.js:1142 | The chain `!!a && !!b && ...` holds exactly when every named field is truthy. |
| ServerHelpers.Validate | server.js:1381-1383 | A request is refused exactly when some required field is falsy, and then with the endpoint's own message. The same check appears at server.js:1142, 1937 and 2035. |
| PasswordReset.AsObject | passwordResetStore.js:22-26 | The stored object has the admin data's fields with `expiryTime` and `createdAt` added, overriding fields of the same name, and no other key. |
| PasswordReset.ExpiryBoundary | passwordResetStore.js:20-43 | A token stored at time t expires at t + 900000. It is still valid at that instant and expired one millisecond later. |
| PasswordReset.Live | passwordResetStore.js:57-64 | The entries that survive at `now` are exactly those that have not expired, with their data unchanged. |
| PasswordReset.WithoutKeeps | passwordResetStore.js:52-54 | Deleting a key from the insertion order removes exactly that key and keeps the keys distinct. |
| PasswordReset.KeepLiveKeeps | passwordResetStore.js:57-64 | The order after cleanup holds exactly the keys that are not expired entries, and stays duplicate-free. |
| PasswordReset.CleanupStep | passwordResetStore.js:59-62 | The visited key is still in the order. Deleting it when it has expired, and keeping it otherwise, extends the cleaned prefix of the key order by one key. |
| PasswordReset.WalkStep | passwordResetStore.js:59-62 | The visited entry still holds its original data. Deleting it from the map and the order when it has expired, and leaving both alone otherwise, keeps the walk invariant: visited expired entries are gone and nothing else has changed. |
| PasswordReset.WalkDone | passwordResetStore.js:57-64 | A finished walk leaves exactly the live entries, in their original order. |
| PasswordReset.PasswordResetStore.constructor | passwordResetStore.js:5-8 | A new store is empty, and its expiry is 15 minutes. |
| PasswordReset.PasswordResetStore.StoreResetToken | passwordResetStore.js:19-32 | The entry is stamped with `now + 900000` and `now` and set under the token. A new key goes last and an existing key keeps its place. Then every expired entry is dropped. The new entry survives, no expired entry remains, and the token is returned. |
| PasswordReset.PasswordResetStore.GetResetToken | passwordResetStore.js:35-49 | An unknown token gives null and changes nothing. An expired token gives null and deletes that key only. A token that has not expired, including at its exact expiry time, returns the stored object and changes nothing. |
| PasswordReset.PasswordResetStore.RemoveResetToken | passwordResetStore.js:52-54 | Exactly that key is deleted from the map and from the order. |
| PasswordReset.PasswordResetStore.CleanupExpiredTokens | passwordResetStore.js:57-64 | The loop deletes exactly the expired entries and keeps the rest, with their data and relative order. |
| PasswordReset.PasswordResetStore.Visit | passwordResetStore.js:59-62 | One iteration of the cleanup loop keeps the walk invariant for one more visited key. So the visited entry is deleted exactly when it has expired. |
| PasswordReset.PasswordResetStore.GetActiveTokens | passwordResetStore.js:67-76 | It cleans up first. It then lists every remaining entry once, in insertion order, with the username and times of its data, and under one `now` none is marked expired. |
| PasswordReset.PasswordResetStore.ClearAllTokens | passwordResetStore.js:79-81 | The store is empty afterwards. |
| PasswordReset.TokenStoreScenario | test-token-store.js:19-51 | Store then read at the same `now` returns the stamped data with the username and e-mail given. One token is listed. After removal, the read gives null and no token is listed. |
| EmailTemplates.UrgencyLevel | emailTemplates.js:545-554 | HIGH exactly for the two urgent categories, whatever the classification. Otherwise MEDIUM exactly for "pengaduan" and LOW for everything else. |
| EmailTemplates.UrgencyColor | emailTemplates.js:556-563 | Red, amber and green exactly for HIGH, MEDIUM and LOW, and grey exactly for any other level. |
| EmailTemplates.UrgencyIcon | emailTemplates.js:565-572 | Siren, warning sign and information sign exactly for HIGH, MEDIUM and LOW, and the clipboard exactly for any other level. |
| EmailTemplates.OrNotFilled | emailTemplates.js:64-65 | A truthy value is shown as written, and a falsy one as "Tidak diisi". The shown text is never empty. |
| EmailTemplates.ContactInfoShape | emailTemplates.js:62-65 | The block always ends with the WhatsApp text. It starts with "Nama: " exactly when the reporter is not "Anonim", and then it contains the name and the e-mail. An anonymous block is the WhatsApp line alone. |
| EmailTemplates.NamedContact | emailTemplates.js:65 | The named block starts with "Nama: ", contains the name and the e-mail, and ends with the WhatsApp text. |
| EmailTemplates.AttachmentInfo | emailTemplates.js:67-69 | The attachment line is non-empty exactly when `lampiran_info` is truthy, and then contains it. |
| EmailTemplates.Status | emailTemplates.js:43 | The "pending" default applies only when `status` is undefined; null or "" are kept. The result is never undefined. |
| EmailTemplates.SubjectShowsTitle | emailTemplates.js:75 | The subject starts with the urgency icon and ends with the title, so it always contains the title. |
| EmailTemplates.KeepDialable | emailTemplates.js:321 | The cleaned number is no longer than the input and holds only digits and '+'. |
| EmailTemplates.KeepDialableKeeps | emailTemplates.js:321 | Exactly the digits and plus signs of the input survive, and an input of only such characters is unchanged. |
| EmailTemplates.NormalizeWhatsAppShape | emailTemplates.js:321 | The normalised number holds only digits and '+' and never starts with '0'. A cleaned number starting with "0" becomes "+62…", any other is unchanged, and normalising twice changes nothing. |
| EmailTemplates.WhatsAppLink | emailTemplates.js:321 | The link exists exactly for a reporter that is not "Anonim" with a truthy WhatsApp value, and starts with `https://wa.me/<normalised number>?text=Halo `. A truthy non-string value throws. |
| EmailTemplates.NotificationTemplate | emailTemplates.js:7-75 | Null data throws first, then a title that is present but not a string. The template succeeds exactly when neither happens, the classification is a string and the WhatsApp link does not throw. On success the subject starts with the urgency icon and contains the title. The urgency level and colour follow the category and classification. The contact block, the attachment line, the link and the status are those of ContactInfo, AttachmentInfo, WhatsAppLink and Status, whose shapes NotificationShows states of the template. |
| EmailTemplates.NotificationShows | emailTemplates.js:62-69 | On success, the contact block ends with the WhatsApp number or "Tidak diisi". An anonymous reporter's block is that line alone, and a named reporter's block shows the name and the e-mail. The attachment line holds a truthy `lampiran_info`. The link starts with `https://wa.me/`, the normalised number and `?text=Halo `. |
| EmailTemplates.ResetLinkCarriesToken | emailTemplates.js:588 | The link is `FRONTEND_URL` (or the public site when unset or empty), then the reset path, then the token verbatim at the end. |
| EmailConfig.Deliver | emailConfig.js:172-199 | A mail is sent exactly when the transporter is created and `sendMail` succeeds, and then carries the message id. Every other outcome is a returned failure, not a throw. |
| EmailConfig.SendToMultiple | emailConfig.js:137-200 | Missing, non-array or empty recipients give "Invalid recipient emails". Only then does missing data or a falsy title give "Invalid pengaduan data". A mail is sent exactly when both guards pass and the transporter, the template and the delivery succeed. The mail goes to the recipients joined with ", ", from `EMAIL_USER` or the default sender, with the template's subject, which contains the title. Nothing throws. |
| EmailConfig.RecipientsJoined | emailConfig.js:158 | Every recipient, as `join` writes it (null and undefined as "", everything else as a template literal would), appears in the `to` field of the mail. |
| EmailConfig.SendToReporter | emailConfig.js:226-335 | An anonymous reporter or one without a truthy e-mail is skipped with "anonymous_or_no_email". Null data fails inside the `try`. Otherwise a mail is sent exactly when transport and delivery succeed, to the reporter's e-mail and with the update subject. |
| EmailConfig.StatusColor | emailConfig.js:338-345 | Amber, blue and green exactly for "pending", "proses" and "selesai", and grey for any other value (another string, another case, a non-string). |

## Left out

- Image bytes are not modelled: pdf2pic rasterisation, sharp resizing and encoding, and the SVG markup. Only whether each step succeeded is an input, together with the file names the steps write.
- Thumbnails.PdfThumbnail: the page image pdf2pic saves is taken to be `<name>.1.png`, pdf2pic's own naming, which is not part of this model.
- The remote object store's client calls are inputs (listing outcome, transport outcome), and the store's own behaviour is reduced to non-overwriting key sets. Table CRUD endpoints are not modelled.
- The clock and randomness are parameters: `Date.now()`, `Math.random()` and `generateResetToken`. Uniqueness of generated names is not provable and is not claimed.
- PasswordReset.PasswordResetStore: each call takes a single `now`, where the source reads the clock several times within one call.
- PasswordReset.PasswordResetStore.GetActiveTokens: `createdAt` and `expiresAt` are the raw millisecond values, not their ISO-8601 strings.
- Uploads.UploadImage: the outer catch (500 with the local file removed) is not modelled, because nothing in its `try` outside the inner `try` throws for a stored file.
- Uploads.RegenerateThumbnail: the `thumbnailError` 500 branch is not modelled, because both generators catch their own errors and never throw.
- Uploads.Receive: multer's other errors (unexpected field, several files) and the HTML body Express's default handler sends are not modelled; the rejection is its status and message.
- `/api/upload-thumbnail` (server.js:786-805) only echoes the stored name; it is not modelled.
- Express, multer and CORS wiring, static serving, the health, debug and setup endpoints, and concurrency between requests are not modelled. One request is handled at a time.
- Common.Value: numbers are integers, with no NaN, fractions or floating-point formatting; `avg_size` and `max_size` are not modelled.
- Text.Lower and Text.Upper: only ASCII letters change case, unlike JavaScript's full Unicode case mapping.
- ServerHelpers.Rank and ServerHelpers.MimeLookup: keys inherited from `Object.prototype` (such as "constructor") are treated as absent, while JavaScript would find a function there.
- EmailTemplates.NotificationTemplate and EmailConfig.SendToReporter: `pengaduanData` is an object or null/undefined (`None`). Other primitives are not modelled.
- The HTML and text bodies of the e-mails, `formatDate`'s locale formatting and the capability probing of `createTransporter` are not modelled. Transporter creation and `sendMail` are outcome inputs.
- `createStatusUpdateTemplate`, `sendStatusUpdateNotification`, the single-recipient `sendPengaduanNotification` and the password-reset sender are not modelled: they hold no decision beyond the ones modelled here.
- The `localStorage` fallbacks of the pengaduan endpoints (server.js:1646, 1695, 1753, 1828) are not modelled: Node has no `localStorage`, so they end in a ReferenceError. The database branch of `POST /api/pengaduan` is not modelled either: it logs `lampiran_type` before its `const` declaration, which throws a ReferenceError before any insert.
- The test scripts other than the token-store test are network or HTTP clients and are not modelled.
