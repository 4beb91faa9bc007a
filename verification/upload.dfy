/** `POST /api/upload-documents`: checks the two identity images, stores them
    in the `kyc-documents` bucket, records them, and puts the account under
    review; a failure at any step removes what was already stored. */
module UploadRoute {
  import opened Common
  import opened Text
  import opened Store

  /** An uploaded file: its name, its declared MIME type and its size in
      bytes. */
  datatype FileInput = FileInput(name: string, mimeType: string, size: nat)

  const MissingFieldsError := "Missing required fields"
  const WrongTypeError := "Only JPG and PNG images are allowed"
  const TooLargeError := "Files must be under 5MB"
  const SelfieUploadError := "Failed to upload selfie"
  const DocumentUploadError := "Failed to upload document"
  const RecordError := "Failed to save document info"
  const UploadedMessage := "Documents uploaded successfully. Your KYC is now under review."

  /** 5 MiB, the largest accepted file. */
  const MaxSize := 5 * 1024 * 1024

  predicate IsImageType(t: string) {
    t == "image/jpeg" || t == "image/jpg" || t == "image/png"
  }

  /** `<user>/<kind>-<Date.now()>.<extension>` */
  function BlobPath(userId: string, kind: string, nowMs: nat, fileName: string): string {
    userId + "/" + kind + "-" + Decimal(nowMs) + "." + Extension(fileName)
  }

  function SelfiePath(userId: string, nowMs: nat, f: FileInput): string {
    BlobPath(userId, "selfie", nowMs, f.name)
  }

  function DocumentPath(userId: string, nowMs: nat, f: FileInput): string {
    BlobPath(userId, "document", nowMs, f.name)
  }

  /** The answer of the request checks, before anything is stored. */
  function Validate(userId: Option<string>, selfie: Option<FileInput>, document: Option<FileInput>): (r: Option<Reply<string>>)
    ensures r.None? <==> (
      && Truthy(userId) && selfie.Some? && document.Some?
      && IsImageType(selfie.value.mimeType) && IsImageType(document.value.mimeType)
      && selfie.value.size <= MaxSize && document.value.size <= MaxSize)
    ensures r.Some? ==> r.value.Failure? && r.value.status == 400
  {
    if !Truthy(userId) || selfie.None? || document.None? then Some(Failure(400, MissingFieldsError))
    else if !IsImageType(selfie.value.mimeType) || !IsImageType(document.value.mimeType) then
      Some(Failure(400, WrongTypeError))
    else if selfie.value.size > MaxSize || document.value.size > MaxSize then
      Some(Failure(400, TooLargeError))
    else None
  }

  /** An upload with `upsert: false` fails when the service reports an error
      or the path is already taken. */
  predicate Uploads(blobs: set<string>, path: string, fails: bool) {
    !fails && path !in blobs
  }

  /** The route. `selfieMs` and `documentMs` are the two clock readings, the
      three flags say whether the selfie upload, the document upload and the
      row insert answer with an error. */
  function UploadDocuments(s: Store, userId: Option<string>, selfie: Option<FileInput>, document: Option<FileInput>,
                           selfieMs: nat, documentMs: nat,
                           selfieFails: bool, documentFails: bool, recordFails: bool): (o: Outcome<string>)
    ensures Validate(userId, selfie, document).Some? ==>
      o == Outcome(s, Validate(userId, selfie, document).value, [])
    ensures o.reply.Failure? ==> o.store == s
    ensures Validate(userId, selfie, document).None?
            && !Uploads(s.blobs, SelfiePath(userId.value, selfieMs, selfie.value), selfieFails) ==>
      o.reply == Failure(500, SelfieUploadError)
    ensures Validate(userId, selfie, document).None?
            && Uploads(s.blobs, SelfiePath(userId.value, selfieMs, selfie.value), selfieFails)
            && !Uploads(s.blobs + {SelfiePath(userId.value, selfieMs, selfie.value)},
                        DocumentPath(userId.value, documentMs, document.value), documentFails) ==>
      o.reply == Failure(500, DocumentUploadError)
    ensures Validate(userId, selfie, document).None?
            && Uploads(s.blobs, SelfiePath(userId.value, selfieMs, selfie.value), selfieFails)
            && Uploads(s.blobs + {SelfiePath(userId.value, selfieMs, selfie.value)},
                       DocumentPath(userId.value, documentMs, document.value), documentFails)
            && recordFails ==>
      o.reply == Failure(500, RecordError)
    ensures o.reply.Success? <==> (
      && Validate(userId, selfie, document).None?
      && Uploads(s.blobs, SelfiePath(userId.value, selfieMs, selfie.value), selfieFails)
      && Uploads(s.blobs + {SelfiePath(userId.value, selfieMs, selfie.value)},
                 DocumentPath(userId.value, documentMs, document.value), documentFails)
      && !recordFails)
    ensures o.reply.Success? ==> (
      var row := KycDocRow(userId.value, SelfiePath(userId.value, selfieMs, selfie.value),
                           DocumentPath(userId.value, documentMs, document.value));
      && o.store.blobs == s.blobs + {row.selfiePath, row.documentPath}
      && o.store.kycDocs == s.kycDocs + [row]
      && o.store.users == SetKycStatus(s.users, userId.value, UnderReview)
      && o.store.auth == s.auth && o.store.startups == s.startups
      && o.store.parentTokens == s.parentTokens)
  {
    if Validate(userId, selfie, document).Some? then Outcome(s, Validate(userId, selfie, document).value, [])
    else
      var id := userId.value;
      var selfiePath := SelfiePath(id, selfieMs, selfie.value);
      var documentPath := DocumentPath(id, documentMs, document.value);
      if !Uploads(s.blobs, selfiePath, selfieFails) then
        Outcome(s, Failure(500, SelfieUploadError), [UploadBlob(selfiePath)])
      else if !Uploads(s.blobs + {selfiePath}, documentPath, documentFails) then
        assert s.blobs + {selfiePath} - {selfiePath} == s.blobs;
        Outcome(s, Failure(500, DocumentUploadError),
                [UploadBlob(selfiePath), UploadBlob(documentPath), RemoveBlobs([selfiePath])])
      else
        var calls := [UploadBlob(selfiePath), UploadBlob(documentPath), InsertRow(KycDocuments)];
        if recordFails then
          assert s.blobs + {selfiePath} + {documentPath} - {selfiePath, documentPath} == s.blobs;
          Outcome(s, Failure(500, RecordError), calls + [RemoveBlobs([selfiePath, documentPath])])
        else
          Outcome(s.(blobs := s.blobs + {selfiePath, documentPath},
                     kycDocs := s.kycDocs + [KycDocRow(id, selfiePath, documentPath)],
                     users := SetKycStatus(s.users, id, UnderReview)),
                  Success(UploadedMessage), calls + [UpdateRows(Users)])
  }

  /** The two files of one request never share a path, whatever the clock
      readings and file names: the selfie's starts `<user>/s`, the
      document's `<user>/d`. */
  lemma UploadPathsDistinct(userId: string, selfieMs: nat, documentMs: nat, selfie: FileInput, document: FileInput)
    ensures SelfiePath(userId, selfieMs, selfie) != DocumentPath(userId, documentMs, document)
  {
    var p := SelfiePath(userId, selfieMs, selfie);
    var q := DocumentPath(userId, documentMs, document);
    assert p[|userId| + 1] == 's';
    assert q[|userId| + 1] == 'd';
  }

  /** The size limit is inclusive: a file of exactly 5 MiB passes, one byte
      more is refused. */
  lemma SizeLimitInclusive(userId: string, name: string, t: string)
    requires userId != "" && IsImageType(t)
    ensures Validate(Some(userId), Some(FileInput(name, t, MaxSize)), Some(FileInput(name, t, MaxSize))).None?
    ensures Validate(Some(userId), Some(FileInput(name, t, MaxSize + 1)), Some(FileInput(name, t, MaxSize)))
            == Some(Failure(400, TooLargeError))
  {
  }

  /** Every recorded document row names files that are in the bucket. */
  predicate DocumentsStored(s: Store) {
    forall d :: d in s.kycDocs ==> d.selfiePath in s.blobs && d.documentPath in s.blobs
  }

  /** The upload route keeps the rows and the bucket in step. */
  lemma UploadKeepsDocumentsStored(s: Store, userId: Option<string>, selfie: Option<FileInput>,
                                   document: Option<FileInput>, selfieMs: nat, documentMs: nat,
                                   selfieFails: bool, documentFails: bool, recordFails: bool)
    requires DocumentsStored(s)
    ensures DocumentsStored(UploadDocuments(s, userId, selfie, document, selfieMs, documentMs,
                                            selfieFails, documentFails, recordFails).store)
  {
    var o := UploadDocuments(s, userId, selfie, document, selfieMs, documentMs,
                             selfieFails, documentFails, recordFails);
    if o.reply.Success? {
      var row := KycDocRow(userId.value, SelfiePath(userId.value, selfieMs, selfie.value),
                           DocumentPath(userId.value, documentMs, document.value));
      forall d | d in o.store.kycDocs ensures d.selfiePath in o.store.blobs && d.documentPath in o.store.blobs {
        assert d in s.kycDocs || d == row;
      }
    }
  }

  /** Nothing limits an account to one upload: a second successful upload
      leaves two document rows for the account, each with its own files. */
  lemma SecondUploadAddsRow(s: Store, userId: Option<string>, selfie: Option<FileInput>,
                            document: Option<FileInput>, selfieMs: nat, documentMs: nat,
                            selfieFails: bool, documentFails: bool, recordFails: bool)
    requires UploadDocuments(s, userId, selfie, document, selfieMs, documentMs,
                             selfieFails, documentFails, recordFails).reply.Success?
    ensures |DocumentsOf(UploadDocuments(s, userId, selfie, document, selfieMs, documentMs,
                                         selfieFails, documentFails, recordFails).store.kycDocs, userId.value)|
            == |DocumentsOf(s.kycDocs, userId.value)| + 1
  {
    var row := KycDocRow(userId.value, SelfiePath(userId.value, selfieMs, selfie.value),
                         DocumentPath(userId.value, documentMs, document.value));
    FilterAppend(s.kycDocs, [row], (d: KycDocRow) => d.userId == userId.value);
  }
}
