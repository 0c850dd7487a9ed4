/** p-1/backend/controllers/file.controller.js: upload, list, read, read the
    data of, and delete a file, each for the signed-in user. Reading the
    spreadsheet is not modelled: what the xlsx reader returned for the first
    sheet is an input. Removing the stored bytes from disk is not modelled. */
module FileController {
  import opened Wrappers
  import opened JsValues
  import opened Sorting
  import opened ObjectKeys
  import opened ParseExcel
  import opened Models
  import opened RecordStore

  /** `req.file` as the upload middleware sets it. */
  datatype Upload = Upload(originalName: string, path: string, size: int, mimeType: string)

  /** `rows > 0 ? Object.keys(data[0]) : []` */
  function UploadHeaders(data: seq<Row>): seq<string> {
    if |data| > 0 then RowKeys(data[0]) else []
  }

  /** `rows > 0 ? Object.keys(data[0]).length : 0` */
  function UploadColumns(data: seq<Row>): nat {
    if |data| > 0 then |RowKeys(data[0])| else 0
  }

  /** The shape the upload handler derives inline is the one parseExcelFile
      derives: the column count is the header count, which is the number of
      cells in the first row. */
  lemma UploadShapeAgrees(data: seq<Row>)
    ensures UploadColumns(data) == |UploadHeaders(data)|
    ensures ParseExcelFile(Ok(data)) == Ok(ParsedTable(UploadHeaders(data), data, |data|, UploadColumns(data)))
    ensures |data| > 0 ==> UploadColumns(data) == |data[0].fields|
  {
    if |data| > 0 {
      ObjectKeyOrderSpec(Names(data[0].fields));
      assert |RowKeys(data[0])| == |multiset(RowKeys(data[0]))|;
      assert |Names(data[0].fields)| == |multiset(Names(data[0].fields))|;
    }
  }

  /** The document File.create receives for an upload. */
  function UploadInput(upload: Upload, data: seq<Row>, requester: Id): FileInput {
    FileInput(Some(upload.originalName), Some(upload.originalName), Some(upload.path), Some(upload.size),
      Some(upload.mimeType), Some(|data|), Some(UploadColumns(data)), Some(Table(UploadHeaders(data), data)),
      Some(requester))
  }

  /** uploadFile. `sheet` is what reading the uploaded file produced. */
  method UploadFile(db: Store, requester: Id, upload: Option<Upload>, sheet: Result<seq<Row>, string>, now: int)
    returns (reply: Reply<FileRecord>)
    requires db.Valid() && requester in UserIds(db.users)
    modifies db`files, db`nextId
    ensures db.Valid()
    ensures upload.None? ==> reply == Refused(400, "Please upload a file")
    ensures upload.Some? && sheet.Err? ==> reply == Passed(sheet.error)
    ensures reply.Done? <==> upload.Some? && sheet.Ok? && FileInputValid(UploadInput(upload.value, sheet.value, requester))
    ensures reply.Done? ==> reply.status == 201 && db.files == old(db.files) + [reply.value]
    ensures reply.Done? ==> (
      && reply.value.uploadedBy == requester
      && reply.value.rows == |sheet.value|
      && reply.value.columns == |UploadHeaders(sheet.value)|
      && reply.value.data == Table(UploadHeaders(sheet.value), sheet.value)
      && reply.value.name == Trim(upload.value.originalName)
      && reply.value.uploadedAt == now)
    ensures reply.Done? ==> FindBy(db.files, FileId, reply.value.id) == Some(reply.value)
    ensures !reply.Done? ==> db.files == old(db.files)
  {
    if upload.None? {
      return Refused(400, "Please upload a file");
    }
    if sheet.Err? {
      return Passed(sheet.error);
    }
    var input := UploadInput(upload.value, sheet.value, requester);
    UploadShapeAgrees(sheet.value);
    var created := NewFile(input, db.nextId, now);
    if created.Err? {
      return Passed(created.error);
    }
    db.AppendFile(created.value);
    reply := Done(201, created.value);
  }

  /** `sort({ uploadedAt: -1 })`: newer first. */
  function NewerUpload(a: FileRecord, b: FileRecord): bool {
    a.uploadedAt >= b.uploadedAt
  }

  /** getFiles: the requester's files, newest upload first. */
  function GetFiles(files: seq<FileRecord>, requester: Id): seq<FileRecord> {
    SortBy(Only(files, FileOwner, requester), NewerUpload)
  }

  lemma GetFilesSpec(files: seq<FileRecord>, requester: Id)
    ensures forall f :: f in GetFiles(files, requester) <==> f in files && f.uploadedBy == requester
    ensures multiset(GetFiles(files, requester)) == multiset(Only(files, FileOwner, requester))
    ensures forall i, j :: 0 <= i < j < |GetFiles(files, requester)| ==>
      GetFiles(files, requester)[i].uploadedAt >= GetFiles(files, requester)[j].uploadedAt
  {
    ListingSpec(files, FileOwner, requester, NewerUpload);
  }

  const FileNotFound: string := "File not found"

  /** getFile: 404 without the file, an exception when the uploader cannot be
      populated (reading `_id` of null), 401 for another user's file. */
  function GetFile(files: seq<FileRecord>, users: seq<User>, requester: Id, id: Id): (r: Reply<FileRecord>)
    ensures r.Done? ==> r.status == 200 && r.value in files && r.value.id == id && r.value.uploadedBy == requester
    ensures r.Refused? && r.status == 404 <==> FindBy(files, FileId, id).None?
    ensures r == Refused(404, FileNotFound) <==> FindBy(files, FileId, id).None?
    ensures r == Refused(401, "Not authorized to access this file") <==>
      FindBy(files, FileId, id).Some? && FindBy(files, FileId, id).value.uploadedBy in UserIds(users)
      && FindBy(files, FileId, id).value.uploadedBy != requester
    ensures (forall f :: f in files ==> f.uploadedBy in UserIds(users)) ==> !r.Passed?
    ensures (FindBy(files, FileId, id).Some? && FindBy(files, FileId, id).value.uploadedBy == requester
      && requester in UserIds(users)) ==> r == Done(200, FindBy(files, FileId, id).value)
  {
    match FindBy(files, FileId, id)
    case None => Refused(404, FileNotFound)
    case Some(f) =>
      if f.uploadedBy !in UserIds(users) then Passed("TypeError: uploadedBy is null")
      else if f.uploadedBy != requester then Refused(401, "Not authorized to access this file")
      else Done(200, f)
  }

  /** getFileData: the same checks without populating, then the file's data. */
  function GetFileData(files: seq<FileRecord>, requester: Id, id: Id): (r: Reply<FileData>)
    ensures !r.Passed?
    ensures r.Refused? && r.status == 404 <==> FindBy(files, FileId, id).None?
    ensures r.Done? <==> FindBy(files, FileId, id).Some? && FindBy(files, FileId, id).value.uploadedBy == requester
    ensures r == Refused(404, FileNotFound) <==> FindBy(files, FileId, id).None?
    ensures r == Refused(401, "Not authorized to access this file") <==>
      FindBy(files, FileId, id).Some? && FindBy(files, FileId, id).value.uploadedBy != requester
    ensures r.Done? ==> r.status == 200 && r.value == FindBy(files, FileId, id).value.data
  {
    match FindBy(files, FileId, id)
    case None => Refused(404, FileNotFound)
    case Some(f) =>
      if f.uploadedBy != requester then Refused(401, "Not authorized to access this file")
      else Done(200, f.data)
  }

  /** deleteFile: 404 and 401 checks first; on success the file record is
      gone and nothing else changes, the charts drawn from it included. */
  method DeleteFile(db: Store, requester: Id, id: Id) returns (reply: Reply<()>)
    requires db.Valid()
    modifies db`files
    ensures db.Valid()
    ensures reply.Refused? && reply.status == 404 <==> FindBy(old(db.files), FileId, id).None?
    ensures reply.Done? <==> FindBy(old(db.files), FileId, id).Some? && FindBy(old(db.files), FileId, id).value.uploadedBy == requester
    ensures reply == Refused(404, FileNotFound) <==> FindBy(old(db.files), FileId, id).None?
    ensures reply == Refused(401, "Not authorized to delete this file") <==>
      FindBy(old(db.files), FileId, id).Some? && FindBy(old(db.files), FileId, id).value.uploadedBy != requester
    ensures !reply.Passed?
    ensures reply.Done? ==> reply.status == 200 && db.files == Without(old(db.files), FileId, id)
    ensures reply.Done? ==> forall f :: f in db.files <==> f in old(db.files) && f.id != id
    ensures !reply.Done? ==> db.files == old(db.files)
  {
    var file := FindBy(db.files, FileId, id);
    if file.None? {
      return Refused(404, FileNotFound);
    }
    if file.value.uploadedBy != requester {
      return Refused(401, "Not authorized to delete this file");
    }
    WithoutMembers(db.files, FileId, id);
    WithoutDistinct(db.files, FileId, FileId, id);
    db.files := Without(db.files, FileId, id);
    reply := Done(200, ());
  }
}
