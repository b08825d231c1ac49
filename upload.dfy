/** The upload page: the PDF-only file choice, the storage path of an
    upload, and the upload itself, a fixed sequence of progress steps that
    stores the file, then records the contract, and that resets the progress
    to 0 and stops at the first failing step. */
module Upload {
  import opened Wrappers
  import opened Strings
  import opened Backend

  /** The part of a browser `File` the page looks at. */
  datatype FileInfo = FileInfo(name: string, mimeType: string)

  const PdfType := "application/pdf"

  /** The owner's id, a slash, the upload time, an underscore and the file name. */
  function StoragePath(userId: string, timestamp: int, fileName: string): (path: string)
    ensures |path| > |userId| && path[..|userId| + 1] == userId + "/"
  {
    userId + "/" + IntToString(timestamp) + "_" + fileName
  }

  /** The first segment of the path is the owner's id, when the id holds no slash. */
  lemma StoragePathOwner(userId: string, timestamp: int, fileName: string)
    requires '/' !in userId
    ensures Split(StoragePath(userId, timestamp, fileName), '/')[0] == userId
  {
    var rest := IntToString(timestamp) + "_" + fileName;
    assert StoragePath(userId, timestamp, fileName) == userId + ['/'] + rest;
    SplitAfterFirstSeparator(userId, '/', rest);
  }

  /** Different upload times give different paths for the same user and file name. */
  lemma StoragePathsDiffer(userId: string, t1: nat, t2: nat, fileName: string)
    requires t1 != t2
    ensures StoragePath(userId, t1, fileName) != StoragePath(userId, t2, fileName)
  {
    if StoragePath(userId, t1, fileName) == StoragePath(userId, t2, fileName) {
      var p := StoragePath(userId, t1, fileName);
      var n := |userId| + 1;
      assert p[n..] == NatToString(t1) + ("_" + fileName);
      assert p[n..] == NatToString(t2) + ("_" + fileName);
      DigitsPrefixUnique(NatToString(t1), "_" + fileName, NatToString(t2), "_" + fileName);
      NatToStringInjective(t1, t2);
    }
  }

  /** The label under the progress bar, by the band the progress is in. */
  function ProgressLabel(progress: int): (text: string)
    ensures progress < 50 ==> text == "准备上传..."
    ensures 50 <= progress < 80 ==> text == "上传中..."
    ensures 80 <= progress < 100 ==> text == "创建记录..."
    ensures progress >= 100 ==> text == "上传完成！"
  {
    if progress < 50 then "准备上传..."
    else if progress < 80 then "上传中..."
    else if progress < 100 then "创建记录..."
    else "上传完成！"
  }

  datatype UploadOutcome = NotStarted | StorageFailed | RecordFailed | Uploaded

  /** The values `progress` is set to, in order, on the way to each outcome. */
  function ProgressTrace(outcome: UploadOutcome): seq<int> {
    match outcome
    case NotStarted => []
    case StorageFailed => [20, 50, 0]
    case RecordFailed => [20, 50, 80, 0]
    case Uploaded => [20, 50, 80, 100]
  }

  /** A successful upload steps through 20, 50, 80 and 100, each step further
      and in its own label band; a failed one follows the same steps up to the
      failure and then drops to 0. */
  lemma ProgressTraces()
    ensures var t := ProgressTrace(Uploaded);
      && t[|t| - 1] == 100
      && (forall i, j :: 0 <= i < j < |t| ==> t[i] < t[j] && ProgressLabel(t[i]) != ProgressLabel(t[j]))
    ensures forall o :: o == StorageFailed || o == RecordFailed ==>
      var t := ProgressTrace(o);
      && t[|t| - 1] == 0 && t[..|t| - 1] == ProgressTrace(Uploaded)[..|t| - 1]
  {
  }

  /** `handleUpload` starts only with a file, a contract type and a user. */
  function CanStart(file: Option<FileInfo>, contractType: string, userId: Option<string>): (starts: bool)
    ensures starts ==> file.Some? && userId.Some? && |contractType| > 0
    ensures file.Some? && userId.Some? && |contractType| > 0 ==> starts
  {
    file.Some? && contractType != "" && userId.Some?
  }

  /** The submit button: disabled without a file or a contract type, or while uploading. */
  function UploadDisabled(file: Option<FileInfo>, contractType: string, uploading: bool): (disabled: bool)
    ensures !disabled ==> file.Some? && |contractType| > 0 && !uploading
    ensures uploading || file.None? || |contractType| == 0 ==> disabled
  {
    file.None? || contractType == "" || uploading
  }

  /** An enabled button starts an upload whenever a user is signed in, and a
      file and type that let an upload start leave the button enabled unless
      an upload is under way. */
  lemma ButtonMatchesGuard(file: Option<FileInfo>, contractType: string, uploading: bool, userId: Option<string>)
    ensures !UploadDisabled(file, contractType, uploading) && userId.Some? ==> CanStart(file, contractType, userId)
    ensures CanStart(file, contractType, userId) ==> (UploadDisabled(file, contractType, uploading) <==> uploading)
  {
  }

  class UploadPage {
    const userId: Option<string>
    var file: Option<FileInfo>
    var contractType: string
    var uploading: bool
    var progress: int

    constructor (userId: Option<string>)
      ensures this.userId == userId && file == None && contractType == "" && !uploading && progress == 0
    {
      this.userId := userId;
      file := None;
      contractType := "";
      uploading := false;
      progress := 0;
    }

    /** `handleDrop` and `handleFileSelect`: the first dropped or selected
        file (none when the list is empty) is taken only when it is a PDF;
        otherwise the current file stays. */
    method ChooseFile(candidate: Option<FileInfo>) returns (accepted: bool)
      modifies this`file
      ensures accepted <==> candidate.Some? && candidate.value.mimeType == PdfType
      ensures file == if accepted then candidate else old(file)
    {
      accepted := candidate.Some? && candidate.value.mimeType == PdfType;
      if accepted {
        file := candidate;
      }
    }

    /** The remove button next to the chosen file. */
    method ClearFile()
      modifies this`file
      ensures file == None
    {
      file := None;
    }

    method ChooseType(t: string)
      modifies this`contractType
      ensures contractType == t
    {
      contractType := t;
    }

    /** `handleUpload`. `timestamp` is `Date.now()`; `filled` holds the
        columns the database fills in (id, status, timestamps). `trace` lists
        the values `progress` is set to, in order. */
    method HandleUpload(db: Database, timestamp: int, filled: Contract, storageFails: bool, recordFails: bool)
      returns (outcome: UploadOutcome, trace: seq<int>)
      modifies this`uploading, this`progress, db`files, db`contracts
      ensures trace == ProgressTrace(outcome)
      ensures outcome == NotStarted <==> !CanStart(file, contractType, userId)
      ensures outcome == NotStarted ==>
        && uploading == old(uploading) && progress == old(progress)
        && db.files == old(db.files) && db.contracts == old(db.contracts)
      ensures outcome != NotStarted ==>
        var path := StoragePath(userId.value, timestamp, file.value.name);
        var row := filled.(userId := userId.value, fileName := file.value.name, filePath := path,
                           contractType := contractType);
        && outcome == (if storageFails then StorageFailed else if recordFails then RecordFailed else Uploaded)
        && db.files == (if storageFails then old(db.files) else old(db.files) + {path})
        && db.contracts == (if storageFails || recordFails then old(db.contracts) else old(db.contracts) + [row])
        && progress == trace[|trace| - 1]
        && uploading == (outcome == Uploaded)
    {
      trace := [];
      if file.None? || contractType == "" || userId.None? {
        return NotStarted, trace;
      }
      uploading := true;
      progress := 20;
      trace := trace + [progress];
      var path := StoragePath(userId.value, timestamp, file.value.name);
      progress := 50;
      trace := trace + [progress];
      var uploadError := db.UploadFile(path, storageFails);
      if uploadError {
        uploading := false;
        progress := 0;
        trace := trace + [progress];
        return StorageFailed, trace;
      }
      progress := 80;
      trace := trace + [progress];
      var row := filled.(userId := userId.value, fileName := file.value.name, filePath := path,
                         contractType := contractType);
      var dbError := db.InsertContract(row, recordFails);
      if dbError {
        uploading := false;
        progress := 0;
        trace := trace + [progress];
        return RecordFailed, trace;
      }
      progress := 100;
      trace := trace + [progress];
      outcome := Uploaded;
    }
  }
}
