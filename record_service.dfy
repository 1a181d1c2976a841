/** The record-update service: record-id validation, the processing of uploaded files into
    FileInfo values, the composition of the partial update with its stamps and shadow entries, and
    the ordered update operation against a document store that is modelled in memory. */
module RecordService {
  import opened Base
  import opened Text
  import opened Schemas
  import opened FileUtils

  // ----- Record ids -----

  /** An ObjectId: twelve bytes. */
  datatype ObjectId = ObjectId(bytes: seq<byte>)

  predicate IsHexDigit(c: char) { '0' <= c <= '9' || 'a' <= c <= 'f' || 'A' <= c <= 'F' }

  function HexDigitValue(c: char): (v: nat)
    requires IsHexDigit(c)
    ensures v < 16
  {
    if '0' <= c <= '9' then c as int - '0' as int
    else if 'a' <= c <= 'f' then c as int - 'a' as int + 10
    else c as int - 'A' as int + 10
  }

  /** The lower-case hex digit of a value below 16. */
  function HexChar(v: nat): (c: char)
    requires v < 16
    ensures IsHexDigit(c) && HexDigitValue(c) == v
  {
    if v < 10 then ('0' as int + v) as char else ('a' as int + v - 10) as char
  }

  /** The text form of a record id: exactly 24 hex digits, in either case. */
  predicate IsObjectIdText(s: string) {
    |s| == 24 && forall k :: 0 <= k < |s| ==> IsHexDigit(s[k])
  }

  /** bytes.fromhex on digit pairs. */
  function ParseHex(s: string): (b: seq<byte>)
    requires |s| % 2 == 0 && forall k :: 0 <= k < |s| ==> IsHexDigit(s[k])
    ensures |b| == |s| / 2
  {
    seq(|s| / 2, i requires 0 <= i < |s| / 2 =>
      (HexDigitValue(s[2 * i]) * 16 + HexDigitValue(s[2 * i + 1])) as byte)
  }

  /** str(ObjectId): two lower-case hex digits per byte. */
  function ToHex(b: seq<byte>): (s: string)
    ensures |s| == 2 * |b|
  {
    seq(2 * |b|, k requires 0 <= k < 2 * |b| =>
      if k % 2 == 0 then HexChar(b[k / 2] as int / 16) else HexChar(b[k / 2] as int % 16))
  }

  datatype ServiceError =
    | InvalidRecordId
    | RecordNotFound
    | NoDataProvided
    | FileProcessing(message: string)

  /** validate_object_id: the ObjectId a string of 24 hex digits denotes, or InvalidRecordId. */
  function ValidateObjectId(recordId: string): (r: Result<ObjectId, ServiceError>)
    ensures r.Ok? <==> IsObjectIdText(recordId)
    ensures r.Err? ==> r.error == InvalidRecordId
    ensures r.Ok? ==> |r.value.bytes| == 12
  {
    if IsObjectIdText(recordId) then Ok(ObjectId(ParseHex(recordId))) else Err(InvalidRecordId)
  }

  /** Every ObjectId is accepted in its printed form and read back as itself. */
  lemma ObjectIdRoundTrip(oid: ObjectId)
    requires |oid.bytes| == 12
    ensures IsObjectIdText(ToHex(oid.bytes))
    ensures ValidateObjectId(ToHex(oid.bytes)) == Ok(oid)
  {
    var s := ToHex(oid.bytes);
    forall i | 0 <= i < 12 ensures ParseHex(s)[i] == oid.bytes[i] {
      assert s[2 * i] == HexChar(oid.bytes[i] as int / 16);
      assert s[2 * i + 1] == HexChar(oid.bytes[i] as int % 16);
    }
    assert ParseHex(s) == oid.bytes;
  }

  lemma HexCharOfValue(c: char)
    requires IsHexDigit(c)
    ensures HexChar(HexDigitValue(c)) == AsciiLowerChar(c)
  {
  }

  /** An accepted id prints back as its lower-cased text: the two spellings of an id that differ
      only in the case of their letters denote the same record. */
  lemma ObjectIdPrintsLower(recordId: string)
    requires IsObjectIdText(recordId)
    ensures ToHex(ValidateObjectId(recordId).value.bytes) == AsciiLower(recordId)
  {
    var b := ValidateObjectId(recordId).value.bytes;
    var s := ToHex(b);
    forall k | 0 <= k < 24 ensures s[k] == AsciiLower(recordId)[k] {
      var i := k / 2;
      var hi := HexDigitValue(recordId[2 * i]);
      var lo := HexDigitValue(recordId[2 * i + 1]);
      assert b[i] as int == hi * 16 + lo;
      assert b[i] as int / 16 == hi && b[i] as int % 16 == lo;
      HexCharOfValue(recordId[k]);
    }
  }

  // ----- Time -----

  /** The Indian Standard Time offset, +05:30, in microseconds. */
  const IstOffsetMicros: int := (5 * 60 + 30) * 60 * 1000000

  /** get_ist_datetime: the wall-clock time in IST with the zone dropped, for a clock reading given
      in microseconds since the epoch (UTC). */
  function IstNow(utcMicros: int): NaiveDateTime {
    NaiveDateTime(utcMicros + IstOffsetMicros)
  }

  /** The stamp keeps the clock's order and its distances, and reads five and a half hours ahead
      of UTC. */
  lemma IstStamps(u1: int, u2: int)
    ensures IstNow(u2).micros - IstNow(u1).micros == u2 - u1
    ensures IstNow(u1).micros - u1 == 19800 * 1000000
  {
  }

  // ----- Uploaded files -----

  /** An UploadFile: its filename, which may be absent or empty, and the bytes read from it. */
  datatype Upload = Upload(filename: Option<string>, content: seq<byte>)

  /** `if file.filename`: present and non-empty. */
  predicate HasName(u: Upload) { u.filename.Some? && u.filename.value != [] }

  /** What the service does to one upload, given its name and its bytes: a FileInfo, or the
      message of the FileProcessingError raised. */
  type Processor = (string, seq<byte>) -> Result<FileInfo, string>

  /** The processor the service uses: the column extractor with the given spreadsheet reader. */
  function FileProcessor(readExcelHeader: seq<byte> -> Result<seq<string>, string>): Processor {
    (filename: string, content: seq<byte>) => Extracted(content, filename, readExcelHeader)
  }

  /** One upload processed, its failure as the service error it propagates as. */
  function ProcessOne(filename: string, content: seq<byte>, process: Processor): Result<FileInfo, ServiceError> {
    match process(filename, content)
    case Ok(info) => Ok(info)
    case Err(m) => Err(FileProcessing(m))
  }

  /** The uploads that carry a name, in their order. */
  function Named(files: seq<Upload>): (r: seq<Upload>)
    ensures |r| <= |files|
    ensures forall i :: 0 <= i < |r| ==> HasName(r[i])
  {
    if files == [] then []
    else if HasName(files[0]) then [files[0]] + Named(files[1..])
    else Named(files[1..])
  }

  /** _process_input_files as a function: every named upload processed in order; the first failure
      is the result. */
  function ProcessFiles(files: seq<Upload>, process: Processor)
    : (r: Result<seq<FileInfo>, ServiceError>)
    ensures r.Err? ==> r.error.FileProcessing?
  {
    if files == [] then Ok([])
    else if !HasName(files[0]) then ProcessFiles(files[1..], process)
    else
      var info :- ProcessOne(files[0].filename.value, files[0].content, process);
      var rest :- ProcessFiles(files[1..], process);
      Ok([info] + rest)
  }

  /** A processed file keeps the name it was uploaded under. */
  lemma ProcessOneName(filename: string, content: seq<byte>, readExcelHeader: seq<byte> -> Result<seq<string>, string>)
    ensures FileProcessor(readExcelHeader)(filename, content).Ok? ==>
      FileProcessor(readExcelHeader)(filename, content).value.filename == filename
  {
    ExtractedShape(content, filename, readExcelHeader);
  }

  /** Nameless uploads are skipped and the others keep their order: the processed list has one
      FileInfo per named upload, and the whole fails exactly when one named upload fails. */
  lemma {:induction false} ProcessFilesNamed(files: seq<Upload>, process: Processor)
    ensures ProcessFiles(files, process).Ok? ==>
      forall i :: 0 <= i < |Named(files)| ==> ProcessOne(Named(files)[i].filename.value, Named(files)[i].content, process).Ok?
    ensures (forall i :: 0 <= i < |Named(files)| ==> ProcessOne(Named(files)[i].filename.value, Named(files)[i].content, process).Ok?) ==>
      ProcessFiles(files, process).Ok?
    ensures ProcessFiles(files, process).Ok? ==>
      |ProcessFiles(files, process).value| == |Named(files)|
      && forall i :: 0 <= i < |Named(files)| ==>
           ProcessFiles(files, process).value[i] == ProcessOne(Named(files)[i].filename.value, Named(files)[i].content, process).value
  {
    if files != [] {
      ProcessFilesNamed(files[1..], process);
      var n := Named(files);
      var tail := Named(files[1..]);
      if !HasName(files[0]) {
        assert n == tail;
      } else {
        assert n == [files[0]] + tail;
        assert forall i :: 1 <= i < |n| ==> n[i] == tail[i - 1];
        if ProcessOne(files[0].filename.value, files[0].content, process).Err? {
          assert !ProcessOne(n[0].filename.value, n[0].content, process).Ok?;
        } else if forall i :: 0 <= i < |n| ==> ProcessOne(n[i].filename.value, n[i].content, process).Ok? {
          forall j | 0 <= j < |tail| ensures ProcessOne(tail[j].filename.value, tail[j].content, process).Ok? {
            assert tail[j] == n[j + 1];
          }
        }
      }
    }
  }

  /** Each processed file carries the filename of the upload it came from, in upload order. */
  lemma ProcessFilesNames(files: seq<Upload>, readExcelHeader: seq<byte> -> Result<seq<string>, string>)
    requires ProcessFiles(files, FileProcessor(readExcelHeader)).Ok?
    ensures var r := ProcessFiles(files, FileProcessor(readExcelHeader)).value; var n := Named(files);
      |r| == |n| && forall i :: 0 <= i < |r| ==> r[i].filename == n[i].filename.value
  {
    ProcessFilesNamed(files, FileProcessor(readExcelHeader));
    var n := Named(files);
    var r := ProcessFiles(files, FileProcessor(readExcelHeader)).value;
    forall i | 0 <= i < |n| ensures r[i].filename == n[i].filename.value {
      ProcessOneName(n[i].filename.value, n[i].content, readExcelHeader);
      var p := ProcessOne(n[i].filename.value, n[i].content, FileProcessor(readExcelHeader));
      assert p.Ok? ==> p.value == FileProcessor(readExcelHeader)(n[i].filename.value, n[i].content).value;
    }
  }

  /** The expected-output upload as processed: only when it is present and named. */
  function ProcessExpected(expected: Option<Upload>, process: Processor)
    : (r: Result<Option<FileInfo>, ServiceError>)
    ensures r.Err? ==> r.error.FileProcessing?
    ensures r == Ok(None) <==> expected.None? || !HasName(expected.value)
  {
    if expected.Some? && HasName(expected.value) then
      var info :- ProcessOne(expected.value.filename.value, expected.value.content, process);
      Ok(Some(info))
    else Ok(None)
  }

  // ----- Composing the update -----

  /** The inputs of update_record besides the record id. */
  datatype UpdateRequest = UpdateRequest(
    userInput: Option<seq<Upload>>,
    expectedOutput: Option<Upload>,
    instructionFromUser: Option<string>,
    clientEmailAddress: Option<string>)

  const UserInputFilesKey: string := "_user_input_files"
  const ExpectedOutputColumnsKey: string := "_expected_output_columns"

  function DumpAll(infos: seq<FileInfo>): (r: seq<Document>)
    ensures |r| == |infos| && forall i :: 0 <= i < |infos| ==> r[i] == ModelDump(infos[i])
  {
    seq(|infos|, i requires 0 <= i < |infos| => ModelDump(infos[i]))
  }

  /** The fields an update stages from what was supplied, before the stamps. */
  function Staged(inputs: seq<FileInfo>, expected: Option<FileInfo>, instruction: Option<string>, email: Option<string>)
    : Document
  {
    var d1: Document := if inputs != [] then map["user_input" := DocList(DumpAll(inputs))] else map[];
    var d2 := if expected.Some? then d1["expected_output" := StrList(expected.value.columns)] else d1;
    var d3 := if instruction.Some? then d2["instruction_from_user" := Str(instruction.value)] else d2;
    if email.Some? then d3["client_email_address" := Str(email.value)] else d3
  }

  /** The staging rules: a processed input list is stored as plain mappings when it is non-empty;
      only the columns of the expected output are stored; the text fields whenever they are not
      None, even when empty; nothing else. */
  lemma StagingRules(inputs: seq<FileInfo>, expected: Option<FileInfo>, instruction: Option<string>, email: Option<string>)
    ensures var d := Staged(inputs, expected, instruction, email);
      && ("user_input" in d <==> inputs != [])
      && (inputs != [] ==> d["user_input"] == DocList(DumpAll(inputs)))
      && ("expected_output" in d <==> expected.Some?)
      && (expected.Some? ==> d["expected_output"] == StrList(expected.value.columns))
      && ("instruction_from_user" in d <==> instruction.Some?)
      && (instruction.Some? ==> d["instruction_from_user"] == Str(instruction.value))
      && ("client_email_address" in d <==> email.Some?)
      && (email.Some? ==> d["client_email_address"] == Str(email.value))
      && d.Keys <= {"user_input", "expected_output", "instruction_from_user", "client_email_address"}
      && (d == map[] <==> inputs == [] && expected.None? && instruction.None? && email.None?)
  {
    var d := Staged(inputs, expected, instruction, email);
    if inputs != [] { assert "user_input" in d; }
    if expected.Some? { assert "expected_output" in d; }
    if instruction.Some? { assert "instruction_from_user" in d; }
    if email.Some? { assert "client_email_address" in d; }
  }

  function ShadowFiles(inputs: seq<FileInfo>): Value {
    if inputs != [] then Files(inputs) else Null
  }

  function ShadowColumns(expected: Option<FileInfo>): Value {
    if expected.Some? then StrList(expected.value.columns) else Null
  }

  /** The processed input files, when the user_input list is present and non-empty. */
  function ProcessUserInput(userInput: Option<seq<Upload>>, process: Processor)
    : (r: Result<seq<FileInfo>, ServiceError>)
    ensures r.Err? ==> r.error.FileProcessing?
  {
    if userInput.Some? && userInput.value != [] then ProcessFiles(userInput.value, process) else Ok([])
  }

  /** _build_update_data as a function: the staged fields, then the task id and the timestamp, then
      the two shadow entries that carry the typed values for the response. */
  function Compose(req: UpdateRequest, taskId: string, now: NaiveDateTime, process: Processor)
    : (r: Result<Document, ServiceError>)
    ensures r.Ok? ==> "task_id" in r.value && r.value["task_id"] == Str(taskId)
    ensures r.Ok? ==> "updated_date" in r.value && r.value["updated_date"] == Date(now)
    ensures r.Ok? ==> UserInputFilesKey in r.value && ExpectedOutputColumnsKey in r.value
  {
    var inputs :- ProcessUserInput(req.userInput, process);
    var expected :- ProcessExpected(req.expectedOutput, process);
    var staged := Staged(inputs, expected, req.instructionFromUser, req.clientEmailAddress);
    if staged == map[] then Err(NoDataProvided)
    else
      Ok(staged["task_id" := Str(taskId)]["updated_date" := Date(now)]
        [UserInputFilesKey := ShadowFiles(inputs)][ExpectedOutputColumnsKey := ShadowColumns(expected)])
  }

  /** The composer fails with NoDataProvided exactly when every upload was processed and nothing
      was staged; the stamps are added only after that check, so a failed build carries none. */
  lemma NoDataIff(req: UpdateRequest, taskId: string, now: NaiveDateTime, process: Processor)
    ensures Compose(req, taskId, now, process) == Err(NoDataProvided)
      <==> && ProcessUserInput(req.userInput, process) == Ok([])
           && ProcessExpected(req.expectedOutput, process) == Ok(None)
           && req.instructionFromUser.None? && req.clientEmailAddress.None?
  {
    var pi := ProcessUserInput(req.userInput, process);
    var pe := ProcessExpected(req.expectedOutput, process);
    if pi.Ok? && pe.Ok? {
      StagingRules(pi.value, pe.value, req.instructionFromUser, req.clientEmailAddress);
    }
  }

  /** Text fields alone always make a build succeed, even when they are empty strings. */
  lemma TextOnlyBuild(instruction: string, taskId: string, now: NaiveDateTime, process: Processor)
    ensures var r := Compose(UpdateRequest(None, None, Some(instruction), None), taskId, now, process);
      r.Ok? && r.value["instruction_from_user"] == Str(instruction)
  {
    var staged := Staged([], None, Some(instruction), None);
    assert "instruction_from_user" in staged;
  }

  /** The pop of the two shadow entries before the write. */
  function Unshadow(data: Document): Document {
    data - {UserInputFilesKey, ExpectedOutputColumnsKey}
  }

  /** What is written is exactly the staged fields and the two stamps: the shadow entries never
      reach the store. */
  lemma WriteSet(req: UpdateRequest, taskId: string, now: NaiveDateTime, process: Processor)
    requires Compose(req, taskId, now, process).Ok?
    ensures ProcessUserInput(req.userInput, process).Ok? && ProcessExpected(req.expectedOutput, process).Ok?
    ensures var inputs := ProcessUserInput(req.userInput, process).value;
      var expected := ProcessExpected(req.expectedOutput, process).value;
      var staged := Staged(inputs, expected, req.instructionFromUser, req.clientEmailAddress);
      var w := Unshadow(Compose(req, taskId, now, process).value);
      && w.Keys == staged.Keys + {"task_id", "updated_date"}
      && staged != map[]
      && (forall k :: k in staged ==> w[k] == staged[k])
      && w["task_id"] == Str(taskId) && w["updated_date"] == Date(now)
  {
    var inputs := ProcessUserInput(req.userInput, process).value;
    var expected := ProcessExpected(req.expectedOutput, process).value;
    var staged := Staged(inputs, expected, req.instructionFromUser, req.clientEmailAddress);
    StagingRules(inputs, expected, req.instructionFromUser, req.clientEmailAddress);
    assert Compose(req, taskId, now, process).value
        == staged["task_id" := Str(taskId)]["updated_date" := Date(now)]
             [UserInputFilesKey := ShadowFiles(inputs)][ExpectedOutputColumnsKey := ShadowColumns(expected)];
    StampThenUnshadow(staged, Str(taskId), Date(now), ShadowFiles(inputs), ShadowColumns(expected));
  }

  /** Stamping staged fields and adding the shadow entries, then popping those entries, leaves the
      staged fields and the two stamps. */
  lemma StampThenUnshadow(staged: Document, task: Value, date: Value, files: Value, columns: Value)
    requires staged.Keys <= {"user_input", "expected_output", "instruction_from_user", "client_email_address"}
    ensures var w := Unshadow(staged["task_id" := task]["updated_date" := date]
                                [UserInputFilesKey := files][ExpectedOutputColumnsKey := columns]);
      && w.Keys == staged.Keys + {"task_id", "updated_date"}
      && (forall k :: k in staged ==> w[k] == staged[k])
      && w["task_id"] == task && w["updated_date"] == date
  {
    assert UserInputFilesKey !in staged && ExpectedOutputColumnsKey !in staged;
    assert "task_id" !in staged && "updated_date" !in staged;
  }

  // ----- The store -----

  /** A store access, as the collection would log it. */
  datatype Access = Find(id: ObjectId) | Update(id: ObjectId, fields: Document)

  /** The collection: documents by id, with a log of the accesses made to it. */
  class Store {
    var docs: map<ObjectId, Document>
    ghost var log: seq<Access>

    constructor(docs: map<ObjectId, Document>)
      ensures this.docs == docs && log == []
    {
      this.docs := docs;
      log := [];
    }

    /** find_one({"_id": id}). */
    method FindOne(id: ObjectId) returns (r: Option<Document>)
      modifies this
      ensures docs == old(docs) && log == old(log) + [Find(id)]
      ensures r == if id in docs then Some(docs[id]) else None
    {
      r := if id in docs then Some(docs[id]) else None;
      log := log + [Find(id)];
    }

    /** update_one({"_id": id}, {"$set": fields}): the entries of `fields` overwrite or join those of the
        document; the count is 1 exactly when that changed the document. */
    method UpdateOne(id: ObjectId, fields: Document) returns (modifiedCount: nat)
      modifies this
      ensures docs == if id in old(docs) then old(docs)[id := old(docs)[id] + fields] else old(docs)
      ensures modifiedCount == if id in old(docs) && old(docs)[id] + fields != old(docs)[id] then 1 else 0
      ensures log == old(log) + [Update(id, fields)]
    {
      modifiedCount := 0;
      if id in docs {
        var merged := docs[id] + fields;
        if merged != docs[id] {
          modifiedCount := 1;
        }
        docs := docs[id := merged];
      }
      log := log + [Update(id, fields)];
    }
  }

  // ----- The update operation -----

  const Unchanged: UpdateRecordResponse :=
    UpdateRecordResponse("unchanged", "No changes made to the record", None)

  function Success(data: UpdateRecordData): UpdateRecordResponse {
    UpdateRecordResponse("success", "Record updated successfully", Some(data))
  }

  /** dict.pop(key, None). */
  function PopValue(d: Document, key: string): Value {
    if key in d then d[key] else Null
  }

  /** dict.get(key) of a text field. */
  function GetStr(d: Document, key: string): Option<string> {
    if key in d && d[key].Str? then Some(d[key].s) else None
  }

  function FilesOf(v: Value): Option<seq<FileInfo>> {
    if v.Files? then Some(v.files) else None
  }

  function ColumnsOf(v: Value): Option<seq<string>> {
    if v.StrList? then Some(v.items) else None
  }

  /** The typed response data: the written task id, text fields and timestamp, and the values the
      shadow entries carried. */
  function ResponseData(write: Document, data: Document): UpdateRecordData
    requires "task_id" in write && write["task_id"].Str?
    requires "updated_date" in write && write["updated_date"].Date?
  {
    UpdateRecordData(
      write["task_id"].s,
      FilesOf(PopValue(data, UserInputFilesKey)),
      ColumnsOf(PopValue(data, ExpectedOutputColumnsKey)),
      GetStr(write, "instruction_from_user"),
      GetStr(write, "client_email_address"),
      write["updated_date"].t)
  }

  /** The outcome of an update: the result, the documents afterwards, and the accesses made. */
  datatype Outcome = Outcome(result: Result<UpdateRecordResponse, ServiceError>, docs: map<ObjectId, Document>, trace: seq<Access>)

  /** update_record as a function of the store's documents and the inputs: validate the id, find
      the record, build the update, write it without the shadow entries, and report. */
  function UpdateSpec(docs: map<ObjectId, Document>, recordId: string, req: UpdateRequest, taskId: string,
                      utcMicros: int, process: Processor): Outcome
  {
    match ValidateObjectId(recordId)
    case Err(e) => Outcome(Err(e), docs, [])
    case Ok(id) =>
      if id !in docs then Outcome(Err(RecordNotFound), docs, [Find(id)])
      else
        match Compose(req, taskId, IstNow(utcMicros), process)
        case Err(e) => Outcome(Err(e), docs, [Find(id)])
        case Ok(data) =>
          var write := Unshadow(data);
          var merged := docs[id] + write;
          var response := if merged == docs[id] then Unchanged else Success(ResponseData(write, data));
          Outcome(Ok(response), docs[id := merged], [Find(id), Update(id, write)])
  }

  /** A malformed id is rejected before the store is touched. */
  lemma InvalidIdFirst(docs: map<ObjectId, Document>, recordId: string, req: UpdateRequest, taskId: string,
                       utcMicros: int, process: Processor)
    requires !IsObjectIdText(recordId)
    ensures var o := UpdateSpec(docs, recordId, req, taskId, utcMicros, process);
      o.result == Err(InvalidRecordId) && o.docs == docs && o.trace == []
  {
  }

  /** A missing record is reported after one lookup and before any upload is processed: the
      outcome does not depend on the request at all, not even on uploads that would fail. */
  lemma MissingRecordFirst(docs: map<ObjectId, Document>, recordId: string, req1: UpdateRequest, req2: UpdateRequest,
                           taskId: string, utcMicros: int, process: Processor)
    requires IsObjectIdText(recordId) && ValidateObjectId(recordId).value !in docs
    ensures var o := UpdateSpec(docs, recordId, req1, taskId, utcMicros, process);
      && o.result == Err(RecordNotFound) && o.docs == docs
      && o.trace == [Find(ValidateObjectId(recordId).value)]
      && o == UpdateSpec(docs, recordId, req2, taskId, utcMicros, process)
  {
  }

  /** A build that fails (a file that cannot be processed, or nothing to update) writes nothing
      and reports the build's error. */
  lemma FailedBuildWritesNothing(docs: map<ObjectId, Document>, recordId: string, req: UpdateRequest, taskId: string,
                                 utcMicros: int, process: Processor)
    requires IsObjectIdText(recordId) && ValidateObjectId(recordId).value in docs
    requires Compose(req, taskId, IstNow(utcMicros), process).Err?
    ensures var o := UpdateSpec(docs, recordId, req, taskId, utcMicros, process);
      && o.result == Err(Compose(req, taskId, IstNow(utcMicros), process).error)
      && (o.result.error == NoDataProvided || o.result.error.FileProcessing?)
      && o.docs == docs && o.trace == [Find(ValidateObjectId(recordId).value)]
  {
    NoDataIff(req, taskId, IstNow(utcMicros), process);
  }

  /** A successful build is written to that record only, as a $set of the staged fields and the
      stamps; the response is "unchanged" with no data exactly when the write changed nothing, and
      otherwise "success" with data echoing the request: the fresh task id, the processed inputs
      (None when no input was staged), the expected columns, the text fields and the IST stamp. */
  lemma SuccessfulUpdate(docs: map<ObjectId, Document>, recordId: string, req: UpdateRequest, taskId: string,
                         utcMicros: int, process: Processor)
    requires IsObjectIdText(recordId) && ValidateObjectId(recordId).value in docs
    requires Compose(req, taskId, IstNow(utcMicros), process).Ok?
    ensures ProcessUserInput(req.userInput, process).Ok? && ProcessExpected(req.expectedOutput, process).Ok?
    ensures var id := ValidateObjectId(recordId).value;
      var o := UpdateSpec(docs, recordId, req, taskId, utcMicros, process);
      var write := Unshadow(Compose(req, taskId, IstNow(utcMicros), process).value);
      var inputs := ProcessUserInput(req.userInput, process).value;
      var expected := ProcessExpected(req.expectedOutput, process).value;
      && o.result.Ok?
      && o.docs.Keys == docs.Keys
      && o.docs[id] == docs[id] + write
      && (forall other :: other in docs && other != id ==> o.docs[other] == docs[other])
      && o.trace == [Find(id), Update(id, write)]
      && (o.result.value == Unchanged <==> docs[id] + write == docs[id])
      && (o.result.value != Unchanged ==>
            o.result.value == Success(UpdateRecordData(
              taskId,
              if inputs != [] then Some(inputs) else None,
              if expected.Some? then Some(expected.value.columns) else None,
              req.instructionFromUser,
              req.clientEmailAddress,
              IstNow(utcMicros))))
  {
    var id := ValidateObjectId(recordId).value;
    var data := Compose(req, taskId, IstNow(utcMicros), process).value;
    UpdateSpecWrite(docs, recordId, req, taskId, utcMicros, process, id, data);
    WriteSet(req, taskId, IstNow(utcMicros), process);
    BuiltResponseData(req, taskId, IstNow(utcMicros), process);
    assert Unchanged.status != Success(ResponseData(Unshadow(data), data)).status;
  }

  /** The response data of a successful build echoes the request as processed. */
  lemma BuiltResponseData(req: UpdateRequest, taskId: string, now: NaiveDateTime, process: Processor)
    requires Compose(req, taskId, now, process).Ok?
    ensures ProcessUserInput(req.userInput, process).Ok? && ProcessExpected(req.expectedOutput, process).Ok?
    ensures var data := Compose(req, taskId, now, process).value;
      var inputs := ProcessUserInput(req.userInput, process).value;
      var expected := ProcessExpected(req.expectedOutput, process).value;
      && "task_id" in Unshadow(data) && Unshadow(data)["task_id"].Str?
      && "updated_date" in Unshadow(data) && Unshadow(data)["updated_date"].Date?
      && ResponseData(Unshadow(data), data) == UpdateRecordData(
           taskId,
           if inputs != [] then Some(inputs) else None,
           if expected.Some? then Some(expected.value.columns) else None,
           req.instructionFromUser,
           req.clientEmailAddress,
           now)
  {
    var data := Compose(req, taskId, now, process).value;
    var inputs := ProcessUserInput(req.userInput, process).value;
    var expected := ProcessExpected(req.expectedOutput, process).value;
    StagingRules(inputs, expected, req.instructionFromUser, req.clientEmailAddress);
    WriteSet(req, taskId, now, process);
    assert data[UserInputFilesKey] == ShadowFiles(inputs);
    assert data[ExpectedOutputColumnsKey] == ShadowColumns(expected);
  }

  /** Every successful build stamps a task id, so an update reports "unchanged" only if the record
      already holds that very task id: sending the same values again is still a "success". */
  lemma FreshTaskIdIsSuccess(docs: map<ObjectId, Document>, recordId: string, req: UpdateRequest, taskId: string,
                             utcMicros: int, process: Processor)
    requires IsObjectIdText(recordId) && ValidateObjectId(recordId).value in docs
    requires Compose(req, taskId, IstNow(utcMicros), process).Ok?
    requires var d := docs[ValidateObjectId(recordId).value]; "task_id" !in d || d["task_id"] != Str(taskId)
    ensures UpdateSpec(docs, recordId, req, taskId, utcMicros, process).result.value.status == "success"
  {
    var id := ValidateObjectId(recordId).value;
    var write := Unshadow(Compose(req, taskId, IstNow(utcMicros), process).value);
    WriteSet(req, taskId, IstNow(utcMicros), process);
    assert (docs[id] + write)["task_id"] == Str(taskId);
  }

  /** Repeating an update with the same task id and clock reading changes nothing more: $set is
      idempotent. */
  lemma RepeatIsUnchanged(docs: map<ObjectId, Document>, recordId: string, req: UpdateRequest, taskId: string,
                          utcMicros: int, process: Processor)
    requires IsObjectIdText(recordId) && ValidateObjectId(recordId).value in docs
    requires Compose(req, taskId, IstNow(utcMicros), process).Ok?
    ensures var first := UpdateSpec(docs, recordId, req, taskId, utcMicros, process);
      var second := UpdateSpec(first.docs, recordId, req, taskId, utcMicros, process);
      second.result == Ok(Unchanged) && second.docs == first.docs
  {
    var id := ValidateObjectId(recordId).value;
    var write := Unshadow(Compose(req, taskId, IstNow(utcMicros), process).value);
    var merged := docs[id] + write;
    assert merged + write == merged;
  }

  /** A $set payload whose fields have the types the collection's validator demands. */
  predicate TypedWrite(w: Document) {
    && w.Keys <= {"user_input", "expected_output", "instruction_from_user", "client_email_address", "task_id", "updated_date"}
    && ("user_input" in w ==>
          w["user_input"].DocList? && forall i :: 0 <= i < |w["user_input"].docs| ==> IsFileObject(w["user_input"].docs[i]))
    && IsStrListValue(w, "expected_output")
    && IsStrValue(w, "instruction_from_user")
    && IsStrValue(w, "client_email_address")
    && IsStrValue(w, "task_id")
    && IsDateValue(w, "updated_date")
  }

  /** Merging a well-typed payload into a conforming document keeps it conforming. */
  lemma MergeKeepsSchema(d: Document, w: Document)
    requires ConformsToSchema(d) && TypedWrite(w)
    ensures ConformsToSchema(d + w)
  {
    var m := d + w;
    assert "progress" in m ==> m["progress"] == d["progress"];
    assert "created_date" in m && m["created_date"] == d["created_date"];
    assert "error_message" in m ==> m["error_message"] == d["error_message"];
    assert "user_input" in m ==> m["user_input"] == if "user_input" in w then w["user_input"] else d["user_input"];
  }

  /** What a successful build writes is well typed. */
  lemma ComposeTyped(req: UpdateRequest, taskId: string, now: NaiveDateTime, process: Processor)
    requires Compose(req, taskId, now, process).Ok?
    ensures TypedWrite(Unshadow(Compose(req, taskId, now, process).value))
  {
    var inputs := ProcessUserInput(req.userInput, process).value;
    var expected := ProcessExpected(req.expectedOutput, process).value;
    StagingRules(inputs, expected, req.instructionFromUser, req.clientEmailAddress);
    WriteSet(req, taskId, now, process);
    var w := Unshadow(Compose(req, taskId, now, process).value);
    if "user_input" in w {
      var dl := DumpAll(inputs);
      assert w["user_input"] == DocList(dl);
      forall i | 0 <= i < |dl| ensures IsFileObject(dl[i]) {
        assert dl[i] == ModelDump(inputs[i]);
      }
    }
  }

  /** The fields an update writes all have the types the collection's validator demands, so a
      store whose records satisfy the validator still satisfies it afterwards. */
  lemma UpdateKeepsSchema(docs: map<ObjectId, Document>, recordId: string, req: UpdateRequest, taskId: string,
                          utcMicros: int, process: Processor)
    requires forall id :: id in docs ==> ConformsToSchema(docs[id])
    ensures var o := UpdateSpec(docs, recordId, req, taskId, utcMicros, process);
      forall id :: id in o.docs ==> ConformsToSchema(o.docs[id])
  {
    var o := UpdateSpec(docs, recordId, req, taskId, utcMicros, process);
    if IsObjectIdText(recordId) && ValidateObjectId(recordId).value in docs
       && Compose(req, taskId, IstNow(utcMicros), process).Ok? {
      var id := ValidateObjectId(recordId).value;
      ComposeTyped(req, taskId, IstNow(utcMicros), process);
      MergeKeepsSchema(docs[id], Unshadow(Compose(req, taskId, IstNow(utcMicros), process).value));
    }
  }

  /** The outcome of a successful build, in one step (used by the service method). */
  lemma UpdateSpecWrite(docs: map<ObjectId, Document>, recordId: string, req: UpdateRequest, taskId: string,
                        utcMicros: int, process: Processor, id: ObjectId, data: Document)
    requires ValidateObjectId(recordId) == Ok(id) && id in docs
    requires Compose(req, taskId, IstNow(utcMicros), process) == Ok(data)
    ensures "task_id" in Unshadow(data) && Unshadow(data)["task_id"].Str?
    ensures "updated_date" in Unshadow(data) && Unshadow(data)["updated_date"].Date?
    ensures var write := Unshadow(data);
      var merged := docs[id] + write;
      UpdateSpec(docs, recordId, req, taskId, utcMicros, process)
        == Outcome(Ok(if merged == docs[id] then Unchanged else Success(ResponseData(write, data))),
                   docs[id := merged], [Find(id), Update(id, write)])
  {
  }

  // ----- The service object -----

  /** RecordService: the collection is obtained lazily, on the first operation that needs it. */
  class RecordService {
    /** The collection a connection would return (the configured collection of the configured
        database), and the name of that database. */
    const db: Store
    const databaseName: string
    /** The spreadsheet reader the extractor uses. */
    const readExcel: seq<byte> -> Result<seq<string>, string>
    /** _collection: null until the first connection. */
    var collection: Store?
    /** How many times a connection was opened. */
    ghost var connects: nat

    ghost predicate Valid()
      reads this
    {
      && (collection == null || collection == db)
      && connects == (if collection == null then 0 else 1)
    }

    constructor(db: Store, databaseName: string, readExcel: seq<byte> -> Result<seq<string>, string>)
      ensures Valid() && collection == null
      ensures this.db == db && this.databaseName == databaseName && this.readExcel == readExcel
    {
      this.db := db;
      this.databaseName := databaseName;
      this.readExcel := readExcel;
      collection := null;
      connects := 0;
    }

    /** _get_collection: connects on the first call only, then returns the cached collection. */
    method GetCollection() returns (c: Store)
      requires Valid()
      modifies this
      ensures Valid() && c == db && collection == db && connects == 1
      ensures connects == if old(collection) == null then old(connects) + 1 else old(connects)
    {
      if collection == null {
        connects := connects + 1;
        collection := db;
      }
      c := collection;
    }

    /** _process_file. */
    method ProcessFile(filename: string, content: seq<byte>) returns (r: Result<FileInfo, ServiceError>)
      ensures r == ProcessOne(filename, content, FileProcessor(readExcel))
    {
      var fileData := ExtractColumns(content, filename, readExcel);
      if fileData.Err? {
        return Err(FileProcessing(fileData.error));
      }
      r := Ok(FileInfo(fileData.value.filename, fileData.value.columns));
    }

    /** _process_input_files: the named uploads processed one after another. */
    method ProcessInputFiles(files: seq<Upload>) returns (r: Result<seq<FileInfo>, ServiceError>)
      ensures r == ProcessFiles(files, FileProcessor(readExcel))
    {
      var processed: seq<FileInfo> := [];
      var i := 0;
      assert files[0..] == files;
      PrependNothing(ProcessFiles(files, FileProcessor(readExcel)));
      while i < |files|
        invariant 0 <= i <= |files|
        invariant ProcessFiles(files, FileProcessor(readExcel)) == Prepend(processed, ProcessFiles(files[i..], FileProcessor(readExcel)))
      {
        assert files[i..][0] == files[i] && files[i..][1..] == files[i + 1..];
        if HasName(files[i]) {
          var info := ProcessFile(files[i].filename.value, files[i].content);
          if info.Err? {
            return Err(info.error);
          }
          PrependOne(processed, info.value, ProcessFiles(files[i + 1..], FileProcessor(readExcel)));
          processed := processed + [info.value];
        }
        i := i + 1;
      }
      assert files[i..] == [] && processed + [] == processed;
      return Ok(processed);
    }

    /** _build_update_data: the update dictionary filled key by key. */
    method BuildUpdateData(req: UpdateRequest, taskId: string, utcMicros: int) returns (r: Result<Document, ServiceError>)
      ensures r == Compose(req, taskId, IstNow(utcMicros), FileProcessor(readExcel))
    {
      var updateData: Document := map[];
      var userInputFiles: seq<FileInfo> := [];
      var expectedOutputFile: Option<FileInfo> := None;
      if req.userInput.Some? && req.userInput.value != [] {
        var inputFilesData := ProcessInputFiles(req.userInput.value);
        if inputFilesData.Err? {
          return Err(inputFilesData.error);
        }
        if inputFilesData.value != [] {
          userInputFiles := inputFilesData.value;
          updateData := updateData["user_input" := DocList(DumpAll(inputFilesData.value))];
        }
      }
      if req.expectedOutput.Some? && HasName(req.expectedOutput.value) {
        var fileData := ProcessFile(req.expectedOutput.value.filename.value, req.expectedOutput.value.content);
        if fileData.Err? {
          return Err(fileData.error);
        }
        expectedOutputFile := Some(fileData.value);
        updateData := updateData["expected_output" := StrList(fileData.value.columns)];
      }
      if req.instructionFromUser.Some? {
        updateData := updateData["instruction_from_user" := Str(req.instructionFromUser.value)];
      }
      if req.clientEmailAddress.Some? {
        updateData := updateData["client_email_address" := Str(req.clientEmailAddress.value)];
      }
      if updateData == map[] {
        return Err(NoDataProvided);
      }
      updateData := updateData["task_id" := Str(taskId)];
      updateData := updateData["updated_date" := Date(IstNow(utcMicros))];
      updateData := updateData[UserInputFilesKey := ShadowFiles(userInputFiles)];
      updateData := updateData[ExpectedOutputColumnsKey := ShadowColumns(expectedOutputFile)];
      return Ok(updateData);
    }

    /** update_record: the linear sequence validate, connect, find, build, pop the shadow entries,
        write, report. */
    method UpdateRecord(recordId: string, req: UpdateRequest, taskId: string, utcMicros: int)
      returns (r: Result<UpdateRecordResponse, ServiceError>)
      requires Valid()
      modifies this, db
      ensures Valid()
      ensures var o := UpdateSpec(old(db.docs), recordId, req, taskId, utcMicros, FileProcessor(readExcel));
        r == o.result && db.docs == o.docs && db.log == old(db.log) + o.trace
      ensures connects == if IsObjectIdText(recordId) && old(collection) == null then old(connects) + 1 else old(connects)
    {
      var objId := ValidateObjectId(recordId);
      if objId.Err? {
        return Err(objId.error);
      }
      var coll := GetCollection();
      var found := coll.FindOne(objId.value);
      if found.None? {
        return Err(RecordNotFound);
      }
      var built := BuildUpdateData(req, taskId, utcMicros);
      if built.Err? {
        return Err(built.error);
      }
      var updateData := built.value;
      var userInputFiles := PopValue(updateData, UserInputFilesKey);
      updateData := updateData - {UserInputFilesKey};
      var expectedOutputColumns := PopValue(updateData, ExpectedOutputColumnsKey);
      updateData := updateData - {ExpectedOutputColumnsKey};
      UpdateSpecWrite(old(db.docs), recordId, req, taskId, utcMicros, FileProcessor(readExcel), objId.value, built.value);
      assert updateData == Unshadow(built.value);
      var modifiedCount := coll.UpdateOne(objId.value, updateData);
      if modifiedCount == 0 {
        return Ok(Unchanged);
      }
      var data := UpdateRecordData(
        updateData["task_id"].s,
        FilesOf(userInputFiles),
        ColumnsOf(expectedOutputColumns),
        GetStr(updateData, "instruction_from_user"),
        GetStr(updateData, "client_email_address"),
        updateData["updated_date"].t);
      return Ok(Success(data));
    }

    /** check_db_connection: never fails; a failed ping becomes an "error" response carrying the
        exception's message. */
    method CheckDbConnection(pingError: Option<string>) returns (r: DbConnectionResponse)
      requires Valid()
      modifies this
      ensures Valid() && collection == db
      ensures pingError.None? ==> r == DbConnectionResponse("connected", "MongoDB connection successful", Some(databaseName))
      ensures pingError.Some? ==> r == DbConnectionResponse("error", pingError.value, None)
    {
      var _ := GetCollection();
      if pingError.Some? {
        return DbConnectionResponse("error", pingError.value, None);
      }
      return DbConnectionResponse("connected", "MongoDB connection successful", Some(databaseName));
    }
  }

  /** The outcome of the whole list, given the files already processed. */
  function Prepend(done: seq<FileInfo>, rest: Result<seq<FileInfo>, ServiceError>): Result<seq<FileInfo>, ServiceError> {
    match rest
    case Ok(more) => Ok(done + more)
    case Err(e) => Err(e)
  }

  lemma PrependNothing(r: Result<seq<FileInfo>, ServiceError>)
    ensures Prepend([], r) == r
  {
    if r.Ok? { assert [] + r.value == r.value; }
  }

  lemma PrependOne(done: seq<FileInfo>, info: FileInfo, rest: Result<seq<FileInfo>, ServiceError>)
    ensures Prepend(done, Prepend([info], rest)) == Prepend(done + [info], rest)
  {
    if rest.Ok? { assert done + ([info] + rest.value) == (done + [info]) + rest.value; }
  }
}
