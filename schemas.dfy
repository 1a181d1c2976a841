/** The records and response shapes the pipeline reads and writes: the FileInfo value embedded in
    a record, the loosely typed values of a stored document, the JSON-schema validator that the
    collection is created with, and the responses returned to the HTTP layer. */
module Schemas {
  import opened Base

  datatype FileInfo = FileInfo(filename: string, columns: seq<string>)

  /** A naive timestamp: wall-clock microseconds since 1970-01-01T00:00 in the zone it was taken
      in, with no offset stored. */
  datatype NaiveDateTime = NaiveDateTime(micros: int)

  /** A value in an update dictionary. Files is the typed FileInfo list kept only in the in-memory
      shadow entries; every other constructor has a BSON counterpart. */
  datatype Value =
    | Null
    | Str(s: string)
    | Int(i: int)
    | StrList(items: seq<string>)
    | DocList(docs: seq<map<string, Value>>)
    | Date(t: NaiveDateTime)
    | Files(files: seq<FileInfo>)

  type Document = map<string, Value>

  /** FileInfo.model_dump(): the plain mapping that is stored. */
  function ModelDump(f: FileInfo): (d: Document)
    ensures d.Keys == {"filename", "columns"}
  {
    map["filename" := Str(f.filename), "columns" := StrList(f.columns)]
  }

  /** Reads a stored mapping back as a FileInfo, as pydantic validation would. */
  function LoadFileInfo(d: Document): Option<FileInfo> {
    if "filename" in d && "columns" in d && d["filename"].Str? && d["columns"].StrList? then
      Some(FileInfo(d["filename"].s, d["columns"].items))
    else None
  }

  /** Dumping loses the type but nothing else: the stored form reads back as the same FileInfo. */
  lemma DumpThenLoad(f: FileInfo)
    ensures LoadFileInfo(ModelDump(f)) == Some(f)
  {
  }

  predicate IsStrValue(d: Document, key: string) { key in d ==> d[key].Str? }
  predicate IsStrListValue(d: Document, key: string) { key in d ==> d[key].StrList? }
  predicate IsDateValue(d: Document, key: string) { key in d ==> d[key].Date? }

  /** One element of the `user_input` array: an object with a string `filename` and a string-array `columns`. */
  predicate IsFileObject(d: Document) {
    "filename" in d && "columns" in d && d["filename"].Str? && d["columns"].StrList?
  }

  /** The $jsonSchema validator of test_collection. `_id` is the key of the store and not part of
      the document here; `progress` is modelled for integers only. */
  predicate ConformsToSchema(d: Document) {
    && "task_id" in d && "created_date" in d
    && IsStrValue(d, "task_id")
    && ("user_input" in d ==>
          d["user_input"].DocList? && forall i :: 0 <= i < |d["user_input"].docs| ==> IsFileObject(d["user_input"].docs[i]))
    && IsStrListValue(d, "expected_output")
    && IsStrValue(d, "instruction_from_user")
    && IsStrValue(d, "client_email_address")
    && ("progress" in d ==> d["progress"].Int? && 0 <= d["progress"].i <= 100)
    && IsDateValue(d, "created_date")
    && IsDateValue(d, "updated_date")
    && IsStrValue(d, "error_message")
  }

  datatype UpdateRecordData = UpdateRecordData(
    taskId: string,
    userInput: Option<seq<FileInfo>>,
    expectedOutput: Option<seq<string>>,
    instructionFromUser: Option<string>,
    clientEmailAddress: Option<string>,
    updatedDate: NaiveDateTime)

  datatype UpdateRecordResponse = UpdateRecordResponse(status: string, message: string, data: Option<UpdateRecordData>)

  datatype DbConnectionResponse = DbConnectionResponse(status: string, message: string, database: Option<string>)

  datatype HealthResponse = HealthResponse(status: string, message: string)
}
