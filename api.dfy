/** The HTTP layer: the record-update endpoint's mapping from service errors to HTTP errors, and
    the health check. */
module Api {
  import opened Base
  import opened Schemas
  import opened FileUtils
  import opened RecordService

  /** fastapi.HTTPException. */
  datatype HttpException = HttpException(statusCode: int, detail: string)

  const InvalidIdDetail := "Invalid record ID format"
  const NotFoundDetail := "Record not found"
  const NoDataDetail := "No data provided for update"

  /** update_record_with_csv: a service result is passed through; each of the four domain errors
      becomes an HTTP error, 404 for a missing record and 400 for the others. */
  function UpdateRecordWithCsv(result: Result<UpdateRecordResponse, ServiceError>)
    : (r: Result<UpdateRecordResponse, HttpException>)
    ensures result.Ok? <==> r.Ok?
    ensures result.Ok? ==> r.value == result.value
    ensures result.Err? ==> (r.error.statusCode == 404 <==> result.error == RecordNotFound)
    ensures result.Err? ==> (r.error.statusCode == 400 <==> result.error != RecordNotFound)
    ensures result == Err(InvalidRecordId) ==> r == Err(HttpException(400, InvalidIdDetail))
    ensures result == Err(RecordNotFound) ==> r == Err(HttpException(404, NotFoundDetail))
    ensures result == Err(NoDataProvided) ==> r == Err(HttpException(400, NoDataDetail))
    ensures result.Err? && result.error.FileProcessing? ==> r == Err(HttpException(400, result.error.message))
  {
    match result
    case Ok(response) => Ok(response)
    case Err(InvalidRecordId) => Err(HttpException(400, InvalidIdDetail))
    case Err(RecordNotFound) => Err(HttpException(404, NotFoundDetail))
    case Err(NoDataProvided) => Err(HttpException(400, NoDataDetail))
    case Err(FileProcessing(message)) => Err(HttpException(400, message))
  }

  /** The endpoint over the store: the service's outcome, with its result mapped. */
  function Patch(docs: map<ObjectId, Document>, recordId: string, req: UpdateRequest, taskId: string, utcMicros: int,
                 readExcelHeader: seq<byte> -> Result<seq<string>, string>)
    : (Result<UpdateRecordResponse, HttpException>, map<ObjectId, Document>)
  {
    var o := UpdateSpec(docs, recordId, req, taskId, utcMicros, FileProcessor(readExcelHeader));
    (UpdateRecordWithCsv(o.result), o.docs)
  }

  /** A malformed id answers 400 "Invalid record ID format" and leaves the store as it was. */
  lemma MalformedIdIs400(docs: map<ObjectId, Document>, recordId: string, req: UpdateRequest, taskId: string,
                         utcMicros: int, readExcelHeader: seq<byte> -> Result<seq<string>, string>)
    requires !IsObjectIdText(recordId)
    ensures Patch(docs, recordId, req, taskId, utcMicros, readExcelHeader) == (Err(HttpException(400, InvalidIdDetail)), docs)
  {
    InvalidIdFirst(docs, recordId, req, taskId, utcMicros, FileProcessor(readExcelHeader));
  }

  /** A well-formed id of no record answers 404 "Record not found", whatever was uploaded. */
  lemma UnknownRecordIs404(docs: map<ObjectId, Document>, recordId: string, req: UpdateRequest, taskId: string,
                           utcMicros: int, readExcelHeader: seq<byte> -> Result<seq<string>, string>)
    requires IsObjectIdText(recordId) && ValidateObjectId(recordId).value !in docs
    ensures Patch(docs, recordId, req, taskId, utcMicros, readExcelHeader) == (Err(HttpException(404, NotFoundDetail)), docs)
  {
    MissingRecordFirst(docs, recordId, req, req, taskId, utcMicros, FileProcessor(readExcelHeader));
  }

  /** An update of an existing record with nothing supplied answers 400 "No data provided for
      update" and writes nothing. */
  lemma EmptyRequestIs400(docs: map<ObjectId, Document>, recordId: string, taskId: string,
                          utcMicros: int, readExcelHeader: seq<byte> -> Result<seq<string>, string>)
    requires IsObjectIdText(recordId) && ValidateObjectId(recordId).value in docs
    ensures Patch(docs, recordId, UpdateRequest(None, None, None, None), taskId, utcMicros, readExcelHeader)
         == (Err(HttpException(400, NoDataDetail)), docs)
  {
    var req := UpdateRequest(None, None, None, None);
    var process := FileProcessor(readExcelHeader);
    NoDataIff(req, taskId, IstNow(utcMicros), process);
    FailedBuildWritesNothing(docs, recordId, req, taskId, utcMicros, process);
  }

  /** An extractor failure is a 400 whose detail names the file, so it can never be mistaken for
      one of the fixed details. */
  lemma ExtractorErrorsDistinct(content: seq<byte>, filename: string, readExcelHeader: seq<byte> -> Result<seq<string>, string>)
    requires Extracted(content, filename, readExcelHeader).Err?
    ensures var r := UpdateRecordWithCsv(Err(FileProcessing(Extracted(content, filename, readExcelHeader).error)));
      && r.error.statusCode == 400
      && r.error.detail[..|ErrorPrefix|] == ErrorPrefix
      && r.error.detail !in {InvalidIdDetail, NotFoundDetail, NoDataDetail}
  {
    ExtractedErrorMessage(content, filename, readExcelHeader);
    var d := Extracted(content, filename, readExcelHeader).error;
    assert d[0] == ErrorPrefix[0] == 'E';
  }

  /** health_check: the server always reports itself healthy. */
  function HealthCheck(): (r: HealthResponse)
    ensures r.status == "healthy"
  {
    HealthResponse("healthy", "Server is running")
  }
}
