/**
  The two decisions `CargoController` makes itself: the HTTP answer to a bulk
  upload, and the conversion of the 1-based `page` request parameter into the
  0-based page request of the cargo search.
 */
module CargoController {
  import opened Wrappers
  import opened JsonReader
  import opened JsonProcessing
  import opened Entities
  import opened CargoFilter

  datatype HttpStatus = Ok | ExpectationFailed | BadRequest

  /** The status and body of an upload answer; a null body is None. */
  datatype UploadResponse = UploadResponse(status: HttpStatus, body: Option<Tally>)

  /**
    The answer for the totals the import service returned: OK with both
    counts when at least one cargo was imported, EXPECTATION_FAILED with no
    body otherwise, whatever the failure count.
   */
  function RespondToUpload(total: Tally): (resp: UploadResponse)
    ensures resp.status == Ok <==> total.successfulImports > 0
    ensures resp.status == Ok ==> resp.body == Some(total)
    ensures resp.status != Ok ==> resp == UploadResponse(ExpectationFailed, None)
  {
    if total.successfulImports > 0 then
      UploadResponse(Ok, Some(Tally(total.successfulImports, total.failedImports)))
    else
      UploadResponse(ExpectationFailed, None)
  }

  /**
    `uploadJsonFile`: the `file` request parameter is required, so a request
    without any file part is answered 400 before the import runs; otherwise
    the import's totals decide the answer.
   */
  function UploadJsonFile(files: seq<JsonFile>, decode: Decoder, rejects: SaveOracle, report: Outcome<string>)
    : (resp: UploadResponse)
    ensures |files| == 0 ==> resp == UploadResponse(BadRequest, None)
    ensures |files| > 0 ==> (resp.status == Ok <==> UploadFromJson(files, decode, rejects, report).total.successfulImports > 0)
    ensures |files| > 0 && resp.status != Ok ==> resp == UploadResponse(ExpectationFailed, None)
    ensures resp.status == Ok ==> resp.body == Some(UploadFromJson(files, decode, rejects, report).total)
    ensures resp.status == Ok ==> |UploadFromJson(files, decode, rejects, report).stored| > 0
    ensures |files| > 0 ==> (resp.status == Ok <==> CompletedSaves(ProcessFiles(files, decode, rejects)) > 0)
  {
    if |files| == 0 then UploadResponse(BadRequest, None)
    else RespondToUpload(UploadFromJson(files, decode, rejects, report).total)
  }

  /** Even without the validation step, an empty batch could never be answered OK. */
  lemma EmptyBatchNeverOk(decode: Decoder, rejects: SaveOracle, report: Outcome<string>)
    ensures RespondToUpload(UploadFromJson([], decode, rejects, report).total) == UploadResponse(ExpectationFailed, None)
  {
    assert Gather(ProcessFiles([], decode, rejects)) == [];
  }

  const Int32Min: int := -0x8000_0000
  const Int32Max: int := 0x7fff_ffff

  predicate IsInt32(x: int) {
    Int32Min <= x <= Int32Max
  }

  /** Java `int` arithmetic: the result reduced into the 32-bit two's-complement range. */
  function WrapInt32(x: int): (r: int)
    ensures IsInt32(r)
    ensures (r - x) % 0x1_0000_0000 == 0
    ensures IsInt32(x) ==> r == x
  {
    (x - Int32Min) % 0x1_0000_0000 + Int32Min
  }

  const DefaultPage: int := 1
  const DefaultSize: int := 10

  /** A Spring Data page request: 0-based page number and page size. */
  datatype PageRequest = PageRequest(pageNumber: nat, pageSize: nat)

  const PageIndexMessage: string := "Page index must not be less than zero"
  const PageSizeMessage: string := "Page size must not be less than one"

  /** `PageRequest.of`: the index is checked first, then the size. */
  function PageRequestOf(index: int, size: int): (r: Result<PageRequest, string>)
    ensures r.Success? <==> index >= 0 && size >= 1
    ensures r.Success? ==> r.value == PageRequest(index, size)
    ensures index < 0 ==> r == Failure(PageIndexMessage)
  {
    if index < 0 then Failure(PageIndexMessage)
    else if size < 1 then Failure(PageSizeMessage)
    else Success(PageRequest(index, size))
  }

  /** As written: `PageRequest.of(page - 1, size)` with `page - 1` computed in Java `int`. */
  function ToPageRequestAsWritten(page: int, size: int): (r: Result<PageRequest, string>)
    requires IsInt32(page) && IsInt32(size)
    ensures page > Int32Min ==> (r.Success? <==> page >= 1 && size >= 1)
    ensures page == Int32Min ==> (r.Success? <==> size >= 1)
    ensures r.Success? ==> r.value.pageSize == size && (r.value.pageNumber + 1 - page) % 0x1_0000_0000 == 0
  {
    PageRequestOf(WrapInt32(page - 1), size)
  }

  /** The smallest `int` page wraps to the largest page index instead of being rejected. */
  lemma MinPageWrapsAround()
    ensures ToPageRequestAsWritten(Int32Min, DefaultSize) == Success(PageRequest(Int32Max, DefaultSize))
  {
    assert WrapInt32(Int32Min - 1) == Int32Max;
  }

  /**
    The conversion with the 1-based page checked before it is decremented:
    accepted exactly for page >= 1 and size >= 1, and the page number the
    search answer reports (index + 1) is the page that was asked for.
   */
  function ToPageRequest(page: int, size: int): (r: Result<PageRequest, string>)
    requires IsInt32(page) && IsInt32(size)
    ensures r.Success? <==> page >= 1 && size >= 1
    ensures r.Success? ==> r.value.pageNumber + 1 == page && r.value.pageSize == size
    ensures page < 1 ==> r == Failure(PageIndexMessage)
  {
    if page < 1 then Failure(PageIndexMessage) else PageRequestOf(page - 1, size)
  }

  /** The corrected conversion differs from the written one only at the smallest `int`. */
  lemma AsWrittenAgreesAboveMin(page: int, size: int)
    requires IsInt32(page) && IsInt32(size) && page > Int32Min
    ensures ToPageRequestAsWritten(page, size) == ToPageRequest(page, size)
  {
  }

  /** Without parameters the search asks for the first page of ten. */
  lemma DefaultPageRequest()
    ensures ToPageRequest(DefaultPage, DefaultSize) == Success(PageRequest(0, 10))
  {
  }

  /** What `getCargoList` hands to the repository: the page request and the filter. */
  datatype CargoListQuery = CargoListQuery(pageable: PageRequest, filter: Specification)

  /** `getCargoList` up to the repository query. */
  function GetCargoList(page: int, size: int, req: SearchRequest): (r: Result<CargoListQuery, string>)
    requires IsInt32(page) && IsInt32(size)
    ensures r.Success? <==> page >= 1 && size >= 1
    ensures r.Success? ==> r.value.pageable == PageRequest(page - 1, size)
    ensures r.Success? ==> forall c :: r.value.filter(c) <==>
      && (Supplied(req.statuses) ==> StatusIn(req.statuses.value)(c))
      && (Supplied(req.vehicleTypes) ==> VehicleTypeIn(req.vehicleTypes.value)(c))
  {
    match ToPageRequest(page, size)
    case Failure(e) => Failure(e)
    case Success(pageable) =>
      BuildMeaning(req);
      Success(CargoListQuery(pageable, Build(Registered, req).value))
  }
}
