/** The record-store service (src/services/ContactService.js): what each
    operation sends to the store and how it reads the store's answer. The
    store client itself is outside the model; each of its calls is given to
    these functions as a `Reply`, the outcome the call happened to have. */
module ContactService {
  import opened Wrappers
  import opened Text
  import opened FormRules

  /** The status every new request is created with. */
  const StatusNew := "new"

  /** A contact request as the store returns it. `CreatedOn` is the creation
      time as an integer (later is larger). */
  datatype ContactRecord = ContactRecord(
    Id: int,
    Name: string,
    email: string,
    company: string,
    phone: string,
    request_type: string,
    product_interest: string,
    message: string,
    deadline: string,
    status: string,
    CreatedOn: int)

  /** The record `createContactRequest` sends for a form. */
  datatype NewRecord = NewRecord(
    Name: string,
    email: string,
    company: string,
    phone: string,
    request_type: string,
    product_interest: string,
    message: string,
    deadline: string,
    status: string)

  /** How one call to the store client ended: it threw (or its promise was
      rejected), or it returned a response that may be null or undefined. */
  datatype Reply<T> = Threw | Returned(response: Option<T>)

  /** Why a service operation throws: the client's own error, rethrown, or
      the service's `new Error(message)` for an unsuccessful response. */
  datatype ServiceError = ClientError | Failed(message: string)

  /** One entry of a create or update response's `results`. */
  datatype ResultItem = ResultItem(data: ContactRecord)

  /** The response of `createRecord` and `updateRecord`; `results` may be absent. */
  datatype MutationResponse = MutationResponse(success: bool, results: Option<seq<ResultItem>>)

  /** The response of `deleteRecord`. */
  datatype DeleteResponse = DeleteResponse(success: bool)

  /** The response of `fetchRecords`: `data` may be absent, `total` too. */
  datatype FetchResponse = FetchResponse(data: Option<seq<ContactRecord>>, total: Option<int>)

  const CreateFailed := "Failed to create contact request"
  const UpdateFailed := "Failed to update contact request"
  const DeleteFailed := "Failed to delete contact request"

  // ---------------------------------------------------------------------
  // createContactRequest

  /** The table record a form is mapped to: renamed fields, the product list
      joined with ',', and status "new" whatever the form holds. */
  function ToRecord(fd: FormData): (rec: NewRecord)
    ensures rec.status == StatusNew
  {
    NewRecord(fd.name, fd.email, fd.company, fd.phone, fd.requestType,
              Join(fd.productInterest), fd.message, fd.deadline, StatusNew)
  }

  /** Reading a table record back as form data: the inverse field mapping,
      with the product list split on ','. */
  function ToFormData(rec: NewRecord): FormData
  {
    FormData(rec.Name, rec.email, rec.company, rec.phone, rec.request_type,
             Split(rec.product_interest), rec.message, rec.deadline)
  }

  /** Every form field reaches the record: a form with a non-empty product
      list of comma-free ids is recovered from its record. */
  lemma {:induction false} RecordRoundTrip(fd: FormData)
    requires fd.productInterest != []
    requires forall j :: 0 <= j < |fd.productInterest| ==> ',' !in fd.productInterest[j]
    ensures ToFormData(ToRecord(fd)) == fd
  {
    SplitJoin(fd.productInterest);
  }

  /** A form that passes step 2 with catalog ids only is recovered from its record. */
  lemma CatalogSelectionRoundTrip(fd: FormData)
    requires StepValid(fd, 2)
    requires forall j :: 0 <= j < |fd.productInterest| ==> fd.productInterest[j] in ProductCatalog
    ensures ToFormData(ToRecord(fd)) == fd
  {
    Step2Rules(fd);
    CatalogIdsCommaFree();
    RecordRoundTrip(fd);
  }

  /** `params.records` of the create call: exactly one record. */
  function CreateRecords(fd: FormData): seq<NewRecord>
  {
    [ToRecord(fd)]
  }

  /** The response is present, `success` is set and `results` is non-empty. */
  predicate Acknowledged(reply: Reply<MutationResponse>)
  {
    && reply.Returned?
    && reply.response.Some?
    && reply.response.value.success
    && reply.response.value.results.Some?
    && |reply.response.value.results.value| > 0
  }

  /** How `createContactRequest` and `updateContactRequest` read the reply:
      the first result's data exactly when the reply is acknowledged; the
      client's error when the call threw; otherwise `new Error(failure)`. */
  function MutationResult(reply: Reply<MutationResponse>, failure: string): (r: Result<ContactRecord, ServiceError>)
    ensures r.Success? <==> Acknowledged(reply)
    ensures r.Success? ==> r.value == reply.response.value.results.value[0].data
    ensures reply.Threw? ==> r == Failure(ClientError)
    ensures reply.Returned? && !Acknowledged(reply) ==> r == Failure(Failed(failure))
  {
    match reply
    case Threw => Failure(ClientError)
    case Returned(response) =>
      if Acknowledged(reply) then Success(response.value.results.value[0].data)
      else Failure(Failed(failure))
  }

  // ---------------------------------------------------------------------
  // getContactRequests

  /** A sort key of a fetch. */
  datatype Order = Order(field: string, direction: string)

  /** One `where` condition of a fetch. */
  datatype Condition = Condition(field: string, operator: string, value: string)

  /** `pagingInfo`: a limit and, when paging, an offset. */
  datatype Paging = Paging(limit: int, offset: Option<int>)

  /** The value of one key of a fetch's parameter object. */
  datatype Param =
    | Fields(names: seq<string>)
    | OrderBy(orders: seq<Order>)
    | Where(conditions: seq<Condition>)
    | PagingInfo(paging: Paging)

  /** A fetch's parameter object, key by key. */
  type Params = map<string, Param>

  /** The fields every fetch asks for. */
  const FieldList: seq<string> :=
    ["Id", "Name", "email", "company", "phone", "request_type",
     "product_interest", "message", "deadline", "status", "CreatedOn"]

  /** The parameters a fetch has before the caller's are spread over them. */
  const DefaultParams: Params :=
    map["fields" := Fields(FieldList), "orderBy" := OrderBy([Order("CreatedOn", "desc")])]

  /** `{ fields, orderBy, ...params }`: every key the caller gives replaces
      the default, and the defaults the caller leaves out stay. */
  function RequestParams(params: Params): (merged: Params)
    ensures merged.Keys == DefaultParams.Keys + params.Keys
    ensures forall k :: k in params ==> merged[k] == params[k]
    ensures forall k :: k in DefaultParams && k !in params ==> merged[k] == DefaultParams[k]
  {
    DefaultParams + params
  }

  /** With no caller keys the fetch asks for the fixed field list, newest first. */
  lemma DefaultFetch()
    ensures RequestParams(map[]) == DefaultParams
    ensures RequestParams(map[])["fields"] == Fields(FieldList)
    ensures RequestParams(map[])["orderBy"] == OrderBy([Order("CreatedOn", "desc")])
  {
    assert DefaultParams + map[] == DefaultParams;
  }

  // ---------------------------------------------------------------------
  // updateContactRequest

  /** A JSON value of an update record. */
  datatype Json = JNum(n: int) | JStr(s: string)

  /** `{ Id: requestId, ...updateData }`: the update record has an `Id` and
      every key of `updateData`, whose values win, so `Id` is `requestId`
      unless `updateData` itself has an `Id`. */
  function UpdateRecord(requestId: int, updateData: map<string, Json>): (rec: map<string, Json>)
    ensures rec.Keys == {"Id"} + updateData.Keys
    ensures forall k :: k in updateData ==> rec[k] == updateData[k]
    ensures rec["Id"] == JNum(requestId) <==> "Id" !in updateData || updateData["Id"] == JNum(requestId)
  {
    map["Id" := JNum(requestId)] + updateData
  }

  /** `params.records` of the update call: exactly one record. */
  function UpdateRecords(requestId: int, updateData: map<string, Json>): seq<map<string, Json>>
  {
    [UpdateRecord(requestId, updateData)]
  }

  /** A status change sends the record `{ Id, status }`. */
  lemma StatusUpdateRecord(requestId: int, status: string)
    ensures UpdateRecord(requestId, map["status" := JStr(status)])
         == map["Id" := JNum(requestId), "status" := JStr(status)]
  {
  }

  // ---------------------------------------------------------------------
  // deleteContactRequest

  /** `params.RecordIds` of the delete call. */
  function DeleteRecordIds(requestId: int): seq<int>
  {
    [requestId]
  }

  /** How `deleteContactRequest` reads the reply: true exactly when the
      response is present with `success` set; otherwise it throws. */
  function DeleteResult(reply: Reply<DeleteResponse>): (r: Result<bool, ServiceError>)
    ensures r.Success? <==> reply.Returned? && reply.response.Some? && reply.response.value.success
    ensures r.Success? ==> r.value
    ensures reply.Threw? ==> r == Failure(ClientError)
    ensures reply.Returned? && r.Failure? ==> r == Failure(Failed(DeleteFailed))
  {
    match reply
    case Threw => Failure(ClientError)
    case Returned(response) =>
      if response.Some? && response.value.success then Success(true)
      else Failure(Failed(DeleteFailed))
  }
}
