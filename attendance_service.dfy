/** The attendance client: how each service function turns its arguments
    into an HTTP request on the `/attendance` resource. */
module AttendanceService {
  import opened Common
  import opened Js
  import opened Remote

  /** An HTTP request as the `api` instance is asked to send it. */
  datatype Request =
    | Get(path: string, params: JsonObject)
    | Post(path: string, body: JsonObject)
    | Put(path: string, body: JsonObject)
    | Delete(path: string)

  const CollectionPath := "/attendance"
  const ItemPrefix := "/attendance/"

  /** The query parameters of `listAttendance` for its arguments, as a
      value: each argument is present only when it is truthy. */
  function ListParamsOf(employeeId: JsNumber, date: string): (params: JsonObject)
    ensures "employee_id" in params <==> Truthy(employeeId)
    ensures "employee_id" in params ==> params["employee_id"] == JNum(employeeId.n)
    ensures "date" in params <==> date != ""
    ensures "date" in params ==> params["date"] == JStr(date)
    ensures params.Keys <= {"employee_id", "date"}
  {
    var withId: JsonObject := if Truthy(employeeId) then map["employee_id" := JNum(employeeId.n)] else map[];
    if date != "" then withId["date" := JStr(date)] else withId
  }

  /** The query parameters of `listAttendance`, built one key at a time:
      each argument is sent only when it is truthy (so an employee id of 0
      or NaN and an empty date are left out), and nothing else is sent. */
  method ListParams(employeeId: JsNumber, date: string) returns (params: JsonObject)
    ensures params == ListParamsOf(employeeId, date)
    ensures "employee_id" in params <==> Truthy(employeeId)
    ensures "employee_id" in params ==> params["employee_id"] == JNum(employeeId.n)
    ensures "date" in params <==> date != ""
    ensures "date" in params ==> params["date"] == JStr(date)
    ensures params.Keys <= {"employee_id", "date"}
    ensures !Truthy(employeeId) && date == "" ==> params == map[]
  {
    params := map[];
    if Truthy(employeeId) {
      params := params["employee_id" := JNum(employeeId.n)];
    }
    if date != "" {
      params := params["date" := JStr(date)];
    }
  }

  /** `listAttendance({ employeeId, date })`: a GET on the collection. */
  method ListRequest(employeeId: JsNumber, date: string) returns (req: Request)
    ensures req == Get(CollectionPath, ListParamsOf(employeeId, date))
    ensures req.Get? && req.path == CollectionPath
    ensures "employee_id" in req.params <==> Truthy(employeeId)
    ensures "employee_id" in req.params ==> req.params["employee_id"] == JNum(employeeId.n)
    ensures "date" in req.params <==> date != ""
    ensures "date" in req.params ==> req.params["date"] == JStr(date)
    ensures req.params.Keys <= {"employee_id", "date"}
  {
    var params := ListParams(employeeId, date);
    req := Get(CollectionPath, params);
  }

  /** The path of one record, `/attendance/${id}`: the prefix followed by
      text that reads back as the id. */
  function ItemPath(id: int): (path: string)
    ensures |path| > |ItemPrefix| && path[..|ItemPrefix|] == ItemPrefix
    ensures NumberOf(path[|ItemPrefix|..]) == Num(id)
  {
    NumberOfIntToString(id);
    assert (ItemPrefix + IntToString(id))[|ItemPrefix|..] == IntToString(id);
    ItemPrefix + IntToString(id)
  }

  /** Records with different ids never share a path. */
  lemma ItemPathInjective(a: int, b: int)
    requires a != b
    ensures ItemPath(a) != ItemPath(b)
  {
    assert NumberOf(ItemPath(a)[|ItemPrefix|..]) == Num(a);
  }

  /** `createAttendance(payload)`: the payload is posted unchanged. */
  function CreateRequest(payload: JsonObject): (req: Request)
    ensures req.Post? && req.path == CollectionPath && req.body == payload
  {
    Post(CollectionPath, payload)
  }

  /** `updateAttendance(id, payload)`: a PUT on the record's path. */
  function UpdateRequest(id: int, payload: JsonObject): (req: Request)
    ensures req.Put? && req.path == ItemPath(id) && req.body == payload
  {
    Put(ItemPath(id), payload)
  }

  /** `deleteAttendance(id)`: a DELETE on the record's path. */
  function DeleteRequest(id: int): (req: Request)
    ensures req.Delete? && req.path == ItemPath(id)
  {
    Delete(ItemPath(id))
  }

  /** An update and a delete of the same id address the same record, and
      requests for different ids never do. */
  lemma UpdateDeleteTargets(a: int, b: int, payload: JsonObject)
    ensures UpdateRequest(a, payload).path == DeleteRequest(a).path
    ensures UpdateRequest(a, payload).path == DeleteRequest(b).path <==> a == b
  {
    if a != b {
      ItemPathInjective(a, b);
    }
  }

  /** The request a page's attendance call is sent as: a list is a GET on
      the collection with the list parameters, and a create, update or
      delete goes to the collection or the record's path with its payload
      unchanged. The employee calls go through another client, so those
      have none here. */
  function RequestFor(call: Call): (req: Option<Request>)
    ensures req.Some? <==>
      call.ListAttendance? || call.CreateAttendance? || call.UpdateAttendance? || call.DeleteAttendance?
    ensures call.ListAttendance? ==> req == Some(Get(CollectionPath, ListParamsOf(call.employeeId, call.date)))
    ensures call.CreateAttendance? ==> req.Some? && req.value.Post? && req.value.path == CollectionPath
    ensures call.UpdateAttendance? ==> req.Some? && req.value.Put? && req.value.path == ItemPath(call.id)
    ensures call.DeleteAttendance? ==> req.Some? && req.value.Delete? && req.value.path == ItemPath(call.id)
    ensures call.CreateAttendance? || call.UpdateAttendance? ==> req.Some? && req.value.body == call.payload
  {
    match call
    case ListAttendance(employeeId, date) => Some(Get(CollectionPath, ListParamsOf(employeeId, date)))
    case CreateAttendance(payload) => Some(CreateRequest(payload))
    case UpdateAttendance(id, payload) => Some(UpdateRequest(id, payload))
    case DeleteAttendance(id) => Some(DeleteRequest(id))
    case _ => None
  }
}
