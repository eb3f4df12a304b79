/** What crosses the boundary to the remote service: JSON values, the
    records the list endpoints return, the service calls the two pages
    make, and how such a call can end. */
module Remote {
  import opened Js

  datatype Json = JStr(s: string) | JNum(n: int) | JNull

  /** A JSON object: request bodies and query parameters. */
  type JsonObject = map<string, Json>

  /** `JSON.stringify` of a number: NaN goes over the wire as null. */
  function NumberJson(x: JsNumber): (j: Json)
    ensures j == JNull <==> x == NaN
    ensures x.Num? ==> j == JNum(x.n)
  {
    match x
    case Num(n) => JNum(n)
    case NaN => JNull
  }

  /** An employee as `GET /employees` returns it; the date is the
      `YYYY-MM-DD` text of the JSON body. */
  datatype Employee = Employee(
    id: int,
    employee_id: string,
    full_name: string,
    email: string,
    department: string,
    date_of_joining: string)

  /** An attendance record as `GET /attendance` returns it. */
  datatype AttendanceRecord = AttendanceRecord(id: int, employee_id: int, date: string, status: string)

  /** What a failed call throws, read as `err.response.data.detail` and
      `err.message`; the empty string stands for a missing or empty property
      (both are falsy). */
  datatype RemoteError = RemoteError(detail: string, message: string)

  /** `err?.response?.data?.detail || err?.message || fallback`: the server's
      detail wins, then the transport message, then the page's own text, so
      a failure never shows an empty message when the fallback is not empty. */
  function ErrorText(err: RemoteError, fallback: string): (text: string)
    ensures text == err.detail || text == err.message || text == fallback
    ensures err.detail != "" ==> text == err.detail
    ensures err.detail == "" && err.message != "" ==> text == err.message
    ensures text == "" ==> fallback == ""
  {
    if err.detail != "" then err.detail
    else if err.message != "" then err.message
    else fallback
  }

  /** How one remote call ends. */
  datatype Outcome<+T> = Done(value: T) | Failed(error: RemoteError)

  /** The body of a list response: `Array.isArray(data)` or not. */
  datatype ListData<+T> = Items(items: seq<T>) | NotAnArray

  /** `Array.isArray(data) ? data : []`. */
  function ItemsOrEmpty<T>(data: ListData<T>): (items: seq<T>)
    ensures data.Items? ==> items == data.items
    ensures data.NotAnArray? ==> items == []
  {
    match data
    case Items(items) => items
    case NotAnArray => []
  }

  /** A call into the service layer (`services/employees` and
      `services/attendance`). `ListAttendance` carries its two named
      arguments; the empty date stands for `undefined`. */
  datatype Call =
    | ListEmployees
    | CreateEmployee(payload: JsonObject)
    | UpdateEmployee(id: int, payload: JsonObject)
    | DeleteEmployee(id: int)
    | ListAttendance(employeeId: JsNumber, date: string)
    | CreateAttendance(payload: JsonObject)
    | UpdateAttendance(id: int, payload: JsonObject)
    | DeleteAttendance(id: int)
}
