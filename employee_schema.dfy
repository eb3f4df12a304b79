/** The request and response shapes of the employee resource on the
    server: `EmployeeCreate`, `EmployeeUpdate` and `EmployeeOut`, written as
    validation functions over the JSON body. Keys a shape does not declare
    are ignored, every declared field is checked, and a failed validation
    reports the set of fields that failed. The e-mail check is a parameter
    `isEmail`, standing for the `EmailStr` type. */
module EmployeeSchema {
  import opened Common
  import opened Js
  import opened Remote

  /** A calendar date of the proleptic Gregorian calendar. */
  datatype Date = Date(year: int, month: int, day: int)

  predicate IsLeapYear(y: int) {
    y % 4 == 0 && (y % 100 != 0 || y % 400 == 0)
  }

  function DaysInMonth(y: int, m: int): (n: int)
    requires 1 <= m <= 12
    ensures 28 <= n <= 31
    ensures m == 2 ==> (n == 29 <==> IsLeapYear(y))
  {
    if m == 2 then (if IsLeapYear(y) then 29 else 28)
    else if m == 4 || m == 6 || m == 9 || m == 11 then 30
    else 31
  }

  /** The dates a `date` value can hold: years 1 to 9999. */
  predicate ValidDate(d: Date) {
    && 1 <= d.year <= 9999
    && 1 <= d.month <= 12
    && 1 <= d.day <= DaysInMonth(d.year, d.month)
  }

  /** `n` written with exactly `width` digits, zeros in front. */
  function Padded(n: nat, width: nat): (s: string)
    ensures |s| == width && AllDigits(s)
  {
    if width == 0 then [] else Padded(n / 10, width - 1) + [DigitChar(n % 10)]
  }

  function Pow10(k: nat): (p: nat)
    ensures p >= 1
  {
    if k == 0 then 1 else 10 * Pow10(k - 1)
  }

  /** Reading back a padded number gives the number when it fits. */
  lemma {:induction false} PaddedValue(n: nat, width: nat)
    requires n < Pow10(width)
    ensures DecimalValue(Padded(n, width)) == n
  {
    if width > 0 {
      var s := Padded(n, width);
      assert s[..|s| - 1] == Padded(n / 10, width - 1);
      PaddedValue(n / 10, width - 1);
    }
  }

  /** `YYYY-MM-DD`, the text of a date in JSON bodies and in date inputs. */
  function FormatDate(d: Date): (s: string)
    requires ValidDate(d)
    ensures |s| == 10 && s[4] == '-' && s[7] == '-'
  {
    Padded(d.year, 4) + "-" + Padded(d.month, 2) + "-" + Padded(d.day, 2)
  }

  /** Parses `YYYY-MM-DD` text into a date, rejecting impossible dates
      (month 13, 31 April, 29 February outside a leap year). */
  function ParseDate(s: string): (d: Option<Date>)
    ensures d.Some? ==> ValidDate(d.value) && |s| == 10
  {
    if |s| == 10 && s[4] == '-' && s[7] == '-'
       && AllDigits(s[..4]) && AllDigits(s[5..7]) && AllDigits(s[8..])
    then
      var d := Date(DecimalValue(s[..4]), DecimalValue(s[5..7]), DecimalValue(s[8..]));
      if ValidDate(d) then Some(d) else None
    else None
  }

  /** A formatted date parses back to itself. */
  lemma ParseFormatDate(d: Date)
    requires ValidDate(d)
    ensures ParseDate(FormatDate(d)) == Some(d)
  {
    var s := FormatDate(d);
    assert s[..4] == Padded(d.year, 4);
    assert s[5..7] == Padded(d.month, 2);
    assert s[8..] == Padded(d.day, 2);
    PaddedValue(d.year, 4);
    PaddedValue(d.month, 2);
    PaddedValue(d.day, 2);
  }

  /** Text that parses as a date is the formatted form of that date: there
      is exactly one spelling per date. */
  lemma FormatParseDate(s: string)
    requires ParseDate(s).Some?
    ensures FormatDate(ParseDate(s).value) == s
  {
    var d := ParseDate(s).value;
    DigitsPadded(s[..4]);
    DigitsPadded(s[5..7]);
    DigitsPadded(s[8..]);
    assert s == s[..4] + "-" + s[5..7] + "-" + s[8..];
  }

  /** A run of digits is the padded form of its own value. */
  lemma {:induction false} DigitsPadded(s: string)
    requires AllDigits(s)
    ensures DecimalValue(s) < Pow10(|s|)
    ensures Padded(DecimalValue(s), |s|) == s
  {
    if s != [] {
      var init := s[..|s| - 1];
      DigitsPadded(init);
      var v := DecimalValue(s);
      assert v / 10 == DecimalValue(init);
      assert v % 10 == s[|s| - 1] as int - '0' as int;
      assert DigitChar(v % 10) == s[|s| - 1];
      assert s == init + [s[|s| - 1]];
    }
  }

  const CodeMax := 50
  const NameMax := 200
  const DepartmentMax := 100

  /** `Field(..., min_length=1, max_length=hi)` on a `str`: present, a JSON
      string, and between 1 and `hi` characters long. */
  predicate BoundedText(obj: JsonObject, key: string, hi: nat) {
    key in obj && obj[key].JStr? && 1 <= |obj[key].s| <= hi
  }

  /** An `EmailStr` field: present, a JSON string, and an e-mail address. */
  predicate EmailText(obj: JsonObject, key: string, isEmail: string -> bool) {
    key in obj && obj[key].JStr? && isEmail(obj[key].s)
  }

  /** A `date` field: present and `YYYY-MM-DD` text of a real date. */
  predicate DateText(obj: JsonObject, key: string) {
    key in obj && obj[key].JStr? && ParseDate(obj[key].s).Some?
  }

  /** The body of `POST /employees`, once validated. */
  datatype EmployeeCreate = EmployeeCreate(
    employee_id: string,
    full_name: string,
    email: string,
    department: string,
    date_of_joining: Date)

  /** The body of `PUT /employees/{id}`, once validated: it has no field for
      the employee code. */
  datatype EmployeeUpdate = EmployeeUpdate(
    full_name: string,
    email: string,
    department: string,
    date_of_joining: Date)

  /** An employee as the server answers with it: its id and every field of
      the create shape. */
  datatype EmployeeOut = EmployeeOut(
    id: int,
    employee_id: string,
    full_name: string,
    email: string,
    department: string,
    date_of_joining: Date)

  const CreateFields: set<string> := {"employee_id", "full_name", "email", "department", "date_of_joining"}
  const UpdateFields: set<string> := {"full_name", "email", "department", "date_of_joining"}

  /** The fields of a create body that fail their constraint; a missing
      date of joining is not a failure, it defaults. */
  function CreateErrors(obj: JsonObject, isEmail: string -> bool): (errors: set<string>)
    ensures errors <= CreateFields
  {
    (if BoundedText(obj, "employee_id", CodeMax) then {} else {"employee_id"})
    + (if BoundedText(obj, "full_name", NameMax) then {} else {"full_name"})
    + (if EmailText(obj, "email", isEmail) then {} else {"email"})
    + (if BoundedText(obj, "department", DepartmentMax) then {} else {"department"})
    + (if "date_of_joining" !in obj || DateText(obj, "date_of_joining") then {} else {"date_of_joining"})
  }

  /** The fields of an update body that fail their constraint; the date of
      joining is required here. */
  function UpdateErrors(obj: JsonObject, isEmail: string -> bool): (errors: set<string>)
    ensures errors <= UpdateFields
  {
    (if BoundedText(obj, "full_name", NameMax) then {} else {"full_name"})
    + (if EmailText(obj, "email", isEmail) then {} else {"email"})
    + (if BoundedText(obj, "department", DepartmentMax) then {} else {"department"})
    + (if DateText(obj, "date_of_joining") then {} else {"date_of_joining"})
  }

  /** `EmployeeCreate` validation: accepted exactly when every field meets
      its constraint, each accepted value is the body's own text, and an
      omitted date of joining becomes `today`. */
  function ValidateCreate(obj: JsonObject, today: Date, isEmail: string -> bool): (r: Result<EmployeeCreate, set<string>>)
    requires ValidDate(today)
    ensures r.Ok? <==>
      && BoundedText(obj, "employee_id", CodeMax)
      && BoundedText(obj, "full_name", NameMax)
      && EmailText(obj, "email", isEmail)
      && BoundedText(obj, "department", DepartmentMax)
      && ("date_of_joining" in obj ==> DateText(obj, "date_of_joining"))
    ensures r.Ok? ==>
      && obj["employee_id"] == JStr(r.value.employee_id) && 1 <= |r.value.employee_id| <= CodeMax
      && obj["full_name"] == JStr(r.value.full_name) && 1 <= |r.value.full_name| <= NameMax
      && obj["email"] == JStr(r.value.email) && isEmail(r.value.email)
      && obj["department"] == JStr(r.value.department) && 1 <= |r.value.department| <= DepartmentMax
      && ValidDate(r.value.date_of_joining)
    ensures r.Ok? && "date_of_joining" !in obj ==> r.value.date_of_joining == today
    ensures r.Ok? && "date_of_joining" in obj ==> obj["date_of_joining"] == JStr(FormatDate(r.value.date_of_joining))
    ensures r.Err? ==> r.error != {} && r.error == CreateErrors(obj, isEmail)
  {
    var errors := CreateErrors(obj, isEmail);
    if errors != {} then Err(errors)
    else
      assert "employee_id" !in errors && "full_name" !in errors && "email" !in errors;
      assert "department" !in errors && "date_of_joining" !in errors;
      var joined :=
        if "date_of_joining" in obj then
          var d := ParseDate(obj["date_of_joining"].s).value;
          FormatParseDate(obj["date_of_joining"].s);
          d
        else today;
      Ok(EmployeeCreate(obj["employee_id"].s, obj["full_name"].s, obj["email"].s, obj["department"].s, joined))
  }

  /** `EmployeeUpdate` validation: accepted exactly when the four updatable
      fields meet their constraints (the date included), each accepted value
      being the body's own text. */
  function ValidateUpdate(obj: JsonObject, isEmail: string -> bool): (r: Result<EmployeeUpdate, set<string>>)
    ensures r.Ok? <==>
      && BoundedText(obj, "full_name", NameMax)
      && EmailText(obj, "email", isEmail)
      && BoundedText(obj, "department", DepartmentMax)
      && DateText(obj, "date_of_joining")
    ensures r.Ok? ==>
      && obj["full_name"] == JStr(r.value.full_name) && 1 <= |r.value.full_name| <= NameMax
      && obj["email"] == JStr(r.value.email) && isEmail(r.value.email)
      && obj["department"] == JStr(r.value.department) && 1 <= |r.value.department| <= DepartmentMax
      && ValidDate(r.value.date_of_joining)
      && obj["date_of_joining"] == JStr(FormatDate(r.value.date_of_joining))
    ensures "date_of_joining" !in obj ==> r.Err? && "date_of_joining" in r.error
    ensures r.Err? ==> r.error != {} && r.error == UpdateErrors(obj, isEmail)
  {
    var errors := UpdateErrors(obj, isEmail);
    if errors != {} then Err(errors)
    else
      assert "full_name" !in errors && "email" !in errors;
      assert "department" !in errors && "date_of_joining" !in errors;
      var d := ParseDate(obj["date_of_joining"].s).value;
      FormatParseDate(obj["date_of_joining"].s);
      Ok(EmployeeUpdate(obj["full_name"].s, obj["email"].s, obj["department"].s, d))
  }

  /** A key that `EmployeeUpdate` does not declare has no effect on update
      validation; in particular an `employee_id` in an update body is
      dropped, so an update never carries a new employee code. */
  lemma UpdateIgnoresUndeclared(obj: JsonObject, key: string, v: Json, isEmail: string -> bool)
    requires key !in UpdateFields
    ensures ValidateUpdate(obj[key := v], isEmail) == ValidateUpdate(obj, isEmail)
    ensures ValidateUpdate(obj - {key}, isEmail) == ValidateUpdate(obj, isEmail)
  {
    var o1 := obj[key := v];
    var o2 := obj - {key};
    forall k | k in UpdateFields
      ensures (k in o1 <==> k in obj) && (k in o1 ==> o1[k] == obj[k])
      ensures (k in o2 <==> k in obj) && (k in o2 ==> o2[k] == obj[k])
    {
    }
    assert UpdateErrors(o1, isEmail) == UpdateErrors(obj, isEmail);
    assert UpdateErrors(o2, isEmail) == UpdateErrors(obj, isEmail);
  }

  /** Likewise, create validation ignores keys it does not declare. */
  lemma CreateIgnoresUndeclared(obj: JsonObject, key: string, v: Json, today: Date, isEmail: string -> bool)
    requires key !in CreateFields && ValidDate(today)
    ensures ValidateCreate(obj[key := v], today, isEmail) == ValidateCreate(obj, today, isEmail)
  {
    var o1 := obj[key := v];
    forall k | k in CreateFields
      ensures (k in o1 <==> k in obj) && (k in o1 ==> o1[k] == obj[k])
    {
    }
    assert CreateErrors(o1, isEmail) == CreateErrors(obj, isEmail);
  }

  /** What the create shape asks for, as stored: the server's id and every
      create field. */
  function Created(id: int, c: EmployeeCreate): (o: EmployeeOut)
    ensures o.id == id
    ensures CreateOf(o) == c
  {
    EmployeeOut(id, c.employee_id, c.full_name, c.email, c.department, c.date_of_joining)
  }

  /** The create fields an `EmployeeOut` carries. */
  function CreateOf(o: EmployeeOut): (c: EmployeeCreate) {
    EmployeeCreate(o.employee_id, o.full_name, o.email, o.department, o.date_of_joining)
  }

  /** `EmployeeOut` validation: its e-mail must be an `EmailStr` and its
      date a real date, whose written form then reads back as that date. */
  predicate OutValid(o: EmployeeOut, isEmail: string -> bool)
    ensures OutValid(o, isEmail) <==> isEmail(o.email) && ValidDate(o.date_of_joining)
    ensures OutValid(o, isEmail) ==> ParseDate(FormatDate(o.date_of_joining)) == Some(o.date_of_joining)
  {
    && ValidDate(o.date_of_joining)
    && (ParseFormatDate(o.date_of_joining); isEmail(o.email))
  }

  /** `EmployeeOut` bounds neither its id nor its text fields: changing them
      never changes whether an output is valid. */
  lemma OutValidIgnoresTexts(o: EmployeeOut, isEmail: string -> bool, id: int, code: string, name: string, department: string)
    ensures OutValid(o.(id := id, employee_id := code, full_name := name, department := department), isEmail)
      == OutValid(o, isEmail)
  {
  }

  /** An accepted create body stored under any id is a valid response. */
  lemma CreatedIsValidOut(obj: JsonObject, today: Date, isEmail: string -> bool, id: int)
    requires ValidDate(today) && ValidateCreate(obj, today, isEmail).Ok?
    ensures OutValid(Created(id, ValidateCreate(obj, today, isEmail).value), isEmail)
  {
  }

  /** The JSON form of a response, as the pages receive it. */
  function ToJson(o: EmployeeOut): (e: Employee)
    requires ValidDate(o.date_of_joining)
    ensures e.id == o.id && e.employee_id == o.employee_id
    ensures e.full_name == o.full_name && e.email == o.email && e.department == o.department
    ensures ParseDate(e.date_of_joining) == Some(o.date_of_joining)
  {
    ParseFormatDate(o.date_of_joining);
    Employee(o.id, o.employee_id, o.full_name, o.email, o.department, FormatDate(o.date_of_joining))
  }
}
