/** The employees page: a form that creates an employee or edits one,
    next to the list of all employees.

    Whether the form may be submitted, its field errors and the request a
    save sends are functions of the draft and the mode; the handlers are
    methods of the class `Employees`, whose fields are the component's
    state. Every remote call is a parameter saying how it ended, and each
    handler returns the service calls it made, in order. The last part
    relates what the page sends to what the server's schema accepts. */
module EmployeesPage {
  import opened Common
  import opened Js
  import opened Remote
  import EmployeeSchema

  /** The draft employee, every field as the text of its input. */
  datatype Form = Form(
    employee_id: string,
    full_name: string,
    email: string,
    department: string,
    date_of_joining: string)

  const FixFieldsMessage := "Please fix the highlighted fields."
  const CodeRequired := "Employee ID is required."
  const NameRequired := "Full name is required."
  const EmailRequired := "Email is required."
  const DepartmentRequired := "Department is required."
  const JoiningRequired := "Date of joining is required."
  const UpdatedMessage := "Employee updated successfully."
  const CreatedMessage := "Employee created successfully."
  const SaveFallback := "Unable to save employee"
  const LoadFallback := "Failed to load employees"
  const DeleteFallback := "Failed to delete employee"

  const FormFields: set<string> := {"employee_id", "full_name", "email", "department", "date_of_joining"}

  /** `initialForm`: every text empty and the date of joining the day the
      page module was loaded. */
  function InitialForm(loadDay: string): (form: Form)
    ensures forall editingId {:trigger Rejects(form, editingId)} :: Rejects(form, editingId)
    ensures form.date_of_joining == loadDay
  {
    Form("", "", "", "", loadDay)
  }

  /** The local guard of `onSubmit`: in create mode a blank code, or in any
      mode a blank name, e-mail or department, or an empty date (blank means
      empty once trimmed; the date is not trimmed). */
  predicate Rejects(form: Form, editingId: Option<int>)
    ensures Rejects(form, editingId) <==>
      || (!IsEditing(editingId) && AllWhitespace(form.employee_id))
      || AllWhitespace(form.full_name)
      || AllWhitespace(form.email)
      || AllWhitespace(form.department)
      || form.date_of_joining == ""
  {
    || (!IsEditing(editingId) && IsBlank(form.employee_id))
    || IsBlank(form.full_name)
    || IsBlank(form.email)
    || IsBlank(form.department)
    || form.date_of_joining == ""
  }

  /** In edit mode the guard does not look at the code: any code, even a
      blank one, gives the same verdict. */
  lemma RejectsIgnoresCodeWhenEditing(form: Form, editingId: Option<int>, code: string)
    requires IsEditing(editingId)
    ensures Rejects(form.(employee_id := code), editingId) == Rejects(form, editingId)
  {
  }

  /** `canSubmit`: name, e-mail and department with something other than
      whitespace, a date, and in create mode a code; the code is not required
      in edit mode. It holds exactly when the guard lets the draft through. */
  function CanSubmit(form: Form, editingId: Option<int>): (ok: bool)
    ensures ok <==> !Rejects(form, editingId)
    ensures ok <==>
      && !AllWhitespace(form.full_name)
      && !AllWhitespace(form.email)
      && !AllWhitespace(form.department)
      && form.date_of_joining != ""
      && (IsEditing(editingId) || !AllWhitespace(form.employee_id))
  {
    var baseValid := Trim(form.full_name) != "" && Trim(form.email) != ""
      && Trim(form.department) != "" && form.date_of_joining != "";
    if IsEditing(editingId) then baseValid
    else baseValid && Trim(form.employee_id) != ""
  }

  /** A field shows an error when its entry is present and non-empty. */
  predicate HasError(errors: map<string, string>, field: string) {
    field in errors && errors[field] != ""
  }

  /** `fieldErrors`: nothing before the first submit attempt. After it, an
      entry per field: the code's is non-empty only in create mode with a
      code that is all whitespace, each other field's exactly when the field
      is all whitespace (for the date: empty). */
  function FieldErrors(form: Form, editingId: Option<int>, submitAttempted: bool): (errors: map<string, string>)
    ensures !submitAttempted ==> errors == map[]
    ensures submitAttempted ==> errors.Keys == FormFields
    ensures submitAttempted ==> (HasError(errors, "employee_id") <==> !IsEditing(editingId) && AllWhitespace(form.employee_id))
    ensures submitAttempted ==> (HasError(errors, "full_name") <==> AllWhitespace(form.full_name))
    ensures submitAttempted ==> (HasError(errors, "email") <==> AllWhitespace(form.email))
    ensures submitAttempted ==> (HasError(errors, "department") <==> AllWhitespace(form.department))
    ensures submitAttempted ==> (HasError(errors, "date_of_joining") <==> form.date_of_joining == "")
  {
    if !submitAttempted then map[]
    else
      map[
        "employee_id" := if !IsEditing(editingId) && Trim(form.employee_id) == "" then CodeRequired else "",
        "full_name" := if Trim(form.full_name) == "" then NameRequired else "",
        "email" := if Trim(form.email) == "" then EmailRequired else "",
        "department" := if Trim(form.department) == "" then DepartmentRequired else "",
        "date_of_joining" := if form.date_of_joining == "" then JoiningRequired else ""]
  }

  /** After an attempt, some field shows an error exactly when the guard
      rejects the draft: the highlighted fields are the reason for the
      "fix the highlighted fields" message, and it never appears without one. */
  lemma FieldErrorsMatchGuard(form: Form, editingId: Option<int>)
    ensures Rejects(form, editingId) <==> exists f :: HasError(FieldErrors(form, editingId, true), f)
  {
    var errors := FieldErrors(form, editingId, true);
    if exists f :: HasError(errors, f) {
      var f :| HasError(errors, f);
      assert f in FormFields;
    }
    if Rejects(form, editingId) {
      if !IsEditing(editingId) && IsBlank(form.employee_id) {
        assert HasError(errors, "employee_id");
      } else if IsBlank(form.full_name) {
        assert HasError(errors, "full_name");
      } else if IsBlank(form.email) {
        assert HasError(errors, "email");
      } else if IsBlank(form.department) {
        assert HasError(errors, "department");
      } else {
        assert HasError(errors, "date_of_joining");
      }
    }
  }

  /** The body of an update: the trimmed name, e-mail and department and the
      date as typed; there is no employee code in it. */
  function UpdateBody(form: Form): (body: JsonObject)
    ensures body.Keys == EmployeeSchema.UpdateFields
    ensures "employee_id" !in body
  {
    map[
      "full_name" := JStr(Trim(form.full_name)),
      "email" := JStr(Trim(form.email)),
      "department" := JStr(Trim(form.department)),
      "date_of_joining" := JStr(form.date_of_joining)]
  }

  /** The body of a create: the update body plus the trimmed code. */
  function CreateBody(form: Form): (body: JsonObject)
    ensures body.Keys == EmployeeSchema.CreateFields
    ensures body == UpdateBody(form)["employee_id" := JStr(Trim(form.employee_id))]
  {
    map[
      "employee_id" := JStr(Trim(form.employee_id)),
      "full_name" := JStr(Trim(form.full_name)),
      "email" := JStr(Trim(form.email)),
      "department" := JStr(Trim(form.department)),
      "date_of_joining" := JStr(form.date_of_joining)]
  }

  /** The save a submit that passed the guard makes: an update of the edited
      employee in edit mode, a create otherwise. */
  function SaveCall(form: Form, editingId: Option<int>): (call: Call)
    ensures IsEditing(editingId) ==>
      && call.UpdateEmployee? && call.id == editingId.value
      && call.payload == UpdateBody(form) && "employee_id" !in call.payload
    ensures !IsEditing(editingId) ==>
      && call.CreateEmployee? && call.payload == CreateBody(form)
      && call.payload["employee_id"] == JStr(Trim(form.employee_id))
  {
    if IsEditing(editingId) then UpdateEmployee(editingId.value, UpdateBody(form))
    else CreateEmployee(CreateBody(form))
  }

  /** The draft `onEdit` builds: the employee's five fields, verbatim. */
  function EditDraft(employee: Employee): (draft: Form)
    ensures draft.employee_id == employee.employee_id && draft.full_name == employee.full_name
    ensures draft.email == employee.email && draft.department == employee.department
    ensures draft.date_of_joining == employee.date_of_joining
  {
    Form(employee.employee_id, employee.full_name, employee.email, employee.department, employee.date_of_joining)
  }

  /** What each key of the two bodies holds, and what the schema's field
      tests then amount to: a trimmed text is non-empty exactly when the
      field is not blank, and an empty date is never a date. */
  lemma BodyEntries(form: Form)
    ensures var u, c := UpdateBody(form), CreateBody(form);
      && u["full_name"] == c["full_name"] == JStr(Trim(form.full_name))
      && u["email"] == c["email"] == JStr(Trim(form.email))
      && u["department"] == c["department"] == JStr(Trim(form.department))
      && u["date_of_joining"] == c["date_of_joining"] == JStr(form.date_of_joining)
      && c["employee_id"] == JStr(Trim(form.employee_id))
    ensures IsBlank(form.employee_id) <==> |Trim(form.employee_id)| == 0
    ensures IsBlank(form.full_name) <==> |Trim(form.full_name)| == 0
    ensures IsBlank(form.email) <==> |Trim(form.email)| == 0
    ensures IsBlank(form.department) <==> |Trim(form.department)| == 0
    ensures form.date_of_joining == "" ==> EmployeeSchema.ParseDate(form.date_of_joining).None?
  {
  }

  /** The guard and the server's create validation: a draft the guard
      rejects in create mode would be refused by the server too, and a draft
      it lets through is accepted exactly when the trimmed texts fit their
      maximum lengths, the trimmed e-mail is an address and the date is a
      real `YYYY-MM-DD` date; the accepted employee is the trimmed draft,
      with the date as sent (never the server's default, since the page
      always sends one). */
  lemma CreateBodyValidation(form: Form, today: EmployeeSchema.Date, isEmail: string -> bool)
    requires EmployeeSchema.ValidDate(today) && !isEmail("")
    ensures Rejects(form, None) ==> EmployeeSchema.ValidateCreate(CreateBody(form), today, isEmail).Err?
    ensures !Rejects(form, None) ==>
      (EmployeeSchema.ValidateCreate(CreateBody(form), today, isEmail).Ok? <==>
        && |Trim(form.employee_id)| <= EmployeeSchema.CodeMax
        && |Trim(form.full_name)| <= EmployeeSchema.NameMax
        && isEmail(Trim(form.email))
        && |Trim(form.department)| <= EmployeeSchema.DepartmentMax
        && EmployeeSchema.ParseDate(form.date_of_joining).Some?)
    ensures EmployeeSchema.ValidateCreate(CreateBody(form), today, isEmail).Ok? ==>
      EmployeeSchema.ValidateCreate(CreateBody(form), today, isEmail).value == EmployeeSchema.EmployeeCreate(
        Trim(form.employee_id), Trim(form.full_name), Trim(form.email), Trim(form.department),
        EmployeeSchema.ParseDate(form.date_of_joining).value)
  {
    var body := CreateBody(form);
    BodyEntries(form);
    assert EmployeeSchema.BoundedText(body, "employee_id", EmployeeSchema.CodeMax)
      <==> !IsBlank(form.employee_id) && |Trim(form.employee_id)| <= EmployeeSchema.CodeMax;
    assert EmployeeSchema.BoundedText(body, "full_name", EmployeeSchema.NameMax)
      <==> !IsBlank(form.full_name) && |Trim(form.full_name)| <= EmployeeSchema.NameMax;
    assert EmployeeSchema.EmailText(body, "email", isEmail)
      <==> !IsBlank(form.email) && isEmail(Trim(form.email));
    assert EmployeeSchema.BoundedText(body, "department", EmployeeSchema.DepartmentMax)
      <==> !IsBlank(form.department) && |Trim(form.department)| <= EmployeeSchema.DepartmentMax;
    assert "date_of_joining" in body;
    assert EmployeeSchema.DateText(body, "date_of_joining")
      <==> form.date_of_joining != "" && EmployeeSchema.ParseDate(form.date_of_joining).Some?;
    var r := EmployeeSchema.ValidateCreate(body, today, isEmail);
    if r.Ok? {
      EmployeeSchema.ParseFormatDate(r.value.date_of_joining);
    }
  }

  /** The same for an update: whatever the mode, a draft with a blank name,
      e-mail or department or no date would be refused by the server, and
      one without is accepted exactly when the trimmed texts fit, the
      trimmed e-mail is an address and the date is real; the accepted
      update is the trimmed draft. */
  lemma UpdateBodyValidation(form: Form, isEmail: string -> bool)
    requires !isEmail("")
    ensures Rejects(form, Some(1)) ==> EmployeeSchema.ValidateUpdate(UpdateBody(form), isEmail).Err?
    ensures !Rejects(form, Some(1)) ==>
      (EmployeeSchema.ValidateUpdate(UpdateBody(form), isEmail).Ok? <==>
        && |Trim(form.full_name)| <= EmployeeSchema.NameMax
        && isEmail(Trim(form.email))
        && |Trim(form.department)| <= EmployeeSchema.DepartmentMax
        && EmployeeSchema.ParseDate(form.date_of_joining).Some?)
    ensures EmployeeSchema.ValidateUpdate(UpdateBody(form), isEmail).Ok? ==>
      EmployeeSchema.ValidateUpdate(UpdateBody(form), isEmail).value == EmployeeSchema.EmployeeUpdate(
        Trim(form.full_name), Trim(form.email), Trim(form.department),
        EmployeeSchema.ParseDate(form.date_of_joining).value)
  {
    var body := UpdateBody(form);
    BodyEntries(form);
    assert EmployeeSchema.BoundedText(body, "full_name", EmployeeSchema.NameMax)
      <==> !IsBlank(form.full_name) && |Trim(form.full_name)| <= EmployeeSchema.NameMax;
    assert EmployeeSchema.EmailText(body, "email", isEmail)
      <==> !IsBlank(form.email) && isEmail(Trim(form.email));
    assert EmployeeSchema.BoundedText(body, "department", EmployeeSchema.DepartmentMax)
      <==> !IsBlank(form.department) && |Trim(form.department)| <= EmployeeSchema.DepartmentMax;
    assert EmployeeSchema.DateText(body, "date_of_joining")
      <==> form.date_of_joining != "" && EmployeeSchema.ParseDate(form.date_of_joining).Some?;
    var r := EmployeeSchema.ValidateUpdate(body, isEmail);
    if r.Ok? {
      EmployeeSchema.ParseFormatDate(r.value.date_of_joining);
    }
  }

  /** Editing an employee and saving without changes sends back what the
      server holds: for a stored employee whose texts carry no surrounding
      whitespace and meet the create constraints, the draft `onEdit` builds
      from its JSON passes the guard in edit mode and its update body
      validates to the employee's own fields. (An id of 0 is falsy, so such
      an employee is edited in create mode, where its code is checked too.) */
  lemma EditUnchangedRoundTrip(o: EmployeeSchema.EmployeeOut, isEmail: string -> bool)
    requires EmployeeSchema.OutValid(o, isEmail) && !isEmail("")
    requires Trim(o.full_name) == o.full_name && 1 <= |o.full_name| <= EmployeeSchema.NameMax
    requires Trim(o.email) == o.email
    requires Trim(o.department) == o.department && 1 <= |o.department| <= EmployeeSchema.DepartmentMax
    ensures var draft := EditDraft(EmployeeSchema.ToJson(o));
      && draft.employee_id == o.employee_id
      && (o.id != 0 ==> !Rejects(draft, Some(o.id)))
      && EmployeeSchema.ValidateUpdate(UpdateBody(draft), isEmail)
         == Ok(EmployeeSchema.EmployeeUpdate(o.full_name, o.email, o.department, o.date_of_joining))
  {
    var draft := EditDraft(EmployeeSchema.ToJson(o));
    assert !IsBlank(draft.full_name) && !IsBlank(draft.email) && !IsBlank(draft.department);
    assert |draft.date_of_joining| == 10;
    UpdateBodyValidation(draft, isEmail);
  }

  /** Creating an employee from a draft and then saving it unchanged from
      the edit form gives back the fields it was created with. */
  lemma CreateThenEditUnchanged(form: Form, today: EmployeeSchema.Date, isEmail: string -> bool, id: int)
    requires EmployeeSchema.ValidDate(today) && !isEmail("")
    requires EmployeeSchema.ValidateCreate(CreateBody(form), today, isEmail).Ok?
    ensures var c := EmployeeSchema.ValidateCreate(CreateBody(form), today, isEmail).value;
      var draft := EditDraft(EmployeeSchema.ToJson(EmployeeSchema.Created(id, c)));
      EmployeeSchema.ValidateUpdate(UpdateBody(draft), isEmail)
        == Ok(EmployeeSchema.EmployeeUpdate(c.full_name, c.email, c.department, c.date_of_joining))
  {
    var c := EmployeeSchema.ValidateCreate(CreateBody(form), today, isEmail).value;
    CreateBodyValidation(form, today, isEmail);
    TrimIdempotent(form.full_name);
    TrimIdempotent(form.email);
    TrimIdempotent(form.department);
    EmployeeSchema.CreatedIsValidOut(CreateBody(form), today, isEmail, id);
    EditUnchangedRoundTrip(EmployeeSchema.Created(id, c), isEmail);
  }

  class Employees {
    /** The day `initialForm` was computed on, when the module was loaded. */
    const loadDay: string

    var employees: seq<Employee>
    var loading: bool
    var error: string
    var form: Form
    var saving: bool
    var editingId: Option<int>
    var formError: string
    var success: string
    var submitAttempted: bool

    /** The employee being edited, while in edit mode. */
    ghost var edited: Option<Employee>

    /** Between handlers nothing is saving; in edit mode the draft's id is the
        edited employee's and its code is still that employee's code (the
        code input is locked). */
    ghost predicate Valid()
      reads this
    {
      && !saving
      && (IsEditing(editingId) ==>
           && edited.Some?
           && editingId.value == edited.value.id
           && form.employee_id == edited.value.employee_id)
    }

    /** The first render: no employees yet, loading, the initial draft in
        create mode. */
    constructor (loadDay: string)
      ensures Valid() && this.loadDay == loadDay
      ensures employees == [] && loading && error == ""
      ensures form == InitialForm(loadDay) && editingId == None
      ensures formError == "" && success == "" && !submitAttempted
    {
      this.loadDay := loadDay;
      employees, loading, error := [], true, "";
      form, saving, editingId := InitialForm(loadDay), false, None;
      formError, success, submitAttempted := "", "", false;
      edited := None;
    }

    /** `loadEmployees`: the list (an answer that is not an array reads as
        empty), or the error text with the list kept; not loading afterwards. */
    method LoadEmployees(outcome: Outcome<ListData<Employee>>) returns (calls: seq<Call>)
      requires Valid()
      modifies this`employees, this`loading, this`error
      ensures Valid()
      ensures calls == [ListEmployees] && !loading
      ensures outcome.Done? ==> employees == ItemsOrEmpty(outcome.value) && error == ""
      ensures outcome.Failed? ==> employees == old(employees) && error == ErrorText(outcome.error, LoadFallback)
    {
      loading := true;
      error := "";
      calls := [ListEmployees];
      match outcome {
        case Done(data) => employees := ItemsOrEmpty(data);
        case Failed(err) => error := ErrorText(err, LoadFallback);
      }
      loading := false;
    }

    /** Typing in the code input, which is locked in edit mode. */
    method EditCode(value: string)
      requires Valid() && !IsEditing(editingId)
      modifies this`form
      ensures Valid()
      ensures form == old(form).(employee_id := value)
    {
      form := form.(employee_id := value);
    }

    /** Typing in the name, e-mail, department or date inputs; the code is
        left alone. */
    method EditDetails(fullName: string, email: string, department: string, dateOfJoining: string)
      requires Valid()
      modifies this`form
      ensures Valid()
      ensures form == old(form).(
        full_name := fullName, email := email, department := department, date_of_joining := dateOfJoining)
    {
      form := form.(full_name := fullName, email := email, department := department, date_of_joining := dateOfJoining);
    }

    /** `resetForm`: the initial draft exactly, nothing kept (its date is the
        module's load day, not the current day); create mode, no attempt, no
        form error; the success message is left alone. */
    method ResetForm()
      requires Valid()
      modifies this`form, this`editingId, this`submitAttempted, this`formError, this`edited
      ensures Valid()
      ensures form == InitialForm(loadDay)
      ensures editingId == None && !submitAttempted && formError == "" && edited == None
    {
      form, editingId, edited := InitialForm(loadDay), None, None;
      submitAttempted, formError := false, "";
    }

    /** `onEdit(employee)`: edit mode for the employee, the draft replaced by
        its five fields verbatim, errors and success cleared; nothing is
        fetched. */
    method OnEdit(employee: Employee)
      requires Valid()
      modifies this`form, this`editingId, this`submitAttempted, this`formError, this`success, this`edited
      ensures Valid() && edited == Some(employee)
      ensures form == Form(employee.employee_id, employee.full_name, employee.email,
        employee.department, employee.date_of_joining)
      ensures editingId == Some(employee.id)
      ensures !submitAttempted && formError == "" && success == ""
    {
      editingId, form, edited := Some(employee.id), EditDraft(employee), Some(employee);
      submitAttempted, formError, success := false, "", "";
    }

    /** `onSubmit`. A draft the guard rejects marks the attempt, shows the
        "fix the highlighted fields" message and calls nothing, leaving the
        draft, the mode and the list alone. Otherwise the save is sent: when
        it succeeds the success message is set, the form reset to the
        initial draft and the list reloaded; when it fails its error text is
        shown and the draft and the mode are kept. Nothing is saving
        afterwards. */
    method OnSubmit(save: Outcome<()>, reload: Outcome<ListData<Employee>>) returns (calls: seq<Call>)
      requires Valid()
      modifies this`submitAttempted, this`formError, this`success
      modifies this`form, this`editingId, this`edited, this`employees, this`loading, this`error
      ensures Valid()
      ensures submitAttempted == (Rejects(old(form), old(editingId)) || save.Failed?)
      ensures Rejects(old(form), old(editingId)) || save.Failed? ==>
        && form == old(form) && editingId == old(editingId) && edited == old(edited)
        && employees == old(employees) && loading == old(loading) && error == old(error)
        && success == ""
      ensures Rejects(old(form), old(editingId)) ==> calls == [] && formError == FixFieldsMessage
      ensures !Rejects(old(form), old(editingId)) && save.Failed? ==>
        calls == [SaveCall(old(form), old(editingId))] && formError == ErrorText(save.error, SaveFallback)
      ensures !Rejects(old(form), old(editingId)) && save.Done? ==>
        && calls == [SaveCall(old(form), old(editingId)), ListEmployees]
        && form == InitialForm(loadDay) && editingId == None && formError == ""
        && success == (if IsEditing(old(editingId)) then UpdatedMessage else CreatedMessage)
        && !loading
        && (reload.Done? ==> employees == ItemsOrEmpty(reload.value) && error == "")
        && (reload.Failed? ==> employees == old(employees) && error == ErrorText(reload.error, LoadFallback))
    {
      if Rejects(form, editingId) {
        ShowFormError(FixFieldsMessage);
        calls := [];
        return;
      }
      calls := [SaveCall(form, editingId)];
      match save {
        case Done(_) =>
          var more := AfterSave(if IsEditing(editingId) then UpdatedMessage else CreatedMessage, reload);
          calls := calls + more;
        case Failed(err) =>
          ShowFormError(ErrorText(err, SaveFallback));
      }
    }

    /** A submit that ends without a save: the attempt is marked, the message
        shown above the form and any success message cleared. */
    method ShowFormError(message: string)
      requires Valid()
      modifies this`submitAttempted, this`formError, this`success
      ensures Valid()
      ensures submitAttempted && formError == message && success == ""
    {
      submitAttempted, formError, success := true, message, "";
    }

    /** The success path of `onSubmit` once the save is acknowledged: the
        success message, the form reset and the list reloaded. */
    method AfterSave(message: string, reload: Outcome<ListData<Employee>>) returns (calls: seq<Call>)
      requires Valid()
      modifies this`success, this`form, this`editingId, this`submitAttempted, this`formError, this`edited
      modifies this`employees, this`loading, this`error
      ensures Valid()
      ensures calls == [ListEmployees] && success == message
      ensures form == InitialForm(loadDay) && editingId == None && !submitAttempted && formError == ""
      ensures !loading
      ensures reload.Done? ==> employees == ItemsOrEmpty(reload.value) && error == ""
      ensures reload.Failed? ==> employees == old(employees) && error == ErrorText(reload.error, LoadFallback)
    {
      success := message;
      ResetForm();
      calls := LoadEmployees(reload);
    }

    /** `onDelete(id)`: a declined confirmation calls nothing and changes
        nothing. Otherwise the delete is sent: on success the list is
        reloaded; on failure the error text is shown and the list is kept. */
    method OnDelete(id: int, confirmed: bool, del: Outcome<()>, reload: Outcome<ListData<Employee>>)
      returns (calls: seq<Call>)
      requires Valid()
      modifies this`employees, this`loading, this`error
      ensures Valid()
      ensures !confirmed ==>
        calls == [] && employees == old(employees) && loading == old(loading) && error == old(error)
      ensures confirmed && del.Failed? ==>
        && calls == [DeleteEmployee(id)]
        && employees == old(employees) && loading == old(loading)
        && error == ErrorText(del.error, DeleteFallback)
      ensures confirmed && del.Done? ==> calls == [DeleteEmployee(id), ListEmployees] && !loading
      ensures confirmed && del.Done? && reload.Done? ==> employees == ItemsOrEmpty(reload.value) && error == ""
      ensures confirmed && del.Done? && reload.Failed? ==>
        employees == old(employees) && error == ErrorText(reload.error, LoadFallback)
    {
      if !confirmed {
        calls := [];
        return;
      }
      calls := [DeleteEmployee(id)];
      match del {
        case Done(_) =>
          var more := LoadEmployees(reload);
          calls := calls + more;
        case Failed(err) =>
          error := ErrorText(err, DeleteFallback);
      }
    }
  }
}
