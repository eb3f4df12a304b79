/** The attendance page: a form that marks or edits one attendance record
    for the selected employee, next to the list of that employee's records
    with a date filter and Present/Absent counts.

    The pure part (the selected employee, the visible records, the counts,
    whether the form may be submitted, the field errors, the request a save
    sends) is a set of functions over the page state. The handlers are
    methods of the class `Attendance`, whose fields are the component's
    state; every remote call is a parameter saying how it ended, and each
    handler returns the service calls it made, in order. */
module AttendancePage {
  import opened Common
  import opened Js
  import opened Remote

  /** The draft record. `employee_id` is the text value of the employee
      picker ("" when none is chosen). */
  datatype Form = Form(employee_id: string, date: string, status: string)

  const Present := "Present"
  const Absent := "Absent"

  const FixFieldsMessage := "Please fix the highlighted fields."
  const EmployeeRequired := "Employee is required."
  const DateRequired := "Date is required."
  const UpdatedMessage := "Attendance updated."
  const MarkedMessage := "Attendance marked."
  const SaveFallback := "Unable to save attendance"
  const LoadFallback := "Failed to load attendance"
  const DeleteFallback := "Failed to delete attendance"
  const EmployeesFallback := "Failed to load employees"

  /** `initialForm`: no employee, the day the page module was loaded, Present. */
  function InitialForm(loadDay: string): (form: Form)
    ensures Rejects(form) && !CanSubmit(form)
    ensures form.date == loadDay && form.status == Present
  {
    Form("", loadDay, Present)
  }

  /** The first position at or after `from` whose employee has id `id`, or
      -1 when there is none. */
  function FindFrom(employees: seq<Employee>, id: int, from: nat): (k: int)
    requires from <= |employees|
    ensures k == -1 || from <= k < |employees|
    ensures k >= 0 ==> employees[k].id == id && forall j :: from <= j < k ==> employees[j].id != id
    ensures k == -1 <==> forall j :: from <= j < |employees| ==> employees[j].id != id
    decreases |employees| - from
  {
    if from == |employees| then -1
    else if employees[from].id == id then from
    else FindFrom(employees, id, from + 1)
  }

  /** `selectedEmployee`: the first employee whose id is `Number` of the
      picker's value; none when that number is 0 or NaN or matches no one. */
  function SelectedEmployee(employees: seq<Employee>, employeeField: string): (sel: Option<Employee>)
    ensures sel.Some? ==> Truthy(NumberOf(employeeField)) && sel.value.id == NumberOf(employeeField).n
    ensures sel.Some? ==>
      exists k :: 0 <= k < |employees| && employees[k] == sel.value
        && forall j :: 0 <= j < k ==> employees[j].id != sel.value.id
    ensures sel.None? <==>
      || !Truthy(NumberOf(employeeField))
      || forall j :: 0 <= j < |employees| ==> employees[j].id != NumberOf(employeeField).n
  {
    var id := NumberOf(employeeField);
    if !Truthy(id) then None
    else
      var k := FindFrom(employees, id.n, 0);
      if k < 0 then None else Some(employees[k])
  }

  /** The test of the date filter. */
  function DateIs(date: string): (test: AttendanceRecord -> bool) {
    (r: AttendanceRecord) => r.date == date
  }

  /** The test of a status count. */
  function StatusIs(status: string): (test: AttendanceRecord -> bool) {
    (r: AttendanceRecord) => r.status == status
  }

  /** `visibleRecords`: every record while the filter is empty, otherwise the
      records on the filter date, in list order. */
  function VisibleRecords(records: seq<AttendanceRecord>, filterDate: string): (vis: seq<AttendanceRecord>)
    ensures filterDate == "" ==> vis == records
    ensures filterDate != "" ==> forall k :: 0 <= k < |vis| ==> vis[k].date == filterDate
  {
    if filterDate == "" then records
    else
      var vis := Filter(records, DateIs(filterDate));
      assert forall k :: 0 <= k < |vis| ==> DateIs(filterDate)(vis[k]);
      vis
  }

  /** With a date set, the visible records are exactly the records on that
      date, as the order-preserving subsequence at their positions (empty
      when no record matches). */
  lemma VisibleRecordsAreSubsequence(records: seq<AttendanceRecord>, filterDate: string)
    requires filterDate != ""
    ensures var vis := VisibleRecords(records, filterDate);
      var idx := KeptPositions(records, DateIs(filterDate));
      && |vis| == |idx|
      && (forall k :: 0 <= k < |vis| ==> idx[k] < |records| && vis[k] == records[idx[k]])
      && (forall k, l :: 0 <= k < l < |idx| ==> idx[k] < idx[l])
      && (forall i :: 0 <= i < |records| ==> (records[i].date == filterDate <==> i in idx))
  {
    var idx := KeptPositions(records, DateIs(filterDate));
    FilterAtKeptPositions(records, DateIs(filterDate));
    forall i | 0 <= i < |records| && i in idx ensures records[i].date == filterDate {
      var k :| 0 <= k < |idx| && idx[k] == i;
      assert DateIs(filterDate)(records[idx[k]]);
    }
    forall i | 0 <= i < |records| && records[i].date == filterDate ensures i in idx {
      assert DateIs(filterDate)(records[i]);
    }
  }

  /** `presentCount`: the records of the loaded list (not of the visible
      list) whose status is Present. */
  function PresentCount(records: seq<AttendanceRecord>): (n: nat)
    ensures n <= |records|
  {
    |Filter(records, StatusIs(Present))|
  }

  /** `absentCount`, likewise for Absent. */
  function AbsentCount(records: seq<AttendanceRecord>): (n: nat)
    ensures n <= |records|
  {
    |Filter(records, StatusIs(Absent))|
  }

  /** The two counts never exceed the number of loaded records, and add up
      to it when every status is Present or Absent. */
  lemma CountsPartition(records: seq<AttendanceRecord>)
    ensures PresentCount(records) + AbsentCount(records) <= |records|
    ensures (forall i :: 0 <= i < |records| ==> records[i].status in {Present, Absent}) ==>
      PresentCount(records) + AbsentCount(records) == |records|
  {
    var p, q := StatusIs(Present), StatusIs(Absent);
    forall i | 0 <= i < |records| ensures !(p(records[i]) && q(records[i])) {
    }
    FilterDisjointCounts(records, p, q);
    if forall i :: 0 <= i < |records| ==> records[i].status in {Present, Absent} {
      forall i | 0 <= i < |records| ensures p(records[i]) || q(records[i]) {
      }
    }
  }

  /** The local guard of `onSubmit`: an empty employee or date (no trimming). */
  predicate Rejects(form: Form)
    ensures !Rejects(form) ==> LoadCalls(form.employee_id) == [ListAttendance(NumberOf(form.employee_id), "")]
    ensures form.employee_id == "" || form.date == "" ==> Rejects(form)
  {
    form.employee_id == "" || form.date == ""
  }

  /** `canSubmit`: employee, date and status all non-empty; apart from the
      status, which the guard does not look at, it is the guard's converse. */
  function CanSubmit(form: Form): (ok: bool)
    ensures ok <==> !Rejects(form) && form.status != ""
  {
    form.employee_id != "" && form.date != "" && form.status != ""
  }

  /** A field shows an error when its entry is present and non-empty. */
  predicate HasError(errors: map<string, string>, field: string) {
    field in errors && errors[field] != ""
  }

  /** `fieldErrors`: nothing before the first submit attempt; after it, an
      entry for the employee and for the date, each non-empty exactly when
      that field is empty. */
  function FieldErrors(form: Form, submitAttempted: bool): (errors: map<string, string>)
    ensures !submitAttempted ==> errors == map[]
    ensures submitAttempted ==> errors.Keys == {"employee_id", "date"}
    ensures submitAttempted ==> (HasError(errors, "employee_id") <==> form.employee_id == "")
    ensures submitAttempted ==> (HasError(errors, "date") <==> form.date == "")
    ensures submitAttempted ==> (Rejects(form) <==> exists f :: HasError(errors, f))
  {
    if !submitAttempted then map[]
    else
      var errors := map[
        "employee_id" := if form.employee_id == "" then EmployeeRequired else "",
        "date" := if form.date == "" then DateRequired else ""];
      assert HasError(errors, "employee_id") <==> form.employee_id == "";
      assert (exists f :: HasError(errors, f)) ==> HasError(errors, "employee_id") || HasError(errors, "date");
      errors
  }

  /** The save a submit that passed the guard makes: in edit mode an update
      of the edited record carrying only date and status, so the employee is
      never sent; in create mode a create carrying `Number(employee_id)`
      (NaN goes as null), the date and the status. */
  function SaveCall(form: Form, editingId: Option<int>): (call: Call)
    ensures IsEditing(editingId) ==>
      && call.UpdateAttendance? && call.id == editingId.value
      && call.payload == map["date" := JStr(form.date), "status" := JStr(form.status)]
      && "employee_id" !in call.payload
    ensures !IsEditing(editingId) ==>
      && call.CreateAttendance?
      && call.payload.Keys == {"employee_id", "date", "status"}
      && call.payload["employee_id"] == NumberJson(NumberOf(form.employee_id))
      && call.payload["date"] == JStr(form.date) && call.payload["status"] == JStr(form.status)
  {
    if IsEditing(editingId) then
      UpdateAttendance(editingId.value, map["date" := JStr(form.date), "status" := JStr(form.status)])
    else
      CreateAttendance(map[
        "employee_id" := NumberJson(NumberOf(form.employee_id)),
        "date" := JStr(form.date),
        "status" := JStr(form.status)])
  }

  /** The draft `onEdit` builds from a record: the employee id as text, and
      the record's date and status. */
  function EditDraft(record: AttendanceRecord): (form: Form)
    ensures form.date == record.date && form.status == record.status
  {
    Form(IntToString(record.employee_id), record.date, record.status)
  }

  /** The employee text of an edit draft is never empty and reads back as
      the record's employee, so the list reloaded for it is that employee's. */
  lemma EditDraftEmployee(record: AttendanceRecord)
    ensures EditDraft(record).employee_id != ""
    ensures NumberOf(EditDraft(record).employee_id) == Num(record.employee_id)
    ensures LoadCalls(EditDraft(record).employee_id) == [ListAttendance(Num(record.employee_id), "")]
  {
    NumberOfIntToString(record.employee_id);
  }

  /** The request `loadAttendance` makes for a picker value; none when the
      value is empty. */
  function LoadCalls(employeeField: string): (calls: seq<Call>)
    ensures employeeField == "" <==> calls == []
    ensures employeeField != "" ==> calls == [ListAttendance(NumberOf(employeeField), "")]
  {
    if employeeField == "" then [] else [ListAttendance(NumberOf(employeeField), "")]
  }

  class Attendance {
    /** The day `initialForm` was computed on, when the module was loaded. */
    const loadDay: string

    var employees: seq<Employee>
    var employeesLoading: bool
    var employeesError: string
    var records: seq<AttendanceRecord>
    var loading: bool
    var error: string
    var form: Form
    var filterDate: string
    var saving: bool
    var editingId: Option<int>
    var formError: string
    var success: string
    var submitAttempted: bool

    /** The record being edited, while in edit mode. */
    ghost var edited: Option<AttendanceRecord>

    /** Between handlers nothing is saving; in edit mode the draft's id is the
        edited record's and its employee is still the edited record's
        employee (the picker is locked). */
    ghost predicate Valid()
      reads this
    {
      && !saving
      && (IsEditing(editingId) ==>
           && edited.Some?
           && editingId.value == edited.value.id
           && form.employee_id == EditDraft(edited.value).employee_id)
    }

    /** The first render: empty lists, employees loading, no filter, the
        initial draft in create mode. */
    constructor (loadDay: string)
      ensures Valid() && this.loadDay == loadDay
      ensures employees == [] && employeesLoading && employeesError == ""
      ensures records == [] && !loading && error == ""
      ensures form == InitialForm(loadDay) && filterDate == "" && editingId == None
      ensures formError == "" && success == "" && !submitAttempted
    {
      this.loadDay := loadDay;
      employees, employeesLoading, employeesError := [], true, "";
      records, loading, error := [], false, "";
      form, filterDate, saving, editingId := InitialForm(loadDay), "", false, None;
      formError, success, submitAttempted := "", "", false;
      edited := None;
    }

    /** `loadEmployees`: the list for the picker (an answer that is not an
        array reads as empty), or the error text with the list kept; the
        picker is not loading afterwards. */
    method LoadEmployees(outcome: Outcome<ListData<Employee>>) returns (calls: seq<Call>)
      requires Valid()
      modifies this`employees, this`employeesLoading, this`employeesError
      ensures Valid()
      ensures calls == [ListEmployees] && !employeesLoading
      ensures outcome.Done? ==> employees == ItemsOrEmpty(outcome.value) && employeesError == ""
      ensures outcome.Failed? ==>
        employees == old(employees) && employeesError == ErrorText(outcome.error, EmployeesFallback)
    {
      employeesLoading := true;
      employeesError := "";
      calls := [ListEmployees];
      match outcome {
        case Done(data) => employees := ItemsOrEmpty(data);
        case Failed(err) => employeesError := ErrorText(err, EmployeesFallback);
      }
      employeesLoading := false;
    }

    /** `loadAttendance`: with no employee chosen the list is emptied and
        nothing is fetched; otherwise the chosen employee's records replace
        the list (an answer that is not an array reads as empty), or the
        error text is shown and the list kept. */
    method LoadAttendance(outcome: Outcome<ListData<AttendanceRecord>>) returns (calls: seq<Call>)
      requires Valid()
      modifies this`records, this`loading, this`error
      ensures Valid()
      ensures calls == LoadCalls(form.employee_id)
      ensures form.employee_id == "" ==>
        records == [] && loading == old(loading) && error == old(error)
      ensures form.employee_id != "" && outcome.Done? ==>
        records == ItemsOrEmpty(outcome.value) && !loading && error == ""
      ensures form.employee_id != "" && outcome.Failed? ==>
        records == old(records) && !loading && error == ErrorText(outcome.error, LoadFallback)
    {
      if form.employee_id == "" {
        records := [];
        calls := [];
        return;
      }
      loading := true;
      error := "";
      calls := [ListAttendance(NumberOf(form.employee_id), "")];
      match outcome {
        case Done(data) => records := ItemsOrEmpty(data);
        case Failed(err) => error := ErrorText(err, LoadFallback);
      }
      loading := false;
    }

    /** Choosing an employee in the picker (locked in edit mode). A new value
        replaces the draft's employee and reloads the list for it; choosing
        the same value again changes nothing. */
    method SelectEmployee(value: string, outcome: Outcome<ListData<AttendanceRecord>>) returns (calls: seq<Call>)
      requires Valid() && !IsEditing(editingId)
      modifies this`form, this`records, this`loading, this`error
      ensures Valid()
      ensures form == old(form).(employee_id := value)
      ensures value == old(form.employee_id) ==>
        calls == [] && records == old(records) && loading == old(loading) && error == old(error)
      ensures value != old(form.employee_id) ==> calls == LoadCalls(value)
      ensures value != old(form.employee_id) && value == "" ==>
        records == [] && loading == old(loading) && error == old(error)
      ensures value != old(form.employee_id) && value != "" && outcome.Done? ==>
        records == ItemsOrEmpty(outcome.value) && !loading && error == ""
      ensures value != old(form.employee_id) && value != "" && outcome.Failed? ==>
        records == old(records) && !loading && error == ErrorText(outcome.error, LoadFallback)
    {
      if value == form.employee_id {
        calls := [];
        return;
      }
      form := form.(employee_id := value);
      calls := LoadAttendance(outcome);
    }

    /** Typing a date or pressing a status button edits only that field. */
    method SetDraftField(date: string, status: string)
      requires Valid()
      modifies this`form
      ensures Valid()
      ensures form == old(form).(date := date, status := status)
    {
      form := form.(date := date, status := status);
    }

    /** Setting or clearing the date filter changes nothing but the filter,
        so the counts, which are over the loaded records, stay as they were. */
    method SetFilterDate(date: string)
      requires Valid()
      modifies this`filterDate
      ensures Valid()
      ensures filterDate == date
      ensures PresentCount(records) == old(PresentCount(records))
      ensures AbsentCount(records) == old(AbsentCount(records))
    {
      filterDate := date;
    }

    /** `resetForm`: the chosen employee stays (sticky), the date becomes
        today and the status Present; create mode, no attempt, no form error;
        the success message is left alone. */
    method ResetForm(today: string)
      requires Valid()
      modifies this`form, this`editingId, this`submitAttempted, this`formError, this`edited
      ensures Valid()
      ensures form == Form(old(form.employee_id), today, Present)
      ensures editingId == None && !submitAttempted && formError == "" && edited == None
    {
      form := Form(form.employee_id, today, Present);
      editingId := None;
      submitAttempted := false;
      formError := "";
      edited := None;
    }

    /** `onEdit(record)`: edit mode for the record, the whole draft replaced
        by the record's employee, date and status, errors and success
        cleared. A draft employee that differs from the chosen one reloads
        the list for it, since the list follows the picker. */
    method OnEdit(record: AttendanceRecord, outcome: Outcome<ListData<AttendanceRecord>>) returns (calls: seq<Call>)
      requires Valid()
      modifies this`form, this`editingId, this`submitAttempted, this`formError, this`success, this`edited
      modifies this`records, this`loading, this`error
      ensures Valid() && edited == Some(record)
      ensures form == EditDraft(record) && editingId == Some(record.id)
      ensures !submitAttempted && formError == "" && success == ""
      ensures EditDraft(record).employee_id == old(form.employee_id) ==>
        calls == [] && records == old(records) && loading == old(loading) && error == old(error)
      ensures EditDraft(record).employee_id != old(form.employee_id) ==>
        calls == LoadCalls(EditDraft(record).employee_id)
      ensures EditDraft(record).employee_id != old(form.employee_id) && outcome.Done? ==>
        records == ItemsOrEmpty(outcome.value) && !loading && error == ""
      ensures EditDraft(record).employee_id != old(form.employee_id) && outcome.Failed? ==>
        records == old(records) && !loading && error == ErrorText(outcome.error, LoadFallback)
    {
      var reload := EditDraft(record).employee_id != form.employee_id;
      editingId, form, edited := Some(record.id), EditDraft(record), Some(record);
      submitAttempted, formError, success := false, "", "";
      if reload {
        calls := LoadAttendance(outcome);
      } else {
        calls := [];
      }
    }

    /** `onSubmit`. A draft the guard rejects marks the attempt, shows the
        "fix the highlighted fields" message and calls nothing, leaving the
        draft, the mode and the list alone. Otherwise the save is sent: when
        it succeeds the success message is set, the form reset (employee
        kept) and the list reloaded; when it fails its error text is shown
        and the draft and the mode are kept. Nothing is saving afterwards. */
    method OnSubmit(today: string, save: Outcome<()>, reload: Outcome<ListData<AttendanceRecord>>)
      returns (calls: seq<Call>)
      requires Valid()
      modifies this`submitAttempted, this`formError, this`success
      modifies this`form, this`editingId, this`edited, this`records, this`loading, this`error
      ensures Valid()
      ensures submitAttempted == (Rejects(old(form)) || save.Failed?)
      ensures Rejects(old(form)) || save.Failed? ==>
        && form == old(form) && editingId == old(editingId) && edited == old(edited)
        && records == old(records) && loading == old(loading) && error == old(error)
        && success == ""
      ensures Rejects(old(form)) ==> calls == [] && formError == FixFieldsMessage
      ensures !Rejects(old(form)) ==> |calls| >= 1 && calls[0] == SaveCall(old(form), old(editingId))
      ensures !Rejects(old(form)) && save.Failed? ==>
        calls == [SaveCall(old(form), old(editingId))] && formError == ErrorText(save.error, SaveFallback)
      ensures !Rejects(old(form)) && save.Done? ==>
        && calls == [SaveCall(old(form), old(editingId)), ListAttendance(NumberOf(old(form.employee_id)), "")]
        && form == Form(old(form.employee_id), today, Present)
        && editingId == None && formError == "" && !loading
        && success == (if IsEditing(old(editingId)) then UpdatedMessage else MarkedMessage)
        && (reload.Done? ==> records == ItemsOrEmpty(reload.value) && error == "")
        && (reload.Failed? ==> records == old(records) && error == ErrorText(reload.error, LoadFallback))
    {
      if Rejects(form) {
        ShowFormError(FixFieldsMessage);
        calls := [];
        return;
      }
      calls := [SaveCall(form, editingId)];
      match save {
        case Done(_) =>
          var more := AfterSave(if IsEditing(editingId) then UpdatedMessage else MarkedMessage, today, reload);
          calls := calls + more;
        case Failed(err) =>
          ShowFormError(ErrorText(err, SaveFallback));
      }
    }

    /** A submit that ends without a save: the attempt is marked, the message
        shown above the form and any success message cleared. */
    method ShowFormError(message: string)
      requires Valid()
      modifies this`submitAttempted, this`formError, this`success
      ensures Valid()
      ensures submitAttempted && formError == message && success == ""
    {
      submitAttempted, formError, success := true, message, "";
    }

    /** The success path of `onSubmit` once the save is acknowledged: the
        success message, the form reset (employee kept) and the list reloaded
        for that employee. */
    method AfterSave(message: string, today: string, reload: Outcome<ListData<AttendanceRecord>>) returns (calls: seq<Call>)
      requires Valid()
      modifies this`success, this`form, this`editingId, this`submitAttempted, this`formError, this`edited
      modifies this`records, this`loading, this`error
      ensures Valid()
      ensures success == message && form == Form(old(form.employee_id), today, Present)
      ensures editingId == None && !submitAttempted && formError == ""
      ensures calls == LoadCalls(old(form.employee_id))
      ensures old(form.employee_id) == "" ==>
        records == [] && loading == old(loading) && error == old(error)
      ensures old(form.employee_id) != "" && reload.Done? ==>
        records == ItemsOrEmpty(reload.value) && !loading && error == ""
      ensures old(form.employee_id) != "" && reload.Failed? ==>
        records == old(records) && !loading && error == ErrorText(reload.error, LoadFallback)
    {
      success := message;
      ResetForm(today);
      calls := LoadAttendance(reload);
    }

    /** `onDelete(id)`: a declined confirmation calls nothing and changes
        nothing. Otherwise the record's delete is sent: on success the list is
        reloaded; on failure the error text is shown and the list is kept. */
    method OnDelete(id: int, confirmed: bool, del: Outcome<()>, reload: Outcome<ListData<AttendanceRecord>>)
      returns (calls: seq<Call>)
      requires Valid()
      modifies this`records, this`loading, this`error
      ensures Valid()
      ensures !confirmed ==> calls == [] && records == old(records) && loading == old(loading) && error == old(error)
      ensures confirmed ==> |calls| >= 1 && calls[0] == DeleteAttendance(id)
      ensures confirmed && del.Failed? ==>
        calls == [DeleteAttendance(id)]
        && records == old(records) && loading == old(loading) && error == ErrorText(del.error, DeleteFallback)
      ensures confirmed && del.Done? ==> calls == [DeleteAttendance(id)] + LoadCalls(form.employee_id)
      ensures confirmed && del.Done? && form.employee_id == "" ==>
        records == [] && loading == old(loading) && error == old(error)
      ensures confirmed && del.Done? && form.employee_id != "" && reload.Done? ==>
        records == ItemsOrEmpty(reload.value) && !loading && error == ""
      ensures confirmed && del.Done? && form.employee_id != "" && reload.Failed? ==>
        records == old(records) && !loading && error == ErrorText(reload.error, LoadFallback)
    {
      if !confirmed {
        calls := [];
        return;
      }
      calls := [DeleteAttendance(id)];
      match del {
        case Done(_) =>
          var more := LoadAttendance(reload);
          calls := calls + more;
        case Failed(err) =>
          error := ErrorText(err, DeleteFallback);
      }
    }
  }

  /** The list scenario: two records of one employee, filtered on the
      second day, show only the second; the counts are over both. */
  lemma FilterScenario()
    ensures var records := [
        AttendanceRecord(1, 1, "2024-01-01", Present),
        AttendanceRecord(2, 1, "2024-01-02", Absent)];
      && VisibleRecords(records, "2024-01-02") == [records[1]]
      && PresentCount(records) == 1 && AbsentCount(records) == 1
  {
    var first := AttendanceRecord(1, 1, "2024-01-01", Present);
    var second := AttendanceRecord(2, 1, "2024-01-02", Absent);
    var records := [first, second];
    assert records[..1] == [first] && [first][..0] == [];
    var onDay, present, absent := DateIs("2024-01-02"), StatusIs(Present), StatusIs(Absent);
    assert !onDay(first) && onDay(second);
    assert present(first) && !present(second);
    assert !absent(first) && absent(second);
    assert Filter([first], onDay) == [];
    assert Filter([first], present) == [first];
    assert Filter([first], absent) == [];
    assert Filter(records, onDay) == [second];
    assert Filter(records, present) == [first];
    assert Filter(records, absent) == [second];
  }
}
