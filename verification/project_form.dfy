/** The project form screen: the form record, its validation, the clamped
    progress input, the date shown in a date field, the initial values in
    edit mode and the choice of request on save. Date parsing
    (`new Date(s)` compared by time value) and `parseInt` are parameters:
    None stands for an invalid date and for NaN. */
module ProjectForm {
  import opened Wrappers
  import Text
  import opened ProjectSlice

  datatype Form = Form(
    projectName: string,
    status: string,
    priority: string,
    projectType: string,
    customer: string,
    expectedStartDate: string,
    expectedEndDate: string,
    percentComplete: int)

  const DefaultForm: Form := Form("", "Open", "Medium", "", "", "", "", 0)

  // ---- validateForm ----

  /** The error keys `validateForm` may set; None when a key is absent. The
      progress check is commented out in the screen, so no key exists for it. */
  datatype FormErrors = FormErrors(projectName: Option<string>, expectedEndDate: Option<string>)

  /** `endDate < startDate` on two Date objects: false when either is invalid. */
  predicate EndBeforeStart(form: Form, parseDate: string -> Option<int>) {
    var start := parseDate(form.expectedStartDate);
    var end := parseDate(form.expectedEndDate);
    start.Some? && end.Some? && end.value < start.value
  }

  function Validate(form: Form, parseDate: string -> Option<int>): (e: FormErrors)
    ensures e.projectName.Some? <==> Text.Trim(form.projectName) == ""
    ensures e.expectedEndDate.Some? <==>
      form.expectedStartDate != "" && form.expectedEndDate != "" && EndBeforeStart(form, parseDate)
  {
    FormErrors(
      if Text.Trim(form.projectName) == "" then Some("Project name is required") else None,
      if form.expectedStartDate != "" && form.expectedEndDate != "" && EndBeforeStart(form, parseDate)
      then Some("End date cannot be before start date") else None)
  }

  /** `Object.keys(newErrors).length === 0` */
  predicate NoErrors(e: FormErrors) {
    e.projectName.None? && e.expectedEndDate.None?
  }

  function ValidateForm(form: Form, parseDate: string -> Option<int>): (ok: bool)
    ensures ok <==> (Text.Trim(form.projectName) != "" &&
                     !(form.expectedStartDate != "" && form.expectedEndDate != "" && EndBeforeStart(form, parseDate)))
  {
    NoErrors(Validate(form, parseDate))
  }

  /** Progress never affects validity, whatever its value. */
  lemma ProgressNeverInvalid(form: Form, p: int, parseDate: string -> Option<int>)
    ensures ValidateForm(form.(percentComplete := p), parseDate) == ValidateForm(form, parseDate)
  {
  }

  /** An unparseable date never produces the end-date error. */
  lemma InvalidDateNeverCompares(form: Form, parseDate: string -> Option<int>)
    requires parseDate(form.expectedStartDate).None? || parseDate(form.expectedEndDate).None?
    ensures Validate(form, parseDate).expectedEndDate.None?
  {
  }

  // ---- the progress input ----

  /** `Math.min(Math.max(v, 0), 100)` */
  function Clamp(v: int): (r: int)
    ensures 0 <= r <= 100
    ensures 0 <= v <= 100 ==> r == v
    ensures v < 0 ==> r == 0
    ensures v > 100 ==> r == 100
  {
    if v < 0 then 0 else if v > 100 then 100 else v
  }

  /** `Math.min(Math.max(parseInt(text) || 0, 0), 100)`: NaN and 0 both
      become 0. */
  function ProgressInput(text: string, parseInt: string -> Option<int>): (r: int)
    ensures 0 <= r <= 100
    ensures parseInt(text).None? ==> r == 0
    ensures parseInt(text).Some? ==> r == Clamp(parseInt(text).value)
  {
    match parseInt(text)
    case None => 0
    case Some(v) => Clamp(v)
  }

  /** Clamping twice is clamping once, so re-entering the shown value keeps
      it when `parseInt` reads back what was shown. */
  lemma ProgressInputStable(text: string, shown: string, parseInt: string -> Option<int>)
    requires parseInt(shown) == Some(ProgressInput(text, parseInt))
    ensures ProgressInput(shown, parseInt) == ProgressInput(text, parseInt)
  {
  }

  // ---- formatDateForInput ----

  /** `''` for an empty string, otherwise the part before the first space. */
  function FormatDateForInput(s: string): (r: string)
    ensures ' ' !in r
    ensures |r| <= |s| && r == s[..|r|]
    ensures ' ' !in s ==> r == s
  {
    if s == "" then ""
    else
      FirstPieceIsPrefix(s);
      Text.Split(s, ' ')[0]
  }

  /** The first piece of a split is a prefix, the whole string when there
      is no separator. */
  lemma FirstPieceIsPrefix(s: string)
    ensures |Text.Split(s, ' ')[0]| <= |s| && Text.Split(s, ' ')[0] == s[..|Text.Split(s, ' ')[0]|]
    ensures ' ' !in s ==> Text.Split(s, ' ')[0] == s
  {
    var ps := Text.Split(s, ' ');
    Text.JoinSplit(s, ' ');
    Text.JoinFirst(ps, [' ']);
    if ' ' !in s {
      Text.SplitWithoutSeparator(s, ' ');
    }
  }

  /** A date with a time part loses the time; a plain date is kept; a shown
      date formats to itself. */
  lemma DropsTimePart(date: string, time: string)
    requires ' ' !in date
    ensures date != "" ==> FormatDateForInput(date + " " + time) == date
    ensures FormatDateForInput(FormatDateForInput(date + " " + time)) == FormatDateForInput(date + " " + time)
  {
    if date != "" {
      assert date + " " + time == date + [' '] + time;
      Text.SplitAfterPiece(date, ' ', time);
    }
  }

  // ---- edit-mode initialisation and save ----

  /** The form filled from a project: every field `|| default`. */
  function EditForm(p: Project): (f: Form)
    ensures f.projectName == p.projectName
    ensures f.status == (if p.status == "" then "Open" else p.status)
    ensures f.priority == (if p.priority == "" then "Medium" else p.priority)
    ensures f.projectType == p.projectType.GetOr("") && f.customer == p.customer.GetOr("")
    ensures f.expectedStartDate == p.expectedStartDate.GetOr("")
    ensures f.expectedEndDate == p.expectedEndDate.GetOr("")
    ensures f.percentComplete == p.percentComplete.GetOr(0)
  {
    Form(p.projectName,
         if p.status == "" then "Open" else p.status,
         if p.priority == "" then "Medium" else p.priority,
         p.projectType.GetOr(""), p.customer.GetOr(""),
         p.expectedStartDate.GetOr(""), p.expectedEndDate.GetOr(""),
         p.percentComplete.GetOr(0))
  }

  datatype Mode = CreateMode | EditMode

  /** The form after the edit-mode effect has run: filled from the project
      in edit mode with a project, the defaults otherwise. */
  function InitialForm(mode: Mode, project: Option<Project>): (f: Form)
    ensures mode == EditMode && project.Some? ==> f == EditForm(project.value)
    ensures mode == CreateMode || project.None? ==> f == DefaultForm
  {
    if project.Some? && mode == EditMode then EditForm(project.value) else DefaultForm
  }

  /** A project whose fields are all set is shown as it is: nothing is
      replaced by a default. */
  lemma EditShowsTheProject(p: Project)
    requires p.status != "" && p.priority != ""
    requires p.projectType.Some? && p.customer.Some? && p.percentComplete.Some?
    requires p.expectedStartDate.Some? && p.expectedEndDate.Some?
    ensures EditForm(p) == Form(p.projectName, p.status, p.priority, p.projectType.value, p.customer.value,
                                p.expectedStartDate.value, p.expectedEndDate.value, p.percentComplete.value)
  {
  }

  /** The request `handleSave` dispatches, if any. */
  datatype Save = NoSave | Create(form: Form) | Update(id: string, form: Form)

  function HandleSave(form: Form, mode: Mode, project: Option<Project>, parseDate: string -> Option<int>): (s: Save)
    ensures !ValidateForm(form, parseDate) ==> s == NoSave
    ensures ValidateForm(form, parseDate) && mode == CreateMode ==> s == Create(form)
    ensures ValidateForm(form, parseDate) && mode == EditMode && project.Some? ==> s == Update(project.value.name, form)
    ensures mode == EditMode && project.None? ==> s == NoSave
  {
    if !ValidateForm(form, parseDate) then NoSave
    else if mode == CreateMode then Create(form)
    else if project.Some? then Update(project.value.name, form)
    else NoSave
  }

  /** Whatever is dispatched carries the form as entered, and an update is
      keyed by the project's `name`, never by its `project_name`. */
  lemma SaveSendsTheForm(form: Form, mode: Mode, project: Option<Project>, parseDate: string -> Option<int>)
    ensures HandleSave(form, mode, project, parseDate) != NoSave ==>
      HandleSave(form, mode, project, parseDate).form == form
    ensures HandleSave(form, mode, project, parseDate).Update? ==>
      project.Some? && HandleSave(form, mode, project, parseDate).id == project.value.name
  {
  }
}
