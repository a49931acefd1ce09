/** The task editor: a form record changed one field at a time, filled from a task
    when editing, and handed to the caller on submit when the title is not blank. */
module TaskForm {
  import opened Wrappers
  import opened Strings
  import opened Tasks
  import opened TimeUtils

  /** The form's `formData`. A `categoryId` of 0 is the empty selection `''`. */
  datatype FormData = FormData(
    title: string,
    description: string,
    categoryId: int,
    startTime: string,
    duration: int,
    reminderEnabled: bool,
    reminderMinutes: int)

  /** The record a new form starts with. */
  const InitialForm: FormData := FormData("", "", 0, "", 30, true, 5)

  /** `handleChange(field, value)`: a field and the value it receives. */
  datatype Change =
    | SetTitle(title: string)
    | SetDescription(description: string)
    | SetCategory(categoryId: int)
    | SetStartTime(startTime: string)
    | SetDuration(duration: int)
    | SetReminderEnabled(enabled: bool)
    | SetReminderMinutes(minutes: int)

  datatype Field = Title | Description | CategoryId | StartTime | Duration | ReminderEnabled | ReminderMinutes

  /** A field's value, whatever its type. */
  datatype FieldValue = Text(text: string) | Number(number: int) | Flag(flag: bool)

  function Get(form: FormData, field: Field): FieldValue
  {
    match field
    case Title => Text(form.title)
    case Description => Text(form.description)
    case CategoryId => Number(form.categoryId)
    case StartTime => Text(form.startTime)
    case Duration => Number(form.duration)
    case ReminderEnabled => Flag(form.reminderEnabled)
    case ReminderMinutes => Number(form.reminderMinutes)
  }

  function FieldOf(c: Change): Field
  {
    match c
    case SetTitle(_) => Title
    case SetDescription(_) => Description
    case SetCategory(_) => CategoryId
    case SetStartTime(_) => StartTime
    case SetDuration(_) => Duration
    case SetReminderEnabled(_) => ReminderEnabled
    case SetReminderMinutes(_) => ReminderMinutes
  }

  function ValueOf(c: Change): FieldValue
  {
    match c
    case SetTitle(v) => Text(v)
    case SetDescription(v) => Text(v)
    case SetCategory(v) => Number(v)
    case SetStartTime(v) => Text(v)
    case SetDuration(v) => Number(v)
    case SetReminderEnabled(v) => Flag(v)
    case SetReminderMinutes(v) => Number(v)
  }

  /** `{ ...prev, [field]: value }`. */
  function Apply(form: FormData, c: Change): FormData
  {
    match c
    case SetTitle(v) => form.(title := v)
    case SetDescription(v) => form.(description := v)
    case SetCategory(v) => form.(categoryId := v)
    case SetStartTime(v) => form.(startTime := v)
    case SetDuration(v) => form.(duration := v)
    case SetReminderEnabled(v) => form.(reminderEnabled := v)
    case SetReminderMinutes(v) => form.(reminderMinutes := v)
  }

  /** A change sets its own field to its value and leaves every other field alone. */
  lemma ApplyChangesOnlyItsField(form: FormData, c: Change, f: Field)
    ensures Get(Apply(form, c), FieldOf(c)) == ValueOf(c)
    ensures f != FieldOf(c) ==> Get(Apply(form, c), f) == Get(form, f)
  {
  }

  /** Two forms that agree on every field are the same form. */
  lemma FieldsDetermineForm(a: FormData, b: FormData)
    requires forall f :: Get(a, f) == Get(b, f)
    ensures a == b
  {
    assert Get(a, Title) == Get(b, Title) && Get(a, Description) == Get(b, Description);
    assert Get(a, CategoryId) == Get(b, CategoryId) && Get(a, StartTime) == Get(b, StartTime);
    assert Get(a, Duration) == Get(b, Duration) && Get(a, ReminderEnabled) == Get(b, ReminderEnabled);
    assert Get(a, ReminderMinutes) == Get(b, ReminderMinutes);
  }

  // ---------------------------------------------------------------------------
  // Editing an existing task

  /** The record the edit effect builds from a task: falsy fields fall back to the
      defaults, and reminders count as on unless the task says exactly `false`. */
  function PrefillData(task: Task): FormData
  {
    FormData(
      task.title,
      task.description,
      task.categoryId,
      task.startTime,
      DurationMinutes(task),
      task.reminderEnabled != Some(false),
      LeadMinutes(task))
  }

  /** A task without a length, a lead time or a reminder flag opens with 30 minutes,
      5 minutes and reminders on; only an explicit `false` opens with reminders off. */
  lemma PrefillDefaults(task: Task)
    ensures task.duration == 0 ==> PrefillData(task).duration == 30
    ensures task.reminderMinutes == 0 ==> PrefillData(task).reminderMinutes == 5
    ensures task.reminderEnabled.None? ==> PrefillData(task).reminderEnabled
    ensures !PrefillData(task).reminderEnabled <==> task.reminderEnabled == Some(false)
    ensures PrefillData(task).duration != 0 && PrefillData(task).reminderMinutes != 0
  {
  }

  /** The task the store keeps for a saved form. */
  function SavedTask(form: FormData, id: int, date: Option<int>, completed: bool): Task
  {
    Task(id, form.title, form.description, form.categoryId, date, form.startTime,
         form.duration, completed, Some(form.reminderEnabled), form.reminderMinutes)
  }

  /** Re-opening a saved task shows the form it was saved from, whenever the form's
      length and lead time are set. */
  lemma EditShowsSavedForm(form: FormData, id: int, date: Option<int>, completed: bool)
    requires form.duration != 0 && form.reminderMinutes != 0
    ensures PrefillData(SavedTask(form, id, date, completed)) == form
  {
  }

  // ---------------------------------------------------------------------------
  // The values the controls offer

  /** The duration slider: 5 to 180 minutes in steps of 5. */
  predicate DurationOffered(d: int)
  {
    5 <= d <= 180 && d % 5 == 0
  }

  /** The lead-time menu: 5, 10, 15, 30 or 60 minutes. */
  predicate LeadOffered(m: int)
  {
    m in {5, 10, 15, 30, 60}
  }

  /** The start-time menu: "Not scheduled" or one of the 192 five-minute times from
      06:00 to 21:55. */
  predicate StartTimeOffered(s: string)
  {
    s == "" || exists i :: 0 <= i < 192 && s == GetTimeFromMinutes(360 + 5 * i)
  }

  /** A change the form's controls can make: free text for title and notes, a listed
      category id, and otherwise only the offered values. */
  predicate ChangeOffered(c: Change, categories: seq<Category>)
  {
    match c
    case SetTitle(_) => true
    case SetDescription(_) => true
    case SetCategory(id) => exists k :: 0 <= k < |categories| && categories[k].id == id
    case SetStartTime(s) => StartTimeOffered(s)
    case SetDuration(d) => DurationOffered(d)
    case SetReminderEnabled(_) => true
    case SetReminderMinutes(m) => LeadOffered(m)
  }

  /** Every number and time in the form is one the controls offer. */
  predicate Offered(form: FormData)
  {
    StartTimeOffered(form.startTime) && DurationOffered(form.duration) && LeadOffered(form.reminderMinutes)
  }

  /** The new form holds offered values, and the controls keep it so. */
  lemma OfferedPreserved(form: FormData, c: Change, categories: seq<Category>)
    ensures Offered(InitialForm)
    ensures Offered(form) && ChangeOffered(c, categories) ==> Offered(Apply(form, c))
  {
  }

  /** A form the controls filled in can be saved and re-opened unchanged. */
  lemma OfferedFormsReopen(form: FormData, id: int, date: Option<int>, completed: bool)
    requires Offered(form)
    ensures PrefillData(SavedTask(form, id, date, completed)) == form
  {
    EditShowsSavedForm(form, id, date, completed);
  }

  /** Every offered start time other than "Not scheduled" is a zero-padded `HH:MM`
      between 06:00 and 21:55 that reads back as its own minute. */
  lemma OfferedStartTimesRead(s: string)
    requires StartTimeOffered(s) && s != ""
    ensures IsClockTime(s)
    ensures GetMinutesFromTime(s).Some? && 360 <= GetMinutesFromTime(s).value <= 1315
  {
    var i :| 0 <= i < 192 && s == GetTimeFromMinutes(360 + 5 * i);
    GridTimeReads(i, s);
  }

  lemma GridTimeReads(i: int, s: string)
    requires 0 <= i < 192 && s == GetTimeFromMinutes(360 + 5 * i)
    ensures IsClockTime(s)
    ensures GetMinutesFromTime(s).Some? && 360 <= GetMinutesFromTime(s).value <= 1315
  {
    MinutesRoundTrip(360 + 5 * i);
  }

  /** The first and the last start time of the five-minute grid. */
  lemma FormGridEnds()
    ensures GetTimeFromMinutes(360) == "06:00" && GetTimeFromMinutes(1315) == "21:55"
  {
    assert JsRem(360, 60) == 0 && JsRem(1315, 60) == 55;
    Pad2Digits(6);
    Pad2Digits(0);
    Pad2Digits(21);
    Pad2Digits(55);
  }

  // ---------------------------------------------------------------------------
  // The component's state

  /** The form's state: the record being edited and the start-time rows. */
  class TaskFormState {
    var formData: FormData
    var timeSlots: seq<TimeSlot>

    constructor()
      ensures formData == InitialForm && timeSlots == []
    {
      formData := InitialForm;
      timeSlots := [];
    }

    /** The mount effect: `generateTimeSlots(6, 22, 5)`, the 192 five-minute rows from
        06:00 to 21:55. */
    method LoadTimeSlots()
      modifies this
      ensures |timeSlots| == 192
      ensures forall i :: 0 <= i < |timeSlots| ==> timeSlots[i].minutes == 360 + 5 * i
      ensures forall i :: 0 <= i < |timeSlots| ==> timeSlots[i].value == GetTimeFromMinutes(360 + 5 * i)
      ensures forall i :: 0 <= i < |timeSlots| ==>
        timeSlots[i].time == FormatTime(timeSlots[i].minutes / 60, timeSlots[i].minutes % 60)
      ensures timeSlots[0].value == "06:00" && timeSlots[191].value == "21:55"
      ensures formData == old(formData)
    {
      var slots := GenerateTimeSlots(6, 22, 5);
      assert SlotCount(6, 22, 5) == 192;
      LabelsWithinDay(slots);
      timeSlots := slots;
      FormGridEnds();
    }

    /** The values of the start-time menu: "Not scheduled" first, then the rows. */
    function StartTimeChoices(): seq<string>
      reads this
    {
      [""] + seq(|timeSlots|, i reads this requires 0 <= i < |timeSlots| => timeSlots[i].value)
    }

    /** The edit effect: a task given to the form replaces the whole record. */
    method Prefill(task: Option<Task>)
      modifies this
      ensures formData == (if task.Some? then PrefillData(task.value) else old(formData))
      ensures timeSlots == old(timeSlots)
    {
      if task.Some? {
        formData := PrefillData(task.value);
      }
    }

    /** `handleChange(field, value)`. */
    method HandleChange(c: Change)
      modifies this
      ensures formData == Apply(old(formData), c)
      ensures timeSlots == old(timeSlots)
    {
      formData := Apply(formData, c);
    }

    /** `handleSubmit`: a title of only whitespace is refused and nothing is saved;
        otherwise the record is saved as it is, its title untrimmed. The form itself
        is not changed either way. */
    method Submit() returns (saved: Option<FormData>)
      ensures saved.None? <==> forall i :: 0 <= i < |formData.title| ==> IsWhitespace(formData.title[i])
      ensures saved.Some? ==> saved.value == formData
    {
      BlankIffAllWhitespace(formData.title);
      if IsBlank(formData.title) {
        return None;
      }
      return Some(formData);
    }
  }

  /** The choices the menu lists after loading are exactly the offered start times. */
  lemma StartTimeChoicesOffered(slots: seq<TimeSlot>, s: string)
    requires |slots| == 192
    requires forall i :: 0 <= i < |slots| ==> slots[i].value == GetTimeFromMinutes(360 + 5 * i)
    ensures (s == "" || exists i :: 0 <= i < |slots| && slots[i].value == s) <==> StartTimeOffered(s)
  {
    if StartTimeOffered(s) && s != "" {
      var i :| 0 <= i < 192 && s == GetTimeFromMinutes(360 + 5 * i);
      assert slots[i].value == s;
    }
  }
}
