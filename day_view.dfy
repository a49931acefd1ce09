/** The day timeline. Tasks without a start time are listed apart, in list order; the
    others are grouped by the half-hour row their start falls in, counted from 06:00,
    and only the rows of the 06:00-22:00 grid are shown. */
module DayView {
  import opened Wrappers
  import opened Tasks
  import opened Strings
  import opened TimeUtils

  const GRID_START_MINUTES: int := 360
  const ROW_MINUTES: int := 30
  const ROW_COUNT: int := 32

  /** `Math.floor((minutes - 360) / 30)`: the half-hour row, counted from 06:00, that
      a minute of the day falls in. */
  function RowOf(minutes: int): int
  {
    (minutes - GRID_START_MINUTES) / ROW_MINUTES
  }

  /** The dictionary key of a scheduled task: the row of its start time; `None` is the
      key `NaN` of a start time that does not read as a number. */
  function SlotKey(t: Task): Option<int>
  {
    match GetMinutesFromTime(t.startTime)
    case None => None
    case Some(m) => Some(RowOf(m))
  }

  /** `tasks.filter((t) => !t.startTime)`. */
  function Unscheduled(tasks: seq<Task>): seq<Task>
  {
    if tasks == [] then []
    else
      var last := tasks[|tasks| - 1];
      Unscheduled(tasks[..|tasks| - 1]) + (if HasStartTime(last) then [] else [last])
  }

  // ---------------------------------------------------------------------------
  // Grouping by a key. The grouping below is stated for any key function `keyOf`;
  // the timeline uses `SlotKey`.

  /** The scheduled tasks whose key is `key`, in list order. */
  function InSlot(tasks: seq<Task>, keyOf: Task -> Option<int>, key: Option<int>): seq<Task>
  {
    if tasks == [] then []
    else
      var last := tasks[|tasks| - 1];
      InSlot(tasks[..|tasks| - 1], keyOf, key) + (if HasStartTime(last) && keyOf(last) == key then [last] else [])
  }

  /** The keys of the scheduled tasks. */
  function Keys(tasks: seq<Task>, keyOf: Task -> Option<int>): set<Option<int>>
  {
    set t | t in tasks && HasStartTime(t) :: keyOf(t)
  }

  /** One entry per key in use, holding the tasks with that key in list order. */
  function GroupBy(tasks: seq<Task>, keyOf: Task -> Option<int>): map<Option<int>, seq<Task>>
  {
    map k | k in Keys(tasks, keyOf) :: InSlot(tasks, keyOf, k)
  }

  /** The dictionary the grouping effect builds. */
  function Grouping(tasks: seq<Task>): map<Option<int>, seq<Task>>
  {
    GroupBy(tasks, SlotKey)
  }

  lemma {:induction false} InSlotEmpty(tasks: seq<Task>, keyOf: Task -> Option<int>, key: Option<int>)
    requires key !in Keys(tasks, keyOf)
    ensures InSlot(tasks, keyOf, key) == []
  {
    if tasks != [] {
      var init := tasks[..|tasks| - 1];
      assert Keys(init, keyOf) <= Keys(tasks, keyOf);
      InSlotEmpty(init, keyOf, key);
    }
  }

  /** `if (!grouped[k]) grouped[k] = []; grouped[k].push(t)`: an empty array is truthy,
      so the entry is opened only when the key is missing. */
  function AppendUnder(g: map<Option<int>, seq<Task>>, k: Option<int>, t: Task): (r: map<Option<int>, seq<Task>>)
    ensures r.Keys == g.Keys + {k}
    ensures r[k] == (if k in g then g[k] else []) + [t]
    ensures forall key :: key in g && key != k ==> r[key] == g[key]
  {
    var withKey := if k in g then g else g[k := []];
    withKey[k := withKey[k] + [t]]
  }

  /** Appending a scheduled task appends it to the group of its key, opening the group
      when the key is new; appending an unscheduled one changes nothing. */
  lemma GroupByStep(tasks: seq<Task>, keyOf: Task -> Option<int>, t: Task)
    ensures HasStartTime(t) ==> GroupBy(tasks + [t], keyOf) == AppendUnder(GroupBy(tasks, keyOf), keyOf(t), t)
    ensures !HasStartTime(t) ==> GroupBy(tasks + [t], keyOf) == GroupBy(tasks, keyOf)
  {
    KeysStep(tasks, keyOf, t);
    if HasStartTime(t) {
      AppendScheduled(tasks, keyOf, t);
    } else {
      AppendUnscheduled(tasks, keyOf, t);
    }
  }

  lemma KeysStep(tasks: seq<Task>, keyOf: Task -> Option<int>, t: Task)
    ensures Keys(tasks + [t], keyOf) == Keys(tasks, keyOf) + (if HasStartTime(t) then {keyOf(t)} else {})
  {
  }

  lemma InSlotStep(tasks: seq<Task>, keyOf: Task -> Option<int>, t: Task, key: Option<int>)
    ensures InSlot(tasks + [t], keyOf, key) == InSlot(tasks, keyOf, key) + (if HasStartTime(t) && keyOf(t) == key then [t] else [])
  {
    var ts := tasks + [t];
    assert ts[..|ts| - 1] == tasks;
  }

  lemma AppendScheduled(tasks: seq<Task>, keyOf: Task -> Option<int>, t: Task)
    requires HasStartTime(t)
    requires Keys(tasks + [t], keyOf) == Keys(tasks, keyOf) + {keyOf(t)}
    ensures GroupBy(tasks + [t], keyOf) == AppendUnder(GroupBy(tasks, keyOf), keyOf(t), t)
  {
    var expected := AppendUnder(GroupBy(tasks, keyOf), keyOf(t), t);
    var g' := GroupBy(tasks + [t], keyOf);
    forall key | key in g' ensures g'[key] == expected[key] {
      AppendScheduledAt(tasks, keyOf, t, key);
    }
    SameMaps(g', expected);
  }

  lemma AppendScheduledAt(tasks: seq<Task>, keyOf: Task -> Option<int>, t: Task, key: Option<int>)
    requires HasStartTime(t)
    requires key in Keys(tasks, keyOf) + {keyOf(t)}
    ensures InSlot(tasks + [t], keyOf, key) == AppendUnder(GroupBy(tasks, keyOf), keyOf(t), t)[key]
  {
    InSlotStep(tasks, keyOf, t, key);
    if key !in Keys(tasks, keyOf) {
      InSlotEmpty(tasks, keyOf, key);
    }
  }

  lemma SameMaps(a: map<Option<int>, seq<Task>>, b: map<Option<int>, seq<Task>>)
    requires a.Keys == b.Keys
    requires forall key :: key in a ==> a[key] == b[key]
    ensures a == b
  {
  }

  lemma AppendUnscheduled(tasks: seq<Task>, keyOf: Task -> Option<int>, t: Task)
    requires !HasStartTime(t)
    requires Keys(tasks + [t], keyOf) == Keys(tasks, keyOf)
    ensures GroupBy(tasks + [t], keyOf) == GroupBy(tasks, keyOf)
  {
    forall key | key in Keys(tasks, keyOf) ensures InSlot(tasks + [t], keyOf, key) == InSlot(tasks, keyOf, key) {
      InSlotStep(tasks, keyOf, t, key);
    }
  }

  /** The loop of the grouping effect, for any key function: the dictionary starts
      empty and each scheduled task is appended under its key in a forward pass,
      opening the entry the first time the key is seen. */
  method GroupTasksBy(tasks: seq<Task>, keyOf: Task -> Option<int>) returns (grouped: map<Option<int>, seq<Task>>)
    ensures grouped == GroupBy(tasks, keyOf)
  {
    grouped := map[];
    var i := 0;
    while i < |tasks|
      invariant 0 <= i <= |tasks|
      invariant grouped == GroupBy(tasks[..i], keyOf)
    {
      var task := tasks[i];
      GroupByStep(tasks[..i], keyOf, task);
      assert tasks[..i + 1] == tasks[..i] + [task];
      if HasStartTime(task) {
        var slotKey := keyOf(task);
        if slotKey !in grouped {
          grouped := grouped[slotKey := []];
        }
        grouped := grouped[slotKey := grouped[slotKey] + [task]];
      }
      i := i + 1;
    }
    assert tasks[..i] == tasks;
  }

  /** `useEffect(..., [tasks])`: the dictionary is rebuilt from the task list alone,
      so it is the same function of the list on every run. */
  method GroupTasks(tasks: seq<Task>) returns (grouped: map<Option<int>, seq<Task>>)
    ensures grouped == Grouping(tasks)
  {
    grouped := GroupTasksBy(tasks, SlotKey);
  }

  // ---------------------------------------------------------------------------
  // What the grouping is

  lemma {:induction false} InSlotMembers(tasks: seq<Task>, keyOf: Task -> Option<int>, key: Option<int>, t: Task)
    ensures t in InSlot(tasks, keyOf, key) <==> t in tasks && HasStartTime(t) && keyOf(t) == key
  {
    if tasks != [] {
      var init := tasks[..|tasks| - 1];
      InSlotMembers(init, keyOf, key, t);
      assert tasks == init + [tasks[|tasks| - 1]];
    }
  }

  /** A task is in the group under `key` exactly when it is one of the tasks, has a
      start time and has that key; so every scheduled task is in exactly one group and
      no unscheduled task is in any. */
  lemma GroupingMembers(tasks: seq<Task>, key: Option<int>, t: Task)
    ensures (key in Grouping(tasks) && t in Grouping(tasks)[key])
        <==> (t in tasks && HasStartTime(t) && SlotKey(t) == key)
  {
    InSlotMembers(tasks, SlotKey, key, t);
  }

  /** Grouping keeps list order: the group of a concatenation is the group of the first
      part followed by the group of the second. */
  lemma {:induction false} InSlotConcat(a: seq<Task>, b: seq<Task>, keyOf: Task -> Option<int>, key: Option<int>)
    ensures InSlot(a + b, keyOf, key) == InSlot(a, keyOf, key) + InSlot(b, keyOf, key)
    decreases |b|
  {
    if b != [] {
      var ab := a + b;
      assert ab[..|ab| - 1] == a + b[..|b| - 1];
      InSlotConcat(a, b[..|b| - 1], keyOf, key);
    } else {
      assert a + b == a;
    }
  }

  /** The unscheduled list is exactly the tasks without a start time. */
  lemma {:induction false} UnscheduledMembers(tasks: seq<Task>, t: Task)
    ensures t in Unscheduled(tasks) <==> t in tasks && !HasStartTime(t)
  {
    if tasks != [] {
      var init := tasks[..|tasks| - 1];
      UnscheduledMembers(init, t);
      assert tasks == init + [tasks[|tasks| - 1]];
    }
  }

  /** Some key of a non-empty dictionary. */
  ghost function PickKey(m: map<Option<int>, seq<Task>>): Option<int>
    requires m != map[]
  {
    assert exists k :: k in m by {
      var k :| k in m.Keys;
    }
    var k :| k in m; k
  }

  lemma RemoveShrinks(m: map<Option<int>, seq<Task>>, k: Option<int>)
    requires k in m
    ensures |m - {k}| == |m| - 1
  {
    assert (m - {k}).Keys == m.Keys - {k};
  }

  /** The sum of the group sizes of a dictionary. */
  ghost function SumSizes(m: map<Option<int>, seq<Task>>): nat
    decreases |m|
  {
    if m == map[] then 0
    else
      var k := PickKey(m);
      RemoveShrinks(m, k);
      |m[k]| + SumSizes(m - {k})
  }

  lemma {:induction false} SumSizesRemove(m: map<Option<int>, seq<Task>>, k: Option<int>)
    requires k in m
    ensures SumSizes(m) == |m[k]| + SumSizes(m - {k})
    decreases |m|
  {
    var p := PickKey(m);
    if p != k {
      RemoveShrinks(m, k);
      RemoveShrinks(m, p);
      SumSizesRemove(m - {p}, k);
      SumSizesRemove(m - {k}, p);
      assert m - {p} - {k} == m - {k} - {p};
    }
  }

  /** Grouping is a partition: the group sizes and the unscheduled count add up to the
      number of tasks. */
  lemma {:induction false} GroupByPartition(tasks: seq<Task>, keyOf: Task -> Option<int>)
    ensures SumSizes(GroupBy(tasks, keyOf)) + |Unscheduled(tasks)| == |tasks|
  {
    if tasks != [] {
      var init, t := tasks[..|tasks| - 1], tasks[|tasks| - 1];
      assert init + [t] == tasks;
      GroupByPartition(init, keyOf);
      GroupByStep(init, keyOf, t);
      if HasStartTime(t) {
        SumSizesAppend(GroupBy(init, keyOf), keyOf(t), t);
      }
    }
  }

  /** Appending one task under a key adds one to the total size of the groups. */
  lemma SumSizesAppend(g: map<Option<int>, seq<Task>>, k: Option<int>, t: Task)
    ensures SumSizes(AppendUnder(g, k, t)) == SumSizes(g) + 1
  {
    var r := AppendUnder(g, k, t);
    SumSizesRemove(r, k);
    assert r - {k} == g - {k};
    if k in g {
      SumSizesRemove(g, k);
    } else {
      assert g - {k} == g;
    }
  }

  /** The timeline's dictionary and unscheduled list account for every task once. */
  lemma GroupingPartition(tasks: seq<Task>)
    ensures SumSizes(Grouping(tasks)) + |Unscheduled(tasks)| == |tasks|
  {
    GroupByPartition(tasks, SlotKey);
  }

  // ---------------------------------------------------------------------------
  // What the timeline shows

  /** The timeline rows: for each slot index, `groupedTasks[index]`, empty when the
      dictionary has no such key. */
  function RenderedRows(slotCount: nat, grouped: map<Option<int>, seq<Task>>): seq<seq<Task>>
  {
    seq(slotCount, i => if Some(i) in grouped then grouped[Some(i)] else [])
  }

  /** Row `i` shows exactly the scheduled tasks with key `i`. */
  lemma RenderedRowMembers(tasks: seq<Task>, slotCount: nat, i: int, t: Task)
    requires 0 <= i < slotCount
    ensures t in RenderedRows(slotCount, Grouping(tasks))[i]
        <==> t in tasks && HasStartTime(t) && SlotKey(t) == Some(i)
  {
    GroupingMembers(tasks, Some(i), t);
  }

  /** The key of a start of `m` minutes is one of the 32 rows exactly when
      06:00 <= m < 22:00. */
  lemma RowWindow(m: int)
    ensures 0 <= RowOf(m) < ROW_COUNT <==> 360 <= m < 1320
  {
  }

  /** The key of a task is the row of the minute its start time reads as, and `NaN`
      exactly when it does not read as one. */
  lemma SlotKeyOfMinutes(t: Task)
    ensures SlotKey(t).Some? <==> GetMinutesFromTime(t.startTime).Some?
    ensures SlotKey(t).Some? ==> SlotKey(t).value == RowOf(GetMinutesFromTime(t.startTime).value)
  {
  }

  /** A scheduled task is shown in some row of an `n`-row timeline exactly when its
      key is one of the rows. */
  lemma ShownIffKeyInRows(tasks: seq<Task>, t: Task, n: nat)
    requires t in tasks && HasStartTime(t)
    ensures (exists i :: 0 <= i < n && t in RenderedRows(n, Grouping(tasks))[i])
        <==> (SlotKey(t).Some? && 0 <= SlotKey(t).value < n)
  {
    if SlotKey(t).Some? && 0 <= SlotKey(t).value < n {
      RenderedRowMembers(tasks, n, SlotKey(t).value, t);
    } else {
      forall i | 0 <= i < n ensures t !in RenderedRows(n, Grouping(tasks))[i] {
        RenderedRowMembers(tasks, n, i, t);
      }
    }
  }

  /** On the 32-row grid a scheduled task is shown in some row exactly when its start
      reads as a minute from 06:00 up to but excluding 22:00; tasks before or after
      are grouped but never shown. */
  lemma ShownIffWithinGrid(tasks: seq<Task>, t: Task)
    requires t in tasks && HasStartTime(t)
    ensures (exists i :: 0 <= i < ROW_COUNT && t in RenderedRows(ROW_COUNT, Grouping(tasks))[i])
        <==> (GetMinutesFromTime(t.startTime).Some?
              && 360 <= GetMinutesFromTime(t.startTime).value < 1320)
  {
    ShownIffKeyInRows(tasks, t, ROW_COUNT);
    SlotKeyOfMinutes(t);
    if GetMinutesFromTime(t.startTime).Some? {
      RowWindow(GetMinutesFromTime(t.startTime).value);
    }
  }

  /** The key of a zero-padded `HH:MM` start: the half-hour rows counted from 06:00. */
  lemma SlotKeyOfClockTime(t: Task, hh: string, mm: string)
    requires |hh| == 2 && |mm| == 2 && AllDigits(hh) && AllDigits(mm)
    requires t.startTime == hh + ":" + mm
    ensures SlotKey(t) == Some(RowOf(ClockMinutes(DigitsValue(hh), DigitsValue(mm))))
  {
    ClockFieldsOfDigits(hh, mm);
  }

  /** Keys of some start times: 06:00 and 06:20 share row 0, 06:30 is row 1, and
      05:45 falls before the grid at -1. */
  lemma SlotKeyExamples(t: Task)
    ensures t.startTime == "06:00" ==> SlotKey(t).Some? && SlotKey(t).value == 0
    ensures t.startTime == "06:20" ==> SlotKey(t).Some? && SlotKey(t).value == 0
    ensures t.startTime == "06:30" ==> SlotKey(t).Some? && SlotKey(t).value == 1
    ensures t.startTime == "05:45" ==> SlotKey(t).Some? && SlotKey(t).value == -1
  {
    if t.startTime == "06:00" {
      SlotKeyOfDigits(t, '0', '6', '0', '0');
    } else if t.startTime == "06:20" {
      SlotKeyOfDigits(t, '0', '6', '2', '0');
    } else if t.startTime == "06:30" {
      SlotKeyOfDigits(t, '0', '6', '3', '0');
    } else if t.startTime == "05:45" {
      SlotKeyOfDigits(t, '0', '5', '4', '5');
    }
  }

  lemma SlotKeyOfDigits(t: Task, h1: char, h2: char, m1: char, m2: char)
    requires IsDigit(h1) && IsDigit(h2) && IsDigit(m1) && IsDigit(m2)
    requires t.startTime == [h1, h2, ':', m1, m2]
    ensures SlotKey(t).Some?
    ensures SlotKey(t).value
      == RowOf(ClockMinutes(10 * DigitValue(h1) + DigitValue(h2), 10 * DigitValue(m1) + DigitValue(m2)))
  {
    var hh, mm := [h1, h2], [m1, m2];
    assert t.startTime == hh + ":" + mm;
    TwoDigitsValue(hh);
    TwoDigitsValue(mm);
    SlotKeyOfClockTime(t, hh, mm);
  }

  /** The first and the last row key of the 06:00-22:00 half-hour grid. */
  lemma GridEnds()
    ensures GetTimeFromMinutes(360) == "06:00" && GetTimeFromMinutes(1290) == "21:30"
  {
    assert JsRem(360, 60) == 0 && JsRem(1290, 60) == 30;
    Pad2Digits(6);
    Pad2Digits(0);
    Pad2Digits(21);
    Pad2Digits(30);
  }

  // ---------------------------------------------------------------------------
  // Completion toggle

  /** The partial update `onUpdateTask(id, { completed })`. */
  datatype CompletedUpdate = CompletedUpdate(id: int, completed: bool)

  /** `tasks.find((t) => t.id === id)`, as the index of the first match. */
  function FindIndex(tasks: seq<Task>, id: int): (r: Option<nat>)
    ensures r.Some? ==> r.value < |tasks| && tasks[r.value].id == id
    ensures r.Some? ==> forall j :: 0 <= j < r.value ==> tasks[j].id != id
    ensures r.None? ==> forall j :: 0 <= j < |tasks| ==> tasks[j].id != id
  {
    if tasks == [] then None
    else if tasks[0].id == id then Some(0)
    else match FindIndex(tasks[1..], id)
      case None => None
      case Some(j) => Some(j + 1)
  }

  /** `handleToggleComplete(id)`: the update that flips `completed` of the first task
      with that id and carries no other field; `None` where the source throws, because
      no task has the id. */
  function ToggleComplete(tasks: seq<Task>, id: int): (r: Option<CompletedUpdate>)
    ensures r.Some? <==> exists j :: 0 <= j < |tasks| && tasks[j].id == id
    ensures r.Some? ==> r.value.id == id
    ensures r.Some? ==>
      exists j :: (0 <= j < |tasks| && tasks[j].id == id
        && (forall i :: 0 <= i < j ==> tasks[i].id != id)
        && r.value.completed == !tasks[j].completed)
  {
    match FindIndex(tasks, id)
    case None => None
    case Some(j) => Some(CompletedUpdate(id, !tasks[j].completed))
  }

  /** The store applying the update to every task with that id. */
  function ApplyCompleted(tasks: seq<Task>, u: CompletedUpdate): seq<Task>
  {
    seq(|tasks|, i requires 0 <= i < |tasks| =>
      if tasks[i].id == u.id then tasks[i].(completed := u.completed) else tasks[i])
  }

  /** Toggling, applying the update and toggling again asks to restore the original
      flag: the toggle is its own inverse. */
  lemma ToggleTwice(tasks: seq<Task>, id: int)
    requires ToggleComplete(tasks, id).Some?
    ensures var u := ToggleComplete(tasks, id).value;
      var again := ToggleComplete(ApplyCompleted(tasks, u), id);
      again.Some? && again.value.completed == !u.completed
  {
    var u := ToggleComplete(tasks, id).value;
    var applied := ApplyCompleted(tasks, u);
    var j := FindIndex(tasks, id).value;
    assert applied[j].id == id;
    var j' := FindIndex(applied, id).value;
    assert j' == j by {
      assert forall i :: 0 <= i < |tasks| ==> applied[i].id == tasks[i].id;
    }
  }

  // ---------------------------------------------------------------------------
  // The category handed to each card

  /** `categories.find((c) => c.id === task.categoryId)`, whose result each card
      receives as its `category`. */
  function FindCategory(categories: seq<Category>, id: int): (r: Option<Category>)
    ensures r.Some? ==> r.value in categories && r.value.id == id
    ensures r.None? ==> forall c :: c in categories ==> c.id != id
  {
    if categories == [] then None
    else if categories[0].id == id then Some(categories[0])
    else FindCategory(categories[1..], id)
  }

  /** The first category with the id is the one found. */
  lemma {:induction false} FindCategoryFirst(categories: seq<Category>, id: int, i: int)
    requires 0 <= i < |categories| && categories[i].id == id
    requires forall j :: 0 <= j < i ==> categories[j].id != id
    ensures FindCategory(categories, id) == Some(categories[i])
  {
    if i > 0 {
      FindCategoryFirst(categories[1..], id, i - 1);
    }
  }

  // ---------------------------------------------------------------------------
  // The component's state

  /** The component's state: the task list it was given, the grid rows and the
      grouping dictionary. */
  class DayViewState {
    var tasks: seq<Task>
    var timeSlots: seq<TimeSlot>
    var groupedTasks: map<Option<int>, seq<Task>>

    /** The first render: no rows and an empty dictionary. */
    constructor(tasks: seq<Task>)
      ensures this.tasks == tasks && timeSlots == [] && groupedTasks == map[]
    {
      this.tasks := tasks;
      timeSlots := [];
      groupedTasks := map[];
    }

    /** The mount effect: `generateTimeSlots(6, 22, 30)`, the 32 half-hour rows from
        06:00 to 21:30. */
    method LoadTimeSlots()
      modifies this
      ensures |timeSlots| == ROW_COUNT
      ensures forall i :: 0 <= i < |timeSlots| ==> timeSlots[i].minutes == GRID_START_MINUTES + i * ROW_MINUTES
      ensures forall i :: 0 <= i < |timeSlots| ==> timeSlots[i].value == GetTimeFromMinutes(timeSlots[i].minutes)
      ensures forall i :: 0 <= i < |timeSlots| ==>
        timeSlots[i].time == FormatTime(timeSlots[i].minutes / 60, timeSlots[i].minutes % 60)
      ensures timeSlots[0].value == "06:00" && timeSlots[ROW_COUNT - 1].value == "21:30"
      ensures tasks == old(tasks) && groupedTasks == old(groupedTasks)
    {
      var slots := GenerateTimeSlots(6, 22, 30);
      LabelsWithinDay(slots);
      timeSlots := slots;
      assert timeSlots[0].minutes == 360 && timeSlots[31].minutes == 1290;
      GridEnds();
    }

    /** The grouping effect, run when the task list changes: the dictionary is rebuilt
        from the new list alone; the rows stay. */
    method TasksChanged(newTasks: seq<Task>)
      modifies this
      ensures tasks == newTasks && groupedTasks == Grouping(newTasks)
      ensures timeSlots == old(timeSlots)
    {
      tasks := newTasks;
      groupedTasks := GroupTasks(newTasks);
    }

    /** The task groups the timeline shows, row by row. */
    function VisibleRows(): seq<seq<Task>>
      reads this
    {
      RenderedRows(|timeSlots|, groupedTasks)
    }

    /** The "Unscheduled Tasks" list. */
    function UnscheduledList(): seq<Task>
      reads this
    {
      Unscheduled(tasks)
    }
  }
}
