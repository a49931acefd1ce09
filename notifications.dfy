/** Task reminders: the notification permission, the timers that fire reminders, and
    the reminder itself. The browser's timer table is modelled as a registry of
    pending timers keyed by handle; the clock and the parse of a task's start instant
    are parameters. */
module Notifications {
  import opened Wrappers
  import opened Strings
  import opened Tasks
  import opened TimeUtils

  // ---------------------------------------------------------------------------
  // Permission

  /** `Notification.permission`, plus the answer `'unsupported'` for a browser that
      has no notifications at all. */
  datatype Permission = Granted | Denied | Default | Unsupported

  /** How a call that reads the global `Notification` completes: with a value, or with
      the `ReferenceError` that the read throws where the API does not exist (the
      permission `Unsupported`). */
  datatype Completion<T> = Returns(value: T) | ThrowsReferenceError

  /** A value the browser itself can report. */
  type BrowserPermission = p: Permission | p != Unsupported witness Default

  /** `getNotificationPermission()`: `'unsupported'` without the Notification API,
      otherwise what the browser reports. */
  function GetNotificationPermission(supported: bool, browser: BrowserPermission): Permission
  {
    if !supported then Unsupported else browser
  }

  /** The outcome of `requestNotificationPermission()`: the resolved boolean, whether
      the user was asked, and the permission afterwards. */
  datatype PermissionRequest = PermissionRequest(result: bool, prompted: bool, after: Permission)

  /** `requestNotificationPermission()`. `answer` is what `Notification.requestPermission()`
      resolves to when the user is asked. */
  function RequestNotificationPermission(supported: bool, current: BrowserPermission, answer: BrowserPermission): PermissionRequest
  {
    if !supported then PermissionRequest(false, false, Unsupported)
    else if current == Granted then PermissionRequest(true, false, Granted)
    else if current != Denied then PermissionRequest(answer == Granted, true, answer)
    else PermissionRequest(false, false, Denied)
  }

  /** The user is asked only when notifications exist and nothing was decided yet;
      the request resolves to true exactly when the permission afterwards is granted;
      without a prompt the permission stays what `getNotificationPermission` reports. */
  lemma RequestPermissionOutcome(supported: bool, current: BrowserPermission, answer: BrowserPermission)
    ensures var r := RequestNotificationPermission(supported, current, answer);
      && (r.prompted <==> supported && current == Default)
      && (r.result <==> r.after == Granted)
      && (!r.prompted ==> r.after == GetNotificationPermission(supported, current))
      && (r.prompted ==> r.after == answer)
  {
  }

  /** Asking again once the user has decided (granted or denied) does not prompt and
      gives the same result. */
  lemma RequestPermissionSettles(supported: bool, current: BrowserPermission, answer: BrowserPermission, answer2: BrowserPermission)
    requires supported
    ensures var r := RequestNotificationPermission(supported, current, answer);
      r.after != Default ==>
        var r2 := RequestNotificationPermission(supported, r.after, answer2);
        !r2.prompted && r2.result == r.result && r2.after == r.after
  {
  }

  // ---------------------------------------------------------------------------
  // The timer table

  /** A pending `setTimeout`: its delay in milliseconds and the task whose reminder
      the callback shows. */
  datatype Timer = Timer(delay: int, task: Task)

  /** The browser's timeout table. Handles are positive and never reused. */
  class TimerTable {
    var nextHandle: int
    var pending: map<int, Timer>

    ghost predicate Valid()
      reads this
    {
      nextHandle >= 1 && forall h :: h in pending ==> 1 <= h < nextHandle
    }

    constructor()
      ensures Valid() && pending == map[] && nextHandle == 1
    {
      nextHandle := 1;
      pending := map[];
    }

    /** `setTimeout(callback, delay)`: registers the timer under a fresh handle. */
    method SetTimeout(timer: Timer) returns (handle: int)
      requires Valid()
      modifies this
      ensures Valid()
      ensures handle == old(nextHandle) && handle >= 1 && handle !in old(pending)
      ensures pending == old(pending)[handle := timer]
      ensures nextHandle == old(nextHandle) + 1
    {
      handle := nextHandle;
      pending := pending[handle := timer];
      nextHandle := nextHandle + 1;
    }

    /** `clearTimeout(handle)`: drops the timer with that handle, if any. */
    method ClearTimeout(handle: int)
      requires Valid()
      modifies this
      ensures Valid()
      ensures pending == old(pending) - {handle} && nextHandle == old(nextHandle)
    {
      pending := pending - {handle};
    }
  }

  // ---------------------------------------------------------------------------
  // Arming one reminder

  /** The instant a reminder fires: `minutesBefore` minutes before the task. */
  function FireAt(taskTime: int, minutesBefore: int): int
  {
    taskTime - minutesBefore * MS_PER_MINUTE
  }

  /** `scheduleNotification(task, minutesBefore)` with the permission, the current
      instant and the task's start instant as parameters. Without the Notification API
      the first read of `Notification.permission` throws. Otherwise nothing is armed
      unless permission is granted and the fire instant is still ahead, and then
      exactly one timer is added, with a positive delay that ends at the fire instant. */
  method ScheduleNotification(timers: TimerTable, task: Task, minutesBefore: int,
                              permission: Permission, now: int, taskTime: int)
    returns (outcome: Completion<Option<int>>)
    requires timers.Valid()
    modifies timers
    ensures timers.Valid()
    ensures outcome.ThrowsReferenceError? <==> permission == Unsupported
    ensures outcome.Returns? ==>
      (outcome.value.Some? <==> permission == Granted && FireAt(taskTime, minutesBefore) > now)
    ensures !(outcome.Returns? && outcome.value.Some?) ==>
      timers.pending == old(timers.pending) && timers.nextHandle == old(timers.nextHandle)
    ensures outcome.Returns? && outcome.value.Some? ==>
      && outcome.value.value == old(timers.nextHandle) && outcome.value.value !in old(timers.pending)
      && timers.pending == old(timers.pending)[outcome.value.value := Timer(FireAt(taskTime, minutesBefore) - now, task)]
      && timers.nextHandle == old(timers.nextHandle) + 1
  {
    if permission == Unsupported {
      return ThrowsReferenceError;
    }
    if permission != Granted {
      return Returns(None);
    }
    var notificationTime := FireAt(taskTime, minutesBefore);
    if notificationTime <= now {
      return Returns(None);
    }
    var timeUntilNotification := notificationTime - now;
    var handle := timers.SetTimeout(Timer(timeUntilNotification, task));
    return Returns(Some(handle));
  }

  /** An armed timer waits a positive time and fires exactly at the fire instant. */
  lemma ArmedDelay(task: Task, minutesBefore: int, now: int, taskTime: int)
    requires FireAt(taskTime, minutesBefore) > now
    ensures var delay := FireAt(taskTime, minutesBefore) - now;
      delay > 0 && now + delay == taskTime - minutesBefore * 60000
  {
  }

  // ---------------------------------------------------------------------------
  // Arming a batch

  /** `task.reminderEnabled && task.startTime`. */
  predicate WantsReminder(t: Task)
  {
    RemindersOn(t) && HasStartTime(t)
  }

  /** Whether the batch arms a timer for `t`: it wants a reminder and
      `scheduleNotification(t, t.reminderMinutes || 5)` returns a handle. */
  predicate Arms(t: Task, permission: Permission, now: int, taskTimeOf: Task -> int)
  {
    WantsReminder(t) && permission == Granted && FireAt(taskTimeOf(t), LeadMinutes(t)) > now
  }

  /** The tasks the batch arms, in list order. */
  function ArmedTasks(tasks: seq<Task>, permission: Permission, now: int, taskTimeOf: Task -> int): seq<Task>
  {
    if tasks == [] then []
    else
      var last := tasks[|tasks| - 1];
      ArmedTasks(tasks[..|tasks| - 1], permission, now, taskTimeOf)
        + (if Arms(last, permission, now, taskTimeOf) then [last] else [])
  }

  /** The timer armed for task `t`. */
  function ReminderTimer(t: Task, now: int, taskTimeOf: Task -> int): Timer
  {
    Timer(FireAt(taskTimeOf(t), LeadMinutes(t)) - now, t)
  }

  /** One entry `{ taskId, timeoutId }` of the batch result. */
  datatype Scheduled = Scheduled(taskId: int, timeoutId: int)

  /** The handles from `start` on hold, in order, the timers of the tasks `armed`. */
  ghost predicate Registered(pending: map<int, Timer>, start: int, armed: seq<Task>, now: int, taskTimeOf: Task -> int)
  {
    forall h :: start <= h < start + |armed| ==>
      h in pending && pending[h] == ReminderTimer(armed[h - start], now, taskTimeOf)
  }

  /** Entries numbered from `start` in the order of `armed` name registered timers. */
  lemma RegisteredHandles(pending: map<int, Timer>, start: int, armed: seq<Task>, scheduled: seq<Scheduled>,
                          now: int, taskTimeOf: Task -> int)
    requires Registered(pending, start, armed, now, taskTimeOf)
    requires |scheduled| == |armed|
    requires forall k :: 0 <= k < |scheduled| ==> scheduled[k] == Scheduled(armed[k].id, start + k)
    ensures forall k :: 0 <= k < |scheduled| ==>
      scheduled[k].timeoutId in pending && pending[scheduled[k].timeoutId] == ReminderTimer(armed[k], now, taskTimeOf)
  {
    forall k | 0 <= k < |scheduled|
      ensures scheduled[k].timeoutId in pending && pending[scheduled[k].timeoutId] == ReminderTimer(armed[k], now, taskTimeOf)
    {
      assert start + k - start == k;
    }
  }

  lemma RegisteredStep(pending: map<int, Timer>, pending': map<int, Timer>, start: int, armed: seq<Task>,
                       t: Task, handle: int, timer: Timer, now: int, taskTimeOf: Task -> int)
    requires Registered(pending, start, armed, now, taskTimeOf)
    requires handle == start + |armed| && timer == ReminderTimer(t, now, taskTimeOf)
    requires pending' == pending[handle := timer]
    ensures Registered(pending', start, armed + [t], now, taskTimeOf)
  {
    var armed' := armed + [t];
    forall h | start <= h < start + |armed'|
      ensures h in pending' && pending'[h] == ReminderTimer(armed'[h - start], now, taskTimeOf)
    {
      if h < start + |armed| {
        assert armed'[h - start] == armed[h - start];
      }
    }
  }

  /** The timers pending in `before` are all still in `after` and unchanged, and the
      only other ones have handles from `start` up to `next`. */
  ghost predicate Extends(before: map<int, Timer>, after: map<int, Timer>, start: int, next: int)
  {
    && (forall h :: h in before ==> h in after && after[h] == before[h])
    && (forall h :: h in after ==> h in before || start <= h < next)
  }

  lemma ExtendsStep(before: map<int, Timer>, mid: map<int, Timer>, start: int, next: int, handle: int, timer: Timer)
    requires Extends(before, mid, start, next)
    requires start <= next && handle == next && handle !in mid
    ensures Extends(before, mid[handle := timer], start, next + 1)
  {
  }

  /** The callback the batch runs for each task: a task that wants a reminder goes
      through `scheduleNotification` with its lead time, any other is skipped. */
  method ArmIfWanted(timers: TimerTable, task: Task, permission: Permission, now: int, taskTimeOf: Task -> int)
    returns (outcome: Completion<Option<int>>)
    requires timers.Valid()
    modifies timers
    ensures timers.Valid()
    ensures outcome.ThrowsReferenceError? <==> permission == Unsupported && WantsReminder(task)
    ensures outcome.Returns? ==> (outcome.value.Some? <==> Arms(task, permission, now, taskTimeOf))
    ensures !(outcome.Returns? && outcome.value.Some?) ==>
      timers.pending == old(timers.pending) && timers.nextHandle == old(timers.nextHandle)
    ensures outcome.Returns? && outcome.value.Some? ==>
      && outcome.value.value == old(timers.nextHandle) && outcome.value.value !in old(timers.pending)
      && timers.pending == old(timers.pending)[outcome.value.value := ReminderTimer(task, now, taskTimeOf)]
      && timers.nextHandle == old(timers.nextHandle) + 1
  {
    if WantsReminder(task) {
      outcome := ScheduleNotification(timers, task, LeadMinutes(task), permission, now, taskTimeOf(task));
    } else {
      outcome := Returns(None);
    }
  }

  /** `scheduleTaskNotifications(tasks)`: for each task in order that wants a reminder,
      arm it with its lead time and record `{ taskId, timeoutId }` when a handle comes
      back. Without the Notification API the batch throws at the first task that wants
      a reminder, before any timer is armed. Otherwise the result pairs the armed
      tasks with consecutive fresh handles, and the timers already pending are left as
      they were. */
  method ScheduleTaskNotifications(timers: TimerTable, tasks: seq<Task>, permission: Permission,
                                   now: int, taskTimeOf: Task -> int)
    returns (result: Completion<seq<Scheduled>>)
    requires timers.Valid()
    modifies timers
    ensures timers.Valid()
    ensures result.ThrowsReferenceError? <==>
      permission == Unsupported && exists k :: 0 <= k < |tasks| && WantsReminder(tasks[k])
    ensures result.ThrowsReferenceError? ==>
      timers.pending == old(timers.pending) && timers.nextHandle == old(timers.nextHandle)
    ensures result.Returns? ==>
      var armed := ArmedTasks(tasks, permission, now, taskTimeOf);
      && |result.value| == |armed|
      && (forall i :: 0 <= i < |result.value| ==>
            result.value[i] == Scheduled(armed[i].id, old(timers.nextHandle) + i))
      && (forall i :: 0 <= i < |result.value| ==>
            result.value[i].timeoutId in timers.pending
            && timers.pending[result.value[i].timeoutId] == ReminderTimer(armed[i], now, taskTimeOf))
    ensures result.Returns? ==> timers.nextHandle == old(timers.nextHandle) + |result.value|
    ensures forall h :: h in old(timers.pending) ==> h in timers.pending && timers.pending[h] == old(timers.pending)[h]
    ensures forall h :: h in timers.pending ==>
      h in old(timers.pending) || old(timers.nextHandle) <= h < timers.nextHandle
  {
    var start := timers.nextHandle;
    ghost var pending0 := timers.pending;
    var scheduledNotifications: seq<Scheduled> := [];
    ghost var armed: seq<Task> := [];
    var i := 0;
    while i < |tasks|
      invariant 0 <= i <= |tasks|
      invariant timers.Valid()
      invariant armed == ArmedTasks(tasks[..i], permission, now, taskTimeOf)
      invariant |scheduledNotifications| == |armed|
      invariant forall k :: 0 <= k < |scheduledNotifications| ==>
        scheduledNotifications[k] == Scheduled(armed[k].id, start + k)
      invariant timers.nextHandle == start + |scheduledNotifications|
      invariant Registered(timers.pending, start, armed, now, taskTimeOf)
      invariant Extends(pending0, timers.pending, start, timers.nextHandle)
      invariant permission == Unsupported ==>
        && (forall k :: 0 <= k < i ==> !WantsReminder(tasks[k]))
        && timers.pending == pending0 && timers.nextHandle == start
    {
      var task := tasks[i];
      assert tasks[..i + 1][..i] == tasks[..i];
      assert ArmedTasks(tasks[..i + 1], permission, now, taskTimeOf)
        == armed + (if Arms(task, permission, now, taskTimeOf) then [task] else []);
      ghost var pendingBefore := timers.pending;
      var outcome := ArmIfWanted(timers, task, permission, now, taskTimeOf);
      if outcome.ThrowsReferenceError? {
        assert WantsReminder(tasks[i]);
        return ThrowsReferenceError;
      }
      if outcome.value.Some? {
        var handle := outcome.value.value;
        var timer := ReminderTimer(task, now, taskTimeOf);
        RegisteredStep(pendingBefore, timers.pending, start, armed, task, handle, timer, now, taskTimeOf);
        ExtendsStep(pending0, pendingBefore, start, handle, handle, timer);
        scheduledNotifications := scheduledNotifications + [Scheduled(task.id, handle)];
        armed := armed + [task];
      }
      i := i + 1;
    }
    assert tasks[..i] == tasks;
    RegisteredHandles(timers.pending, start, armed, scheduledNotifications, now, taskTimeOf);
    result := Returns(scheduledNotifications);
  }

  /** A task is armed exactly when it is one of the tasks, wants a reminder, permission
      is granted and its fire instant is ahead. */
  lemma {:induction false} ArmedMembers(tasks: seq<Task>, permission: Permission, now: int, taskTimeOf: Task -> int, t: Task)
    ensures t in ArmedTasks(tasks, permission, now, taskTimeOf) <==> t in tasks && Arms(t, permission, now, taskTimeOf)
  {
    if tasks != [] {
      var init := tasks[..|tasks| - 1];
      ArmedMembers(init, permission, now, taskTimeOf, t);
      assert tasks == init + [tasks[|tasks| - 1]];
    }
  }

  /** The batch arms at most one timer per task. */
  lemma {:induction false} ArmedAtMostAll(tasks: seq<Task>, permission: Permission, now: int, taskTimeOf: Task -> int)
    ensures |ArmedTasks(tasks, permission, now, taskTimeOf)| <= |tasks|
  {
    if tasks != [] {
      ArmedAtMostAll(tasks[..|tasks| - 1], permission, now, taskTimeOf);
    }
  }

  /** Without granted permission no task is armed: with `denied` or `default` the batch
      returns no entries, and without the Notification API it returns none or throws. */
  lemma {:induction false} NothingArmedWithoutPermission(tasks: seq<Task>, permission: Permission, now: int, taskTimeOf: Task -> int)
    requires permission != Granted
    ensures ArmedTasks(tasks, permission, now, taskTimeOf) == []
  {
    if tasks != [] {
      NothingArmedWithoutPermission(tasks[..|tasks| - 1], permission, now, taskTimeOf);
    }
  }

  /** No two tasks of the list share an id. */
  predicate DistinctIds(tasks: seq<Task>)
  {
    forall i, j :: 0 <= i < j < |tasks| ==> tasks[i].id != tasks[j].id
  }

  /** When task ids are distinct, no task is armed twice in a batch. */
  lemma {:induction false} ArmedDistinct(tasks: seq<Task>, permission: Permission, now: int, taskTimeOf: Task -> int)
    requires DistinctIds(tasks)
    ensures DistinctIds(ArmedTasks(tasks, permission, now, taskTimeOf))
  {
    if tasks != [] {
      var init, last := tasks[..|tasks| - 1], tasks[|tasks| - 1];
      ArmedDistinct(init, permission, now, taskTimeOf);
      var a := ArmedTasks(init, permission, now, taskTimeOf);
      forall k | 0 <= k < |a| ensures a[k].id != last.id {
        ArmedMembers(init, permission, now, taskTimeOf, a[k]);
        var j :| 0 <= j < |init| && init[j] == a[k];
      }
    }
  }

  // ---------------------------------------------------------------------------
  // Cancelling

  /** The pending timers after `cancelNotification(timeoutId)`; a falsy id (0 here,
      standing for 0, null or undefined) leaves them as they were. */
  function AfterCancel(pending: map<int, Timer>, timeoutId: int): map<int, Timer>
  {
    if timeoutId == 0 then pending else pending - {timeoutId}
  }

  /** `cancelNotification(timeoutId)`. */
  method CancelNotification(timers: TimerTable, timeoutId: int)
    requires timers.Valid()
    modifies timers
    ensures timers.Valid()
    ensures timers.pending == AfterCancel(old(timers.pending), timeoutId)
    ensures timers.nextHandle == old(timers.nextHandle)
  {
    if timeoutId != 0 {
      timers.ClearTimeout(timeoutId);
    }
  }

  /** Cancelling removes exactly the timer with that handle and keeps every other. */
  lemma CancelRemovesOnlyThat(pending: map<int, Timer>, timeoutId: int, h: int)
    ensures h in AfterCancel(pending, timeoutId) <==> h in pending && (timeoutId == 0 || h != timeoutId)
    ensures h in AfterCancel(pending, timeoutId) ==> AfterCancel(pending, timeoutId)[h] == pending[h]
  {
  }

  /** Cancelling twice is the same as cancelling once. */
  lemma CancelIdempotent(pending: map<int, Timer>, timeoutId: int)
    ensures AfterCancel(AfterCancel(pending, timeoutId), timeoutId) == AfterCancel(pending, timeoutId)
  {
  }

  /** Cancelling a handle the batch returned removes that task's reminder. */
  lemma CancelDisarms(pending: map<int, Timer>, s: Scheduled)
    requires s.timeoutId >= 1
    ensures s.timeoutId !in AfterCancel(pending, s.timeoutId)
  {
  }

  // ---------------------------------------------------------------------------
  // Showing a reminder

  const VIBRATION_PATTERN: seq<int> := [200, 100, 200]
  const AUTO_CLOSE_MS: int := 10000
  const REMINDER_ICON: string := "/pwa-192x192.png"

  /** The options of the reminder `new Notification('Task Reminder', { ... })`, with
      the auto-close delay. */
  datatype Alert = Alert(
    title: string,
    body: string,
    icon: string,
    badge: string,
    tag: string,
    requireInteraction: bool,
    vibrate: seq<int>,
    taskId: int,
    autoCloseMs: int)

  /** What `showNotification` does: the notification and whether the device vibrates. */
  datatype Shown = Shown(alert: Alert, vibrated: bool)

  /** `showNotification(task)`: a throw without the Notification API, nothing unless
      permission is granted, and otherwise the reminder for the task, closed after 10
      seconds, with a vibration where the device supports one. */
  function ShowNotification(permission: Permission, canVibrate: bool, task: Task): Completion<Option<Shown>>
  {
    if permission == Unsupported then ThrowsReferenceError
    else if permission != Granted then Returns(None)
    else
      Returns(Some(Shown(
        Alert("Task Reminder", task.title + " starts soon!", REMINDER_ICON, REMINDER_ICON,
              "task-" + IntToString(task.id), false, VIBRATION_PATTERN, task.id, AUTO_CLOSE_MS),
        canVibrate)))
  }

  /** Showing throws exactly without the Notification API, and a reminder is shown
      exactly when permission is granted. Its tag is derived from the task id and
      nothing else, so reminders of distinct tasks never replace each other and a
      reminder of the same task replaces the earlier one; the task's title opens the
      body and the id travels in the data. */
  lemma ReminderIdentifiesTask(permission: Permission, v1: bool, v2: bool, t1: Task, t2: Task)
    ensures ShowNotification(permission, v1, t1).ThrowsReferenceError? <==> permission == Unsupported
    ensures ShowNotification(permission, v1, t1).Returns? ==>
      (ShowNotification(permission, v1, t1).value.Some? <==> permission == Granted)
    ensures permission == Granted ==>
      var a1 := ShowNotification(permission, v1, t1).value.value.alert;
      var a2 := ShowNotification(permission, v2, t2).value.value.alert;
      && (a1.tag == a2.tag <==> t1.id == t2.id)
      && a1.body[..|t1.title|] == t1.title
      && a1.taskId == t1.id
      && a1.title == "Task Reminder"
      && a1.autoCloseMs == 10000
      && !a1.requireInteraction
  {
    if permission == Granted {
      var a1 := ShowNotification(permission, v1, t1).value.value.alert;
      var a2 := ShowNotification(permission, v2, t2).value.value.alert;
      if a1.tag == a2.tag {
        assert a1.tag[5..] == IntToString(t1.id);
        assert a2.tag[5..] == IntToString(t2.id);
        IntToStringInjective(t1.id, t2.id);
      }
    }
  }
}
