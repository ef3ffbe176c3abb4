/**
 * `TodoListViewModel`: the to-do form, the record it sends, the alarm
 * notification it schedules, and the fetched list. The backend and the
 * notification centre are not modelled: the session, each call's outcome
 * and the scheduled notification are inputs or results.
 */
module TodoListViewModel {
  import opened Common
  import opened TodoModels

  /** `createNewTodoData`: the form as a record; the alarm time is sent exactly when the alarm is on. */
  function NewTodoData(title: string, content: string, activateAlarm: bool, selectedDate: Date): (r: TodoInsert)
    ensures r.title == title && r.content == content && r.isAlarm == activateAlarm
    ensures r.alarmTime.Some? <==> activateAlarm
    ensures r.alarmTime.Some? ==> r.alarmTime.value == selectedDate
  {
    if !activateAlarm then TodoInsert(title, content, activateAlarm, None)
    else TodoInsert(title, content, activateAlarm, Some(selectedDate))
  }

  /** A local notification: its title, its body and when it fires. */
  datatype Notification = Notification(title: string, body: string, fireAt: Date)

  /** `pushNotification`: nothing without an alarm time; otherwise the to-do's title and content at that time. */
  function NotificationFor(todo: TodoInsert): (r: Option<Notification>)
    ensures r.Some? <==> todo.alarmTime.Some?
    ensures r.Some? ==> r.value == Notification(todo.title, todo.content, todo.alarmTime.value)
  {
    match todo.alarmTime
    case None => None
    case Some(t) => Some(Notification(todo.title, todo.content, t))
  }

  /** A new to-do schedules a notification exactly when its alarm is on, at the selected date. */
  lemma NotifiesIffAlarm(title: string, content: string, activateAlarm: bool, selectedDate: Date)
    ensures var n := NotificationFor(NewTodoData(title, content, activateAlarm, selectedDate));
      && (n.Some? <==> activateAlarm)
      && (n.Some? ==> n.value.fireAt == selectedDate && n.value.title == title && n.value.body == content)
  {
  }

  class ViewModel {
    var todoList: seq<TodoResponse>
    var createdTitle: string
    var createdContent: string
    var activateAlarm: bool
    var selectedOption: PlanType
    var selectedDate: Date

    /** The initial state; `now` stands for the `Date()` the form starts from. */
    constructor(now: Date)
      ensures todoList == [] && createdTitle == "" && createdContent == ""
      ensures !activateAlarm && selectedOption == Daily && selectedDate == now
    {
      todoList := [];
      createdTitle := "";
      createdContent := "";
      activateAlarm := false;
      selectedOption := Daily;
      selectedDate := now;
    }

    /** `fetchTodo`: a successful fetch replaces the list; a failed one leaves it. */
    method FetchTodo(outcome: Outcome<seq<TodoResponse>>)
      modifies this`todoList
      ensures outcome.Success? ==> todoList == outcome.value
      ensures outcome.Failure? ==> todoList == old(todoList)
    {
      if outcome.Success? {
        todoList := outcome.value;
      }
    }

    /**
     * `addTodo`: without a session nothing is sent. Otherwise the form is
     * sent as `request`; if the insert succeeds, the notification is
     * scheduled and the list refetched; if it throws, nothing else happens.
     */
    method AddTodo(session: Option<Uuid>, inserted: bool, fetched: Outcome<seq<TodoResponse>>)
      returns (request: Option<TodoInsert>, scheduled: Option<Notification>)
      modifies this`todoList
      ensures session.None? ==> request == None && scheduled == None && todoList == old(todoList)
      ensures session.Some? ==> request == Some(NewTodoData(createdTitle, createdContent, activateAlarm, selectedDate))
      ensures session.Some? && inserted ==> scheduled == NotificationFor(request.value)
      ensures session.Some? && inserted && fetched.Success? ==> todoList == fetched.value
      ensures !(session.Some? && inserted && fetched.Success?) ==> todoList == old(todoList)
      ensures !(session.Some? && inserted) ==> scheduled == None
    {
      request, scheduled := None, None;
      if session.None? {
        return;
      }
      var newTodo := NewTodoData(createdTitle, createdContent, activateAlarm, selectedDate);
      request := Some(newTodo);
      if !inserted {
        return;
      }
      scheduled := NotificationFor(newTodo);
      FetchTodo(fetched);
    }
  }
}
