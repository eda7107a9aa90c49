/** client/src/components/EditTaskModal.tsx: the values the modal starts
    from, the update payload it sends, and what a save does to the modal. */
module EditTaskModal {
  import opened Js

  /** The task handed to the modal; dates are the text the server sends. */
  datatype ModalTask = ModalTask(id: string, title: string, description: Option<string>, priority: string,
                                 dueDate: Option<string>, isDone: bool, assignedTo: Option<seq<string>>)

  datatype EditState = EditState(title: string, description: string, priority: string, dueDate: string,
                                 isDone: bool, assignedUsers: seq<string>)

  /** The update body; `None` is the explicit `null`. */
  datatype UpdateData = UpdateData(title: string, description: Option<string>, priority: string,
                                   dueDate: Option<string>, isDone: bool, assignedTo: seq<string>)

  const SaveFailed := "Failed to save changes. Please try again."

  /** The state the modal starts with. The due date is the text before
      the first `T` of the stored date. */
  function InitialState(task: ModalTask): (s: EditState)
    ensures s.title == task.title && s.priority == task.priority && s.isDone == task.isDone
    ensures s.description == if Blank(task.description) then "" else task.description.value
    ensures Blank(task.dueDate) ==> s.dueDate == ""
    ensures !Blank(task.dueDate) ==> s.dueDate == Split(task.dueDate.value, 'T')[0] && 'T' !in s.dueDate
    ensures s.assignedUsers == if task.assignedTo.Some? then task.assignedTo.value else []
  {
    SplitPiecesHaveNoSeparator(if Blank(task.dueDate) then "" else task.dueDate.value, 'T');
    EditState(task.title, if Blank(task.description) then "" else task.description.value, task.priority,
              if Blank(task.dueDate) then "" else Split(task.dueDate.value, 'T')[0],
              task.isDone, if task.assignedTo.Some? then task.assignedTo.value else [])
  }

  /** `handleSave`'s body: empty description and due date go as null,
      the rest as edited. */
  function Payload(s: EditState): (d: UpdateData)
    ensures d.description == None <==> s.description == ""
    ensures d.description.Some? ==> d.description.value == s.description
    ensures d.dueDate == None <==> s.dueDate == ""
    ensures d.dueDate.Some? ==> d.dueDate.value == s.dueDate
    ensures d.title == s.title && d.priority == s.priority && d.isDone == s.isDone && d.assignedTo == s.assignedUsers
  {
    UpdateData(s.title, if s.description == "" then None else Some(s.description), s.priority,
               if s.dueDate == "" then None else Some(s.dueDate), s.isDone, s.assignedUsers)
  }

  /** The date part of an ISO timestamp survives opening and saving. */
  lemma DatePartRoundTrip(task: ModalTask, date: string, time: string)
    requires task.dueDate == Some(date + "T" + time) && 'T' !in date && date != ""
    ensures Payload(InitialState(task)).dueDate == Some(date)
  {
    SplitAtSeparator(date, 'T', time);
    assert date + "T" + time == date + ['T'] + time;
  }

  /** Saving an untouched modal keeps every field; a missing or empty
      description goes out as null, and so does a missing due date. */
  lemma UntouchedSave(task: ModalTask)
    requires task.dueDate.Some? ==> task.dueDate.value != "" && 'T' !in task.dueDate.value
    ensures var d := Payload(InitialState(task));
      d.title == task.title && d.priority == task.priority && d.isDone == task.isDone &&
      d.description == (if Blank(task.description) then None else task.description) &&
      d.dueDate == task.dueDate
  {
    if task.dueDate.Some? {
      SplitNoSeparator(task.dueDate.value, 'T');
    }
  }

  /** What the server answered to the update. */
  datatype Answer = Updated(task: ModalTask) | Refused(message: Option<string>)

  class Modal {
    var open: bool
    var isSaving: bool
    var error: Option<string>

    constructor ()
      ensures open && !isSaving && error == None
    {
      open, isSaving, error := true, false, None;
    }

    /** `handleSave`: `onSave` and `onClose` run only after the update
        succeeds; a refusal shows an error and the modal stays open. */
    method HandleSave(answer: Answer) returns (savedTask: Option<ModalTask>)
      modifies this
      ensures !isSaving
      ensures answer.Updated? ==> savedTask == Some(answer.task) && !open && error == None
      ensures answer.Refused? ==>
        savedTask == None && open == old(open) &&
        error == Some(if Blank(answer.message) then SaveFailed else answer.message.value)
    {
      isSaving := true;
      error := None;
      match answer {
        case Updated(task) =>
          savedTask := Some(task);
          open := false;
        case Refused(message) =>
          savedTask := None;
          error := Some(if Blank(message) then SaveFailed else message.value);
      }
      isSaving := false;
    }
  }
}
