/**
 * One row of the list and its inline editor: whether it is being edited and
 * the text in the editor. Saving hands the trimmed text to the edit callback
 * when it is non-blank and differs from the todo's text; the handlers return
 * what they passed to it.
 */
module TodoItem {
  import opened TodoTypes
  import opened Validation

  class ItemState {
    const todo: Todo
    var isEditing: bool
    var editText: string

    /** A fresh row is not editing and its editor holds the todo's text. */
    constructor (todo: Todo)
      ensures this.todo == todo && !isEditing && editText == todo.text
    {
      this.todo := todo;
      isEditing := false;
      editText := todo.text;
    }

    /** handleSave: hands the trimmed text over iff it is non-blank and new, and always leaves edit mode. */
    method HandleSave() returns (edited: Option<string>)
      modifies this
      ensures edited.Some? <==> !AllWhitespace(old(editText)) && Trim(old(editText)) != todo.text
      ensures edited.Some? ==> edited.value == Trim(old(editText))
      ensures !isEditing && editText == old(editText)
    {
      var trimmed := Trim(editText);
      if trimmed != [] && trimmed != todo.text {
        edited := Some(trimmed);
      } else {
        edited := None;
      }
      isEditing := false;
    }

    /** handleCancel: the editor reverts to the todo's text and edit mode ends; nothing is handed over. */
    method HandleCancel()
      modifies this
      ensures !isEditing && editText == todo.text
    {
      editText := todo.text;
      isEditing := false;
    }

    /** The editor's key handler: Enter saves, Escape cancels, other keys do nothing. */
    method HandleKeyDown(key: string) returns (edited: Option<string>)
      modifies this
      ensures key == "Enter" ==>
                && (edited.Some? <==> !AllWhitespace(old(editText)) && Trim(old(editText)) != todo.text)
                && (edited.Some? ==> edited.value == Trim(old(editText)))
                && !isEditing && editText == old(editText)
      ensures key == "Escape" ==> edited == None && !isEditing && editText == todo.text
      ensures key != "Enter" && key != "Escape" ==>
                edited == None && isEditing == old(isEditing) && editText == old(editText)
    {
      if key == "Enter" {
        edited := HandleSave();
      } else if key == "Escape" {
        HandleCancel();
        edited := None;
      } else {
        edited := None;
      }
    }

    /** Losing focus cancels the edit, so typed text is discarded. */
    method HandleBlur()
      modifies this
      ensures !isEditing && editText == todo.text
    {
      HandleCancel();
    }

    /** Typing into the editor replaces its text. */
    method HandleChange(value: string)
      modifies this
      ensures editText == value && isEditing == old(isEditing)
    {
      editText := value;
    }

    /** Double-clicking the text enters edit mode, keeping the editor's text. */
    method HandleDoubleClick()
      modifies this
      ensures isEditing && editText == old(editText)
    {
      isEditing := true;
    }

    /** The text's key handler: Enter or Space enters edit mode; other keys do nothing. */
    method HandleTextKeyDown(key: string)
      modifies this
      ensures isEditing == (old(isEditing) || key == "Enter" || key == " ")
      ensures editText == old(editText)
    {
      if key == "Enter" || key == " " {
        isEditing := true;
      }
    }
  }

  /**
   * The edit path checks only for blank text: double-click, type 501
   * characters and press Enter, and the text is handed over although
   * addTodo would refuse it.
   */
  method EditSkipsLengthLimit(todo: Todo) returns (edited: Option<string>)
    requires todo.text != Repeat('a', 501)
    ensures edited == Some(Repeat('a', 501)) && !IsValidTodoText(edited.value)
  {
    var long := Repeat('a', 501);
    RunValidity('a', 501, 0);
    assert [] + long + [] == long;
    TrimPadded([], long, []);
    var item := new ItemState(todo);
    item.HandleDoubleClick();
    item.HandleChange(long);
    edited := item.HandleKeyDown("Enter");
  }
}
