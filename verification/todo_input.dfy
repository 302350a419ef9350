/**
 * The new-todo input box: its text and its inline error, and the handlers
 * that submit, react to keys and track typing. A submit hands the trimmed
 * text to the add callback; the handlers return what they passed to it.
 */
module TodoInput {
  import opened TodoTypes
  import opened Validation

  const EmptyInputError: string := "Please enter a todo"

  class InputState {
    var inputValue: string
    /** The inline error; the empty string means none is shown. */
    var error: string

    constructor ()
      ensures inputValue == "" && error == ""
    {
      inputValue := "";
      error := "";
    }

    /** The add button is disabled iff the input is empty once trimmed, i.e. all whitespace. */
    function IsInputEmpty(): (empty: bool)
      reads this
      ensures empty <==> AllWhitespace(inputValue)
    {
      |Trim(inputValue)| == 0
    }

    /**
     * handleSubmit: a blank input shows the error and keeps the text; a valid
     * input is handed over trimmed, then the box and the error are cleared; an
     * over-long input changes nothing and hands nothing over.
     */
    method HandleSubmit() returns (added: Option<string>)
      modifies this
      ensures AllWhitespace(old(inputValue)) ==>
                added == None && error == EmptyInputError && inputValue == old(inputValue)
      ensures !AllWhitespace(old(inputValue)) && |Trim(old(inputValue))| <= MaxTextLength ==>
                added == Some(Trim(old(inputValue))) && inputValue == "" && error == ""
      ensures |Trim(old(inputValue))| > MaxTextLength ==>
                added == None && inputValue == old(inputValue) && error == old(error)
      ensures added.Some? ==> IsValidTodoText(added.value) && added.value == Trim(added.value)
    {
      var trimmed := Trim(inputValue);
      if trimmed == [] {
        error := EmptyInputError;
        return None;
      }
      TrimIdempotent(inputValue);
      if IsValidTodoText(trimmed) {
        added := Some(trimmed);
        inputValue := "";
        error := "";
      } else {
        added := None;
      }
    }

    /** handleKeyDown: Enter submits; any other key changes nothing. */
    method HandleKeyDown(key: string) returns (added: Option<string>)
      modifies this
      ensures key != "Enter" ==>
                added == None && inputValue == old(inputValue) && error == old(error)
      ensures key == "Enter" && AllWhitespace(old(inputValue)) ==>
                added == None && error == EmptyInputError && inputValue == old(inputValue)
      ensures key == "Enter" && !AllWhitespace(old(inputValue)) && |Trim(old(inputValue))| <= MaxTextLength ==>
                added == Some(Trim(old(inputValue))) && inputValue == "" && error == ""
      ensures key == "Enter" && |Trim(old(inputValue))| > MaxTextLength ==>
                added == None && inputValue == old(inputValue) && error == old(error)
    {
      if key == "Enter" {
        added := HandleSubmit();
      } else {
        added := None;
      }
    }

    /** handleInputChange: the box takes the new text and any error is cleared. */
    method HandleInputChange(value: string)
      modifies this
      ensures inputValue == value && error == ""
    {
      inputValue := value;
      if error != "" {
        error := "";
      }
    }
  }
}
