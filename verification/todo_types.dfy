/** The todo record and the partial update accepted by the state manager. */
module TodoTypes {

  datatype Option<+T> = None | Some(value: T)

  /** One todo item. `createdAt` is a timestamp in milliseconds since the epoch. */
  datatype Todo = Todo(id: string, text: string, completed: bool, createdAt: int)

  /** A partial update: only the fields that are present overwrite the todo's own. */
  datatype UpdateTodoInput = UpdateTodoInput(text: Option<string>, completed: Option<bool>)
}
