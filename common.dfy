/** Values shared by both iterations of the todo app: the bucket names,
    optional values, the drag library's report of a drop, and the field patch
    that the task editor hands to `updateTask`. */
module Common {

  /** The buckets: the inbox and the four quadrants, important and urgent
      ("IU"), important and not urgent ("IN"), urgent and not important
      ("NU"), neither ("NN"). */
  const Inbox := "inbox"
  const IU := "IU"
  const IN := "IN"
  const NU := "NU"
  const NN := "NN"

  /** A JavaScript value that may be `null` or absent. */
  datatype Option<+T> = None | Some(value: T) {

    /** The value, or `default` when absent (JavaScript's `x || default` on a
        value that is never falsy when present). */
    function GetOr(default: T): T {
      match this
      case Some(v) => v
      case None => default
    }
  }

  /** The fields the task editor passes to `updateTask`: the save button sends
      title, description and due date, the checkbox sends `completed`. A field
      left `None` is not part of the patch; `dueDate := Some(None)` clears it. */
  datatype Patch = Patch(
    title: Option<string>,
    description: Option<string>,
    dueDate: Option<Option<int>>,
    completed: Option<bool>)

  /** One end of a drag as the drag library reports it: the droppable (a
      bucket name) and the position in its displayed list. */
  datatype Location = Location(droppableId: string, index: nat)

  /** The drag library's report of a finished drag; `destination` is absent
      when the task was dropped outside every droppable. */
  datatype DropResult = DropResult(draggableId: string, source: Location, destination: Option<Location>)
}
