/** Structured results that stand in for the messages the task manager prints. */
module Outcomes {

  datatype Option<T> = None | Some(value: T) {
    /** The value held, or `default` when there is none (Python's `dict.get(key, default)`). */
    function GetOr(default: T): T {
      match this
      case Some(v) => v
      case None => default
    }
  }

  /** Which validation rule rejected an input. */
  datatype Reason =
    | BadId              // task id is not a positive integer
    | EmptyTitle         // title is empty after stripping
    | BadStatus          // status is not todo, in-progress or done
    | BadPriority        // priority is not High, Medium or Low
    | BadStatusFilter    // list filter is not a status or "all"
    | BadPriorityFilter  // list filter is not a priority or "all"
    | EmptyKeyword       // search keyword is empty after stripping
    | BadSortField       // sort field is not id, title, status or priority

  datatype Error =
    | NotFound                    // no task has the requested id
    | ValidationError(reason: Reason)
    | MissingField                // a stored task lacks its "id" or "title" key
    | DataError                   // the stored file is not valid JSON
    | IoError                     // the file could not be read or written

  datatype Result<T> = Ok(value: T) | Err(error: Error)

  /** The outcome of an operation that returns no value. */
  datatype Report =
    | Success
    | NoChange      // update_task called with neither a title nor a priority
    | Cancelled     // delete_task not confirmed
    | FileMissing   // load_from_file on a path that does not exist (a warning)
    | Failure(error: Error)
}
