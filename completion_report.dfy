/**
 * The decision PersistentTaskListener makes when the business logic of a task
 * completes: which error, if any, is reported to the master.
 */
module CompletionReport {
  import opened Options

  /** An exception thrown by the business logic of a task, or by a send. */
  datatype Error = Error(message: string)

  /** CancelTasksRequest.DEFAULT_REASON: the reason of a cancellation issued by a user request. */
  const DefaultReason: string := "by user request"

  /**
   * PersistentTaskListener.onFailure: the error reported for a task that failed
   * with `e`. A task cancelled with exactly the default reason reports success
   * (no error); any other task reports `e`. A cancellation reason that is absent
   * (`null`) never equals the default reason.
   */
  function ReportOnFailure(e: Error, cancelled: bool, reasonCancelled: Option<string>): (r: Option<Error>)
    ensures r == None <==> cancelled && reasonCancelled == Some(DefaultReason)
    ensures r != None ==> r == Some(e)
  {
    if cancelled then
      if reasonCancelled == Some(DefaultReason) then None else Some(e)
    else
      Some(e)
  }

  /** A cancellation for any reason other than the exact default sentinel keeps the failure. */
  lemma OtherReasonKeepsFailure(e: Error, reason: string)
    requires reason != DefaultReason
    ensures ReportOnFailure(e, true, Some(reason)) == Some(e)
  {
  }
}
