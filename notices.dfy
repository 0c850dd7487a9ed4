/** The toast a page shows after a handler: none, a success or an error
    message (react-toastify's `toast.success` / `toast.error`). */
module Notices {
  datatype Notice = Quiet | Success(text: string) | Failure(text: string)

  /** `error.message || fallback`: an absent or empty message falls back. */
  function MessageOr(message: string, fallback: string): (r: string)
    ensures message != "" ==> r == message
    ensures message == "" ==> r == fallback
  {
    if message != "" then message else fallback
  }
}
