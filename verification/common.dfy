/** Small shared vocabulary: optional values, the outcome of a remote call, and the session roles. */
module Common {

  /** A value that may be absent (JavaScript's `null` / `undefined`). */
  datatype Option<+T> = None | Some(value: T)

  /** How an awaited remote request ended. `Failed` carries the error's message. */
  datatype Outcome = Ok | Failed(message: string)

  /** The role strings stored in the session under `userRole`. */
  const ADMIN: string := "ADMIN"
  const COUNSELLOR: string := "COUNSELLOR"
  const ACCOUNTS: string := "ACCOUNTS"
  const HR: string := "HR"

  /** The session role as read from storage: absent, or any string (not necessarily a known role). */
  type SessionRole = Option<string>
}
