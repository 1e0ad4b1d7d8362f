/** Types the browser side shares between its stores (`types.ts`). */
module ClientTypes {
  import opened Wrappers

  /** The signed-in account as the client keeps it (`User`). */
  datatype Account = Account(
    id: string,
    email: string,
    name: string,
    avatar: Option<string>,
    emailVerified: bool,
    createdAt: string,
    updatedAt: string)

  /** `'light' | 'dark' | 'system'`. */
  datatype Theme = Light | Dark | System

  /** `'light' | 'dark'`: what the operating system reports. */
  type Scheme = t: Theme | t != System witness Light

  function Opposite(s: Scheme): (r: Scheme)
    ensures r != s
  {
    if s == Light then Dark else Light
  }

  /** `action.error.message || fallback`: a missing or empty message gives way to the fallback. */
  function MessageOr(message: Option<string>, fallback: string): (r: string)
    ensures fallback != "" ==> r != ""
    ensures message.Some? && message.value != "" ==> r == message.value
  {
    if message.Some? && message.value != "" then message.value else fallback
  }
}
