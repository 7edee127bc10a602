/**
 * Values shared by the home screen and the registration screen: the optional
 * value used where the program works with `undefined`/`null`, user and
 * activity identities, and the small public view of a user that the roster
 * and the chat threads store.
 */
module Common {

  /** `None` stands for JavaScript's `undefined` / `null`. */
  datatype Option<T> = None | Some(value: T)

  /** A user identity as handed out by the session provider. */
  type UserId = string

  /** An activity identity as assigned by the activity store. */
  type ActivityId = int

  /** An ISO-8601 instant, produced by the clock (a parameter of every handler that reads it). */
  type Timestamp = string

  /**
   * The part of a user record that the roster and the chat threads keep:
   * identity, display name and avatar glyph.
   */
  datatype Person = Person(id: UserId, name: string, avatar: string)
}
