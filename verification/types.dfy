/**
  The records the site stores and passes around: the RSVP form data, the
  stored RSVP record, the admin user profile and the signed-in user.
*/
module Types {

  datatype Option<T> = None | Some(value: T)

  /** A value, or the message of the error a JavaScript function throws. */
  datatype Result<T> = Ok(value: T) | Err(message: string)

  /** The `attending` select: 'yes' | 'no'. */
  datatype Attendance = Yes | No

  /** What the guest fills in. `guestsCount` is whatever integer the form
      parsed, so it is not constrained here. */
  datatype RSVPFormData = RSVPFormData(
    guestName: string,
    attending: Attendance,
    guestsCount: int,
    guestNames: seq<string>,
    message: string)

  /** A stored response: the form data plus the store-assigned id and
      creation time (an opaque timestamp). */
  datatype RSVPRecord = RSVPRecord(data: RSVPFormData, id: string, createdAt: nat)

  /** `r.attending === 'yes'`. */
  predicate IsYes(r: RSVPRecord) {
    r.data.attending == Yes
  }

  datatype Role = Admin | Member

  datatype UserProfile = UserProfile(email: string, requiresPasswordChange: bool, role: Option<Role>)

  /** The authentication service's user: `email` may be null. */
  datatype User = User(uid: string, email: Option<string>)

  /** JavaScript's `x || fallback` on a string that may be null or undefined:
      the empty string is falsy too. */
  function OrElse(x: Option<string>, fallback: string): (r: string)
    ensures r == fallback || (x.Some? && r == x.value)
    ensures x.Some? && x.value != "" ==> r == x.value
    ensures (x.None? || x.value == "") ==> r == fallback
  {
    if x.Some? && x.value != "" then x.value else fallback
  }
}
