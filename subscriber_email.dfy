/**
 * A subscriber's e-mail address. The address grammar belongs to an external
 * validator, so the check is a predicate supplied by the caller.
 */
module SubscriberEmails {
  import opened Wrappers

  datatype SubscriberEmail = SubscriberEmail(value: string)

  /** Accepts `s` when the external validator does, and keeps it unchanged. */
  function Parse(s: string, validateEmail: string -> bool): Result<SubscriberEmail, string> {
    if validateEmail(s) then Ok(SubscriberEmail(s)) else Err(s + " is not a valid subscriber email.")
  }
}
