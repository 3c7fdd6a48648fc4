/**
 * The client-chosen idempotency key: any non-empty string. Blank keys are
 * accepted, since only emptiness is checked.
 */
module IdempotencyKeys {
  import opened Wrappers
  import opened Text

  const EmptyKeyMessage: string := "The idempotency key cannot be empty!"

  datatype Key = Key(value: string)

  type IdempotencyKey = k: Key | k.value != [] witness Key("k")

  /**
   * Fails exactly on the empty string, with `EmptyKeyMessage` (the same text
   * is also flashed to the user); otherwise wraps the string as it is.
   */
  function TryFrom(s: string): (r: Result<IdempotencyKey, string>)
    ensures r.Err? <==> s == []
    ensures r.Err? ==> r.error == EmptyKeyMessage
    ensures r.Ok? ==> ToString(r.value) == s && AsRef(r.value) == s
  {
    if s == [] then Err(EmptyKeyMessage) else Ok(Key(s))
  }

  /** Unwraps a key back into the string it was made from. */
  function ToString(k: IdempotencyKey): string {
    k.value
  }

  function AsRef(k: IdempotencyKey): string {
    k.value
  }

  /** Converting a key to a string and back gives the same key. */
  lemma KeyRoundTrip(k: IdempotencyKey)
    ensures TryFrom(ToString(k)) == Ok(k)
  {
  }

  /** A key made only of whitespace is accepted as it is: only emptiness is checked. */
  lemma BlankKeyAccepted(s: string)
    requires s != [] && AllWhitespace(s)
    ensures TryFrom(s) == Ok(Key(s))
  {
  }
}
