/**
 * A subscriber's display name, accepted only when it is not blank, not
 * longer than 256 graphemes and free of characters that could be used to
 * inject markup or paths.
 */
module SubscriberNames {
  import opened Wrappers
  import opened Text

  const MaxGraphemes: nat := 256

  const ForbiddenCharacters: seq<char> := ['/', '(', ')', '"', '<', '>', '\\', '{', '}']

  /** Number of graphemes of `s`; each Unicode scalar value is counted as one grapheme. */
  function GraphemeCount(s: string): nat {
    |s|
  }

  predicate ContainsForbiddenCharacter(s: string) {
    exists i | 0 <= i < |s| :: s[i] in ForbiddenCharacters
  }

  /** The three rejection rules, as `parse` evaluates them. */
  predicate IsValidName(s: string) {
    var emptyOrWhitespace := Trim(s) == [];
    var invalidLength := GraphemeCount(s) > MaxGraphemes;
    !(emptyOrWhitespace || invalidLength || ContainsForbiddenCharacter(s))
  }

  datatype Name = Name(value: string)

  /** A name that passed `Parse`; the wrapped string is never empty. */
  type SubscriberName = n: Name | IsValidName(n.value) witness (ValidExample(); Name("a"))

  /** "a" is a valid name, which makes `Name("a")` a witness of `SubscriberName`. */
  lemma {:induction false} ValidExample()
    ensures IsValidName("a")
  {
    assert !IsWhitespace("a"[0]);
    TrimEmptyIff("a");
    assert !ContainsForbiddenCharacter("a");
  }

  function NotValidMessage(s: string): string {
    s + " is not a valid subscriber name."
  }

  /**
   * Accepts `s` exactly when it holds a non-whitespace character, has at most
   * 256 graphemes and no forbidden character; keeps it untrimmed.
   */
  function Parse(s: string): (r: Result<SubscriberName, string>)
    ensures r.Ok? <==> !AllWhitespace(s) && |s| <= MaxGraphemes && !ContainsForbiddenCharacter(s)
    ensures r.Ok? ==> AsRef(r.value) == s
    ensures r.Err? ==> r.error == s + " is not a valid subscriber name."
  {
    TrimEmptyIff(s);
    if IsValidName(s) then Ok(Name(s)) else Err(NotValidMessage(s))
  }

  function AsRef(n: SubscriberName): string {
    n.value
  }

  /** An accepted name is never blank: it holds at least one non-whitespace character. */
  lemma {:induction false} AcceptedNameNotBlank(s: string)
    requires Parse(s).Ok?
    ensures exists i | 0 <= i < |AsRef(Parse(s).value)| :: !IsWhitespace(AsRef(Parse(s).value)[i])
  {
    assert !AllWhitespace(s);
  }

  /** Any blank input, the empty string and a single space among them, is rejected. */
  lemma BlankRejected(s: string)
    requires AllWhitespace(s)
    ensures Parse(s) == Err(s + " is not a valid subscriber name.")
  {
  }

  /** Any input holding a forbidden character is rejected. */
  lemma {:induction false} ForbiddenCharacterRejected(s: string, i: nat)
    requires i < |s| && s[i] in ForbiddenCharacters
    ensures Parse(s).Err?
  {
    assert ContainsForbiddenCharacter(s);
  }

  /** `n` copies of `c`. */
  function Repeat(c: char, n: nat): (r: string)
    ensures |r| == n
    ensures forall i | 0 <= i < n :: r[i] == c
  {
    if n == 0 then [] else Repeat(c, n - 1) + [c]
  }

  /**
   * The boundary is inclusive: 256 copies of a letter are accepted, 257 are
   * rejected. Below U+0300 no character combines with its neighbour, so each
   * copy is a grapheme of its own.
   */
  lemma {:induction false} LengthBoundary(c: char)
    requires c as int < 0x300
    requires !IsWhitespace(c) && c !in ForbiddenCharacters
    ensures Parse(Repeat(c, MaxGraphemes)).Ok?
    ensures Parse(Repeat(c, MaxGraphemes + 1)).Err?
  {
    var s := Repeat(c, MaxGraphemes);
    assert !IsWhitespace(s[0]);
    assert forall i | 0 <= i < |s| :: s[i] !in ForbiddenCharacters;
  }
}
