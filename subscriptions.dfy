/**
 * The public subscription form: validating the submitted name and e-mail,
 * storing a pending subscriber and a confirmation token in one database
 * transaction, sending the confirmation e-mail, and rendering the error
 * chain of a failed request.
 */
module Subscriptions {
  import opened Wrappers
  import opened Web
  import opened Text
  import SubscriberNames
  import SubscriberEmails

  const SubscriptionsPath: string := "/subscriptions"
  const ConfirmQuery: string := "/subscriptions/confirm?subscription_token="
  const PendingConfirmation: string := "pending_confirmation"
  const WelcomeSubject: string := "Welcome!"

  const SubscribedMessage: string := "You are now subscribed!"
  const EmailFailedMessage: string := "Failed to send confirmation email, please check input fields."
  const AlreadySubscribedMessage: string := "It seems you're already subscribed!"

  const BeginFailedContext: string := "Failed to aquire a Postgres connection from the pool."
  const StoreTokenFailedContext: string := "Failed to store the confirmation token for a new subscriber."
  const CommitFailedContext: string := "Failed to commit SQLX transaction to store a new subscriber."
  const StoreTokenErrorMessage: string :=
    "A database error was encountered while trying to store a subscription token."
  /** How the database driver introduces an error the server returned. */
  const DatabaseErrorPrefix: string := "error returned from database: "
  /** The database's report of a violated primary key or uniqueness constraint. */
  const UniqueViolationMessage: string := "duplicate key value violates unique constraint"

  /** Length of a subscription token. */
  const TokenLength: nat := 25
  /** The 62 characters `rand::distributions::Alphanumeric` draws from, in its order: A to Z, a to z, 0 to 9. */
  const AlphanumericCharset: string := CharRange('A', 26) + CharRange('a', 26) + CharRange('0', 10)

  /** The `n` consecutive characters starting at `first`. */
  function CharRange(first: char, n: nat): (r: string)
    requires first as int + n <= 0xD800
    ensures |r| == n && forall i | 0 <= i < n :: r[i] as int == first as int + i
  {
    seq(n, i requires 0 <= i < n => (first as int + i) as char)
  }

  // ---------------------------------------------------------------------
  // Form validation

  /** The fields of the submitted form, as strings. */
  datatype FormData = FormData(email: string, name: string)

  datatype NewSubscriber = NewSubscriber(email: SubscriberEmails.SubscriberEmail, name: SubscriberNames.SubscriberName)

  /**
   * Converts the form into a new subscriber: the e-mail is checked first and
   * its error wins; then the name; both are kept exactly as submitted.
   */
  function NewSubscriberFrom(form: FormData, validateEmail: string -> bool): (r: Result<NewSubscriber, string>)
    ensures r.Ok? <==> validateEmail(form.email) && SubscriberNames.Parse(form.name).Ok?
    ensures r.Ok? ==> r.value.email.value == form.email && SubscriberNames.AsRef(r.value.name) == form.name
    ensures !validateEmail(form.email) ==> r == Err(form.email + " is not a valid subscriber email.")
    ensures validateEmail(form.email) && r.Err? ==> r == Err(SubscriberNames.NotValidMessage(form.name))
  {
    match SubscriberEmails.Parse(form.email, validateEmail)
    case Err(e) => Err(e)
    case Ok(email) =>
      match SubscriberNames.Parse(form.name)
      case Err(e) => Err(e)
      case Ok(name) => Ok(NewSubscriber(email, name))
  }

  /**
   * A form whose name is blank, too long or holds a forbidden character is
   * refused whatever the e-mail, and one with a valid e-mail is refused with
   * the name's message.
   */
  lemma InvalidNameRefused(form: FormData, validateEmail: string -> bool)
    requires AllWhitespace(form.name) || |form.name| > SubscriberNames.MaxGraphemes
             || SubscriberNames.ContainsForbiddenCharacter(form.name)
    ensures NewSubscriberFrom(form, validateEmail).Err?
    ensures validateEmail(form.email) ==>
      NewSubscriberFrom(form, validateEmail).error == form.name + " is not a valid subscriber name."
  {
  }

  // ---------------------------------------------------------------------
  // Subscription tokens

  /** The token built from a stream of draws: draw `i` picks character `i`. */
  function SampledToken(sample: nat -> nat): string {
    seq(TokenLength, i requires 0 <= i => AlphanumericCharset[sample(i) % |AlphanumericCharset|])
  }

  /** Every character of the charset is an ASCII letter or digit. */
  lemma CharsetIsAlphanumeric()
    ensures forall i | 0 <= i < |AlphanumericCharset| :: IsAsciiAlphanumeric(AlphanumericCharset[i])
  {
    var upper, lower, digits := CharRange('A', 26), CharRange('a', 26), CharRange('0', 10);
    assert AlphanumericCharset == upper + lower + digits;
    forall i | 0 <= i < |AlphanumericCharset|
      ensures IsAsciiAlphanumeric(AlphanumericCharset[i])
    {
      if i < 26 {
        assert AlphanumericCharset[i] == upper[i];
      } else if i < 52 {
        assert AlphanumericCharset[i] == lower[i - 26];
      } else {
        assert AlphanumericCharset[i] == digits[i - 52];
      }
    }
  }

  /** A token is 25 ASCII letters and digits, whatever the draws. */
  lemma {:induction false} TokenShape(sample: nat -> nat)
    ensures |SampledToken(sample)| == TokenLength
    ensures forall i | 0 <= i < TokenLength :: IsAsciiAlphanumeric(SampledToken(sample)[i])
  {
    CharsetIsAlphanumeric();
  }

  /** Draws 25 characters from the alphanumeric charset, one after another. */
  method GenerateSubscriptionToken(sample: nat -> nat) returns (token: string)
    ensures token == SampledToken(sample)
    ensures |token| == TokenLength
    ensures forall i | 0 <= i < |token| :: IsAsciiAlphanumeric(token[i])
  {
    TokenShape(sample);
    token := "";
    var i := 0;
    while i < TokenLength
      invariant i <= TokenLength && |token| == i
      invariant forall k | 0 <= k < i :: token[k] == SampledToken(sample)[k]
    {
      token := token + [AlphanumericCharset[sample(i) % |AlphanumericCharset|]];
      i := i + 1;
    }
  }

  // ---------------------------------------------------------------------
  // The confirmation e-mail

  /** The link the new subscriber follows to confirm. */
  function ConfirmationLink(baseUrl: string, token: string): (link: string)
    ensures |link| == |baseUrl| + |ConfirmQuery| + |token|
    ensures link[..|baseUrl|] == baseUrl
    ensures link[|baseUrl|..|baseUrl| + |ConfirmQuery|] == ConfirmQuery
    ensures link[|baseUrl| + |ConfirmQuery|..] == token
  {
    Parts(baseUrl, ConfirmQuery, token);
    baseUrl + ConfirmQuery + token
  }

  /** What the confirmation endpoint reads back from a link under `baseUrl`. */
  function TokenOfLink(baseUrl: string, link: string): (r: Option<string>)
    ensures r.Some? <==> |baseUrl + ConfirmQuery| <= |link| && link[..|baseUrl + ConfirmQuery|] == baseUrl + ConfirmQuery
    ensures r.Some? ==> link == baseUrl + ConfirmQuery + r.value
  {
    var prefix := baseUrl + ConfirmQuery;
    if |prefix| <= |link| && link[..|prefix|] == prefix then
      assert link == prefix + link[|prefix|..];
      Some(link[|prefix|..])
    else None
  }

  /** The token is recovered unchanged from the confirmation link. */
  lemma {:induction false} LinkCarriesToken(baseUrl: string, token: string)
    ensures TokenOfLink(baseUrl, ConfirmationLink(baseUrl, token)) == Some(token)
  {
    var prefix := baseUrl + ConfirmQuery;
    var link := ConfirmationLink(baseUrl, token);
    assert link == prefix + token;
    assert link[..|prefix|] == prefix;
    assert link[|prefix|..] == token;
  }

  const HtmlBodyStart: string := "Welcome to our newsletter!<br />\n        Click <a href=\""
  const HtmlBodyEnd: string := "\">here</a> to confirm your subscription."
  const TextBodyStart: string := "Welcome to our newsletter!\nVisit "
  const TextBodyEnd: string := " to confirm your subscription."

  function HtmlBody(link: string): string {
    HtmlBodyStart + link + HtmlBodyEnd
  }

  function TextBody(link: string): string {
    TextBodyStart + link + TextBodyEnd
  }

  /** The message handed to the e-mail client. */
  datatype Email = Email(recipient: string, subject: string, htmlBody: string, textBody: string)

  /** The welcome message to the new subscriber; each body is fixed text around the confirmation link. */
  function ConfirmationEmail(subscriber: NewSubscriber, baseUrl: string, token: string): (mail: Email)
    ensures mail.recipient == subscriber.email.value && mail.subject == WelcomeSubject
    ensures var link := ConfirmationLink(baseUrl, token);
      && |mail.htmlBody| == |HtmlBodyStart| + |link| + |HtmlBodyEnd|
      && mail.htmlBody[..|HtmlBodyStart|] == HtmlBodyStart
      && mail.htmlBody[|HtmlBodyStart|..|HtmlBodyStart| + |link|] == link
      && mail.htmlBody[|HtmlBodyStart| + |link|..] == HtmlBodyEnd
    ensures var link := ConfirmationLink(baseUrl, token);
      && |mail.textBody| == |TextBodyStart| + |link| + |TextBodyEnd|
      && mail.textBody[..|TextBodyStart|] == TextBodyStart
      && mail.textBody[|TextBodyStart|..|TextBodyStart| + |link|] == link
      && mail.textBody[|TextBodyStart| + |link|..] == TextBodyEnd
  {
    var link := ConfirmationLink(baseUrl, token);
    Parts(HtmlBodyStart, link, HtmlBodyEnd);
    Parts(TextBodyStart, link, TextBodyEnd);
    Email(subscriber.email.value, WelcomeSubject, HtmlBody(link), TextBody(link))
  }

  /** The three parts of a concatenation are read back by slicing at their lengths. */
  lemma Parts(a: string, b: string, c: string)
    ensures |a + b + c| == |a| + |b| + |c|
    ensures (a + b + c)[..|a|] == a
    ensures (a + b + c)[|a|..|a| + |b|] == b
    ensures (a + b + c)[|a| + |b|..] == c
  {
    assert (a + b + c)[|a|..|a| + |b|] == (a + b + c)[..|a| + |b|][|a|..];
  }

  /**
   * Both bodies of the confirmation e-mail carry the same confirmation link,
   * at fixed positions, and it leads back to the stored token.
   */
  lemma {:induction false} BodiesCarryTheLink(subscriber: NewSubscriber, baseUrl: string, token: string)
    ensures var mail := ConfirmationEmail(subscriber, baseUrl, token);
      var link := ConfirmationLink(baseUrl, token);
      && mail.recipient == subscriber.email.value
      && mail.htmlBody[|HtmlBodyStart|..|HtmlBodyStart| + |link|] == link
      && mail.textBody[|TextBodyStart|..|TextBodyStart| + |link|] == link
      && TokenOfLink(baseUrl, link) == Some(token)
  {
    var link := ConfirmationLink(baseUrl, token);
    assert HtmlBody(link)[|HtmlBodyStart|..|HtmlBodyStart| + |link|] == link;
    assert TextBody(link)[|TextBodyStart|..|TextBodyStart| + |link|] == link;
    LinkCarriesToken(baseUrl, token);
  }

  // ---------------------------------------------------------------------
  // Errors and their rendering

  /** An error with its display text and the error that caused it, if any. */
  datatype ErrorReport = ErrorReport(message: string, source: Option<ErrorReport>)

  datatype SubscribeError =
    | ValidationError(reason: string)
    | UnexpectedError(report: ErrorReport)

  /** A validation error is the client's fault, anything else the server's. */
  function StatusCode(e: SubscribeError): (status: nat)
    ensures status == StatusBadRequest <==> e.ValidationError?
    ensures status == StatusInternalServerError <==> e.UnexpectedError?
  {
    match e
    case ValidationError(_) => StatusBadRequest
    case UnexpectedError(_) => StatusInternalServerError
  }

  /** An error wrapped with the context of the step that failed; the error becomes its source. */
  function WithContext(context: string, cause: ErrorReport): ErrorReport {
    ErrorReport(context, Some(cause))
  }

  /**
   * An error the database server returned: the driver's error, shown with
   * its "error returned from database: " prefix, whose source is the
   * server's own message.
   */
  function DatabaseError(serverMessage: string): ErrorReport {
    ErrorReport(DatabaseErrorPrefix + serverMessage, Some(ErrorReport(serverMessage, None)))
  }

  /** The error raised when a token cannot be stored; its source is the database error. */
  function StoreTokenError(databaseError: ErrorReport): ErrorReport {
    ErrorReport(StoreTokenErrorMessage, Some(databaseError))
  }

  /** The messages of the causes reachable from `current`, nearest first. */
  function CauseMessages(current: Option<ErrorReport>): seq<string>
    decreases current
  {
    match current
    case None => []
    case Some(cause) => [cause.message] + CauseMessages(cause.source)
  }

  /** The entry written for one cause: a `Caused by:` line, then the cause on its own indented line. */
  function CauseEntry(message: string): string {
    "Caused by:\n\t" + message + "\n"
  }

  /** The entries for a list of cause messages, in order. */
  function CausedByLines(causes: seq<string>): string {
    if causes == [] then "" else CauseEntry(causes[0]) + CausedByLines(causes[1..])
  }

  /** The rendering of an error: its message, a blank line, then one entry per cause. */
  function ChainText(e: ErrorReport): string {
    e.message + "\n\n" + CausedByLines(CauseMessages(e.source))
  }

  /** Walks the chain of sources, writing one `Caused by:` entry per cause. */
  method ErrorChainFmt(e: ErrorReport) returns (out: string)
    ensures out == ChainText(e)
  {
    out := e.message + "\n" + "\n";
    var current := e.source;
    while current.Some?
      invariant out + CausedByLines(CauseMessages(current)) == ChainText(e)
      decreases current
    {
      var cause := current.value;
      assert CauseMessages(current) == [cause.message] + CauseMessages(cause.source);
      out := out + CauseEntry(cause.message);
      current := cause.source;
    }
  }

  /** An error without a source renders as its message and a blank line, with no cause. */
  lemma ErrorWithoutSource(message: string)
    ensures ChainText(ErrorReport(message, None)) == message + "\n\n"
  {
  }

  /** A failure under a context renders as the context, then the failure's message as the first cause, then its own causes. */
  lemma {:induction false} ContextChain(context: string, cause: ErrorReport)
    ensures ChainText(WithContext(context, cause))
         == context + "\n\n" + CauseEntry(cause.message) + CausedByLines(CauseMessages(cause.source))
  {
    var causes := CauseMessages(Some(cause));
    var rest := CauseMessages(cause.source);
    assert causes == [cause.message] + rest;
    assert causes[1..] == rest;
    assert CausedByLines(causes) == CauseEntry(cause.message) + CausedByLines(rest);
  }

  /**
   * An error the database server returned, under the context of the failed
   * step, renders with two causes: the driver's error, then the server's
   * message.
   */
  lemma {:induction false} DatabaseFailureChain(context: string, serverMessage: string)
    ensures ChainText(WithContext(context, DatabaseError(serverMessage)))
         == context + "\n\n" + CauseEntry(DatabaseErrorPrefix + serverMessage) + CauseEntry(serverMessage)
  {
    var db := DatabaseError(serverMessage);
    ContextChain(context, db);
    var inner := ErrorReport(serverMessage, None);
    assert CauseMessages(inner.source) == [];
    var rest := CauseMessages(db.source);
    assert rest == [serverMessage] + [];
    assert rest[1..] == [];
    assert CausedByLines(rest) == CauseEntry(serverMessage) + CausedByLines([]);
  }

  /** Wrapping an error adds its message as the first cause, ahead of that error's own causes. */
  lemma {:induction false} StoreTokenErrorChain(databaseError: ErrorReport)
    ensures CauseMessages(StoreTokenError(databaseError).source)
         == [databaseError.message] + CauseMessages(databaseError.source)
    ensures ChainText(StoreTokenError(databaseError))
         == StoreTokenErrorMessage + "\n\n" + CauseEntry(databaseError.message)
            + CausedByLines(CauseMessages(databaseError.source))
  {
    var causes := CauseMessages(Some(databaseError));
    var rest := CauseMessages(databaseError.source);
    assert causes == [databaseError.message] + rest;
    assert causes[1..] == rest;
    assert CausedByLines(causes) == CauseEntry(databaseError.message) + CausedByLines(rest);
  }

  // ---------------------------------------------------------------------
  // The tables and the handler

  /** A row of the `subscriptions` table, apart from its id. */
  datatype SubscriptionRow = SubscriptionRow(email: string, name: string, subscribedAt: int, status: string)

  type SubscriptionTable = map<Uuid, SubscriptionRow>
  /** The `subscription_tokens` table: each token and the subscriber it confirms. */
  type TokenTable = map<string, Uuid>

  predicate EmailTaken(subscriptions: SubscriptionTable, email: string) {
    exists id | id in subscriptions :: subscriptions[id].email == email
  }

  /** The `email` column is unique. */
  predicate EmailsUnique(subscriptions: SubscriptionTable) {
    forall a, b | a in subscriptions && b in subscriptions && a != b ::
      subscriptions[a].email != subscriptions[b].email
  }

  /** Every token points at an existing subscriber. */
  predicate TokensReferenceSubscribers(subscriptions: SubscriptionTable, tokens: TokenTable) {
    forall t | t in tokens :: tokens[t] in subscriptions
  }

  /**
   * `INSERT INTO subscriptions`: refused by the primary key when the id is
   * taken and by the unique constraint when the e-mail is; otherwise the new
   * row is pending confirmation.
   */
  function InsertSubscriber(subscriptions: SubscriptionTable, id: Uuid, subscriber: NewSubscriber, now: int)
    : (r: Result<SubscriptionTable, string>)
    ensures r.Ok? <==> id !in subscriptions && !EmailTaken(subscriptions, subscriber.email.value)
    ensures r.Ok? ==> r.value.Keys == subscriptions.Keys + {id}
    ensures r.Ok? ==> forall k | k in subscriptions :: r.value[k] == subscriptions[k]
    ensures r.Ok? ==> r.value[id] == SubscriptionRow(subscriber.email.value, SubscriberNames.AsRef(subscriber.name), now, PendingConfirmation)
    ensures r.Err? ==> r.error == UniqueViolationMessage
  {
    if id in subscriptions || EmailTaken(subscriptions, subscriber.email.value) then
      Err(UniqueViolationMessage)
    else
      Ok(subscriptions[id := SubscriptionRow(subscriber.email.value, SubscriberNames.AsRef(subscriber.name), now, PendingConfirmation)])
  }

  /** A successful insert keeps e-mail addresses unique. */
  lemma InsertKeepsEmailsUnique(subscriptions: SubscriptionTable, id: Uuid, subscriber: NewSubscriber, now: int)
    requires EmailsUnique(subscriptions)
    requires InsertSubscriber(subscriptions, id, subscriber, now).Ok?
    ensures EmailsUnique(InsertSubscriber(subscriptions, id, subscriber, now).value)
  {
  }

  /** An address already subscribed is refused, whatever the new id. */
  lemma {:induction false} SecondSubscriptionRefused(subscriptions: SubscriptionTable, id: Uuid, other: Uuid,
                                                     subscriber: NewSubscriber, now: int, later: int)
    requires InsertSubscriber(subscriptions, id, subscriber, now).Ok?
    ensures InsertSubscriber(InsertSubscriber(subscriptions, id, subscriber, now).value, other, subscriber, later).Err?
  {
    var once := InsertSubscriber(subscriptions, id, subscriber, now).value;
    assert once[id].email == subscriber.email.value;
  }

  /** `INSERT INTO subscription_tokens`: refused when the token is already stored. */
  function StoreToken(tokens: TokenTable, subscriberId: Uuid, token: string): (r: Result<TokenTable, string>)
    ensures r.Ok? <==> token !in tokens
    ensures r.Ok? ==> r.value.Keys == tokens.Keys + {token} && r.value[token] == subscriberId
    ensures r.Ok? ==> forall t | t in tokens :: r.value[t] == tokens[t]
  {
    if token in tokens then Err(UniqueViolationMessage) else Ok(tokens[token := subscriberId])
  }

  /** Storing the token of a subscriber just inserted keeps every token pointing at a subscriber. */
  lemma StoreTokenKeepsReferences(subscriptions: SubscriptionTable, tokens: TokenTable, id: Uuid, token: string)
    requires TokensReferenceSubscribers(subscriptions, tokens)
    requires id in subscriptions
    requires StoreToken(tokens, id, token).Ok?
    ensures TokensReferenceSubscribers(subscriptions, StoreToken(tokens, id, token).value)
  {
  }

  /** Adding rows to the subscriptions table keeps existing tokens pointing at subscribers. */
  lemma ReferencesSurviveInsert(subscriptions: SubscriptionTable, bigger: SubscriptionTable, tokens: TokenTable)
    requires TokensReferenceSubscribers(subscriptions, tokens)
    requires subscriptions.Keys <= bigger.Keys
    ensures TokensReferenceSubscribers(bigger, tokens)
  {
  }

  /**
   * The outcome of the transaction once the insert is accepted: a token
   * collision or a failed commit is a 500 that leaves both tables as they
   * were; otherwise the new row and its token are committed together, the
   * confirmation e-mail for that token is sent, and its delivery decides the
   * flash.
   */
  ghost predicate CommittedOrRolledBack(
    subscriptions0: SubscriptionTable, tokens0: TokenTable,
    subscriptions1: SubscriptionTable, tokens1: TokenTable,
    newId: Uuid, subscriber: NewSubscriber, now: int, token: string,
    commit: Outcome<ErrorReport>, delivered: bool, baseUrl: string,
    response: Result<HttpResponse, SubscribeError>, flash: Option<FlashMessage>, sent: Option<Email>)
    requires InsertSubscriber(subscriptions0, newId, subscriber, now).Ok?
  {
    if token in tokens0 then
      && subscriptions1 == subscriptions0 && tokens1 == tokens0
      && response == Err(UnexpectedError(WithContext(StoreTokenFailedContext, DatabaseError(UniqueViolationMessage))))
      && flash == None && sent == None
    else if commit.Fail? then
      && subscriptions1 == subscriptions0 && tokens1 == tokens0
      && response == Err(UnexpectedError(WithContext(CommitFailedContext, commit.error)))
      && flash == None && sent == None
    else
      && subscriptions1 == InsertSubscriber(subscriptions0, newId, subscriber, now).value
      && tokens1 == tokens0[token := newId]
      && response == Ok(SeeOther(SubscriptionsPath))
      && sent == Some(ConfirmationEmail(subscriber, baseUrl, token))
      && flash == Some(if delivered then FlashMessage(Info, SubscribedMessage)
                       else FlashMessage(Error, EmailFailedMessage))
  }

  /** The subscription tables, changed only by committed transactions. */
  class SubscriptionStore {
    var subscriptions: SubscriptionTable
    var tokens: TokenTable

    ghost predicate Valid()
      reads this
    {
      EmailsUnique(subscriptions) && TokensReferenceSubscribers(subscriptions, tokens)
    }

    constructor ()
      ensures subscriptions == map[] && tokens == map[]
      ensures Valid()
    {
      subscriptions := map[];
      tokens := map[];
    }

    /**
     * The subscription handler. An invalid form is flashed and redirected
     * back without touching the tables. A failure to open the transaction is
     * a 500 and nothing is stored. Otherwise `StoreAndConfirm` runs the
     * transaction.
     *
     * The id, the clock, the random draws, the database's failures and the
     * e-mail client's delivery are inputs: `begin` and `commit` report the
     * outcome of opening and committing the transaction.
     */
    method Subscribe(form: FormData, validateEmail: string -> bool, baseUrl: string,
                     newId: Uuid, now: int, sample: nat -> nat,
                     begin: Outcome<ErrorReport>, commit: Outcome<ErrorReport>, delivered: bool)
      returns (response: Result<HttpResponse, SubscribeError>, flash: Option<FlashMessage>, sent: Option<Email>)
      requires Valid()
      modifies this
      ensures Valid()
      ensures var v := NewSubscriberFrom(form, validateEmail);
        v.Err? ==>
          && unchanged(this)
          && response == Ok(SeeOther(SubscriptionsPath))
          && flash == Some(FlashMessage(Error, v.error)) && sent == None
      ensures var v := NewSubscriberFrom(form, validateEmail);
        v.Ok? && begin.Fail? ==>
          && unchanged(this)
          && response == Err(UnexpectedError(WithContext(BeginFailedContext, begin.error)))
          && flash == None && sent == None
      ensures var v := NewSubscriberFrom(form, validateEmail);
        v.Ok? && begin.Pass? && InsertSubscriber(old(subscriptions), newId, v.value, now).Err? ==>
          && unchanged(this)
          && response == Ok(SeeOther(SubscriptionsPath))
          && flash == Some(FlashMessage(Error, AlreadySubscribedMessage)) && sent == None
      ensures var v := NewSubscriberFrom(form, validateEmail);
        v.Ok? && begin.Pass? && InsertSubscriber(old(subscriptions), newId, v.value, now).Ok? ==>
          CommittedOrRolledBack(old(subscriptions), old(tokens), subscriptions, tokens, newId, v.value, now,
                                SampledToken(sample), commit, delivered, baseUrl, response, flash, sent)
      ensures var v := NewSubscriberFrom(form, validateEmail);
        var token := SampledToken(sample);
        v.Ok? && begin.Pass? && InsertSubscriber(old(subscriptions), newId, v.value, now).Ok?
        && token !in old(tokens) && commit.Pass? ==>
          && subscriptions == old(subscriptions)[newId := SubscriptionRow(form.email, form.name, now, PendingConfirmation)]
          && tokens == old(tokens)[token := newId]
    {
      response := Ok(SeeOther(SubscriptionsPath));
      sent := None;
      var parsed := NewSubscriberFrom(form, validateEmail);
      if parsed.Err? {
        flash := Some(FlashMessage(Error, parsed.error));
        return;
      }
      if begin.Fail? {
        response := Err(UnexpectedError(WithContext(BeginFailedContext, begin.error)));
        flash := None;
        return;
      }
      response, flash, sent := StoreAndConfirm(parsed.value, baseUrl, newId, now, sample, commit, delivered);
    }

    /** Writes the transaction's tables back, as its commit does. */
    method Commit(staged: SubscriptionTable, stagedTokens: TokenTable)
      requires EmailsUnique(staged) && TokensReferenceSubscribers(staged, stagedTokens)
      modifies this
      ensures subscriptions == staged && tokens == stagedTokens
      ensures Valid()
    {
      subscriptions := staged;
      tokens := stagedTokens;
    }

    /**
     * The transaction of the handler. A refused insert is flashed as
     * "already subscribed" and nothing is stored. A failure to store the
     * token or to commit is a 500 and nothing is stored. Otherwise the
     * subscriber and its token are committed together, the confirmation
     * e-mail is sent, and its delivery decides the flash.
     */
    method StoreAndConfirm(subscriber: NewSubscriber, baseUrl: string, newId: Uuid, now: int, sample: nat -> nat,
                           commit: Outcome<ErrorReport>, delivered: bool)
      returns (response: Result<HttpResponse, SubscribeError>, flash: Option<FlashMessage>, sent: Option<Email>)
      requires Valid()
      modifies this
      ensures Valid()
      ensures InsertSubscriber(old(subscriptions), newId, subscriber, now).Err? ==>
        && unchanged(this)
        && response == Ok(SeeOther(SubscriptionsPath))
        && flash == Some(FlashMessage(Error, AlreadySubscribedMessage)) && sent == None
      ensures InsertSubscriber(old(subscriptions), newId, subscriber, now).Ok? ==>
        CommittedOrRolledBack(old(subscriptions), old(tokens), subscriptions, tokens, newId, subscriber, now,
                              SampledToken(sample), commit, delivered, baseUrl, response, flash, sent)
    {
      ghost var subscriptions0, tokens0 := subscriptions, tokens;
      response := Ok(SeeOther(SubscriptionsPath));
      flash := None;
      sent := None;
      // The transaction's view of the tables; nothing is written back before the commit.
      var inserted := InsertSubscriber(subscriptions, newId, subscriber, now);
      if inserted.Err? {
        flash := Some(FlashMessage(Error, AlreadySubscribedMessage));
      } else {
        var token := GenerateSubscriptionToken(sample);
        var stored := StoreToken(tokens, newId, token);
        if stored.Err? {
          response := Err(UnexpectedError(WithContext(StoreTokenFailedContext, DatabaseError(stored.error))));
          assert CommittedOrRolledBack(subscriptions0, tokens0, subscriptions, tokens, newId, subscriber, now,
                                       token, commit, delivered, baseUrl, response, flash, sent);
        } else if commit.Fail? {
          response := Err(UnexpectedError(WithContext(CommitFailedContext, commit.error)));
          assert CommittedOrRolledBack(subscriptions0, tokens0, subscriptions, tokens, newId, subscriber, now,
                                       token, commit, delivered, baseUrl, response, flash, sent);
        } else {
          InsertKeepsEmailsUnique(subscriptions, newId, subscriber, now);
          ReferencesSurviveInsert(subscriptions, inserted.value, tokens);
          StoreTokenKeepsReferences(inserted.value, tokens, newId, token);
          Commit(inserted.value, stored.value);
          sent := Some(ConfirmationEmail(subscriber, baseUrl, token));
          if delivered {
            flash := Some(FlashMessage(Info, SubscribedMessage));
          } else {
            flash := Some(FlashMessage(Error, EmailFailedMessage));
          }
          assert CommittedOrRolledBack(subscriptions0, tokens0, subscriptions, tokens, newId, subscriber, now,
                                       token, commit, delivered, baseUrl, response, flash, sent);
        }
      }
    }
  }
}
