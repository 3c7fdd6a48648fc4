# A verified model of the acantha newsletter backend

acantha is a newsletter web service written in Rust on actix-web and
PostgreSQL. This project models five parts of it in Dafny and proves
properties about them:

- **Subscriber names** (`SubscriberNames`): the validation of a subscriber's
  name. A name is refused when it is blank, longer than 256 graphemes, or
  holds one of nine forbidden characters. An accepted name is kept exactly as
  typed, untrimmed.
- **Idempotency keys** (`IdempotencyKeys`): a non-empty string wrapper.
- **The settings form** (`Settings`): an administrator switches the validity
  flag of one of their saved idempotency keys. The `idempotency` table is a
  map from (user, key) to its row. `Settings.IdempotencyTable` holds it and
  updates it in place with the same `UPDATE ... WHERE` the handler issues.
  Success is decided by the number of affected rows.
- **The blog** (`Blog`): the public listing of the two most recent newsletter
  issues, each with a ten-word preview, and the page of one issue looked up by
  its id. `ORDER BY published_at DESC LIMIT 2` is modelled as an insertion of
  each row into a newest-first list that is cut back to the limit. It is proved
  to return a newest-first sub-multiset of the table that no omitted issue is
  newer than.
- **The subscription form** (`Subscriptions`), which covers:
  - validation of the form;
  - the database transaction that inserts a pending subscriber and its
    confirmation token;
  - generation of the 25-character token;
  - the confirmation e-mail with its link;
  - the mapping of errors to status codes;
  - the rendering of an error's chain of causes.

  `Subscriptions.SubscriptionStore` holds the `subscriptions` and
  `subscription_tokens` tables. It keeps two invariants: e-mail addresses are
  unique, and every token points at a subscriber. A transaction works on local
  copies of the tables, which are written back only when it commits.

`Text` supplies the Rust string operations the handlers rely on:
`char::is_whitespace`, `trim`, `split_whitespace` and `join(" ")`. It proves
that splitting joined words gives the words back. `Wrappers` holds
`Option`/`Result`/`Outcome`. `Web` holds responses, status codes and flash
messages.

Things outside the process are inputs of the model:
- the database's failures to open or commit a transaction (`begin`, `commit`);
- the e-mail client's delivery (`delivered`);
- the clock (`now`);
- the random UUID (`newId`);
- the random draws of the token generator (`sample`);
- the router's URL builder (`urlFor`);
- the external e-mail address validator (`validateEmail`).

## Model

| member | source | states |
|---|---|---|
| Text.TrimStart | production_rust/src/domain/subscriber_name.rs:8 | what `trim` removes in front is whitespace only, and what it keeps is a suffix that starts with a non-whitespace character |
| Text.TrimEnd | production_rust/src/domain/subscriber_name.rs:8 | what `trim` removes at the end is whitespace only, and what it keeps is a prefix that ends with a non-whitespace character |
| Text.TrimIsSlice | production_rust/src/domain/subscriber_name.rs:8 | `Text.Trim` (`str::trim`) keeps a contiguous slice of the input, starting where leading whitespace ends |
| Text.TrimDropsWhitespace | production_rust/src/domain/subscriber_name.rs:8 | everything `trim` drops before and after that slice is whitespace |
| Text.TrimmedEdges | production_rust/src/domain/subscriber_name.rs:8 | a non-empty trimmed string neither starts nor ends with whitespace |
| Text.TrimEmptyIff | production_rust/src/domain/subscriber_name.rs:8 | `trim` leaves nothing exactly when every character is Unicode whitespace |
| Text.WordsAreWords | production_rust/src/routes/blog/get.rs:28 | `Text.Words` (`split_whitespace`) yields only non-empty words that contain no whitespace |
| Text.JoinSnoc | production_rust/src/routes/blog/get.rs:29 | `Text.Join` (`join(" ")`) of a list with one more word is the joined list, a single space and that word |
| Text.WordsOfJoin | production_rust/src/routes/blog/get.rs:28-29 | splitting the `join(" ")` of whitespace-free non-empty words gives back the same words, in order |
| SubscriberNames.Parse | production_rust/src/domain/subscriber_name.rs:7-20 | accepts exactly the names that are not all whitespace, have at most 256 graphemes and hold no forbidden character; an accepted name reads back unchanged; a refusal carries "`<s>` is not a valid subscriber name." |
| SubscriberNames.AcceptedNameNotBlank | production_rust/src/domain/subscriber_name.rs:8-15 | every accepted name holds a non-whitespace character |
| SubscriberNames.BlankRejected | production_rust/src/domain/subscriber_name.rs:8-16 | every blank input, including the empty string, is refused with its message |
| SubscriberNames.ForbiddenCharacterRejected | production_rust/src/domain/subscriber_name.rs:12-16 | one forbidden character anywhere is enough to refuse the name |
| SubscriberNames.LengthBoundary | production_rust/src/domain/subscriber_name.rs:10 | the length bound is inclusive: 256 copies of a permitted character below U+0300, each a grapheme of its own, are accepted and 257 are refused |
| IdempotencyKeys.TryFrom | production_rust/src/idempotency/key.rs:9-17 | fails exactly on the empty string, with "The idempotency key cannot be empty!"; otherwise keeps the string unchanged |
| IdempotencyKeys.KeyRoundTrip | production_rust/src/idempotency/key.rs:9-24 | turning a key into a string and back gives the same key |
| IdempotencyKeys.BlankKeyAccepted | production_rust/src/idempotency/key.rs:10 | only emptiness is checked: every non-empty string of whitespace is accepted as a key, unchanged |
| Settings.KeyValidity | production_rust/src/routes/admin/settings/post.rs:54-58 | the flag is set exactly when the form sends "1"; "0" and any other text clear it |
| Settings.SetValidity | production_rust/src/routes/admin/settings/post.rs:60-75 | the `UPDATE` keeps the set of rows; a row matching the user and the key gets the new validity and keeps its saved response; every other row is unchanged |
| Settings.AffectedRowCount | production_rust/src/routes/admin/settings/post.rs:60-75 | the update affects one row when the user has that key and none otherwise |
| Settings.UpdateOnlyTouchesMatchingRow | production_rust/src/routes/admin/settings/post.rs:60-75 | the update changes only the matching row's validity; no row is added or removed |
| Settings.OtherUsersUntouched | production_rust/src/routes/admin/settings/post.rs:65-67 | the same key stored by another user is never changed |
| Settings.ValidateThenInvalidate | production_rust/src/routes/admin/settings/post.rs:54-81 | for a stored key, "1" then "0" both succeed and leave that key invalid and the rest unchanged |
| Settings.IdempotencyTable.KeyState | production_rust/src/routes/admin/settings/post.rs:48-82 | the table becomes the update of the old table; success happens exactly when the key was stored for the user, and otherwise the error is "No matching key found." |
| Settings.IdempotencyTable.ChangeKeyState | production_rust/src/routes/admin/settings/post.rs:21-46 | an empty key gives a 400 with its message and leaves the table alone; otherwise the update runs, "changed" or "failed" is flashed according to the key's presence, and the response redirects to /admin/settings |
| Blog.JoinFirstWords | production_rust/src/routes/blog/get.rs:28-29 | the loop consumes min(limit, n) words and joins exactly those with single spaces |
| Blog.PreviewText | production_rust/src/routes/blog/get.rs:28-32 | the preview is the first ten words joined by spaces, plus "..." exactly when more words remain |
| Blog.KeptWordsReadBack | production_rust/src/routes/blog/get.rs:28-29 | the kept words are a prefix of the words, at most ten, and they read back unchanged from their joined text (`display_text` before any ellipsis is added) |
| Blog.PreviewKeepsLeadingWords | production_rust/src/routes/blog/get.rs:28-29 | the joined text of the kept words, before the ellipsis, splits back into exactly the text's first min(10, n) words: no word is cut, altered or reordered (the whole preview reads back only for at most ten words, see `Blog.ShortTextPreviewedWhole`) |
| Blog.ShortTextPreviewedWhole | production_rust/src/routes/blog/get.rs:28-32 | a text of at most ten words is previewed whole, with no ellipsis, and has the same words as the text |
| Blog.LongTextPreviewTruncated | production_rust/src/routes/blog/get.rs:28-32 | a text of more than ten words is previewed as its first ten words followed by "..." |
| Blog.LongPreviewParagraph | production_rust/src/routes/blog/get.rs:30-37 | over more than ten words the card's paragraph ends in six dots: the preview's ellipsis plus the template's own |
| Blog.LongTextEndsWithSixDots | production_rust/src/routes/blog/get.rs:30-37 | the same, stated for the text of an issue |
| Blog.Card | production_rust/src/routes/blog/get.rs:27-49 | a card shows the post's title and its link; its paragraph (`Blog.Paragraph`) is, for at most ten words, the text's words joined by spaces with the template's "..." after them, and over ten words the first ten words joined by spaces followed by "......" |
| Blog.Listing | production_rust/src/routes/blog/get.rs:25-50 | one card per post, in the order of the posts, card i being the card of post i |
| Blog.InsertByDateAdds | production_rust/src/routes/blog/get.rs:484 | inserting a post into the ordered list adds exactly that post |
| Blog.InsertByDateDominates | production_rust/src/routes/blog/get.rs:484 | after an insertion, every position holds a post at least as recent as it held before |
| Blog.InsertByDateSorted | production_rust/src/routes/blog/get.rs:484 | inserting into a newest-first list keeps it newest-first |
| Blog.NewestPostsShape | production_rust/src/routes/blog/get.rs:478-485 | the selection holds min(limit, table size) posts, newest first |
| Blog.NewestPostsFromTable | production_rust/src/routes/blog/get.rs:482-485 | the selection is a sub-multiset of the table |
| Blog.SelectionStep | production_rust/src/routes/blog/get.rs:484-485 | adding a row to a full selection and dropping the oldest keeps every omitted row no newer than any selected one |
| Blog.NewestPostsSelectsNewest | production_rust/src/routes/blog/get.rs:484-485 | no row left out of the selection is newer than any row in it |
| Blog.RecentNewsletters | production_rust/src/routes/blog/get.rs:475-503 | `get_recent_newsletters` (through `Blog.NewestPosts`) returns min(2, table size) issues of the table, newest first, and no issue left out is newer than one returned |
| Blog.BlogShowsRecentIssues | production_rust/src/routes/blog/get.rs:475-504 | the blog page shows at most two cards, newest first, taken from the table, each with its issue's title and link, and no omitted issue is newer |
| Blog.PostById | production_rust/src/routes/blog/get.rs:506-529 | succeeds exactly when some issue has the id, and returns such an issue; otherwise it fails with the no-row error |
| Blog.BlogPostPage | production_rust/src/routes/blog/get.rs:251-257 | a 500 exactly when no issue has the id; otherwise the page shows that issue's title and HTML content |
| Subscriptions.NewSubscriberFrom | production_rust/src/routes/subscribe/subscriptions.rs:22-29 | succeeds exactly when both e-mail and name are valid; both are kept as submitted; the e-mail's error comes first |
| Subscriptions.InvalidNameRefused | production_rust/src/routes/subscribe/subscriptions.rs:22-29 | a blank, over-long or forbidden-character name is refused whatever the e-mail, with the name's message when the e-mail is valid |
| Subscriptions.TokenShape | production_rust/src/routes/subscribe/subscriptions.rs:194-200 | every token has 25 characters, all ASCII letters or digits |
| Subscriptions.GenerateSubscriptionToken | production_rust/src/routes/subscribe/subscriptions.rs:194-200 | the loop draws the 25 characters of the sampled token, so the result is 25 ASCII letters and digits |
| Subscriptions.ConfirmationLink | production_rust/src/routes/subscribe/subscriptions.rs:151-154 | the link is the base URL, then "/subscriptions/confirm?subscription_token=", then the token, each read back by slicing at its position |
| Subscriptions.ConfirmationEmail | production_rust/src/routes/subscribe/subscriptions.rs:145-169 | the message is addressed to the subscriber's e-mail, with subject "Welcome!"; its HTML and text bodies are the fixed welcome texts with the confirmation link between them |
| Subscriptions.TokenOfLink | production_rust/src/routes/subscribe/subscriptions.rs:151-154 | a token is read from a link exactly when the link starts with the confirmation prefix, and the link is that prefix followed by the token |
| Subscriptions.LinkCarriesToken | production_rust/src/routes/subscribe/subscriptions.rs:151-154 | the token reads back unchanged from the confirmation link |
| Subscriptions.BodiesCarryTheLink | production_rust/src/routes/subscribe/subscriptions.rs:151-167 | the e-mail is addressed to the subscriber; its HTML and text bodies both contain the same link at fixed positions, and that link leads back to the token |
| Subscriptions.StatusCode | production_rust/src/routes/subscribe/subscriptions.rs:231-238 | 400 exactly for a validation error, 500 exactly for an unexpected one |
| Subscriptions.ErrorChainFmt | production_rust/src/routes/subscribe/subscriptions.rs:266-277 | the output is the error's message, a blank line, then one "Caused by:" entry per cause, nearest cause first |
| Subscriptions.ErrorWithoutSource | production_rust/src/routes/subscribe/subscriptions.rs:270 | an error with no source renders with no "Caused by:" entry |
| Subscriptions.ContextChain | production_rust/src/routes/subscribe/subscriptions.rs:266-277 | an error under a context renders as the context, a blank line, the error's message as the first "Caused by:" entry, then the error's own causes |
| Subscriptions.DatabaseFailureChain | production_rust/src/routes/subscribe/subscriptions.rs:109-111 | an error the database returns under a context renders with two "Caused by:" entries: the driver's "error returned from database: ..." line, then the server's message |
| Subscriptions.StoreTokenErrorChain | production_rust/src/routes/subscribe/subscriptions.rs:245-264 | the token-store error shows its fixed message, then the database error as its first cause, followed by that error's own causes |
| Subscriptions.InsertSubscriber | production_rust/src/routes/subscribe/subscriptions.rs:172-192 | the insert is refused exactly when the id or the e-mail is taken; otherwise it adds under the id exactly the row (submitted e-mail, submitted name, `now`, "pending_confirmation") and changes no other row |
| Subscriptions.InsertKeepsEmailsUnique | production_rust/src/routes/subscribe/subscriptions.rs:178-189 | a successful insert keeps e-mail addresses unique |
| Subscriptions.SecondSubscriptionRefused | production_rust/src/routes/subscribe/subscriptions.rs:106-135 | a second subscription with the same e-mail is refused, whatever the new id |
| Subscriptions.StoreToken | production_rust/src/routes/subscribe/subscriptions.rs:206-221 | storing is refused exactly when the token already exists; otherwise it adds the token for that subscriber and changes no other token |
| Subscriptions.StoreTokenKeepsReferences | production_rust/src/routes/subscribe/subscriptions.rs:211-216 | storing the token of an existing subscriber keeps every token pointing at a subscriber |
| Subscriptions.SubscriptionStore.Subscribe | production_rust/src/routes/subscribe/subscriptions.rs:86-139 | an invalid form flashes its error and redirects to /subscriptions with the tables untouched; a failed begin is a 500 whose chain is the pool context followed by the database error's own chain, and stores nothing; a refused insert flashes "already subscribed" and stores nothing; once the insert is accepted the outcome is that of the transaction below, and on success a pending_confirmation row with the submitted e-mail and name and the token pointing at it are stored; the tables stay valid throughout |
| Subscriptions.SubscriptionStore.StoreAndConfirm | production_rust/src/routes/subscribe/subscriptions.rs:106-136 | a refused insert stores nothing; a token collision is a 500 with the store context over the database's unique-violation error, a failed commit a 500 with the commit context over the commit error, and both leave the tables as they were; otherwise the row and the token are committed together, the confirmation e-mail for that token is sent, delivery decides between the "subscribed" and "failed to send" flashes, and the tables stay valid |
| Subscriptions.SubscriptionStore.Commit | production_rust/src/routes/subscribe/subscriptions.rs:112-115 | the commit writes back exactly the staged tables, and the store stays valid when they keep e-mails unique and tokens pointing at subscribers |

## Left out

- SubscriberNames.Parse: counts characters (Unicode scalar values) where the source counts extended grapheme clusters, so it refuses some names of more than 256 characters that the source accepts: names with combining marks and other extending characters, CR LF pairs, emoji joined by zero-width joiners, and pairs of regional indicators. The two agree when every character is a grapheme of its own. Grapheme segmentation is a Unicode table that is not modelled.
- SubscriberNames.LengthBoundary: stated for characters below U+0300, where no character extends its neighbour and each copy is one grapheme.
- The e-mail address grammar is the `validator` crate's; it is the parameter `validateEmail`, so `SubscriberEmails.Parse` carries no contract of its own.
- `published_at` is an integer ordering key. The source keeps it as a string and leaves the ordering to the database. Ties among equal dates may come out in a different order than the database returns them.
- Blog.BlogShowsRecentIssues: the listing's HTML page, its styling and the rendering of incoming flash messages are not modelled. Only the cards' title, paragraph and link are.
- The router's `url_for("blog_post", ...)` is the parameter `urlFor`. The routes registered in `production_rust/src/startup.rs` do not include the blog pages, so the model does not claim that the link resolves.
- Database failures other than constraint violations, such as lost connections or timeouts during the insert or the query, are not modelled. The handler treats every failure of the insert alike (production_rust/src/routes/subscribe/subscriptions.rs:106-135): any such failure, not only a taken e-mail, is answered with the "already subscribed" flash and a 303, although the integration test at production_rust/tests/api/subscriptions.rs:137-151 expects a 500 for a broken table. Opening and committing a transaction take an outcome as input. A failed blog query is covered only as the missing row of `PostById`.
- The `subscriptions` table's uniqueness of `email`, the primary keys of the `subscriptions` and `subscription_tokens` tables, and the primary key (`user_id`, `idempotency_key`) of the `idempotency` table that `Settings.AffectedRowCount` relies on are assumed from the handler's behaviour; the migrations are not part of this model.
- Subscriptions.SubscriptionStore.Subscribe: the flash messages are returned, not sent through cookies. Tracing spans are not modelled. Rollback is modelled by never writing the staged tables back.
- Subscriptions.SubscriptionStore.Subscribe: an invalid form yields a 303 redirect with the error flashed, as the handler does. The integration tests in `production_rust/tests/api/subscriptions.rs` still expect a 400 from the older handler, which is kept as a comment in the source.
- Subscriptions.GenerateSubscriptionToken: `rand`'s rejection sampling is summarised as one draw per character, reduced modulo 62. The thread-local generator itself is the parameter `sample`.
- The e-mail client (`production_rust/src/email_client.rs`) is not part of this model. Sending returns the message that would be handed to it, and its delivery is the input `delivered`. The client's `send_email` ignores the recipient it is given and sends every message to one fixed address of its own; the model keeps the recipient the handler passes and does not model that reroute.
- The server's wording of a unique-constraint violation is abbreviated to one constant. For a token collision `Subscribe` reports it under the driver's "error returned from database: " line, as sqlx's database error does.
- Opening and committing a transaction fail with an error given as input, already in the shape of an `ErrorReport` (its message and its chain of sources). The kinds of sqlx errors behind it (pool timeout, I/O, protocol) are not told apart.
- The confirmation endpoint, the publishing of newsletters and the rest of the admin area are outside the modelled core.
