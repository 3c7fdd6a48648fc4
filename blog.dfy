/**
 * The public blog: a listing of the most recent newsletter issues, each shown
 * as a card with a short preview, and a page per issue looked up by its id.
 */
module Blog {
  import opened Wrappers
  import opened Web
  import opened Text

  /** How many issues the listing shows. */
  const RecentPosts: nat := 2

  /** How many words of an issue's text the preview keeps. */
  const PreviewWords: nat := 10

  const Ellipsis: string := "..."

  /** The database's message when a query that expects one row finds none. */
  const RowNotFoundMessage: string := "no rows returned by a query that expected to return at least one row"

  /** A point in time, ordered as `ORDER BY published_at` orders the column. */
  type Timestamp = int

  datatype NewsletterPost = NewsletterPost(
    id: Uuid,
    title: string,
    textContent: string,
    htmlContent: string,
    publishedAt: Timestamp)

  /** What one card of the listing shows: the title, the preview paragraph and the link to the issue. */
  datatype BlogCard = BlogCard(title: string, paragraph: string, link: string)

  /** The first `n` elements of `s`, or all of them when there are fewer. */
  function Take<T>(s: seq<T>, n: nat): seq<T> {
    if |s| <= n then s else s[..n]
  }

  // ---------------------------------------------------------------------
  // The preview of a card
  // ---------------------------------------------------------------------

  /** The preview of a text: see `PreviewOfWords`. */
  function Preview(text: string): string {
    PreviewOfWords(Words(text))
  }

  /** The first ten words joined by single spaces, then "..." when words remain. */
  function PreviewOfWords(words: seq<string>): string {
    Join(Take(words, PreviewWords)) + (if |words| > PreviewWords then Ellipsis else "")
  }

  /**
   * The `take(limit)` and `join(" ")` of the listing: consumes up to `limit`
   * words from the word iterator, joining them with single spaces, and
   * reports how many it consumed.
   */
  method JoinFirstWords(words: seq<string>, limit: nat) returns (displayText: string, taken: nat)
    ensures taken == |Take(words, limit)|
    ensures displayText == Join(Take(words, limit))
  {
    taken := 0;
    displayText := "";
    while taken < limit && taken < |words|
      invariant taken <= limit && taken <= |words|
      invariant displayText == Join(words[..taken])
    {
      var word := words[taken];
      JoinSnoc(words[..taken], word);
      assert words[..taken + 1] == words[..taken] + [word];
      if taken > 0 {
        displayText := displayText + " ";
      }
      displayText := displayText + word;
      taken := taken + 1;
    }
    assert words[..taken] == Take(words, limit);
  }

  /**
   * Builds the preview as the listing does: joins the first ten words, then
   * appends "..." when the word iterator still yields a word.
   */
  method PreviewText(text: string) returns (displayText: string)
    ensures displayText == Preview(text)
  {
    var words := Words(text);
    var taken;
    displayText, taken := JoinFirstWords(words, PreviewWords);
    if taken < |words| {
      displayText := displayText + Ellipsis;
    }
  }

  /** The words kept by the preview read back from their joined text unchanged. */
  lemma {:induction false} KeptWordsReadBack(words: seq<string>)
    requires forall i | 0 <= i < |words| :: IsWord(words[i])
    ensures var kept := Take(words, PreviewWords);
      && |kept| <= PreviewWords
      && kept == words[..|kept|]
      && Words(Join(kept)) == kept
  {
    var kept := Take(words, PreviewWords);
    assert forall i | 0 <= i < |kept| :: kept[i] == words[i];
    WordsOfJoin(kept);
  }

  /**
   * The joined part of the preview reads back as exactly the first
   * min(10, n) words of the text: nothing is cut inside a word and no word is
   * reordered or altered.
   */
  lemma {:induction false} PreviewKeepsLeadingWords(text: string)
    ensures var kept := Take(Words(text), PreviewWords);
      && |kept| <= PreviewWords
      && kept == Words(text)[..|kept|]
      && Words(Join(kept)) == kept
  {
    WordsAreWords(text);
    KeptWordsReadBack(Words(text));
  }

  /** A text of at most ten words is previewed word for word, with no ellipsis of its own. */
  lemma {:induction false} ShortTextPreviewedWhole(text: string)
    requires |Words(text)| <= PreviewWords
    ensures Preview(text) == Join(Words(text))
    ensures Words(Preview(text)) == Words(text)
  {
    var words := Words(text);
    WordsAreWords(text);
    assert PreviewOfWords(words) == Join(words) + "";
    WordsOfJoin(words);
  }

  /** A text of more than ten words is previewed as its first ten words followed by "...". */
  lemma {:induction false} LongTextPreviewTruncated(text: string)
    requires |Words(text)| > PreviewWords
    ensures var head := Join(Words(text)[..PreviewWords]);
      && Preview(text) == head + Ellipsis
      && Words(head) == Words(text)[..PreviewWords]
  {
    WordsAreWords(text);
    KeptWordsReadBack(Words(text));
  }

  /** The card's paragraph: the preview followed by a further "...". */
  function Paragraph(displayText: string): string {
    displayText + Ellipsis
  }

  /** Over more than ten words, the paragraph ends in the preview's "..." and the card's "...". */
  lemma {:induction false} LongPreviewParagraph(words: seq<string>)
    requires |words| > PreviewWords
    ensures var p := Paragraph(PreviewOfWords(words));
      |p| >= 6 && p[|p| - 6..] == "......"
  {
    var head := Join(words[..PreviewWords]);
    var p := Paragraph(PreviewOfWords(words));
    assert p == head + Ellipsis + Ellipsis;
    assert p == head + "......";
  }

  /** So a text of more than ten words is shown ending in six dots. */
  lemma {:induction false} LongTextEndsWithSixDots(text: string)
    requires |Words(text)| > PreviewWords
    ensures var p := Paragraph(Preview(text));
      |p| >= 6 && p[|p| - 6..] == "......"
  {
    LongPreviewParagraph(Words(text));
  }

  // ---------------------------------------------------------------------
  // The listing
  // ---------------------------------------------------------------------

  /**
   * The card of one post; `urlFor` stands for the router's URL of the post's
   * page. Its paragraph is the text's words, up to ten, then "..." once more
   * when words were left out, then the template's own "...".
   */
  function Card(post: NewsletterPost, urlFor: Uuid -> string): (card: BlogCard)
    ensures card.title == post.title && card.link == urlFor(post.id)
    ensures var words := Words(post.textContent);
      |words| <= PreviewWords ==> card.paragraph == Join(words) + Ellipsis
    ensures var words := Words(post.textContent);
      |words| > PreviewWords ==> card.paragraph == Join(words[..PreviewWords]) + Ellipsis + Ellipsis
  {
    var text := post.textContent;
    if |Words(text)| <= PreviewWords then
      ShortTextPreviewedWhole(text);
      BlogCard(post.title, Paragraph(Preview(text)), urlFor(post.id))
    else
      LongTextPreviewTruncated(text);
      BlogCard(post.title, Paragraph(Preview(text)), urlFor(post.id))
  }

  /** One card per post, in the order of the posts. */
  function Listing(posts: seq<NewsletterPost>, urlFor: Uuid -> string): (cards: seq<BlogCard>)
    ensures |cards| == |posts|
    ensures forall i | 0 <= i < |posts| :: cards[i] == Card(posts[i], urlFor)
  {
    if posts == [] then [] else [Card(posts[0], urlFor)] + Listing(posts[1..], urlFor)
  }

  predicate NewestFirst(posts: seq<NewsletterPost>) {
    forall i, j | 0 <= i < j < |posts| :: posts[i].publishedAt >= posts[j].publishedAt
  }

  /** `post` was published no later than any post of `posts`. */
  predicate NotNewerThanAny(post: NewsletterPost, posts: seq<NewsletterPost>) {
    forall i | 0 <= i < |posts| :: post.publishedAt <= posts[i].publishedAt
  }

  /** Inserts `post` into a newest-first list, after the posts at least as new. */
  function InsertByDate(sorted: seq<NewsletterPost>, post: NewsletterPost): seq<NewsletterPost> {
    if sorted == [] then [post]
    else if post.publishedAt > sorted[0].publishedAt then [post] + sorted
    else [sorted[0]] + InsertByDate(sorted[1..], post)
  }

  /** `ORDER BY published_at DESC LIMIT limit` over the table's rows. */
  function NewestPosts(table: seq<NewsletterPost>, limit: nat): seq<NewsletterPost> {
    if table == [] then []
    else Take(InsertByDate(NewestPosts(table[..|table| - 1], limit), table[|table| - 1]), limit)
  }

  /**
   * The issues the blog listing shows: up to two of the table's issues,
   * newest first, with no issue left out newer than one shown.
   */
  function RecentNewsletters(table: seq<NewsletterPost>): (r: seq<NewsletterPost>)
    ensures |r| == if |table| <= RecentPosts then |table| else RecentPosts
    ensures NewestFirst(r)
    ensures multiset(r) <= multiset(table)
    ensures forall p | p in multiset(table) - multiset(r) :: NotNewerThanAny(p, r)
  {
    NewestPostsShape(table, RecentPosts);
    NewestPostsFromTable(table, RecentPosts);
    NewestPostsSelectsNewest(table, RecentPosts);
    NewestPosts(table, RecentPosts)
  }

  /** Insertion adds exactly `post` to the list. */
  lemma {:induction false} InsertByDateAdds(sorted: seq<NewsletterPost>, post: NewsletterPost)
    ensures |InsertByDate(sorted, post)| == |sorted| + 1
    ensures multiset(InsertByDate(sorted, post)) == multiset(sorted) + multiset{post}
  {
    if sorted != [] && post.publishedAt <= sorted[0].publishedAt {
      InsertByDateAdds(sorted[1..], post);
      assert sorted == [sorted[0]] + sorted[1..];
    }
  }

  /** Insertion never makes an entry older than the entry at the same position before. */
  lemma {:induction false} InsertByDateDominates(sorted: seq<NewsletterPost>, post: NewsletterPost)
    requires NewestFirst(sorted)
    ensures |InsertByDate(sorted, post)| == |sorted| + 1
    ensures forall i | 0 <= i < |sorted| :: InsertByDate(sorted, post)[i].publishedAt >= sorted[i].publishedAt
  {
    InsertByDateAdds(sorted, post);
    if sorted != [] && post.publishedAt <= sorted[0].publishedAt {
      var tail := sorted[1..];
      InsertByDateDominates(tail, post);
      var r := InsertByDate(sorted, post);
      forall i | 0 < i < |sorted| ensures r[i].publishedAt >= sorted[i].publishedAt {
        assert r[i] == InsertByDate(tail, post)[i - 1] && sorted[i] == tail[i - 1];
      }
    }
  }

  /** Insertion keeps the list newest first. */
  lemma {:induction false} InsertByDateSorted(sorted: seq<NewsletterPost>, post: NewsletterPost)
    requires NewestFirst(sorted)
    ensures NewestFirst(InsertByDate(sorted, post))
  {
    if sorted != [] && post.publishedAt <= sorted[0].publishedAt {
      var tail := sorted[1..];
      InsertByDateSorted(tail, post);
      InsertByDateDominates(tail, post);
      var rest := InsertByDate(tail, post);
      var r := InsertByDate(sorted, post);
      assert r == [sorted[0]] + rest;
      forall i | 0 < i < |r| ensures r[0].publishedAt >= r[i].publishedAt {
        if i - 1 < |tail| {
          assert rest[i - 1].publishedAt >= tail[i - 1].publishedAt;
        }
      }
    }
  }

  /** A sub-multiset as large as the whole is the whole. */
  lemma MultisetFill<T>(a: multiset<T>, b: multiset<T>)
    requires a <= b && |a| == |b|
    ensures a == b
  {
    assert b == a + (b - a);
  }

  /** The selection keeps `min(limit, n)` of the table's posts, newest first. */
  lemma {:induction false} NewestPostsShape(table: seq<NewsletterPost>, limit: nat)
    ensures var r := NewestPosts(table, limit);
      && |r| == (if |table| <= limit then |table| else limit)
      && NewestFirst(r)
  {
    if table != [] {
      var init := table[..|table| - 1];
      var post := table[|table| - 1];
      NewestPostsShape(init, limit);
      var top := NewestPosts(init, limit);
      InsertByDateAdds(top, post);
      InsertByDateSorted(top, post);
    }
  }

  /** A prefix holds each element at most as often as the whole. */
  lemma TakeSubMultiset<T>(s: seq<T>, n: nat)
    ensures multiset(Take(s, n)) <= multiset(s)
  {
    if n < |s| {
      assert s == s[..n] + s[n..];
    }
  }

  /** The selection keeps only posts of the table, each at most as often as the table holds it. */
  lemma {:induction false} NewestPostsFromTable(table: seq<NewsletterPost>, limit: nat)
    ensures multiset(NewestPosts(table, limit)) <= multiset(table)
  {
    if table != [] {
      var init := table[..|table| - 1];
      var post := table[|table| - 1];
      assert table == init + [post];
      NewestPostsFromTable(init, limit);
      var top := NewestPosts(init, limit);
      InsertByDateAdds(top, post);
      var ins := InsertByDate(top, post);
      TakeSubMultiset(ins, limit);
      assert Take(ins, limit) == NewestPosts(table, limit);
      assert multiset(ins) <= multiset(init) + multiset{post};
      assert multiset(table) == multiset(init) + multiset{post};
    }
  }

  /** Every post the selection leaves out is no newer than any post it keeps. */
  lemma {:induction false} NewestPostsSelectsNewest(table: seq<NewsletterPost>, limit: nat)
    ensures var r := NewestPosts(table, limit);
      forall p | p in multiset(table) - multiset(r) :: NotNewerThanAny(p, r)
  {
    if table != [] {
      var init := table[..|table| - 1];
      var post := table[|table| - 1];
      assert table == init + [post];
      NewestPostsShape(init, limit);
      NewestPostsFromTable(init, limit);
      NewestPostsSelectsNewest(init, limit);
      var top := NewestPosts(init, limit);
      InsertByDateAdds(top, post);
      InsertByDateDominates(top, post);
      InsertByDateSorted(top, post);
      var ins := InsertByDate(top, post);
      var r := Take(ins, limit);
      assert r == NewestPosts(table, limit);
      assert multiset(table) == multiset(init) + multiset{post};
      if |ins| <= limit {
        MultisetFill(multiset(top), multiset(init));
        assert multiset(table) - multiset(r) == multiset{};
      } else if limit > 0 {
        SelectionStep(init, post, top, limit);
      }
    }
  }

  /** Count bookkeeping for the step below: a left-out element other than the dropped one was left out before. */
  lemma LeftOutBefore<T>(init: multiset<T>, top: multiset<T>, kept: multiset<T>, post: T, dropped: T, x: T)
    requires top + multiset{post} == kept + multiset{dropped}
    requires x in (init + multiset{post}) - kept && x != dropped
    ensures x in init - top
  {
    assert (top + multiset{post})[x] == kept[x];
  }

  /** In a newest-first list, a post no newer than the last entry is no newer than any entry. */
  lemma NotNewerThanLast(p: NewsletterPost, r: seq<NewsletterPost>)
    requires NewestFirst(r) && |r| > 0
    requires p.publishedAt <= r[|r| - 1].publishedAt
    ensures NotNewerThanAny(p, r)
  {
  }

  /** The inductive step of `NewestPostsSelectsNewest` when the new post overflows a full selection. */
  lemma {:induction false} SelectionStep(init: seq<NewsletterPost>, post: NewsletterPost, top: seq<NewsletterPost>, limit: nat)
    requires 0 < limit == |top|
    requires NewestFirst(top)
    requires forall p | p in multiset(init) - multiset(top) :: NotNewerThanAny(p, top)
    ensures |InsertByDate(top, post)| == limit + 1
    ensures var r := InsertByDate(top, post)[..limit];
      forall p | p in multiset(init + [post]) - multiset(r) :: NotNewerThanAny(p, r)
  {
    InsertByDateAdds(top, post);
    InsertByDateDominates(top, post);
    InsertByDateSorted(top, post);
    var ins := InsertByDate(top, post);
    var r := ins[..limit];
    var dropped := ins[limit];
    var last := ins[limit - 1];
    assert r[limit - 1] == last;
    assert NewestFirst(r);
    assert dropped.publishedAt <= last.publishedAt;
    assert top[limit - 1].publishedAt <= last.publishedAt;
    MultisetOfSnoc(ins);
    assert multiset(init + [post]) == multiset(init) + multiset{post};
    forall p | p in multiset(init + [post]) - multiset(r) ensures NotNewerThanAny(p, r) {
      if p != dropped {
        LeftOutBefore(multiset(init), multiset(top), multiset(r), post, dropped, p);
        assert p.publishedAt <= top[limit - 1].publishedAt;
      }
      NotNewerThanLast(p, r);
    }
  }

  /** A non-empty sequence holds its initial part and its last element. */
  lemma MultisetOfSnoc<T>(s: seq<T>)
    requires |s| > 0
    ensures multiset(s) == multiset(s[..|s| - 1]) + multiset{s[|s| - 1]}
  {
    assert s == s[..|s| - 1] + [s[|s| - 1]];
  }

  /** The cards of the blog page. */
  function BlogCards(table: seq<NewsletterPost>, urlFor: Uuid -> string): seq<BlogCard> {
    Listing(RecentNewsletters(table), urlFor)
  }

  /**
   * The blog page shows at most two cards, one per issue of the selection
   * and in its newest-first order, and no issue left out is newer.
   */
  lemma {:induction false} BlogShowsRecentIssues(table: seq<NewsletterPost>, urlFor: Uuid -> string)
    ensures var posts := RecentNewsletters(table);
      var cards := BlogCards(table, urlFor);
      && |cards| == |posts| <= RecentPosts
      && NewestFirst(posts)
      && multiset(posts) <= multiset(table)
      && (forall i | 0 <= i < |cards| :: cards[i].title == posts[i].title && cards[i].link == urlFor(posts[i].id))
      && forall p | p in multiset(table) - multiset(posts) :: NotNewerThanAny(p, posts)
  {
  }

  // ---------------------------------------------------------------------
  // One issue's page
  // ---------------------------------------------------------------------

  /** `SELECT ... WHERE newsletter_issue_id = id`, failing when no row matches. */
  function PostById(table: seq<NewsletterPost>, id: Uuid): (r: Result<NewsletterPost, string>)
    ensures r.Ok? <==> exists i | 0 <= i < |table| :: table[i].id == id
    ensures r.Ok? ==> r.value in table && r.value.id == id
    ensures r.Err? ==> r.error == RowNotFoundMessage
  {
    if table == [] then Err(RowNotFoundMessage)
    else if table[0].id == id then Ok(table[0])
    else
      var r := PostById(table[1..], id);
      assert forall i | 1 <= i < |table| :: table[i] == table[1..][i - 1];
      r
  }

  /** The page of one issue: its title and HTML body, or a 500 when no issue has that id. */
  function BlogPostPage(table: seq<NewsletterPost>, id: Uuid): (r: Result<HttpResponse, HttpError>)
    ensures r.Err? <==> forall i | 0 <= i < |table| :: table[i].id != id
    ensures r.Err? ==> r.error.status == StatusInternalServerError
    ensures r.Ok? ==> exists p | p in table :: p.id == id && r.value == OkPage(p.title, p.htmlContent)
  {
    match PostById(table, id)
    case Ok(post) => Ok(OkPage(post.title, post.htmlContent))
    case Err(e) => Err(E500(e))
  }
}
