/** The blog article page: finding the post named by the route, filling in
    missing content, numbering the contents list, and the bookmark button
    backed by the bookmark store. */
module BlogDetail {
  import opened Wrappers
  import opened Decimal
  import opened BookmarkService

  datatype Section = Section(heading: string, text: string)

  /** A post's optional `content`; each part may be missing. */
  datatype Content = Content(toc: Option<seq<string>>, sections: Option<seq<Section>>)

  /** A post of the list the page searches; a missing slug is `None`. */
  datatype Post = Post(id: ItemId, slug: Option<string>, excerpt: string, content: Option<Content>)

  /** `id || slug` over the two route parameters (`None` when absent). */
  function LookupKey(id: Option<string>, slug: Option<string>): (key: Option<string>)
    ensures id.Some? && id.value != "" ==> key == id
    ensures !(id.Some? && id.value != "") ==> key == slug
  {
    if id.Some? && id.value != "" then id else slug
  }

  /** `Number(key)` where it yields an integer: `undefined` gives NaN, the
      empty string gives 0, a string of ASCII digits its value. */
  function ToNumber(key: Option<string>): (r: Option<int>)
    ensures key.None? ==> r.None?
    ensures key == Some("") ==> r == Some(0)
    ensures key.Some? && key.value != "" && AllDigits(key.value) ==> r == Some(DigitsValue(key.value))
  {
    if key.None? then None
    else if key.value == "" then Some(0)
    else if AllDigits(key.value) then Some(DigitsValue(key.value))
    else None
  }

  /** The `find` callback: `post.id === Number(key) || post.slug === key`.
      A missing slug equals a missing key, as `undefined === undefined`. */
  predicate Matches(p: Post, key: Option<string>): (b: bool)
    ensures key.None? ==> (b <==> p.slug.None?)
    ensures p.slug == key ==> b
  {
    (p.id.Num? && ToNumber(key) == Some(p.id.n)) || p.slug == key
  }

  /** `blogPosts.find(...)`: the first matching post. */
  function FindBlog(posts: seq<Post>, key: Option<string>): (r: Option<Post>)
    ensures r.None? <==> forall i :: 0 <= i < |posts| ==> !Matches(posts[i], key)
    ensures r.Some? ==> exists i :: 0 <= i < |posts| && posts[i] == r.value
                          && Matches(posts[i], key)
                          && forall j :: 0 <= j < i ==> !Matches(posts[j], key)
  {
    if posts == [] then None
    else if Matches(posts[0], key) then Some(posts[0])
    else
      var rest := FindBlog(posts[1..], key);
      if rest.Some? then
        var i :| 0 <= i < |posts[1..]| && posts[1..][i] == rest.value
                 && Matches(posts[1..][i], key)
                 && forall j :: 0 <= j < i ==> !Matches(posts[1..][j], key);
        assert posts[i + 1] == rest.value;
        rest
      else rest
  }

  /** A post with a numeric id is found at the route `/blog/<id>` unless an
      earlier post matches too; with distinct numeric ids and no slug equal
      to that text, it is the one found. */
  lemma FindsByNumericId(posts: seq<Post>, k: nat, n: nat)
    requires k < |posts| && posts[k].id == Num(n)
    requires forall j :: 0 <= j < |posts| && j != k ==> posts[j].id != Num(n)
    requires forall j :: 0 <= j < |posts| ==> posts[j].slug != Some(NatToString(n))
    ensures FindBlog(posts, LookupKey(Some(NatToString(n)), None)) == Some(posts[k])
  {
    var key := LookupKey(Some(NatToString(n)), None);
    NatToStringValue(n);
    assert ToNumber(key) == Some(n);
    assert Matches(posts[k], key);
  }

  const DefaultToc := ["Introduction", "Overview", "Key Points", "Analysis", "Conclusion"]
  const FallbackExcerpt := "This article provides insights into the latest cryptocurrency trends."
  const PendingText := "This article is currently being prepared with detailed analysis and insights."

  /** The normalised `content`: what the page lays out. */
  datatype Layout = Layout(toc: seq<string>, sections: seq<Section>)

  /** `content?.toc ?? [...]` and `content?.sections ?? [...]`; only a
      missing part is replaced, so an empty list stays empty. */
  function NormalizeContent(p: Post): (r: Layout)
    ensures p.content.Some? && p.content.value.toc.Some? ==> r.toc == p.content.value.toc.value
    ensures p.content.None? || p.content.value.toc.None? ==> r.toc == DefaultToc && |r.toc| == 5
    ensures p.content.Some? && p.content.value.sections.Some? ==> r.sections == p.content.value.sections.value
    ensures p.content.None? || p.content.value.sections.None? ==>
              |r.sections| == 2 && r.sections[0].heading == "Introduction"
              && r.sections[0].text == (if p.excerpt != "" then p.excerpt else FallbackExcerpt)
              && r.sections[1] == Section("Overview", PendingText)
  {
    var toc := if p.content.Some? && p.content.value.toc.Some? then p.content.value.toc.value else DefaultToc;
    var sections :=
      if p.content.Some? && p.content.value.sections.Some? then p.content.value.sections.value
      else [Section("Introduction", if p.excerpt != "" then p.excerpt else FallbackExcerpt),
            Section("Overview", PendingText)];
    Layout(toc, sections)
  }

  /** The number beside the `i`-th contents entry. */
  function TocNumber(i: nat): (r: string)
    ensures AllDigits(r) && DigitsValue(r) == i + 1
    ensures |r| >= 2 && (i < 99 ==> |r| == 2)
    ensures i >= 99 ==> r == NatToString(i + 1)
  {
    PadTwo(i + 1)
  }

  /** Distinct entries get distinct numbers. */
  lemma TocNumbersDistinct(i: nat, j: nat)
    requires i != j
    ensures TocNumber(i) != TocNumber(j)
  {
  }

  /** The page's bookmark state. */
  class BlogBookmarkView {
    var isBookmarked: bool
    var loadingBookmark: bool

    constructor ()
      ensures !isBookmarked && loadingBookmark
    {
      isBookmarked := false;
      loadingBookmark := true;
    }

    /** `checkBookmarkStatus` for the signed-in user's uid (`None` when no
        one is signed in) and the found post. */
    method CheckStatus(store: BookmarkStore, user: Option<string>, blog: Option<Post>)
      modifies this
      ensures user.Some? && blog.Some? ==> isBookmarked == (blog.value.id in Bookmarked(store.docs, user.value))
      ensures !(user.Some? && blog.Some?) ==> isBookmarked == old(isBookmarked)
      ensures !loadingBookmark
    {
      if user.Some? && blog.Some? {
        var bookmarks := store.GetBookmarks(user.value);
        isBookmarked := blog.value.id in bookmarks;
      }
      loadingBookmark := false;
    }

    /** `handleBookmark`: without a user, no toggle and a redirect to
        `/login`; otherwise one toggle, whose reply the button shows. A
        rejected toggle leaves the button as it was. */
    method HandleBookmark(store: BookmarkStore, user: Option<string>, blog: Post) returns (navigate: Option<string>)
      modifies this, store
      ensures user.None? ==> navigate == Some("/login") && store.docs == old(store.docs)
      ensures user.None? ==> isBookmarked == old(isBookmarked)
      ensures user.Some? ==> navigate.None? && store.docs == Toggled(old(store.docs), user.value, blog.id)
      ensures user.Some? && user.value != "" ==> isBookmarked == (blog.id in Bookmarked(store.docs, user.value))
      ensures user == Some("") ==> isBookmarked == old(isBookmarked)
      ensures loadingBookmark == old(loadingBookmark)
    {
      if user.None? {
        return Some("/login");
      }
      var reply := store.Toggle(user.value, blog.id);
      if reply.Ok? {
        isBookmarked := reply.value;
      }
      return None;
    }
  }
}
