/** The bookmark store adapter: a per-user document in the "users"
    collection whose `bookmarks` field lists the ids of saved blog posts.
    The document store is an abstract map from user id to document; each
    toggle is one atomic step. */
module BookmarkService {
  import opened Wrappers
  import opened Seqs

  /** A blog post id as stored: a number or a string. Two ids are equal
      exactly when JavaScript's `===` (used by `includes`, `arrayUnion` and
      `arrayRemove`) says so, so `Num(1)` and `Str("1")` differ. */
  datatype ItemId = Num(n: int) | Str(s: string)

  /** A user document. `bookmarks` may be missing; `others` stands for the
      document's remaining fields, which a toggle never writes. */
  datatype UserDoc = UserDoc(bookmarks: Option<seq<ItemId>>, others: map<string, string>)

  datatype BookmarkError = AuthRequired

  /** `userData.bookmarks || []`: a missing field reads as the empty list. */
  function Stored(d: UserDoc): seq<ItemId> {
    d.bookmarks.GetOr([])
  }

  /** The `arrayUnion(x)` field transform: appends `x` only if absent. */
  function ArrayUnion(s: seq<ItemId>, x: ItemId): (r: seq<ItemId>)
    ensures |r| == if x in s then |s| else |s| + 1
    ensures r[..|s|] == s && x in r
    ensures forall y :: y in r <==> y in s || y == x
  {
    if x in s then s else s + [x]
  }

  /** The `arrayRemove(x)` field transform: deletes every occurrence of `x`
      and keeps everything else, in order. */
  function ArrayRemove(s: seq<ItemId>, x: ItemId): (r: seq<ItemId>)
    ensures forall y :: y in r <==> y in s && y != x
  {
    Without(s, x)
  }

  /** The update `toggleBookmark` applies to an existing document. */
  function ToggleDoc(d: UserDoc, x: ItemId): (r: UserDoc)
    ensures r.others == d.others && r.bookmarks.Some?
    ensures x in Stored(r) <==> x !in Stored(d)
    ensures forall y :: y != x ==> (y in Stored(r) <==> y in Stored(d))
  {
    if x in Stored(d) then UserDoc(Some(ArrayRemove(Stored(d), x)), d.others)
    else UserDoc(Some(ArrayUnion(Stored(d), x)), d.others)
  }

  /** The store after `toggleBookmark(u, x)`. */
  function Toggled(docs: map<string, UserDoc>, u: string, x: ItemId): (r: map<string, UserDoc>)
    ensures u == "" ==> r == docs
    ensures u != "" ==> r.Keys == docs.Keys + {u}
    ensures forall v :: v in docs && v != u ==> r[v] == docs[v]
    ensures u != "" ==> (x in Stored(r[u]) <==> x !in Bookmarked(docs, u))
  {
    if u == "" then docs
    else if u !in docs then docs[u := UserDoc(Some([x]), map[])]
    else docs[u := ToggleDoc(docs[u], x)]
  }

  /** The value `toggleBookmark(u, x)` resolves to, or the error it throws. */
  function ToggleReply(docs: map<string, UserDoc>, u: string, x: ItemId): (r: Result<bool, BookmarkError>)
    ensures r.Err? <==> u == ""
    ensures u != "" ==> r == Ok(x !in Bookmarked(docs, u))
  {
    if u == "" then Err(AuthRequired)
    else if u !in docs then Ok(true)
    else Ok(x !in Stored(docs[u]))
  }

  /** What `getBookmarks(u)` resolves to. */
  function Bookmarked(docs: map<string, UserDoc>, u: string): (r: seq<ItemId>)
    ensures u == "" || u !in docs ==> r == []
    ensures u != "" && u in docs ==> r == Stored(docs[u])
  {
    if u == "" || u !in docs then [] else Stored(docs[u])
  }

  class BookmarkStore {
    /** The "users" collection: user id to document. */
    var docs: map<string, UserDoc>

    constructor ()
      ensures docs == map[]
    {
      docs := map[];
    }

    /** `toggleBookmark(userId, blogId)`. */
    method Toggle(userId: string, blogId: ItemId) returns (r: Result<bool, BookmarkError>)
      modifies this
      ensures docs == Toggled(old(docs), userId, blogId)
      ensures r == ToggleReply(old(docs), userId, blogId)
      ensures userId == "" ==> r == Err(AuthRequired) && docs == old(docs)
      ensures r.Ok? ==> r.value == (blogId in Bookmarked(docs, userId))
    {
      if userId == "" {
        return Err(AuthRequired);
      }
      if userId !in docs {
        docs := docs[userId := UserDoc(Some([blogId]), map[])];
        return Ok(true);
      }
      var bookmarks := Stored(docs[userId]);
      if blogId in bookmarks {
        docs := docs[userId := UserDoc(Some(ArrayRemove(bookmarks, blogId)), docs[userId].others)];
        return Ok(false);
      } else {
        docs := docs[userId := UserDoc(Some(ArrayUnion(bookmarks, blogId)), docs[userId].others)];
        return Ok(true);
      }
    }

    /** `getBookmarks(userId)`: reads the store and changes nothing. */
    method GetBookmarks(userId: string) returns (ids: seq<ItemId>)
      ensures userId == "" ==> ids == []
      ensures userId !in docs ==> ids == []
      ensures userId != "" && userId in docs && docs[userId].bookmarks.None? ==> ids == []
      ensures userId != "" && userId in docs && docs[userId].bookmarks.Some? ==> ids == docs[userId].bookmarks.value
    {
      if userId == "" {
        return [];
      }
      if userId in docs {
        return Stored(docs[userId]);
      }
      return [];
    }
  }

  /** The reply of a successful toggle is the id's membership afterwards. */
  lemma ToggleReportsMembership(docs: map<string, UserDoc>, u: string, x: ItemId)
    requires u != ""
    ensures ToggleReply(docs, u, x) == Ok(x in Bookmarked(Toggled(docs, u, x), u))
  {
  }

  /** A first toggle for a user without a document creates one holding
      exactly that id and reports `true`. */
  lemma FirstToggleCreates(docs: map<string, UserDoc>, u: string, x: ItemId)
    requires u != "" && u !in docs
    ensures Bookmarked(Toggled(docs, u, x), u) == [x]
    ensures ToggleReply(docs, u, x) == Ok(true)
  {
  }

  /** Toggling the same id twice restores its membership, from any store. */
  lemma ToggleTwiceRestoresMembership(docs: map<string, UserDoc>, u: string, x: ItemId)
    ensures (x in Bookmarked(Toggled(Toggled(docs, u, x), u, x), u)) == (x in Bookmarked(docs, u))
  {
    if u != "" && u in docs && x in Stored(docs[u]) {
      assert x !in Stored(Toggled(docs, u, x)[u]);
    }
  }

  /** Toggling `x` for `u` leaves every other user's document alone and,
      in `u`'s list, every other id's number of occurrences. */
  lemma ToggleIsolation(docs: map<string, UserDoc>, u: string, x: ItemId, v: string, y: ItemId)
    requires y != x
    ensures v != u ==> (v in Toggled(docs, u, x) <==> v in docs)
    ensures v != u && v in docs ==> Toggled(docs, u, x)[v] == docs[v]
    ensures multiset(Bookmarked(Toggled(docs, u, x), u))[y] == multiset(Bookmarked(docs, u))[y]
    ensures (y in Bookmarked(Toggled(docs, u, x), v)) == (y in Bookmarked(docs, v))
  {
    var after := Bookmarked(Toggled(docs, u, x), u);
    var before := Bookmarked(docs, u);
    if u != "" && u in docs && x in before {
      WithoutCounts(before, x);
    }
    assert multiset(after)[y] == multiset(before)[y];
    assert (y in after) == (multiset(after)[y] > 0) == (multiset(before)[y] > 0) == (y in before);
  }

  /** A toggle writes only the `bookmarks` field of the user's document. */
  lemma ToggleKeepsOtherFields(docs: map<string, UserDoc>, u: string, x: ItemId)
    requires u in docs
    ensures Toggled(docs, u, x)[u].others == docs[u].others
  {
  }

  /** A store whose lists hold each id at most once keeps that invariant
      under every toggle. */
  lemma ToggleKeepsNoDuplicates(docs: map<string, UserDoc>, u: string, x: ItemId)
    requires forall v :: v in docs ==> NoDuplicates(Stored(docs[v]))
    ensures forall v :: v in Toggled(docs, u, x) ==> NoDuplicates(Stored(Toggled(docs, u, x)[v]))
  {
    if u != "" && u in docs && x in Stored(docs[u]) {
      WithoutNoDuplicates(Stored(docs[u]), x);
    }
  }
}
