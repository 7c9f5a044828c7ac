/** The new-listings page: the post-processing of fetched market pages
    (filter, newest-first order, de-duplication by id), the user-chosen
    sort, 15-per-page pagination with its five-button page window, and the
    "days ago" bucketing of listing dates. */
module NewListings {
  import opened Wrappers
  import opened Seqs

  const ItemsPerPage: nat := 15
  const MsPerDay: nat := 86400000

  /** One market entry. `atlDate` is the `atl_date` text, with "" standing
      for a missing, null or empty value (all falsy); `atlTime` is the
      instant in milliseconds that `new Date(atl_date)` denotes. */
  datatype Coin = Coin(
    id: string,
    atlDate: string,
    atlTime: int,
    currentPrice: Option<real>,
    change24h: Option<real>,
    totalVolume: Option<real>)

  // ---------------------------------------------------------------------
  // Post-fetch filtering

  /** `coin.atl_date && coin.current_price > 0`. */
  predicate Listed(c: Coin) {
    c.atlDate != "" && c.currentPrice.Some? && c.currentPrice.value > 0.0
  }

  /** The `filter` step: keeps exactly the listed coins, in order. */
  function KeepListed(coins: seq<Coin>): (r: seq<Coin>)
    ensures forall i :: 0 <= i < |r| ==> Listed(r[i]) && r[i] in coins
    ensures forall i :: 0 <= i < |coins| && Listed(coins[i]) ==> coins[i] in r
    ensures |r| <= |coins|
  {
    FilterMembers(coins, Listed);
    Filter(coins, Listed)
  }

  /** The `filter` step distributes over concatenation: what is kept from
      each part keeps its order and its number of occurrences. */
  lemma {:induction false} KeepListedAppend(a: seq<Coin>, b: seq<Coin>)
    ensures KeepListed(a + b) == KeepListed(a) + KeepListed(b)
  {
    FilterAppend(a, b, Listed);
  }

  /** `results.flat()`: the fetched pages one after another. */
  function Flatten(pages: seq<seq<Coin>>): (r: seq<Coin>)
    ensures forall c :: c in r <==> exists i :: 0 <= i < |pages| && c in pages[i]
  {
    if pages == [] then []
    else
      var rest := Flatten(pages[1..]);
      assert forall c :: c in rest ==> exists i :: 0 <= i < |pages| && c in pages[i] by {
        forall c | c in rest ensures exists i :: 0 <= i < |pages| && c in pages[i] {
          var j :| 0 <= j < |pages[1..]| && c in pages[1..][j];
          assert c in pages[j + 1];
        }
      }
      pages[0] + rest
  }

  /** Flattening keeps the pages in order: flattening a concatenation of
      page lists concatenates the flattened parts. */
  lemma {:induction false} FlattenAppend(a: seq<seq<Coin>>, b: seq<seq<Coin>>)
    ensures Flatten(a + b) == Flatten(a) + Flatten(b)
  {
    if a == [] {
      assert a + b == b;
    } else {
      assert (a + b)[0] == a[0] && (a + b)[1..] == a[1..] + b;
      FlattenAppend(a[1..], b);
    }
  }

  // ---------------------------------------------------------------------
  // Sorting

  /** The sort options of the page's select; any other value is
      `Unsorted`, whose comparator always returns 0. */
  datatype SortKey = Newest | PriceHigh | PriceLow | ChangeHigh | Volume | Unsorted

  function KeyOf(sortBy: string): (k: SortKey)
    ensures k == Unsorted <==> sortBy !in {"newest", "price_high", "price_low", "change_high", "volume"}
  {
    match sortBy
    case "newest" => Newest
    case "price_high" => PriceHigh
    case "price_low" => PriceLow
    case "change_high" => ChangeHigh
    case "volume" => Volume
    case _ => Unsorted
  }

  /** The rank a comparator of the form `(a, b) => Rank(a) - Rank(b)`
      sorts ascending by, for each sort option. A missing 24h change or
      volume counts as 0 (`|| 0`), as does a missing price in arithmetic. */
  function KeyRank(c: Coin, key: SortKey): real {
    match key
    case Newest => -(c.atlTime as real)
    case PriceHigh => -c.currentPrice.GetOr(0.0)
    case PriceLow => c.currentPrice.GetOr(0.0)
    case ChangeHigh => -c.change24h.GetOr(0.0)
    case Volume => -c.totalVolume.GetOr(0.0)
    case Unsorted => 0.0
  }

  function Rank(c: Coin, sortBy: string): real {
    KeyRank(c, KeyOf(sortBy))
  }

  predicate SortedBy(s: seq<Coin>, sortBy: string) {
    forall i, j :: 0 <= i < j < |s| ==> Rank(s[i], sortBy) <= Rank(s[j], sortBy)
  }

  /** Places `c` before the first element it does not rank above, so that
      among equal ranks `c`, which came first, stays first. */
  function Insert(c: Coin, s: seq<Coin>, sortBy: string): (r: seq<Coin>)
    requires SortedBy(s, sortBy)
    ensures |r| == |s| + 1
    ensures r[0] == c || (|s| > 0 && r[0] == s[0])
    ensures forall x :: x in r <==> x == c || x in s
    ensures SortedBy(r, sortBy)
  {
    if s == [] || Rank(c, sortBy) <= Rank(s[0], sortBy) then [c] + s
    else
      var t := Insert(c, s[1..], sortBy);
      assert Rank(s[0], sortBy) <= Rank(t[0], sortBy);
      [s[0]] + t
  }

  /** The position at which `Insert` places `c`. */
  lemma {:induction false} InsertPosition(c: Coin, s: seq<Coin>, sortBy: string) returns (p: nat)
    requires SortedBy(s, sortBy)
    ensures p <= |s| && Insert(c, s, sortBy) == s[..p] + [c] + s[p..]
    ensures forall k :: 0 <= k < p ==> Rank(s[k], sortBy) < Rank(c, sortBy)
  {
    if s == [] || Rank(c, sortBy) <= Rank(s[0], sortBy) {
      p := 0;
      assert s[..0] == [] && s[0..] == s;
    } else {
      var t := s[1..];
      var q := InsertPosition(c, t, sortBy);
      p := q + 1;
      assert Insert(c, s, sortBy) == [s[0]] + Insert(c, t, sortBy);
      assert s[..p] == [s[0]] + t[..q];
      assert s[p..] == t[q..];
      forall k | 0 < k < p ensures Rank(s[k], sortBy) < Rank(c, sortBy) {
        assert s[k] == t[k - 1];
      }
    }
  }

  /** Inserting splices `c` in after exactly the elements that rank
      strictly below it, so it goes ahead of every element of equal rank. */
  lemma InsertSplices(c: Coin, s: seq<Coin>, sortBy: string)
    requires SortedBy(s, sortBy)
    ensures exists p :: 0 <= p <= |s| && Insert(c, s, sortBy) == s[..p] + [c] + s[p..]
              && (forall k :: 0 <= k < p ==> Rank(s[k], sortBy) < Rank(c, sortBy))
              && (p < |s| ==> Rank(c, sortBy) <= Rank(s[p], sortBy))
  {
    var p := InsertPosition(c, s, sortBy);
    if p < |s| {
      var r := Insert(c, s, sortBy);
      assert r[p] == c && r[p + 1] == s[p];
    }
  }

  /** Inserting adds exactly one occurrence of `c`. */
  lemma {:induction false} InsertCounts(c: Coin, s: seq<Coin>, sortBy: string)
    requires SortedBy(s, sortBy)
    ensures multiset(Insert(c, s, sortBy)) == multiset(s) + multiset{c}
  {
    if s != [] && Rank(c, sortBy) > Rank(s[0], sortBy) {
      InsertCounts(c, s[1..], sortBy);
      HeadMultiset(s);
    }
  }

  /** `Array.prototype.sort` with a rank comparator. The sort is stable
      (ECMAScript 2019 requires it), which an insertion sort reproduces. */
  function SortBy(s: seq<Coin>, sortBy: string): (r: seq<Coin>)
    ensures |r| == |s|
    ensures SortedBy(r, sortBy)
  {
    if s == [] then [] else Insert(s[0], SortBy(s[1..], sortBy), sortBy)
  }

  /** Sorting is a permutation of its input. */
  lemma {:induction false} SortByPermutes(s: seq<Coin>, sortBy: string)
    ensures multiset(SortBy(s, sortBy)) == multiset(s)
  {
    if s != [] {
      var rest := SortBy(s[1..], sortBy);
      SortByPermutes(s[1..], sortBy);
      InsertCounts(s[0], rest, sortBy);
      HeadMultiset(s);
    }
  }

  /** The test for one rank value under `sortBy`. */
  function HasRank(sortBy: string, v: real): Coin -> bool {
    c => Rank(c, sortBy) == v
  }

  /** Inserting `c` puts it ahead of the coins that share its rank. */
  lemma InsertWithRank(c: Coin, s: seq<Coin>, sortBy: string, v: real)
    requires SortedBy(s, sortBy)
    ensures Filter(Insert(c, s, sortBy), HasRank(sortBy, v))
            == (if Rank(c, sortBy) == v then [c] else []) + Filter(s, HasRank(sortBy, v))
  {
    var keep := HasRank(sortBy, v);
    var p := InsertPosition(c, s, sortBy);
    var lo, hi := s[..p], s[p..];
    TakeDrop(s, p);
    BelowNotSameRank(lo, c, sortBy, v);
    FilterSpliceFront(lo, c, hi, keep);
    assert keep(c) == (Rank(c, sortBy) == v);
    assert Filter(Insert(c, s, sortBy), keep) == (if keep(c) then [c] else []) + Filter(s, keep);
  }

  /** A coin never shares its rank with coins that rank below it. */
  lemma BelowNotSameRank(lo: seq<Coin>, c: Coin, sortBy: string, v: real)
    requires forall k :: 0 <= k < |lo| ==> Rank(lo[k], sortBy) < Rank(c, sortBy)
    ensures forall k :: 0 <= k < |lo| ==> !(HasRank(sortBy, v)(c) && HasRank(sortBy, v)(lo[k]))
  {
  }

  /** The sort is stable: the coins of any one rank come out in the order
      they went in. */
  lemma {:induction false} SortByStable(s: seq<Coin>, sortBy: string, v: real)
    ensures Filter(SortBy(s, sortBy), HasRank(sortBy, v)) == Filter(s, HasRank(sortBy, v))
  {
    if s != [] {
      SortByStable(s[1..], sortBy, v);
      InsertWithRank(s[0], SortBy(s[1..], sortBy), sortBy, v);
    }
  }

  /** "price_low" is ascending by price, "price_high" descending. */
  lemma {:induction false} PriceOrders(s: seq<Coin>, i: nat, j: nat)
    requires i < j < |s|
    ensures SortBy(s, "price_low")[i].currentPrice.GetOr(0.0) <= SortBy(s, "price_low")[j].currentPrice.GetOr(0.0)
    ensures SortBy(s, "price_high")[i].currentPrice.GetOr(0.0) >= SortBy(s, "price_high")[j].currentPrice.GetOr(0.0)
  {
    var lo, hi := SortBy(s, "price_low"), SortBy(s, "price_high");
    assert Rank(lo[i], "price_low") <= Rank(lo[j], "price_low");
    assert Rank(hi[i], "price_high") <= Rank(hi[j], "price_high");
  }

  /** An unknown sort option (comparator always 0) keeps the order. */
  lemma {:induction false} UnknownSortKeepsOrder(s: seq<Coin>, sortBy: string)
    requires sortBy !in {"newest", "price_high", "price_low", "change_high", "volume"}
    ensures SortBy(s, sortBy) == s
  {
    if s != [] {
      UnknownSortKeepsOrder(s[1..], sortBy);
      assert Rank(s[0], sortBy) == 0.0;
      if s[1..] != [] {
        assert Rank(s[1..][0], sortBy) == 0.0;
      }
      assert s == [s[0]] + s[1..];
    }
  }

  // ---------------------------------------------------------------------
  // De-duplication with `Map` semantics

  function Ids(s: seq<Coin>): (r: seq<string>)
    ensures |r| == |s| && forall i :: 0 <= i < |s| ==> r[i] == s[i].id
  {
    seq(|s|, i requires 0 <= i < |s| => s[i].id)
  }

  /** Position of the first coin with this id, or `|s|` when there is none. */
  function FirstIndex(s: seq<Coin>, id: string): (p: nat)
    ensures p <= |s|
    ensures p < |s| ==> s[p].id == id
    ensures forall q :: 0 <= q < p ==> s[q].id != id
  {
    if s == [] then 0
    else if s[0].id == id then 0
    else 1 + FirstIndex(s[1..], id)
  }

  /** Position of the last coin with this id, or -1 when there is none. */
  function LastIndex(s: seq<Coin>, id: string): (p: int)
    ensures -1 <= p < |s|
    ensures p >= 0 ==> s[p].id == id
    ensures forall q :: p < q < |s| ==> s[q].id != id
  {
    if s == [] then -1
    else if s[|s| - 1].id == id then |s| - 1
    else LastIndex(s[..|s| - 1], id)
  }

  /** `map.set(c.id, c)`: overwrites the entry in place, or appends it. */
  function Upsert(acc: seq<Coin>, c: Coin): seq<Coin> {
    var k := FirstIndex(acc, c.id);
    if k == |acc| then acc + [c] else acc[k := c]
  }

  /** `Array.from(new Map(s.map(c => [c.id, c])).values())`. */
  function Dedup(s: seq<Coin>): (r: seq<Coin>)
    ensures |r| <= |s|
    ensures r == [] <==> s == []
  {
    if s == [] then [] else Upsert(Dedup(s[..|s| - 1]), s[|s| - 1])
  }

  /** No coin before position `k` has the id of the coin at `k`. */
  lemma FirstIndexAt(s: seq<Coin>, k: nat)
    requires k < |s|
    ensures FirstIndex(s, s[k].id) <= k
  {
  }

  /** Appending a coin does not move an id's first occurrence. */
  lemma FirstIndexExtend(s: seq<Coin>, c: Coin, id: string)
    requires FirstIndex(s, id) < |s|
    ensures FirstIndex(s + [c], id) == FirstIndex(s, id)
  {
    var p := FirstIndex(s, id);
    assert (s + [c])[p] == s[p];
  }

  /** Appending a coin with another id does not move an id's last occurrence. */
  lemma LastIndexExtend(s: seq<Coin>, c: Coin, id: string)
    requires c.id != id && LastIndex(s, id) >= 0
    ensures LastIndex(s + [c], id) == LastIndex(s, id)
  {
    var p := LastIndex(s, id);
    assert (s + [c])[p] == s[p];
  }

  /** Two lists with the same ids agree on first positions. */
  lemma FirstIndexSameIds(s: seq<Coin>, t: seq<Coin>, id: string)
    requires Ids(s) == Ids(t)
    ensures FirstIndex(s, id) == FirstIndex(t, id)
  {
    assert |s| == |Ids(s)| == |t|;
  }

  lemma IdsAppend(s: seq<Coin>, c: Coin)
    ensures Ids(s + [c]) == Ids(s) + [c.id]
  {
    assert forall i :: 0 <= i < |s| ==> (s + [c])[i] == s[i];
  }

  /** An id occurs in a list exactly when it has a first position there. */
  lemma InIds(s: seq<Coin>, id: string)
    ensures id in Ids(s) <==> FirstIndex(s, id) < |s|
  {
    if FirstIndex(s, id) < |s| {
      assert Ids(s)[FirstIndex(s, id)] == id;
    }
  }

  /** De-duplication keeps exactly the input's ids, each once. */
  lemma {:induction false} DedupIds(s: seq<Coin>)
    ensures NoDuplicates(Ids(Dedup(s)))
    ensures forall id :: id in Ids(Dedup(s)) <==> id in Ids(s)
  {
    if s != [] {
      var init, c := s[..|s| - 1], s[|s| - 1];
      assert s == init + [c];
      var prev := Dedup(init);
      DedupIds(init);
      IdsAppend(init, c);
      InIds(prev, c.id);
      var k := FirstIndex(prev, c.id);
      if k == |prev| {
        assert Dedup(s) == prev + [c];
        IdsAppend(prev, c);
      } else {
        assert Dedup(s) == prev[k := c];
        assert Ids(prev[k := c]) == Ids(prev);
      }
    }
  }

  /** The value kept for an id is its last occurrence (later `set`s win). */
  lemma {:induction false} DedupKeepsLast(s: seq<Coin>)
    ensures forall k :: 0 <= k < |Dedup(s)| ==>
              LastIndex(s, Dedup(s)[k].id) >= 0 && Dedup(s)[k] == s[LastIndex(s, Dedup(s)[k].id)]
  {
    if s != [] {
      var n := |s|;
      var init, c := s[..n - 1], s[n - 1];
      assert s == init + [c];
      var prev := Dedup(init);
      DedupKeepsLast(init);
      DedupIds(init);
      var r := Dedup(s);
      var k := FirstIndex(prev, c.id);
      assert LastIndex(s, c.id) == n - 1;
      forall kk | 0 <= kk < |r|
        ensures LastIndex(s, r[kk].id) >= 0 && r[kk] == s[LastIndex(s, r[kk].id)]
      {
        if kk < |prev| && kk != k {
          assert r[kk] == prev[kk];
          assert prev[kk].id != c.id by {
            if k < |prev| {
              assert Ids(prev)[kk] != Ids(prev)[k];
            }
          }
          LastIndexExtend(init, c, r[kk].id);
          assert s[LastIndex(init, r[kk].id)] == init[LastIndex(init, r[kk].id)];
        } else {
          assert r[kk] == c;
        }
      }
    }
  }

  /** Appending a coin whose id is new keeps the entries in the order of
      their ids' first occurrences. */
  lemma AppendFirstOrder(init: seq<Coin>, c: Coin, prev: seq<Coin>, s: seq<Coin>, r: seq<Coin>)
    requires s == init + [c] && r == prev + [c]
    requires forall i, j :: 0 <= i < j < |prev| ==> FirstIndex(init, prev[i].id) < FirstIndex(init, prev[j].id)
    requires forall k :: 0 <= k < |prev| ==> FirstIndex(init, prev[k].id) < |init|
    requires FirstIndex(init, c.id) == |init|
    ensures forall i, j :: 0 <= i < j < |r| ==> FirstIndex(s, r[i].id) < FirstIndex(s, r[j].id)
  {
    forall kk | 0 <= kk < |prev|
      ensures FirstIndex(s, r[kk].id) == FirstIndex(init, prev[kk].id)
    {
      assert r[kk] == prev[kk];
      FirstIndexExtend(init, c, prev[kk].id);
    }
    assert FirstIndex(s, c.id) == |init| by {
      FirstIndexAt(s, |init|);
    }
  }

  /** Overwriting the entry of an id already present keeps the order. */
  lemma ReplaceFirstOrder(init: seq<Coin>, c: Coin, prev: seq<Coin>, k: nat, s: seq<Coin>, r: seq<Coin>)
    requires k < |prev| && prev[k].id == c.id
    requires s == init + [c] && r == prev[k := c]
    requires forall i, j :: 0 <= i < j < |prev| ==> FirstIndex(init, prev[i].id) < FirstIndex(init, prev[j].id)
    requires forall kk :: 0 <= kk < |prev| ==> FirstIndex(init, prev[kk].id) < |init|
    ensures forall i, j :: 0 <= i < j < |r| ==> FirstIndex(s, r[i].id) < FirstIndex(s, r[j].id)
  {
    forall kk | 0 <= kk < |prev|
      ensures FirstIndex(s, r[kk].id) == FirstIndex(init, prev[kk].id)
    {
      assert r[kk].id == prev[kk].id;
      FirstIndexExtend(init, c, prev[kk].id);
    }
  }

  /** Each id sits where it first occurred: the output follows the order of
      first occurrences in the input. */
  lemma {:induction false} DedupFirstOrder(s: seq<Coin>)
    ensures forall i, j :: 0 <= i < j < |Dedup(s)| ==>
              FirstIndex(s, Dedup(s)[i].id) < FirstIndex(s, Dedup(s)[j].id)
  {
    if s != [] {
      var init, c := s[..|s| - 1], s[|s| - 1];
      assert s == init + [c];
      var prev := Dedup(init);
      DedupFirstOrder(init);
      DedupIds(init);
      forall kk | 0 <= kk < |prev| ensures FirstIndex(init, prev[kk].id) < |init| {
        assert Ids(prev)[kk] == prev[kk].id;
        InIds(init, prev[kk].id);
      }
      var k := FirstIndex(prev, c.id);
      InIds(prev, c.id);
      if k == |prev| {
        InIds(init, c.id);
        AppendFirstOrder(init, c, prev, s, Dedup(s));
      } else {
        ReplaceFirstOrder(init, c, prev, k, s, Dedup(s));
      }
    }
  }

  /** The list `fetchNewListings` resolves to. */
  function PostProcess(pages: seq<seq<Coin>>): (r: seq<Coin>)
    ensures |r| <= |Flatten(pages)|
    ensures (exists i :: 0 <= i < |Flatten(pages)| && Listed(Flatten(pages)[i])) ==> r != []
  {
    Dedup(SortBy(KeepListed(Flatten(pages)), "newest"))
  }

  /** De-duplication keeps only coins of its input. */
  lemma DedupMembers(s: seq<Coin>)
    ensures forall k :: 0 <= k < |Dedup(s)| ==> Dedup(s)[k] in s
  {
    DedupKeepsLast(s);
  }

  /** So a property every input coin has holds of every output coin. */
  lemma DedupListed(s: seq<Coin>)
    requires forall k :: 0 <= k < |s| ==> Listed(s[k])
    ensures forall k :: 0 <= k < |Dedup(s)| ==> Listed(Dedup(s)[k])
  {
    DedupMembers(s);
  }

  /** Sorting neither adds nor drops a coin. */
  lemma SortBySameMembers(s: seq<Coin>, sortBy: string)
    ensures forall x :: x in SortBy(s, sortBy) <==> x in s
  {
    SortByPermutes(s, sortBy);
    forall x ensures x in SortBy(s, sortBy) <==> x in s {
      assert x in SortBy(s, sortBy) <==> x in multiset(SortBy(s, sortBy));
    }
  }

  /** Every coin kept has a date and a positive price, no id is listed
      twice, every listed coin that was fetched is represented, and every
      coin returned is one that was fetched. */
  lemma PostProcessSound(pages: seq<seq<Coin>>)
    ensures forall k :: 0 <= k < |PostProcess(pages)| ==> Listed(PostProcess(pages)[k])
    ensures NoDuplicates(Ids(PostProcess(pages)))
    ensures forall c :: c in Flatten(pages) && Listed(c) ==> c.id in Ids(PostProcess(pages))
    ensures forall k :: 0 <= k < |PostProcess(pages)| ==> PostProcess(pages)[k] in Flatten(pages)
  {
    var kept := KeepListed(Flatten(pages));
    var sorted := SortBy(kept, "newest");
    var r := Dedup(sorted);
    SortBySameMembers(kept, "newest");
    DedupMembers(sorted);
    DedupIds(sorted);
    forall k | 0 <= k < |r| ensures Listed(r[k]) && r[k] in Flatten(pages) {
      assert r[k] in kept;
    }
    forall c | c in Flatten(pages) && Listed(c)
      ensures c.id in Ids(r)
    {
      assert c in sorted;
      var i :| 0 <= i < |sorted| && sorted[i] == c;
      assert Ids(sorted)[i] == c.id;
    }
  }

  // ---------------------------------------------------------------------
  // Pagination

  /** `Math.ceil(n / itemsPerPage)`: the fewest pages that hold `n` items. */
  function TotalPages(n: nat): (r: nat)
    ensures ItemsPerPage * r >= n
    ensures r > 0 ==> ItemsPerPage * (r - 1) < n
  {
    (n + ItemsPerPage - 1) / ItemsPerPage
  }

  /** `s.slice(start, end)` for non-negative bounds: both are clamped to
      the length, and a range that ends before it starts is empty. */
  function Slice(s: seq<Coin>, start: nat, end: nat): (r: seq<Coin>)
    ensures |r| == if start >= |s| || end <= start then 0
                   else (if end <= |s| then end else |s|) - start
    ensures forall i :: 0 <= i < |r| ==> r[i] == s[start + i]
  {
    var from := if start <= |s| then start else |s|;
    var to := if end <= |s| then end else |s|;
    if to <= from then [] else s[from..to]
  }

  /** `currentCoins`: the slice of the sorted list shown on `page`. */
  function PageItems(s: seq<Coin>, page: int): (r: seq<Coin>)
    requires page >= 1
    ensures |r| <= ItemsPerPage
    ensures page <= TotalPages(|s|) ==> |r| > 0
    ensures page > TotalPages(|s|) ==> r == []
  {
    Slice(s, (page - 1) * ItemsPerPage, page * ItemsPerPage)
  }

  /** The rank column: `(currentPage - 1) * itemsPerPage + index + 1`. */
  function RowRank(page: int, index: int): (r: int)
    ensures page >= 1 && 0 <= index < ItemsPerPage ==> (page - 1) * ItemsPerPage < r <= page * ItemsPerPage
  {
    (page - 1) * ItemsPerPage + index + 1
  }

  /** The rank shown beside a row is that coin's 1-based position in the
      whole sorted list. */
  lemma RowRankIsPosition(s: seq<Coin>, page: int, i: nat)
    requires page >= 1 && i < |PageItems(s, page)|
    ensures 1 <= RowRank(page, i) <= |s|
    ensures PageItems(s, page)[i] == s[RowRank(page, i) - 1]
  {
  }

  /** Pages `1..k` one after another. */
  function FirstPages(s: seq<Coin>, k: nat): seq<Coin> {
    if k == 0 then [] else FirstPages(s, k - 1) + PageItems(s, k)
  }

  /** Page `k` is the stretch of the list between the clamped bounds of
      pages before it and pages up to it. */
  lemma PageIsSlice(s: seq<Coin>, k: nat, lo: nat, hi: nat)
    requires k >= 1
    requires lo == if ItemsPerPage * (k - 1) <= |s| then ItemsPerPage * (k - 1) else |s|
    requires hi == if ItemsPerPage * k <= |s| then ItemsPerPage * k else |s|
    ensures lo <= hi && PageItems(s, k) == s[lo..hi]
  {
    var page := PageItems(s, k);
    assert |page| == hi - lo;
    forall i | 0 <= i < |page| ensures page[i] == s[lo..hi][i] {
    }
  }

  lemma PrefixSplit(s: seq<Coin>, lo: nat, hi: nat)
    requires lo <= hi <= |s|
    ensures s[..lo] + s[lo..hi] == s[..hi]
  {
  }

  /** The first `k` pages are the first `15 k` items. */
  lemma {:induction false} FirstPagesArePrefix(s: seq<Coin>, k: nat)
    ensures FirstPages(s, k) == s[..if ItemsPerPage * k <= |s| then ItemsPerPage * k else |s|]
  {
    if k > 0 {
      var lo := if ItemsPerPage * (k - 1) <= |s| then ItemsPerPage * (k - 1) else |s|;
      var hi := if ItemsPerPage * k <= |s| then ItemsPerPage * k else |s|;
      FirstPagesArePrefix(s, k - 1);
      PageIsSlice(s, k, lo, hi);
      PrefixSplit(s, lo, hi);
      assert FirstPages(s, k) == s[..lo] + s[lo..hi];
    }
  }

  /** The pages `1..totalPages` together are exactly the sorted list. */
  lemma PagesCoverList(s: seq<Coin>)
    ensures FirstPages(s, TotalPages(|s|)) == s
  {
    FirstPagesArePrefix(s, TotalPages(|s|));
  }

  /** The page-number buttons: every page when there are at most five,
      otherwise five consecutive pages: the first five near the start, the
      last five near (or past) the end, and the current page centred
      between them. */
  method PageNumbers(currentPage: int, totalPages: nat) returns (pages: seq<int>)
    requires currentPage >= 1
    ensures totalPages <= 5 ==> |pages| == totalPages && forall i :: 0 <= i < totalPages ==> pages[i] == i + 1
    ensures totalPages > 5 ==> |pages| == 5 && 1 <= pages[0] && pages[4] <= totalPages
    ensures totalPages > 5 ==> forall i :: 0 <= i < 5 ==> pages[i] == pages[0] + i
    ensures totalPages > 5 && currentPage <= totalPages ==> currentPage in pages
    ensures 3 < currentPage < totalPages - 2 ==> pages[2] == currentPage
    ensures totalPages > 5 && currentPage <= 3 ==> pages[0] == 1
    ensures totalPages > 5 && currentPage >= totalPages - 2 ==> pages[0] == totalPages - 4
  {
    if totalPages <= 5 {
      pages := seq(totalPages, i => i + 1);
      return;
    }
    pages := [];
    var from := if currentPage <= 3 then 1
                else if currentPage >= totalPages - 2 then totalPages - 4
                else currentPage - 2;
    if currentPage <= 3 {
      var i := 1;
      while i <= 5
        invariant 1 <= i <= 6
        invariant |pages| == i - 1 && forall k :: 0 <= k < |pages| ==> pages[k] == 1 + k
      {
        pages := pages + [i];
        i := i + 1;
      }
    } else if currentPage >= totalPages - 2 {
      var i := totalPages - 4;
      while i <= totalPages
        invariant totalPages - 4 <= i <= totalPages + 1
        invariant |pages| == i - (totalPages - 4)
        invariant forall k :: 0 <= k < |pages| ==> pages[k] == totalPages - 4 + k
      {
        pages := pages + [i];
        i := i + 1;
      }
    } else {
      var i := currentPage - 2;
      while i <= currentPage + 2
        invariant currentPage - 2 <= i <= currentPage + 3
        invariant |pages| == i - (currentPage - 2)
        invariant forall k :: 0 <= k < |pages| ==> pages[k] == currentPage - 2 + k
      {
        pages := pages + [i];
        i := i + 1;
      }
    }
    if currentPage <= totalPages {
      assert pages[currentPage - from] == currentPage;
    }
  }

  // ---------------------------------------------------------------------
  // Listing dates

  /** What `formatDate` shows. The last bucket is the absolute date of
      `instant`, whose locale formatting is not modelled. */
  datatype DateLabel =
    | NotAvailable
    | Today
    | Yesterday
    | DaysAgo(days: int)
    | WeeksAgo(weeks: int)
    | MonthsAgo(months: int)
    | OnDate(instant: int)

  /** `Math.floor((now - date) / (1000 * 60 * 60 * 24))`. */
  function DiffDays(nowMs: int, dateMs: int): (d: int)
    ensures d * MsPerDay <= nowMs - dateMs < d * MsPerDay + MsPerDay
  {
    (nowMs - dateMs) / MsPerDay
  }

  /** `formatDate(atl_date)` at the instant `nowMs`, where `dateMs` is the
      instant the date text denotes. */
  function FormatDate(atlDate: string, dateMs: int, nowMs: int): (r: DateLabel)
    ensures r == NotAvailable <==> atlDate == ""
    ensures r.DaysAgo? ==> r.days == DiffDays(nowMs, dateMs) && r.days < 7 && r.days != 0 && r.days != 1
    ensures r.WeeksAgo? ==> 1 <= r.weeks <= 4 && 7 <= DiffDays(nowMs, dateMs) < 30
    ensures r.WeeksAgo? ==> 7 * r.weeks <= DiffDays(nowMs, dateMs) < 7 * r.weeks + 7
    ensures r.MonthsAgo? ==> 1 <= r.months <= 12 && 30 <= DiffDays(nowMs, dateMs) < 365
    ensures r.MonthsAgo? ==> 30 * r.months <= DiffDays(nowMs, dateMs) < 30 * r.months + 30
    ensures r.OnDate? ==> DiffDays(nowMs, dateMs) >= 365 && r.instant == dateMs
  {
    if atlDate == "" then NotAvailable
    else
      var d := DiffDays(nowMs, dateMs);
      if d == 0 then Today
      else if d == 1 then Yesterday
      else if d < 7 then DaysAgo(d)
      else if d < 30 then WeeksAgo(d / 7)
      else if d < 365 then MonthsAgo(d / 30)
      else OnDate(dateMs)
  }

  /** The bucket is fixed by the day difference alone: each range of days
      gets exactly one kind of label. */
  lemma FormatDateBuckets(atlDate: string, dateMs: int, nowMs: int)
    requires atlDate != ""
    ensures var d := DiffDays(nowMs, dateMs);
            var r := FormatDate(atlDate, dateMs, nowMs);
            (r == Today <==> d == 0) && (r == Yesterday <==> d == 1)
            && (r.DaysAgo? <==> d < 7 && d != 0 && d != 1)
            && (r.WeeksAgo? <==> 7 <= d < 30) && (r.MonthsAgo? <==> 30 <= d < 365)
            && (r.OnDate? <==> d >= 365)
  {
  }

  // ---------------------------------------------------------------------
  // Page state

  /** The page's state: the fetched list, the current page and the sort. */
  class ListingsView {
    /** `newCoins`: the query's data, `[]` until it arrives. */
    var coins: seq<Coin>
    var currentPage: int
    var sortBy: string

    ghost predicate Valid()
      reads this
    {
      currentPage >= 1
    }

    constructor ()
      ensures Valid() && coins == [] && currentPage == 1 && sortBy == "newest"
    {
      coins, currentPage, sortBy := [], 1, "newest";
    }

    /** `sortedCoins`. */
    function SortedCoins(): (r: seq<Coin>)
      reads this
      ensures SortedBy(r, sortBy) && multiset(r) == multiset(coins)
    {
      SortByPermutes(coins, sortBy);
      SortBy(coins, sortBy)
    }

    /** `currentCoins`. */
    function CurrentCoins(): (r: seq<Coin>)
      reads this
      requires Valid()
      ensures |r| <= ItemsPerPage
      ensures currentPage <= TotalPages(|coins|) ==> |r| > 0
      ensures currentPage > TotalPages(|coins|) ==> r == []
    {
      PageItems(SortedCoins(), currentPage)
    }

    /** `handlePageChange(newPage)`: moves only to an existing page. */
    method HandlePageChange(newPage: int)
      requires Valid()
      modifies this
      ensures Valid() && coins == old(coins) && sortBy == old(sortBy)
      ensures 1 <= newPage <= TotalPages(|coins|) ==> currentPage == newPage
      ensures !(1 <= newPage <= TotalPages(|coins|)) ==> currentPage == old(currentPage)
    {
      if newPage >= 1 && newPage <= TotalPages(|coins|) {
        currentPage := newPage;
      }
    }

    /** Clicking a sort option: sets it and returns to the first page. */
    method SelectSort(key: string)
      modifies this
      ensures Valid() && coins == old(coins) && sortBy == key && currentPage == 1
    {
      sortBy := key;
      currentPage := 1;
    }

    /** New query data (another currency): the page number is kept, so it
        may now lie past the last page, which then shows no rows. */
    method ReceiveCoins(fetched: seq<Coin>)
      requires Valid()
      modifies this
      ensures Valid() && coins == fetched && sortBy == old(sortBy) && currentPage == old(currentPage)
      ensures currentPage > TotalPages(|coins|) ==> CurrentCoins() == []
    {
      coins := fetched;
    }
  }
}
