/** The main process's catalogue handlers (main.js): the song records
    loaded from db.json, the paginated and genre-filtered `get-songs`
    query, the `get-genres` list and the `get-background-video` pick. */
module Catalog {
  import opened Wrappers
  import opened Order

  /** One db.json record. */
  datatype Song = Song(id: string, title: string, artist: string, genre: string, path: string)

  /** The catalogue kept for the life of the process: the parsed db.json,
      or empty when the file is missing or does not parse (main.js:11-21). */
  function LoadCatalogue(parsed: Option<seq<Song>>): (db: seq<Song>)
    ensures parsed.None? ==> db == []
    ensures parsed.Some? ==> db == parsed.value
  {
    if parsed.Some? then parsed.value else []
  }

  function IdKey(s: Song): string { s.id }

  function Min(a: int, b: int): int { if a < b then a else b }

  /** i moved into [0, n]. */
  function Clamp(i: int, n: nat): (k: nat)
    ensures k <= n
  {
    if i < 0 then 0 else if i < n then i else n
  }

  function Self(x: string): string { x }

  // ---------------------------------------------------------------------
  // JavaScript helpers: Array.prototype.slice and Math.ceil(n / d)
  // ---------------------------------------------------------------------

  /** How `slice` reads one of its bounds: a negative index counts from
      the end, and every index is clamped to [0, n]. */
  function SliceIndex(i: int, n: nat): (k: nat)
    ensures k <= n
    ensures 0 <= i <= n ==> k == i
  {
    if i < 0 then (if n + i < 0 then 0 else n + i) else if i > n then n else i
  }

  /** n * limit, by repeated addition, so that reasoning page by page
      stays linear. */
  function Times(n: nat, limit: nat): nat
  {
    if n == 0 then 0 else Times(n - 1, limit) + limit
  }

  lemma {:induction false} TimesIsProduct(n: nat, limit: nat)
    ensures Times(n, limit) == n * limit
  {
    if n > 0 {
      TimesIsProduct(n - 1, limit);
      assert n * limit == (n - 1) * limit + limit;
    }
  }

  lemma {:induction false} TimesMonotone(m: nat, n: nat, limit: nat)
    requires m <= n
    ensures Times(m, limit) <= Times(n, limit)
  {
    if m < n {
      TimesMonotone(m, n - 1, limit);
    }
  }

  /** The first index of page `page`: (page - 1) * limit (main.js:89). */
  function PageStart(page: int, limit: nat): int
  {
    if page >= 1 then Times(page - 1, limit) else -(Times(1 - page, limit) as int)
  }

  /** PageStart is the product main.js computes, and the end index,
      page * limit, is one page further (main.js:89-90). */
  lemma PageStartIsProduct(page: int, limit: nat)
    ensures PageStart(page, limit) == (page - 1) * limit
    ensures page * limit == PageStart(page, limit) + limit
  {
    if page >= 1 {
      TimesIsProduct(page - 1, limit);
    } else {
      TimesIsProduct(1 - page, limit);
      assert -((1 - page) * limit) == (page - 1) * limit;
    }
    assert page * limit == (page - 1) * limit + limit;
  }

  /** `slice` with bounds that are not negative. */
  lemma SliceFromZero<T>(s: seq<T>, start: int, end: int)
    requires 0 <= start <= end
    ensures JsSlice(s, start, end) == if start < |s| then s[start..Clamp(end, |s|)] else []
  {
  }

  function JsSlice<T>(s: seq<T>, start: int, end: int): (r: seq<T>)
    ensures |r| <= |s|
    ensures start <= end ==> |r| <= end - start
  {
    var a, b := SliceIndex(start, |s|), SliceIndex(end, |s|);
    if a < b then s[a..b] else []
  }

  /** Math.ceil(n / d) for a whole n and a positive whole d, counted page
      by page so that no division reaches the solver. */
  function CeilDiv(n: nat, d: nat): nat
    requires d > 0
    decreases n
  {
    if n == 0 then 0 else if n <= d then 1 else 1 + CeilDiv(n - d, d)
  }

  lemma MulDistributes(a: int, b: int, d: int)
    ensures (a - b) * d == a * d - b * d
  {
  }

  lemma {:induction false} MulAtLeast(k: nat, d: nat)
    requires k >= 1
    ensures k * d >= d
  {
    if k > 1 {
      MulAtLeast(k - 1, d);
      assert k * d == (k - 1) * d + d;
    }
  }

  /** Euclidean division has one quotient. */
  lemma DivUnique(x: int, d: int, q: int, r: int)
    requires d > 0 && 0 <= r < d && x == q * d + r
    ensures x / d == q
  {
    var q', r' := x / d, x % d;
    MulDistributes(q, q', d);
    MulDistributes(q', q, d);
    if q' > q {
      MulAtLeast(q' - q, d);
    } else if q' < q {
      MulAtLeast(q - q', d);
    }
  }

  /** CeilDiv is the integer form of Math.ceil(n / d) that main.js uses. */
  lemma {:induction false} CeilDivIsDivision(n: nat, d: nat)
    requires d > 0
    ensures CeilDiv(n, d) == (n + d - 1) / d
    decreases n
  {
    if n == 0 {
      DivUnique(d - 1, d, 0, d - 1);
    } else if n <= d {
      DivUnique(n + d - 1, d, 1, n - 1);
    } else {
      CeilDivIsDivision(n - d, d);
      var q, r := (n - 1) / d, (n - 1) % d;
      assert n + d - 1 == (q + 1) * d + r;
      DivUnique(n + d - 1, d, q + 1, r);
    }
  }

  /** CeilDiv(n, d) pages of d items hold n items, and one page fewer does not. */
  lemma {:induction false} CeilDivIsCeiling(n: nat, d: nat)
    requires d > 0
    ensures n <= Times(CeilDiv(n, d), d)
    ensures CeilDiv(n, d) > 0 ==> Times(CeilDiv(n, d) - 1, d) < n
    ensures n == 0 <==> CeilDiv(n, d) == 0
    decreases n
  {
    if n > d {
      CeilDivIsCeiling(n - d, d);
      var q := CeilDiv(n - d, d);
      assert Times(q + 1, d) == Times(q, d) + d;
      assert Times(q, d) == Times(q - 1, d) + d;
    }
  }

  // ---------------------------------------------------------------------
  // get-songs (main.js:80-100)
  // ---------------------------------------------------------------------

  /** The songs of one genre, in their order. */
  function FilterGenre(s: seq<Song>, genre: string): (r: seq<Song>)
    ensures forall x :: x in r <==> x in s && x.genre == genre
    ensures |r| <= |s|
  {
    if s == [] then []
    else (if s[0].genre == genre then [s[0]] else []) + FilterGenre(s[1..], genre)
  }

  /** What `get-songs` pages through: the catalogue sorted by id, and
      then, when a genre is given, only that genre's songs. */
  function Listing(db: seq<Song>, genre: string): seq<Song>
  {
    var sorted := SortBy(db, IdKey);
    if genre != "" then FilterGenre(sorted, genre) else sorted
  }

  datatype SongsPage = SongsPage(totalSongs: nat, totalPages: nat, currentPage: int, songs: seq<Song>)

  /** One page of `limit` records out of `all`: the slice that starts
      after page-1 full pages, with the totals of `all`. */
  function Paginate(all: seq<Song>, page: int, limit: int): (r: SongsPage)
    requires limit > 0
    ensures |r.songs| <= limit
    ensures r.currentPage == page && r.totalSongs == |all|
  {
    var start := PageStart(page, limit);
    var end := start + limit;
    SongsPage(|all|, CeilDiv(|all|, limit), page, JsSlice(all, start, end))
  }

  /** The `get-songs` reply for one page of `limit` songs. The handler's
      defaults (page 1, limit 20, no genre) are the caller's to pass. */
  function GetSongs(db: seq<Song>, page: int, limit: int, genre: string): (r: SongsPage)
    requires limit > 0
    ensures |r.songs| <= limit
    ensures r.currentPage == page
  {
    Paginate(Listing(db, genre), page, limit)
  }

  // ---------------------------------------------------------------------
  // get-genres (main.js:102-105)
  // ---------------------------------------------------------------------

  /** The genre of every record, in catalogue order. */
  function GenreColumn(db: seq<Song>): (r: seq<string>)
    ensures |r| == |db|
    ensures forall i :: 0 <= i < |db| ==> r[i] == db[i].genre
  {
    seq(|db|, i requires 0 <= i < |db| => db[i].genre)
  }

  ghost predicate Distinct<T>(s: seq<T>) {
    forall i, j :: 0 <= i < j < |s| ==> s[i] != s[j]
  }

  /** What `new Set(...)` keeps: each value once, at its first occurrence. */
  function Dedup(s: seq<string>): (r: seq<string>)
    ensures forall x :: x in r <==> x in s
    ensures Distinct(r)
  {
    if s == [] then []
    else
      var rest := Dedup(s[..|s| - 1]);
      assert s == s[..|s| - 1] + [s[|s| - 1]];
      if s[|s| - 1] in rest then rest else rest + [s[|s| - 1]]
  }

  function Genres(db: seq<Song>): seq<string>
  {
    SortBy(Dedup(GenreColumn(db)), Self)
  }

  // ---------------------------------------------------------------------
  // get-background-video and get-promo-video (main.js:23-28, 111-117)
  // ---------------------------------------------------------------------

  datatype Video = Video(id: string, path: string)

  const BackgroundVideos: seq<Video> := [Video("bg1", "1.mp4"), Video("bg2", "2.mp4"), Video("bg3", "3.mp4")]

  const PromoVideo: string := "rockola.mp4"

  /** The clip at index floor(random * 3), for a `Math.random()` value. */
  function PickBackground(random: real): (v: Video)
    requires 0.0 <= random < 1.0
    ensures v in BackgroundVideos
  {
    var k := (random * 3.0).Floor;
    assert 0 <= k < 3 by {
      assert 0.0 <= random * 3.0 < 3.0;
    }
    BackgroundVideos[k]
  }

  // ---------------------------------------------------------------------
  // Properties of get-songs
  // ---------------------------------------------------------------------

  lemma {:induction false} FilterKeepsOrder(s: seq<Song>, genre: string)
    requires SortedBy(s, IdKey)
    ensures SortedBy(FilterGenre(s, genre), IdKey)
  {
    if s != [] {
      FilterKeepsOrder(s[1..], genre);
      var rest := FilterGenre(s[1..], genre);
      forall k | 0 <= k < |rest| ensures LexLe(s[0].id, rest[k].id) {
        assert rest[k] in s[1..];
        var m :| 0 <= m < |s[1..]| && s[1..][m] == rest[k];
        assert s[m + 1] == rest[k];
      }
    }
  }

  /** Every count of a song in the filtered list is its count in the
      list when it has the genre, and zero otherwise. */
  lemma {:induction false} FilterCounts(s: seq<Song>, genre: string, x: Song)
    ensures multiset(FilterGenre(s, genre))[x] == if x.genre == genre then multiset(s)[x] else 0
  {
    if s != [] {
      var head, rest := if s[0].genre == genre then [s[0]] else [], s[1..];
      FilterCounts(rest, genre, x);
      assert s == [s[0]] + rest;
      assert multiset(s) == multiset([s[0]]) + multiset(rest);
      assert multiset(FilterGenre(s, genre)) == multiset(head) + multiset(FilterGenre(rest, genre));
    }
  }

  /** Filtering two permutations of each other gives permutations of each other. */
  lemma FilterPermutation(a: seq<Song>, b: seq<Song>, genre: string)
    requires multiset(a) == multiset(b)
    ensures multiset(FilterGenre(a, genre)) == multiset(FilterGenre(b, genre))
  {
    forall x ensures multiset(FilterGenre(a, genre))[x] == multiset(FilterGenre(b, genre))[x] {
      FilterCounts(a, genre, x);
      FilterCounts(b, genre, x);
    }
  }

  /** The listing is the catalogue (or the genre's part of it) sorted by
      id: in order, with every record once and nothing else. */
  lemma ListingIsSortedPermutation(db: seq<Song>, genre: string)
    ensures SortedBy(Listing(db, genre), IdKey)
    ensures genre != "" ==> multiset(Listing(db, genre)) == multiset(FilterGenre(db, genre))
    ensures genre == "" ==> multiset(Listing(db, genre)) == multiset(db)
  {
    SortBySorted(db, IdKey);
    if genre != "" {
      FilterKeepsOrder(SortBy(db, IdKey), genre);
      FilterPermutation(SortBy(db, IdKey), db, genre);
    }
  }

  /** The page is sorted by id (main.js:81). */
  lemma GetSongsSorted(db: seq<Song>, page: int, limit: int, genre: string)
    requires limit > 0
    ensures SortedBy(GetSongs(db, page, limit, genre).songs, IdKey)
  {
    var all := Listing(db, genre);
    ListingIsSortedPermutation(db, genre);
    var start := PageStart(page, limit);
    var a, b := SliceIndex(start, |all|), SliceIndex(start + limit, |all|);
    if a < b {
      SliceSorted(all, a, b, IdKey);
    }
  }

  /** Page `page` is the part [(page-1)*limit, page*limit) of the listing
      that exists, and the totals count the whole listing (main.js:82-92). */
  lemma GetSongsIsSlice(db: seq<Song>, page: int, limit: int, genre: string)
    requires limit > 0 && page >= 1
    ensures var r, all := GetSongs(db, page, limit, genre), Listing(db, genre);
      var start := PageStart(page, limit);
      && r.totalSongs == |all|
      && r.songs == (if 0 <= start < |all| then all[start..Clamp(start + limit, |all|)] else [])
  {
    var start := PageStart(page, limit);
    SliceFromZero(Listing(db, genre), start, start + limit);
  }

  /** With a genre, every song on the page has that genre and the total is
      the number of that genre's records; without one it is the number of
      all records (main.js:82-87). */
  lemma GetSongsGenre(db: seq<Song>, page: int, limit: int, genre: string)
    requires limit > 0
    ensures var r := GetSongs(db, page, limit, genre);
      && (genre != "" ==> (forall x :: x in r.songs ==> x.genre == genre) && r.totalSongs == |FilterGenre(db, genre)|)
      && (genre == "" ==> r.totalSongs == |db|)
  {
    ListingIsSortedPermutation(db, genre);
    var all := Listing(db, genre);
    var r := GetSongs(db, page, limit, genre);
    if genre != "" {
      assert |all| == |multiset(all)| == |multiset(FilterGenre(db, genre))|;
      forall x | x in r.songs ensures x.genre == genre {
        assert x in all;
      }
    } else {
      assert |all| == |multiset(all)| == |multiset(db)|;
    }
  }

  lemma {:induction false} NoSuchGenre(s: seq<Song>, genre: string)
    requires forall x :: x in s ==> x.genre != genre
    ensures FilterGenre(s, genre) == []
  {
    if s != [] {
      assert s[0] in s;
      NoSuchGenre(s[1..], genre);
    }
  }

  /** A genre no record has gives no songs and no pages. */
  lemma UnknownGenreIsEmpty(db: seq<Song>, page: int, limit: int, genre: string)
    requires limit > 0 && genre != ""
    requires forall x :: x in db ==> x.genre != genre
    ensures var r := GetSongs(db, page, limit, genre); r.totalSongs == 0 && r.totalPages == 0 && r.songs == []
  {
    GetSongsGenre(db, page, limit, genre);
    NoSuchGenre(db, genre);
    var all := Listing(db, genre);
    assert |all| == 0;
  }

  /** A page past the last one is empty, and the totals do not depend on
      the page asked for (main.js:89-92). */
  lemma PastLastPageIsEmpty(all: seq<Song>, page: int, limit: int)
    requires limit > 0
    requires page > Paginate(all, page, limit).totalPages
    ensures var r := Paginate(all, page, limit);
      r.songs == [] && r.totalSongs == Paginate(all, 1, limit).totalSongs
        && r.totalPages == Paginate(all, 1, limit).totalPages
  {
    var n := CeilDiv(|all|, limit);
    var start := PageStart(page, limit);
    TimesMonotone(n, page - 1, limit);
    CeilDivIsCeiling(|all|, limit);
    SliceFromZero(all, start, start + limit);
  }

  /** The songs of pages 1..n of `all`, one after the other. */
  function PagesThrough(all: seq<Song>, limit: int, n: nat): seq<Song>
    requires limit > 0
  {
    if n == 0 then [] else PagesThrough(all, limit, n - 1) + Paginate(all, n, limit).songs
  }

  /** The prefix up to `start` followed by the slice [start, start+width)
      is the prefix up to start+width. */
  lemma SliceStep(all: seq<Song>, start: nat, width: nat)
    ensures all[..Clamp(start, |all|)] + JsSlice(all, start, start + width) == all[..Clamp(start + width, |all|)]
  {
    SliceFromZero(all, start, start + width);
    if start < |all| {
      var e := Clamp(start + width, |all|);
      assert all[..start] + all[start..e] == all[..e];
    }
  }

  /** Page `page` (from 1 on) is the slice of `all` that starts after
      page-1 full pages. */
  lemma PageIsSlice(all: seq<Song>, page: int, limit: int)
    requires limit > 0 && page >= 1
    ensures Paginate(all, page, limit).songs
         == JsSlice(all, Times(page - 1, limit), Times(page - 1, limit) + limit)
  {
  }

  /** Pages 1..n of a list are its first n*limit records (or all of it). */
  lemma {:induction false} PagesThroughArePrefix(all: seq<Song>, limit: int, n: nat)
    requires limit > 0
    ensures PagesThrough(all, limit, n) == all[..Clamp(Times(n, limit), |all|)]
  {
    if n > 0 {
      var m: nat := n - 1;
      var start := Times(m, limit);
      assert Times(n, limit) == start + limit;
      PagesThroughArePrefix(all, limit, m);
      PageIsSlice(all, n, limit);
      SliceStep(all, start, limit);
      assert PagesThrough(all, limit, n)
          == all[..Clamp(start, |all|)] + JsSlice(all, start, start + limit);
    }
  }

  /** Pages 1..totalPages of any list, put together, give the list back. */
  lemma AllPagesRebuildList(all: seq<Song>, limit: int)
    requires limit > 0
    ensures PagesThrough(all, limit, Paginate(all, 1, limit).totalPages) == all
  {
    var n := Paginate(all, 1, limit).totalPages;
    PagesThroughArePrefix(all, limit, n);
    CeilDivIsCeiling(|all|, limit);
  }

  /** The get-songs pages 1..totalPages, put together, give back the
      listing: every record of the genre (or of the catalogue) exactly
      once, by id (main.js:81-92). */
  lemma AllPagesRebuildListing(db: seq<Song>, limit: int, genre: string)
    requires limit > 0
    ensures var n, all := GetSongs(db, 1, limit, genre).totalPages, Listing(db, genre);
      && (forall k :: 1 <= k <= n ==> GetSongs(db, k, limit, genre) == Paginate(all, k, limit))
      && PagesThrough(all, limit, n) == all
  {
    AllPagesRebuildList(Listing(db, genre), limit);
  }

  // ---------------------------------------------------------------------
  // Properties of get-genres
  // ---------------------------------------------------------------------

  lemma {:induction false} DistinctCountsAtMostOne(s: seq<string>, x: string)
    requires Distinct(s)
    ensures multiset(s)[x] <= 1
  {
    if s != [] {
      DistinctCountsAtMostOne(s[1..], x);
      assert s == [s[0]] + s[1..];
      if x == s[0] {
        assert x !in s[1..];
      }
    }
  }

  lemma {:induction false} CountsAtMostOneIsDistinct(s: seq<string>)
    requires forall x :: multiset(s)[x] <= 1
    ensures Distinct(s)
  {
    if s != [] {
      var rest := s[1..];
      assert s == [s[0]] + rest;
      forall x ensures multiset(rest)[x] <= 1 {
        assert multiset(s)[x] == multiset(rest)[x] + (if x == s[0] then 1 else 0);
      }
      CountsAtMostOneIsDistinct(rest);
      assert multiset(s)[s[0]] == multiset(rest)[s[0]] + 1;
      assert s[0] !in rest;
    }
  }

  /** The genre list is strictly increasing and holds exactly the genres
      that occur in the catalogue (main.js:102-104). */
  lemma GenresAreSortedSet(db: seq<Song>)
    ensures var r := Genres(db);
      && (forall i, j :: 0 <= i < j < |r| ==> LexLt(r[i], r[j]))
      && (forall g :: g in r <==> exists k :: 0 <= k < |db| && db[k].genre == g)
  {
    var d := Dedup(GenreColumn(db));
    var r := Genres(db);
    SortBySorted(d, Self);
    forall x ensures multiset(r)[x] <= 1 {
      DistinctCountsAtMostOne(d, x);
    }
    CountsAtMostOneIsDistinct(r);
    forall g ensures g in r <==> exists k :: 0 <= k < |db| && db[k].genre == g {
      assert g in r <==> g in multiset(d);
      if g in GenreColumn(db) {
        var k :| 0 <= k < |db| && GenreColumn(db)[k] == g;
      }
    }
  }

  /** With db.json missing or unreadable the process still starts, on the
      empty catalogue: every get-songs answer is empty with no songs and
      no pages, and get-genres answers [] (main.js:11-21, 80-105). */
  lemma EmptyFallback(page: int, limit: int, genre: string)
    requires limit > 0
    ensures var r := GetSongs(LoadCatalogue(None), page, limit, genre);
      r.songs == [] && r.totalSongs == 0 && r.totalPages == 0
    ensures Genres(LoadCatalogue(None)) == []
  {
    var db := LoadCatalogue(None);
    assert |Listing(db, genre)| == 0;
    GenresAreSortedSet(db);
  }

  /** Each of the three clips is the pick for some `Math.random()` value. */
  lemma EveryBackgroundIsPicked(k: nat)
    requires k < |BackgroundVideos|
    ensures PickBackground(k as real / 3.0) == BackgroundVideos[k]
  {
    assert (k as real / 3.0) * 3.0 == k as real;
  }
}
