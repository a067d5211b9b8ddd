/*
 * generate_song_db of generate_db.py: the catalogue built from a music
 * folder laid out as genre/artist/file. The folder is given as a value
 * (its listing at each level) instead of being read from the disk.
 */
module SongDb {
  import opened Order
  import opened Catalog

  /** One entry of a directory listing: a file, or a directory with its
      own listing. */
  datatype Entry = File(name: string) | Dir(name: string, children: seq<Entry>)

  function Name(e: Entry): string { e.name }

  /** Where an accepted media file was found. */
  datatype Track = Track(genre: string, artist: string, file: string)

  // ---------------------------------------------------------------------
  // Song ids: f"{song_id:05d}" (generate_db.py:42)
  // ---------------------------------------------------------------------

  function DigitChar(d: nat): char
    requires d < 10
  {
    ('0' as int + d) as char
  }

  function DigitValue(c: char): nat {
    if '0' <= c <= '9' then c as int - '0' as int else 0
  }

  predicate AllDigits(s: string) {
    forall i :: 0 <= i < |s| ==> '0' <= s[i] <= '9'
  }

  /** The decimal numeral of n, without leading zeros. */
  function Digits(n: nat): (r: string)
    ensures |r| >= 1
    decreases n
  {
    if n < 10 then [DigitChar(n)] else Digits(n / 10) + [DigitChar(n % 10)]
  }

  function Zeros(k: int): (r: string)
    ensures |r| == if k < 0 then 0 else k
    decreases k
  {
    if k <= 0 then [] else Zeros(k - 1) + ['0']
  }

  /** The numeral padded on the left with zeros to at least five places. */
  function PadId(n: nat): string {
    Zeros(5 - |Digits(n)|) + Digits(n)
  }

  /** The number a string of digits stands for; leading zeros count for
      nothing. */
  function Value(s: string): nat
    decreases |s|
  {
    if s == [] then 0 else Value(s[..|s| - 1]) * 10 + DigitValue(s[|s| - 1])
  }

  function Pow10(k: nat): nat {
    if k == 0 then 1 else 10 * Pow10(k - 1)
  }

  lemma {:induction false} DigitsValue(n: nat)
    ensures Value(Digits(n)) == n
    decreases n
  {
    var d := Digits(n);
    if n < 10 {
      assert d[..0] == [];
    } else {
      DigitsValue(n / 10);
      assert d[..|d| - 1] == Digits(n / 10);
    }
  }

  lemma {:induction false} ZerosValue(k: int)
    ensures Value(Zeros(k)) == 0
    decreases k
  {
    if k > 0 {
      var z, front := Zeros(k), Zeros(k - 1);
      ZerosValue(k - 1);
      assert z == front + ['0'];
      assert z[..|z| - 1] == front;
      assert DigitValue(z[|z| - 1]) == 0;
    }
  }

  lemma {:induction false} LeadingZeros(z: string, d: string)
    requires Value(z) == 0
    ensures Value(z + d) == Value(d)
    decreases |d|
  {
    if d != [] {
      var front := d[..|d| - 1];
      LeadingZeros(z, front);
      assert (z + d)[..|z + d| - 1] == z + front;
    } else {
      assert z + d == z;
    }
  }

  /** Reading an id back gives the counter it was made from. */
  lemma PadIdValue(n: nat)
    ensures Value(PadId(n)) == n
  {
    ZerosValue(5 - |Digits(n)|);
    LeadingZeros(Zeros(5 - |Digits(n)|), Digits(n));
    DigitsValue(n);
  }

  lemma PadIdInjective(m: nat, n: nat)
    ensures PadId(m) == PadId(n) <==> m == n
  {
    PadIdValue(m);
    PadIdValue(n);
  }

  lemma {:induction false} DigitsFit(n: nat, k: nat)
    requires k >= 1 && n < Pow10(k)
    ensures |Digits(n)| <= k
    decreases k
  {
    if n >= 10 {
      assert k >= 2;
      DigitsFit(n / 10, k - 1);
    }
  }

  /** An id has five characters while the counter is below 100000, and
      never fewer. */
  lemma PadIdLength(n: nat)
    ensures |PadId(n)| >= 5
    ensures n < 100000 ==> |PadId(n)| == 5
  {
    if n < 100000 {
      assert Pow10(5) == 100000;
      DigitsFit(n, 5);
    }
  }

  lemma {:induction false} DigitsAreDigits(n: nat)
    ensures AllDigits(Digits(n))
    decreases n
  {
    if n >= 10 {
      DigitsAreDigits(n / 10);
    }
  }

  lemma {:induction false} ZerosAreDigits(k: int)
    ensures AllDigits(Zeros(k))
    decreases k
  {
    if k > 0 {
      ZerosAreDigits(k - 1);
    }
  }

  /** An id is made of decimal digits only. */
  lemma PadIdDigits(n: nat)
    ensures AllDigits(PadId(n))
  {
    DigitsAreDigits(n);
    ZerosAreDigits(5 - |Digits(n)|);
  }

  // ---------------------------------------------------------------------
  // File names (generate_db.py:38-45)
  // ---------------------------------------------------------------------

  predicate EndsWith(s: string, suffix: string) {
    |suffix| <= |s| && s[|s| - |suffix|..] == suffix
  }

  /** The extension test: the lower-cased name ends in one of the five
      media extensions. */
  predicate IsMedia(name: string) {
    var l := Lower(name);
    EndsWith(l, ".mp3") || EndsWith(l, ".mp4") || EndsWith(l, ".avi")
      || EndsWith(l, ".mpg") || EndsWith(l, ".mpeg")
  }

  lemma LowerIdempotent(s: string)
    ensures Lower(Lower(s)) == Lower(s)
  {
  }

  /** The test does not depend on the case of the name. */
  lemma IsMediaIgnoresCase(name: string)
    ensures IsMedia(Lower(name)) == IsMedia(name)
  {
    LowerIdempotent(name);
  }

  /** The last index of c in s, or -1. */
  function LastIndexOf(s: string, c: char): (r: int)
    ensures -1 <= r < |s|
    decreases |s|
  {
    if s == [] then -1
    else if s[|s| - 1] == c then |s| - 1
    else LastIndexOf(s[..|s| - 1], c)
  }

  /** LastIndexOf finds c, and no c comes after it. */
  lemma {:induction false} LastIndexOfFinds(s: string, c: char)
    ensures var r := LastIndexOf(s, c);
      (r >= 0 ==> s[r] == c) && forall k :: r < k < |s| ==> s[k] != c
    decreases |s|
  {
    if s != [] && s[|s| - 1] != c {
      LastIndexOfFinds(s[..|s| - 1], c);
    }
  }

  /** Some character of s[lo..hi] is not a dot. */
  predicate HasNonDot(s: string, lo: nat, hi: nat)
    requires hi <= |s|
    decreases hi - lo
  {
    lo < hi && (s[lo] != '.' || HasNonDot(s, lo + 1, hi))
  }

  /** os.path.splitext on a POSIX system: the extension starts at the last
      dot after the last slash, unless only dots come before that dot in
      the last component. */
  function SplitExt(p: string): (r: (string, string))
  {
    var sep := LastIndexOf(p, '/');
    var dot := LastIndexOf(p, '.');
    if dot > sep && HasNonDot(p, sep + 1, dot) then (p[..dot], p[dot..]) else (p, "")
  }

  /** splitext cuts the name in two: the stem and an extension that is
      empty or one dot followed by neither dots nor slashes. */
  lemma SplitExtParts(p: string)
    ensures SplitExt(p).0 + SplitExt(p).1 == p
    ensures var e := SplitExt(p).1;
      e == [] || (e[0] == '.' && forall k :: 1 <= k < |e| ==> e[k] != '.' && e[k] != '/')
  {
    var sep := LastIndexOf(p, '/');
    var dot := LastIndexOf(p, '.');
    LastIndexOfFinds(p, '/');
    LastIndexOfFinds(p, '.');
    if dot > sep && HasNonDot(p, sep + 1, dot) {
      assert p[..dot] + p[dot..] == p;
    }
  }

  /** os.path.join of two parts on a POSIX system. */
  function PathJoin(a: string, b: string): string {
    if |b| > 0 && b[0] == '/' then b
    else if a == [] || a[|a| - 1] == '/' then a + b
    else a + "/" + b
  }

  /** `replace("\\", "/")`. */
  function Slashes(s: string): string {
    seq(|s|, i requires 0 <= i < |s| => if s[i] == '\\' then '/' else s[i])
  }

  /** The record written for track t under counter value n. */
  function Record(t: Track, n: nat): Song {
    Song(PadId(n), SplitExt(t.file).0, t.artist, t.genre,
         Slashes(PathJoin(PathJoin(t.genre, t.artist), t.file)))
  }

  // ---------------------------------------------------------------------
  // The traversal (generate_db.py:28-49)
  // ---------------------------------------------------------------------

  /** The tracks of a listing, read in order, each entry contributing
      what `part` says. */
  function Flat(xs: seq<Entry>, part: Entry -> seq<Track>): seq<Track>
    decreases |xs|
  {
    if xs == [] then [] else Flat(xs[..|xs| - 1], part) + part(xs[|xs| - 1])
  }

  /** An entry of an artist's listing gives a track when its name has a
      media extension; a directory passes or fails on its name alone. */
  function FilePart(g: string, a: string): Entry -> seq<Track> {
    (f: Entry) => if IsMedia(f.name) then [Track(g, a, f.name)] else []
  }

  function FileTracks(g: string, a: string, files: seq<Entry>): seq<Track> {
    Flat(files, FilePart(g, a))
  }

  /** An entry of a genre's listing is an artist when it is a directory,
      whose listing is read in sorted order. */
  function ArtistPart(g: string): Entry -> seq<Track> {
    (x: Entry) => if x.Dir? then FileTracks(g, x.name, SortBy(x.children, Name)) else []
  }

  function ArtistTracks(g: string, artists: seq<Entry>): seq<Track> {
    Flat(artists, ArtistPart(g))
  }

  /** An entry of the music folder is a genre when it is a directory, whose
      listing is read in sorted order. */
  function GenrePart(x: Entry): seq<Track> {
    if x.Dir? then ArtistTracks(x.name, SortBy(x.children, Name)) else []
  }

  function GenreTracks(genres: seq<Entry>): seq<Track> {
    Flat(genres, GenrePart)
  }

  function Tracks(root: seq<Entry>): seq<Track> {
    GenreTracks(SortBy(root, Name))
  }

  /** The tracks numbered from `first` on. */
  function Numbered(ts: seq<Track>, first: nat): (r: seq<Song>)
    ensures |r| == |ts|
  {
    seq(|ts|, i requires 0 <= i < |ts| => Record(ts[i], first + i))
  }

  /** The songs generate_song_db returns for the music folder `root`. */
  function Catalogue(root: seq<Entry>): seq<Song> {
    Numbered(Tracks(root), 1)
  }

  /** Numbering one more track after those found so far. */
  lemma NumberedAppend(ts: seq<Track>, t: Track, songs: seq<Song>, n: nat)
    requires songs == Numbered(ts, 1) && n == |ts| + 1
    ensures songs + [Record(t, n)] == Numbered(ts + [t], 1)
  {
    assert (ts + [t])[..|ts|] == ts;
  }

  /** The tracks found so far grow by what one more entry contributes. */
  lemma Extend(found: seq<Track>, prefix: seq<Track>, more: seq<Track>, next: seq<Track>)
    requires next == prefix + more
    ensures (found + prefix) + more == found + next
  {
  }

  lemma FlatStep(xs: seq<Entry>, part: Entry -> seq<Track>, k: nat)
    requires k < |xs|
    ensures Flat(xs[..k + 1], part) == Flat(xs[..k], part) + part(xs[k])
  {
    assert xs[..k + 1][..k] == xs[..k];
  }

  /** The innermost loop of generate_song_db: the files of one artist,
      appended to `songs` with the running counter `songId`. */
  method ScanFiles(genre: string, artist: string, files: seq<Entry>, songs: seq<Song>, songId: nat,
                   ghost found: seq<Track>)
    returns (songs': seq<Song>, songId': nat)
    requires songs == Numbered(found, 1) && songId == |found| + 1
    ensures songs' == Numbered(found + FileTracks(genre, artist, files), 1)
    ensures songId' == |songs'| + 1
  {
    songs', songId' := songs, songId;
    ghost var tracks := found;
    assert files[..0] == [] && found + [] == found;
    for k := 0 to |files|
      invariant tracks == found + FileTracks(genre, artist, files[..k])
      invariant songs' == Numbered(tracks, 1) && songId' == |tracks| + 1
    {
      var file := files[k].name;
      FlatStep(files, FilePart(genre, artist), k);
      if IsMedia(file) {
        var t := Track(genre, artist, file);
        Extend(found, FileTracks(genre, artist, files[..k]), [t], FileTracks(genre, artist, files[..k + 1]));
        NumberedAppend(tracks, t, songs', songId');
        songs' := songs' + [Record(t, songId')];
        songId' := songId' + 1;
        tracks := tracks + [t];
      }
    }
    assert files[..|files|] == files;
  }

  /** The middle loop: the artists of one genre, each directory's listing
      read in sorted order. */
  method ScanArtists(genre: string, artists: seq<Entry>, songs: seq<Song>, songId: nat,
                     ghost found: seq<Track>)
    returns (songs': seq<Song>, songId': nat)
    requires songs == Numbered(found, 1) && songId == |found| + 1
    ensures songs' == Numbered(found + ArtistTracks(genre, artists), 1)
    ensures songId' == |songs'| + 1
  {
    songs', songId' := songs, songId;
    ghost var tracks := found;
    assert artists[..0] == [] && found + [] == found;
    for j := 0 to |artists|
      invariant tracks == found + ArtistTracks(genre, artists[..j])
      invariant songs' == Numbered(tracks, 1) && songId' == |tracks| + 1
    {
      var artist := artists[j];
      FlatStep(artists, ArtistPart(genre), j);
      if artist.Dir? {
        ghost var more := FileTracks(genre, artist.name, SortBy(artist.children, Name));
        songs', songId' := ScanFiles(genre, artist.name, SortBy(artist.children, Name), songs', songId', tracks);
        Extend(found, ArtistTracks(genre, artists[..j]), more, ArtistTracks(genre, artists[..j + 1]));
        tracks := tracks + more;
      }
    }
    assert artists[..|artists|] == artists;
  }

  /** generate_song_db, apart from writing db.json: the genres of the
      music folder in sorted order, numbering the accepted files from 1. */
  method GenerateSongDb(root: seq<Entry>) returns (songs: seq<Song>)
    ensures songs == Catalogue(root)
  {
    songs := [];
    var songId := 1;
    var genres := SortBy(root, Name);
    assert genres[..0] == [];
    for i := 0 to |genres|
      invariant songs == Numbered(GenreTracks(genres[..i]), 1)
      invariant songId == |songs| + 1
    {
      var genre := genres[i];
      ghost var sofar := GenreTracks(genres[..i]);
      FlatStep(genres, GenrePart, i);
      if genre.Dir? {
        songs, songId := ScanArtists(genre.name, SortBy(genre.children, Name), songs, songId, sofar);
      } else {
        assert sofar == GenreTracks(genres[..i + 1]);
      }
    }
    assert genres[..|genres|] == genres;
  }

  // ---------------------------------------------------------------------
  // What the catalogue holds
  // ---------------------------------------------------------------------

  lemma NumberedAt(ts: seq<Track>, i: nat)
    requires i < |ts|
    ensures Numbered(ts, 1)[i] == Record(ts[i], i + 1)
  {
  }

  /** The i-th song is the i-th track found, under id i + 1. */
  lemma CatalogueAt(root: seq<Entry>, i: nat)
    requires i < |Catalogue(root)|
    ensures Catalogue(root)[i] == Record(Tracks(root)[i], i + 1)
  {
    NumberedAt(Tracks(root), i);
  }


  /** Numbered tracks carry ids that count them from 00001 on: each id
      reads back as its position plus one, and has five digits up to the
      99999th song... */
  lemma NumberedId(ts: seq<Track>, i: nat)
    requires i < |ts|
    ensures AllDigits(Numbered(ts, 1)[i].id) && Value(Numbered(ts, 1)[i].id) == i + 1
    ensures i < 99999 ==> |Numbered(ts, 1)[i].id| == 5
  {
    assert Numbered(ts, 1)[i].id == PadId(i + 1);
    PadIdValue(i + 1);
    PadIdDigits(i + 1);
    PadIdLength(i + 1);
  }

  /** ... so no two ids are alike. */
  lemma NumberedIdsDistinct(ts: seq<Track>, i: nat, j: nat)
    requires i < |ts| && j < |ts|
    ensures Numbered(ts, 1)[i].id == Numbered(ts, 1)[j].id <==> i == j
  {
    assert Numbered(ts, 1)[i].id == PadId(i + 1) && Numbered(ts, 1)[j].id == PadId(j + 1);
    PadIdInjective(i + 1, j + 1);
  }

  /** The catalogue's ids, as NumberedId and NumberedIdsDistinct state
      them. */
  lemma CatalogueIds(root: seq<Entry>, i: nat, j: nat)
    requires i < |Catalogue(root)| && j < |Catalogue(root)|
    ensures Value(Catalogue(root)[i].id) == i + 1
    ensures Catalogue(root)[i].id == Catalogue(root)[j].id <==> i == j
    ensures i < 99999 ==> |Catalogue(root)[i].id| == 5
  {
    NumberedId(Tracks(root), i);
    NumberedIdsDistinct(Tracks(root), i, j);
  }

  lemma SortedSameEntries(s: seq<Entry>, x: Entry)
    ensures x in SortBy(s, Name) <==> x in s
  {
    assert x in multiset(SortBy(s, Name)) <==> x in multiset(s);
  }

  lemma {:induction false} FlatMember(xs: seq<Entry>, part: Entry -> seq<Track>, t: Track)
    ensures t in Flat(xs, part) <==> exists x :: x in xs && t in part(x)
    decreases |xs|
  {
    if xs != [] {
      var front := xs[..|xs| - 1];
      FlatMember(front, part, t);
      assert xs == front + [xs[|xs| - 1]];
      assert forall x :: x in xs <==> x in front || x == xs[|xs| - 1];
    }
  }

  /** An artist directory's sorted listing gives t exactly when t names
      that genre and artist and a listed file with a media extension. */
  lemma FileTracksMember(g: string, a: string, files: seq<Entry>, t: Track)
    ensures t in FileTracks(g, a, SortBy(files, Name))
      <==> t.genre == g && t.artist == a && IsMedia(t.file) && exists f :: f in files && f.name == t.file
  {
    FlatMember(SortBy(files, Name), FilePart(g, a), t);
    if t in FileTracks(g, a, SortBy(files, Name)) {
      var f :| f in SortBy(files, Name) && t in FilePart(g, a)(f);
      SortedSameEntries(files, f);
    }
    if t.genre == g && t.artist == a && IsMedia(t.file) && exists f :: f in files && f.name == t.file {
      var f :| f in files && f.name == t.file;
      SortedSameEntries(files, f);
      assert t in FilePart(g, a)(f);
    }
  }

  /** A genre directory's sorted listing gives t exactly when one of its
      directories is t's artist and gives t. */
  lemma ArtistTracksMember(g: string, artists: seq<Entry>, t: Track)
    ensures t in ArtistTracks(g, SortBy(artists, Name))
      <==> exists ad :: ad in artists && ad.Dir? && ad.name == t.artist
             && t in FileTracks(g, ad.name, SortBy(ad.children, Name))
  {
    FlatMember(SortBy(artists, Name), ArtistPart(g), t);
    if t in ArtistTracks(g, SortBy(artists, Name)) {
      var ad :| ad in SortBy(artists, Name) && t in ArtistPart(g)(ad);
      SortedSameEntries(artists, ad);
      FileTracksMember(g, ad.name, ad.children, t);
    }
    if exists ad :: ad in artists && ad.Dir? && ad.name == t.artist
         && t in FileTracks(g, ad.name, SortBy(ad.children, Name)) {
      var ad :| ad in artists && ad.Dir? && ad.name == t.artist
        && t in FileTracks(g, ad.name, SortBy(ad.children, Name));
      SortedSameEntries(artists, ad);
      assert t in ArtistPart(g)(ad);
    }
  }

  /** The music folder holds a directory t.genre, holding a directory
      t.artist, whose listing has an entry t.file with a media extension. */
  predicate Listed(root: seq<Entry>, t: Track) {
    IsMedia(t.file) &&
    exists gd, ad, f :: gd in root && gd.Dir? && ad in gd.children && ad.Dir? && f in ad.children
      && gd.name == t.genre && ad.name == t.artist && f.name == t.file
  }

  /** A found track is listed. */
  lemma TrackIsListed(root: seq<Entry>, t: Track)
    requires t in Tracks(root)
    ensures Listed(root, t)
  {
    FlatMember(SortBy(root, Name), GenrePart, t);
    var gd :| gd in SortBy(root, Name) && t in GenrePart(gd);
    SortedSameEntries(root, gd);
    ArtistTracksMember(gd.name, gd.children, t);
    var ad :| ad in gd.children && ad.Dir? && ad.name == t.artist
      && t in FileTracks(gd.name, ad.name, SortBy(ad.children, Name));
    FileTracksMember(gd.name, ad.name, ad.children, t);
    var f :| f in ad.children && f.name == t.file;
    assert gd in root && gd.Dir? && ad in gd.children && ad.Dir? && f in ad.children
      && gd.name == t.genre && ad.name == t.artist && f.name == t.file;
  }

  /** A media file listed under a genre and an artist directory is found. */
  lemma ListedIsTrack(root: seq<Entry>, t: Track, gd: Entry, ad: Entry, f: Entry)
    requires IsMedia(t.file)
    requires gd in root && gd.Dir? && ad in gd.children && ad.Dir? && f in ad.children
    requires gd.name == t.genre && ad.name == t.artist && f.name == t.file
    ensures t in Tracks(root)
  {
    FileTracksMember(gd.name, ad.name, ad.children, t);
    ArtistTracksMember(gd.name, gd.children, t);
    assert ad in gd.children && ad.Dir? && ad.name == t.artist
      && t in FileTracks(gd.name, ad.name, SortBy(ad.children, Name));
    assert t in GenrePart(gd);
    SortedSameEntries(root, gd);
    FlatMember(SortBy(root, Name), GenrePart, t);
  }

  /** A track is found exactly when it is listed with a media extension. */
  lemma TracksMember(root: seq<Entry>, t: Track)
    ensures t in Tracks(root) <==> Listed(root, t)
  {
    if t in Tracks(root) {
      TrackIsListed(root, t);
    }
    if Listed(root, t) {
      var gd, ad, f :| gd in root && gd.Dir? && ad in gd.children && ad.Dir? && f in ad.children
        && gd.name == t.genre && ad.name == t.artist && f.name == t.file;
      ListedIsTrack(root, t, gd, ad, f);
    }
  }

  /** Every song of the catalogue is the record of a listed media file... */
  lemma CatalogueSongListed(root: seq<Entry>, i: nat)
    requires i < |Catalogue(root)|
    ensures Listed(root, Tracks(root)[i]) && Catalogue(root)[i] == Record(Tracks(root)[i], i + 1)
  {
    TracksMember(root, Tracks(root)[i]);
    CatalogueAt(root, i);
  }

  /** ... and every listed media file gives a song. */
  lemma ListedInCatalogue(root: seq<Entry>, t: Track)
    requires Listed(root, t)
    ensures exists i :: 0 <= i < |Catalogue(root)| && Catalogue(root)[i] == Record(t, i + 1)
  {
    TracksMember(root, t);
    var i :| 0 <= i < |Tracks(root)| && Tracks(root)[i] == t;
    CatalogueAt(root, i);
  }

  // ---------------------------------------------------------------------
  // Field contents (generate_db.py:40-46)
  // ---------------------------------------------------------------------

  /** What a directory listing can hold as a name: something non-empty
      without a slash. */
  predicate PlainName(n: string) {
    |n| > 0 && forall k :: 0 <= k < |n| ==> n[k] != '/'
  }

  /** The record of a track: its directory names, the title splitext
      cuts from the file name, and a relative path that joins the three
      names with slashes and has no backslash left. */
  lemma RecordFields(t: Track, n: nat)
    requires PlainName(t.genre) && PlainName(t.artist) && PlainName(t.file)
    ensures Record(t, n).genre == t.genre && Record(t, n).artist == t.artist
    ensures Record(t, n).title + SplitExt(t.file).1 == t.file
    ensures Record(t, n).path == Slashes(t.genre + "/" + t.artist + "/" + t.file)
    ensures forall k :: 0 <= k < |Record(t, n).path| ==> Record(t, n).path[k] != '\\'
  {
    assert PathJoin(t.genre, t.artist) == t.genre + "/" + t.artist;
    SplitExtParts(t.file);
  }

  lemma LowerKeepsDots(c: char)
    ensures LowerChar(c) == '.' <==> c == '.'
  {
  }

  lemma ExtensionDots(e: string)
    requires e in [".mp3", ".mp4", ".avi", ".mpg", ".mpeg"]
    ensures |e| >= 4 && e[0] == '.' && forall m :: 1 <= m < |e| ==> e[m] != '.'
  {
  }

  /** Where a media file's extension starts. */
  lemma MediaExtension(f: string) returns (d: int)
    requires IsMedia(f)
    ensures 0 <= d <= |f| && Lower(f)[d..] in [".mp3", ".mp4", ".avi", ".mpg", ".mpeg"]
  {
    var l := Lower(f);
    if EndsWith(l, ".mp3") {
      d := |f| - 4;
    } else if EndsWith(l, ".mp4") {
      d := |f| - 4;
    } else if EndsWith(l, ".avi") {
      d := |f| - 4;
    } else if EndsWith(l, ".mpg") {
      d := |f| - 4;
    } else {
      d := |f| - 5;
    }
  }

  /** When a media extension starts at `d`, the character there is the
      file name's last dot. */
  lemma MediaDot(f: string, d: int)
    requires 0 <= d <= |f| && Lower(f)[d..] in [".mp3", ".mp4", ".avi", ".mpg", ".mpeg"]
    ensures d < |f| && f[d] == '.'
    ensures forall k :: d < k < |f| ==> f[k] != '.'
    ensures Lower(f[d..]) in [".mp3", ".mp4", ".avi", ".mpg", ".mpeg"]
  {
    var l := Lower(f);
    var e := l[d..];
    assert e in [".mp3", ".mp4", ".avi", ".mpg", ".mpeg"];
    ExtensionDots(e);
    assert l[d] == e[0] == '.';
    LowerKeepsDots(f[d]);
    forall k | d < k < |f|
      ensures f[k] != '.'
    {
      assert l[k] == e[k - d];
      LowerKeepsDots(f[k]);
    }
    assert Lower(f[d..]) == l[d..];
  }

  /** A media file's name, when it does not start with a dot, loses
      exactly its media extension to make the title. */
  lemma MediaTitle(f: string)
    requires IsMedia(f) && PlainName(f) && f[0] != '.'
    ensures SplitExt(f).0 + SplitExt(f).1 == f
    ensures Lower(SplitExt(f).1) in [".mp3", ".mp4", ".avi", ".mpg", ".mpeg"]
  {
    var d := MediaExtension(f);
    MediaDot(f, d);
    LastIndexOfFinds(f, '.');
    LastIndexOfFinds(f, '/');
    assert LastIndexOf(f, '.') == d;
    assert LastIndexOf(f, '/') == -1;
    assert HasNonDot(f, 0, d);
    assert SplitExt(f) == (f[..d], f[d..]);
    SplitExtParts(f);
  }

  /** The fields of a catalogue song: the directory names, the title cut
      from the file name by splitext, and the path. Names in a listing are
      plain. */
  lemma CatalogueFields(root: seq<Entry>, i: nat)
    requires i < |Catalogue(root)|
    requires PlainNames(root)
    ensures var t := Tracks(root)[i];
      var song := Catalogue(root)[i];
      song.genre == t.genre && song.artist == t.artist
      && song.title + SplitExt(t.file).1 == t.file
      && song.path == Slashes(t.genre + "/" + t.artist + "/" + t.file)
      && forall k :: 0 <= k < |song.path| ==> song.path[k] != '\\'
  {
    var t := Tracks(root)[i];
    CatalogueSongListed(root, i);
    ListedPlain(root, t);
    RecordFields(t, i + 1);
  }

  lemma ListedPlain(root: seq<Entry>, t: Track)
    requires Listed(root, t) && PlainNames(root)
    ensures PlainName(t.genre) && PlainName(t.artist) && PlainName(t.file)
  {
    var gd, ad, f :| gd in root && gd.Dir? && ad in gd.children && ad.Dir? && f in ad.children
      && gd.name == t.genre && ad.name == t.artist && f.name == t.file;
  }

  /** Every name in the tree, down to the files of each artist, is plain. */
  predicate PlainNames(root: seq<Entry>) {
    forall gd, ad, f :: gd in root && gd.Dir? && ad in gd.children && ad.Dir? && f in ad.children
      ==> PlainName(gd.name) && PlainName(ad.name) && PlainName(f.name)
  }

  // ---------------------------------------------------------------------
  // Order and count (generate_db.py:31, 34, 37, 48)
  // ---------------------------------------------------------------------

  /** No two entries of a listing share a name, as in a directory. */
  predicate UniqueNames(es: seq<Entry>) {
    forall i, j :: 0 <= i < j < |es| ==> es[i].name != es[j].name
  }

  /** Every listing of the tree, down to each artist's, has unique names. */
  predicate UniqueTree(root: seq<Entry>) {
    UniqueNames(root) &&
    forall gd :: gd in root && gd.Dir? ==>
      UniqueNames(gd.children) &&
      forall ad :: ad in gd.children && ad.Dir? ==> UniqueNames(ad.children)
  }

  /** Tracks in (genre, artist, file) order, each name compared as the sort
      compares it. */
  predicate TrackLt(a: Track, b: Track) {
    LexLt(a.genre, b.genre)
    || (a.genre == b.genre && (LexLt(a.artist, b.artist) || (a.artist == b.artist && LexLt(a.file, b.file))))
  }

  predicate Increasing(ts: seq<Track>) {
    forall i, j :: 0 <= i < j < |ts| ==> TrackLt(ts[i], ts[j])
  }

  predicate Before(a: seq<Track>, b: seq<Track>) {
    forall t1, t2 :: t1 in a && t2 in b ==> TrackLt(t1, t2)
  }

  lemma Multiplicity(r: seq<Entry>, i: nat, j: nat)
    requires i < j < |r| && r[i] == r[j]
    ensures multiset(r)[r[i]] >= 2
  {
    assert r == r[..j] + r[j..];
    assert r[i] in r[..j];
    assert r[j] in r[j..];
  }

  lemma TwoPositions(s: seq<Entry>, x: Entry)
    requires multiset(s)[x] >= 2
    ensures exists p, q :: 0 <= p < q < |s| && s[p] == x && s[q] == x
  {
    assert x in multiset(s);
    var p :| 0 <= p < |s| && s[p] == x;
    assert s == s[..p] + [x] + s[p + 1..];
    if x in s[..p] {
      var q :| 0 <= q < p && s[..p][q] == x;
      assert s[q] == x;
    } else {
      assert x in multiset(s[p + 1..]);
      var q :| 0 <= q < |s[p + 1..]| && s[p + 1..][q] == x;
      assert s[p + 1 + q] == x;
    }
  }

  /** Reordering a listing keeps its names unique. */
  lemma UniquePermuted(s: seq<Entry>, r: seq<Entry>)
    requires multiset(r) == multiset(s) && UniqueNames(s)
    ensures UniqueNames(r)
  {
    forall i, j | 0 <= i < j < |r|
      ensures r[i].name != r[j].name
    {
      if r[i] == r[j] {
        Multiplicity(r, i, j);
        TwoPositions(s, r[i]);
      } else {
        assert r[i] in multiset(s) && r[j] in multiset(s);
        var p :| 0 <= p < |s| && s[p] == r[i];
        var q :| 0 <= q < |s| && s[q] == r[j];
        assert p != q;
      }
    }
  }

  /** A sorted listing with unique names is strictly increasing. */
  lemma SortedStrictly(s: seq<Entry>)
    requires UniqueNames(s)
    ensures forall i, j :: 0 <= i < j < |SortBy(s, Name)| ==> LexLt(SortBy(s, Name)[i].name, SortBy(s, Name)[j].name)
  {
    var r := SortBy(s, Name);
    SortBySorted(s, Name);
    UniquePermuted(s, r);
    forall i, j | 0 <= i < j < |r|
      ensures LexLt(r[i].name, r[j].name)
    {
      assert LexLe(Name(r[i]), Name(r[j]));
    }
  }

  lemma ConcatIncreasing(a: seq<Track>, b: seq<Track>)
    requires Increasing(a) && Increasing(b) && Before(a, b)
    ensures Increasing(a + b)
  {
    forall i, j | 0 <= i < j < |a + b|
      ensures TrackLt((a + b)[i], (a + b)[j])
    {
      if j < |a| {
        assert (a + b)[i] == a[i] && (a + b)[j] == a[j];
      } else if i >= |a| {
        assert (a + b)[i] == b[i - |a|] && (a + b)[j] == b[j - |a|];
      } else {
        assert (a + b)[i] == a[i] && (a + b)[j] == b[j - |a|];
      }
    }
  }

  /** Blocks that are each increasing, and each below every later block,
      flatten to an increasing sequence. */
  lemma {:induction false} FlatIncreasing(xs: seq<Entry>, part: Entry -> seq<Track>)
    requires forall x :: x in xs ==> Increasing(part(x))
    requires forall i, j :: 0 <= i < j < |xs| ==> Before(part(xs[i]), part(xs[j]))
    ensures Increasing(Flat(xs, part))
    decreases |xs|
  {
    if xs != [] {
      var front := xs[..|xs| - 1];
      var last := xs[|xs| - 1];
      FlatIncreasing(front, part);
      forall t1, t2 | t1 in Flat(front, part) && t2 in part(last)
        ensures TrackLt(t1, t2)
      {
        FlatMember(front, part, t1);
        var x :| x in front && t1 in part(x);
        var i :| 0 <= i < |front| && front[i] == x;
        assert Before(part(xs[i]), part(xs[|xs| - 1]));
      }
      ConcatIncreasing(Flat(front, part), part(last));
    }
  }

  lemma FilesIncreasing(g: string, a: string, files: seq<Entry>)
    requires UniqueNames(files)
    ensures Increasing(FileTracks(g, a, SortBy(files, Name)))
  {
    var xs := SortBy(files, Name);
    SortedStrictly(files);
    forall i, j | 0 <= i < j < |xs|
      ensures Before(FilePart(g, a)(xs[i]), FilePart(g, a)(xs[j]))
    {
      assert LexLt(xs[i].name, xs[j].name);
    }
    FlatIncreasing(xs, FilePart(g, a));
  }

  lemma ArtistsIncreasing(g: string, artists: seq<Entry>)
    requires UniqueNames(artists)
    requires forall ad :: ad in artists && ad.Dir? ==> UniqueNames(ad.children)
    ensures Increasing(ArtistTracks(g, SortBy(artists, Name)))
  {
    var xs := SortBy(artists, Name);
    SortedStrictly(artists);
    forall x | x in xs
      ensures Increasing(ArtistPart(g)(x))
    {
      SortedSameEntries(artists, x);
      if x.Dir? {
        FilesIncreasing(g, x.name, x.children);
      }
    }
    forall i, j, t1, t2 | 0 <= i < j < |xs| && t1 in ArtistPart(g)(xs[i]) && t2 in ArtistPart(g)(xs[j])
      ensures TrackLt(t1, t2)
    {
      FileTracksMember(g, xs[i].name, xs[i].children, t1);
      FileTracksMember(g, xs[j].name, xs[j].children, t2);
      assert LexLt(xs[i].name, xs[j].name);
    }
    FlatIncreasing(xs, ArtistPart(g));
  }

  /** With unique names at every level the tracks come in strictly
      increasing (genre, artist, file) order. */
  lemma TracksIncreasing(root: seq<Entry>)
    requires UniqueTree(root)
    ensures Increasing(Tracks(root))
  {
    var xs := SortBy(root, Name);
    SortedStrictly(root);
    forall x | x in xs
      ensures Increasing(GenrePart(x))
    {
      SortedSameEntries(root, x);
      if x.Dir? {
        ArtistsIncreasing(x.name, x.children);
      }
    }
    forall i, j, t1, t2 | 0 <= i < j < |xs| && t1 in GenrePart(xs[i]) && t2 in GenrePart(xs[j])
      ensures TrackLt(t1, t2)
    {
      GenreOf(xs[i], t1);
      GenreOf(xs[j], t2);
      assert LexLt(xs[i].name, xs[j].name);
    }
    FlatIncreasing(xs, GenrePart);
  }

  lemma GenreOf(x: Entry, t: Track)
    requires t in GenrePart(x)
    ensures t.genre == x.name
  {
    ArtistTracksMember(x.name, x.children, t);
    var ad :| ad in x.children && ad.Dir? && ad.name == t.artist
      && t in FileTracks(x.name, ad.name, SortBy(ad.children, Name));
    FileTracksMember(x.name, ad.name, ad.children, t);
  }

  /** Songs numbered from increasing tracks list genres in sorted order
      and, within a genre, artists in sorted order. */
  lemma NumberedOrdered(ts: seq<Track>, i: nat, j: nat)
    requires Increasing(ts) && i < j < |ts|
    ensures LexLe(Numbered(ts, 1)[i].genre, Numbered(ts, 1)[j].genre)
    ensures Numbered(ts, 1)[i].genre == Numbered(ts, 1)[j].genre
      ==> LexLe(Numbered(ts, 1)[i].artist, Numbered(ts, 1)[j].artist)
  {
    var a, b := ts[i], ts[j];
    assert Numbered(ts, 1)[i].genre == a.genre && Numbered(ts, 1)[i].artist == a.artist;
    assert Numbered(ts, 1)[j].genre == b.genre && Numbered(ts, 1)[j].artist == b.artist;
    assert TrackLt(a, b);
    TrackLtNames(a, b);
  }

  lemma TrackLtNames(a: Track, b: Track)
    requires TrackLt(a, b)
    ensures LexLe(a.genre, b.genre)
    ensures a.genre == b.genre ==> LexLe(a.artist, b.artist)
  {
    if a.genre == b.genre {
      LexLeReflexive(a.genre);
      if a.artist == b.artist {
        LexLeReflexive(a.artist);
      }
    }
  }

  /** The catalogue's songs in the order NumberedOrdered states. */
  lemma CatalogueOrdered(root: seq<Entry>, i: nat, j: nat)
    requires UniqueTree(root)
    requires i < j < |Catalogue(root)|
    ensures LexLe(Catalogue(root)[i].genre, Catalogue(root)[j].genre)
    ensures Catalogue(root)[i].genre == Catalogue(root)[j].genre
      ==> LexLe(Catalogue(root)[i].artist, Catalogue(root)[j].artist)
  {
    TracksIncreasing(root);
    NumberedOrdered(Tracks(root), i, j);
  }

  /** The tracks of the tree, one per media file under a genre and an
      artist directory. */
  function ListedSet(root: seq<Entry>): set<Track> {
    set gd, ad, f | gd in root && gd.Dir? && ad in gd.children && ad.Dir? && f in ad.children
      && IsMedia(f.name) :: Track(gd.name, ad.name, f.name)
  }

  lemma {:induction false} DistinctCount(ts: seq<Track>)
    requires Increasing(ts)
    ensures |set t | t in ts| == |ts|
    decreases |ts|
  {
    if ts != [] {
      var front := ts[..|ts| - 1];
      var last := ts[|ts| - 1];
      DistinctCount(front);
      LastIsNew(ts);
      assert (set t | t in ts) == (set t | t in front) + {last};
    }
  }

  lemma LastIsNew(ts: seq<Track>)
    requires Increasing(ts) && ts != []
    ensures ts[|ts| - 1] !in ts[..|ts| - 1]
  {
    var front := ts[..|ts| - 1];
    forall i | 0 <= i < |front|
      ensures front[i] != ts[|ts| - 1]
    {
      assert TrackLt(ts[i], ts[|ts| - 1]);
    }
  }

  /** With unique names at every level there are exactly as many songs as
      media files under the genre and artist directories. */
  lemma CatalogueCount(root: seq<Entry>)
    requires UniqueTree(root)
    ensures |Catalogue(root)| == |ListedSet(root)|
  {
    TracksIncreasing(root);
    DistinctCount(Tracks(root));
    forall t
      ensures t in Tracks(root) <==> t in ListedSet(root)
    {
      TracksMember(root, t);
    }
    assert (set t | t in Tracks(root)) == ListedSet(root);
  }
}
