/*
 * The session engine of public/script.js as functions from one kiosk
 * snapshot to the next. Everything the page does to the screen or the
 * video element is recorded in an effect log instead of being performed.
 * The class in Page.dfy runs the same handlers by updating its fields
 * and is proved to agree with these functions.
 */
module Engine {
  import opened Wrappers
  import opened Order
  import opened Catalog

  /** Songs per page in the kiosk (public/script.js:18). */
  const PageSize: int := 26
  /** Entries shown in the "up next" list (public/script.js:268). */
  const UpNextSize: nat := 6
  /** The genre shown when there is none (public/script.js:128, 136). */
  const AllGenres: string := "Todos"

  datatype Effect =
    | Stop                       // stopCurrentPlayback paused and emptied the video
    | Play(path: string)         // playSong pointed the video at rockola://musicac/<path>
    | ControlsOff                // full screen, controls disabled, list hidden
    | ControlsOn                 // full screen left, controls enabled, list shown
    | PromoRequested             // the promotional clip was asked for
    | LoopPromo(promoPath: string) // the video loops rockola://promo/<promoPath>
    | NoCreditOverlay            // the "no credits" overlay was shown
    | Notify(message: string)    // a notification was shown
    | UpNext(paths: seq<string>) // the "up next" list was redrawn
    | Render(songs: seq<Song>)   // the song list was redrawn

  /** The page's catalogue-browsing variables, plus the catalogue the
      main process answers `get-songs` from. `search` is the value of the
      search box. */
  datatype Browser = Browser(
    catalogue: seq<Song>,
    allSongs: seq<Song>,
    songsData: seq<Song>,
    currentPage: int,
    totalPages: int,
    currentGenre: string,
    genres: seq<string>,
    genreIndex: int,
    search: string)

  /** The page's module-level variables. `srcSet` is whether the video's
      `src` is truthy and `loop` its loop flag. */
  datatype Kiosk = Kiosk(
    browse: Browser,
    playlist: seq<string>,
    isPlaying: bool,
    credits: int,
    srcSet: bool,
    loop: bool,
    effects: seq<Effect>)

  /** The state when the page has loaded (public/script.js:14-24), with
      the main process holding the catalogue it loaded from db.json
      (`parsed` is None when the file is missing or does not parse). */
  function Initial(parsed: Option<seq<Song>>): (s: Kiosk)
    ensures s.credits == 1 && s.playlist == [] && !s.isPlaying && s.effects == []
    ensures s.browse.catalogue == LoadCatalogue(parsed) && s.browse.allSongs == []
  {
    Kiosk(Browser(LoadCatalogue(parsed), [], [], 1, 1, "", [], 0, ""), [], false, 1, false, false, [])
  }

  /** What every handler keeps true: credits are never negative, nothing
      ever sets isPlaying, the page number starts at 1 and the genre index
      points into the genre list once there is one. */
  predicate Inv(s: Kiosk) {
    && s.credits >= 0
    && !s.isPlaying
    && s.browse.currentPage >= 1
    && s.browse.totalPages >= 0
    && var g := s.browse; ((|g.genres| == 0 && g.genreIndex == 0) || 0 <= g.genreIndex < |g.genres|)
  }

  /** The songs started so far, in order. */
  function Played(log: seq<Effect>): seq<string>
    decreases |log|
  {
    if log == [] then []
    else Played(log[..|log| - 1]) + (if log[|log| - 1].Play? then [log[|log| - 1].path] else [])
  }

  lemma PlayedLog(log: seq<Effect>, e: Effect)
    ensures Played(log + [e]) == Played(log) + (if e.Play? then [e.path] else [])
  {
    assert (log + [e])[..|log|] == log;
  }

  /** b is a continuation of a. */
  predicate Extends<T(==)>(a: seq<T>, b: seq<T>) {
    |a| <= |b| && b[..|a|] == a
  }

  /** The playlist discipline every playback step keeps: the songs started
      plus the songs waiting stay one sequence, the playlist never grows,
      credits and the browser are untouched, isPlaying is never set and
      the log only grows. */
  predicate Conserves(s: Kiosk, t: Kiosk) {
    && Played(t.effects) + t.playlist == Played(s.effects) + s.playlist
    && |t.playlist| <= |s.playlist|
    && t.credits == s.credits && t.browse == s.browse
    && (t.isPlaying ==> s.isPlaying)
    && Extends(s.effects, t.effects)
  }

  lemma ConservesTrans(a: Kiosk, b: Kiosk, c: Kiosk)
    requires Conserves(a, b) && Conserves(b, c)
    ensures Conserves(a, c)
  {
    assert c.effects[..|a.effects|] == c.effects[..|b.effects|][..|a.effects|];
  }

  function Log(s: Kiosk, e: Effect): (t: Kiosk)
    ensures Played(t.effects) == Played(s.effects) + (if e.Play? then [e.path] else [])
    ensures Extends(s.effects, t.effects)
  {
    PlayedLog(s.effects, e);
    s.(effects := s.effects + [e])
  }

  // ---------------------------------------------------------------------
  // Playback (public/script.js:211-302)
  // ---------------------------------------------------------------------

  /** stopCurrentPlayback: only a video with a source is stopped. Once a
      source has been assigned, even the empty one that this function
      assigns, the element's `src` reads back as a non-empty URL, so
      `srcSet` is never cleared. */
  function StopPlayback(s: Kiosk): (t: Kiosk)
    ensures Conserves(s, t)
    ensures t.srcSet == s.srcSet && t.loop == s.loop
  {
    if s.srcSet then Log(s, Stop) else s
  }

  /** playSong, up to the point where it waits for the video to start. */
  function PlaySong(s: Kiosk, path: string): (t: Kiosk)
    ensures Played(t.effects) == Played(s.effects) + [path] && Extends(s.effects, t.effects)
    ensures t.srcSet
  {
    Log(s, Play(path)).(srcSet := true)
  }

  /** The "up next" list: the first six entries of the playlist. */
  function UpNextWindow(playlist: seq<string>): (w: seq<string>)
    ensures |w| == Min(UpNextSize, |playlist|)
    ensures w == playlist[..|w|]
  {
    playlist[..Min(UpNextSize, |playlist|)]
  }

  function UpdateNextSongs(s: Kiosk): (t: Kiosk)
    ensures Conserves(s, t)
  {
    Log(s, UpNext(UpNextWindow(s.playlist)))
  }

  /** `playlist.shift()` followed by playSong of the entry taken. */
  function ShiftAndPlay(s: Kiosk): (t: Kiosk)
    requires |s.playlist| > 0
    ensures Conserves(s, t)
    ensures t.playlist == s.playlist[1..]
    ensures Played(t.effects) == Played(s.effects) + [s.playlist[0]]
    ensures t.srcSet && t.loop == s.loop
  {
    var next := s.playlist[0];
    assert [next] + s.playlist[1..] == s.playlist;
    PlaySong(s.(playlist := s.playlist[1..]), next)
  }

  /** The non-empty branch of playNextSong: stop, take the front entry,
      start it and redraw the "up next" list. */
  function PlayFront(s: Kiosk): (t: Kiosk)
    requires |s.playlist| > 0
    ensures Conserves(s, t)
    ensures t.playlist == s.playlist[1..]
    ensures Played(t.effects) == Played(s.effects) + [s.playlist[0]]
    ensures t.srcSet && t.loop == s.loop
  {
    var s1 := StopPlayback(s);
    var s2 := ShiftAndPlay(s1);
    var t := UpdateNextSongs(s2);
    ConservesTrans(s, s1, s2);
    ConservesTrans(s, s2, t);
    t
  }

  /** playNextSong. The only song it can start is the front of the
      playlist: the songs started plus the songs waiting stay the same
      sequence. On an empty playlist it hands over to checkCredits. */
  function PlayNext(s: Kiosk): (t: Kiosk)
    ensures Conserves(s, t)
    ensures Inv(s) ==> Inv(t)
    decreases if |s.playlist| == 0 then 2 else 0
  {
    if |s.playlist| > 0 then PlayFront(s)
    else
      var s1 := StopPlayback(s.(isPlaying := false));
      var t := CheckCredits(s1);
      ConservesTrans(s, s1, t);
      t
  }

  /** checkCredits, up to the point where it waits for the promotional
      clip. Without credits the controls go off, and the clip is asked
      for when nothing is waiting; with credits they come back and a
      waiting song is started. */
  function CheckCredits(s: Kiosk): (t: Kiosk)
    ensures Conserves(s, t)
    decreases 1
  {
    if s.credits == 0 then
      var s1 := Log(s, ControlsOff);
      if |s1.playlist| == 0 then
        var t := Log(s1, PromoRequested);
        ConservesTrans(s, s1, t);
        t
      else s1
    else
      var s1 := Log(s, ControlsOn).(loop := false);
      if !s1.isPlaying && |s1.playlist| > 0 then
        var t := PlayNext(s1);
        ConservesTrans(s, s1, t);
        t
      else s1
  }

  // ---------------------------------------------------------------------
  // Credits and the playlist (public/script.js:35-41, 192-209)
  // ---------------------------------------------------------------------

  /** The first branch of addToPlaylist: queue the path, spend a credit,
      checkCredits, redraw the "up next" list and, since nothing is ever
      marked as playing, playNextSong. */
  function Enqueue(s: Kiosk, path: string): (t: Kiosk)
    requires s.credits > 0
    ensures Conserves(s.(playlist := s.playlist + [path], credits := s.credits - 1), t)
    ensures t.credits == s.credits - 1
    ensures Played(t.effects) + t.playlist == Played(s.effects) + s.playlist + [path]
    ensures t.browse == s.browse && (t.isPlaying ==> s.isPlaying) && Extends(s.effects, t.effects)
  {
    var s1 := s.(playlist := s.playlist + [path], credits := s.credits - 1);
    var s2 := CheckCredits(s1);
    var s3 := UpdateNextSongs(s2);
    ConservesTrans(s1, s2, s3);
    if !s3.isPlaying then
      var t := PlayNext(s3);
      ConservesTrans(s1, s3, t);
      t
    else s3
  }

  /** The second branch of addToPlaylist: the overlay, then checkCredits. */
  function RefuseNoCredit(s: Kiosk): (t: Kiosk)
    ensures Conserves(s, t) && Extends(s.effects + [NoCreditOverlay], t.effects)
    ensures s.credits == 0 ==> t.playlist == s.playlist
  {
    var s1 := Log(s, NoCreditOverlay);
    var t := CheckCredits(s1);
    ConservesTrans(s, s1, t);
    t
  }

  /** addToPlaylist. With a credit, the path joins the back of the
      playlist and one credit is spent; without one, only the overlay is
      shown and nothing is queued. */
  function AddToPlaylist(s: Kiosk, path: string): (t: Kiosk)
    ensures s.credits > 0 ==> t.credits == s.credits - 1
    ensures s.credits > 0 ==> Played(t.effects) + t.playlist == Played(s.effects) + s.playlist + [path]
    ensures s.credits == 0 ==> Conserves(s, t) && t.playlist == s.playlist
    ensures s.credits == 0 ==> Extends(s.effects + [NoCreditOverlay], t.effects)
    ensures t.browse == s.browse && (t.isPlaying ==> s.isPlaying) && Extends(s.effects, t.effects)
    ensures Inv(s) ==> Inv(t)
  {
    if s.credits > 0 then Enqueue(s, path) else RefuseNoCredit(s)
  }

  /** The right-click handler: one more credit, then checkCredits. */
  function ContextMenu(s: Kiosk): (t: Kiosk)
    ensures t.credits == s.credits + 1
    ensures Conserves(s.(credits := s.credits + 1), t)
    ensures Inv(s) ==> Inv(t)
  {
    CheckCredits(s.(credits := s.credits + 1))
  }

  /** The left-click handler skips to the next song only while a song is
      playing; since isPlaying is never set, it never does anything. */
  function Click(s: Kiosk, onPageButton: bool): (t: Kiosk)
    ensures Inv(s) ==> t == s
  {
    if |s.playlist| > 0 && s.isPlaying && !onPageButton then PlayNext(StopPlayback(s)) else s
  }

  /** The rest of checkCredits once the promotional clip has been fetched
      (`promo` is None when the fetch failed) and its playback has started
      (`playOk`) or been refused. */
  function PromoSettled(s: Kiosk, promo: Option<string>, playOk: bool): (t: Kiosk)
    ensures Conserves(s, t) && t.playlist == s.playlist
    ensures Inv(s) ==> Inv(t)
    ensures promo.Some? ==> t.loop && t.srcSet
    ensures promo.None? ==> t.effects == s.effects + [Notify("Error al cargar video promocional")]
    ensures promo.Some? && playOk ==> t.effects == s.effects + [LoopPromo(promo.value)] && !t.isPlaying
    ensures promo.Some? && !playOk ==>
              t.effects == s.effects + [LoopPromo(promo.value)] + [Notify("Error al cargar video promocional")]
  {
    match promo
    case None => Log(s, Notify("Error al cargar video promocional"))
    case Some(p) =>
      var s1 := Log(s, LoopPromo(p)).(srcSet := true, loop := true);
      assert Conserves(s, s1);
      if playOk then s1.(isPlaying := false)
      else
        var t := Log(s1, Notify("Error al cargar video promocional"));
        ConservesTrans(s, s1, t);
        t
  }

  // ---------------------------------------------------------------------
  // Catalogue browsing (public/script.js:51-108, 158-177, 336-366)
  // ---------------------------------------------------------------------

  /** Nothing about playback or credits has changed, and the log only
      grows, with no song started. */
  predicate PlaybackSame(s: Kiosk, t: Kiosk) {
    && t.playlist == s.playlist && t.isPlaying == s.isPlaying && t.credits == s.credits
    && t.srcSet == s.srcSet && t.loop == s.loop
    && Played(t.effects) == Played(s.effects) && Extends(s.effects, t.effects)
  }

  predicate IsGenreQuery(genre: string) {
    genre != "" && genre != AllGenres
  }

  /** fetchSongs: a real genre is paged by the main process, anything else
      is paged locally out of allSongs, 26 songs a page. */
  function FetchSongs(s: Kiosk, page: int, genre: string): (t: Kiosk)
    ensures PlaybackSame(s, t)
    ensures t.browse == s.browse.(songsData := t.browse.songsData, totalPages := t.browse.totalPages, currentPage := page)
    ensures !IsGenreQuery(genre) ==> var r := Paginate(s.browse.allSongs, page, PageSize);
      t.browse.songsData == r.songs && t.browse.totalPages == r.totalPages
    ensures |t.browse.songsData| <= PageSize && t.browse.totalPages >= 0
  {
    var b := s.browse;
    var data := if IsGenreQuery(genre) then GetSongs(b.catalogue, page, PageSize, genre)
                else Paginate(b.allSongs, page, PageSize);
    var b' := b.(songsData := data.songs, totalPages := data.totalPages, currentPage := page);
    Log(s.(browse := b'), Render(b'.songsData))
  }

  /** The previous-page key and button: back one page, never below 1. */
  function PrevPage(s: Kiosk): (t: Kiosk)
    ensures PlaybackSame(s, t)
    ensures Inv(s) ==> Inv(t)
    ensures var p := s.browse.currentPage;
      && t.browse.currentPage == (if p > 1 then p - 1 else p)
      && (p > 1 ==> var r := Paginate(s.browse.allSongs, p - 1, PageSize);
                    t.browse.songsData == r.songs && t.browse.totalPages == r.totalPages)
      && (p <= 1 ==> t == s)
  {
    var p := s.browse.currentPage;
    if p > 1 then FetchSongs(s.(browse := s.browse.(currentPage := p - 1)), p - 1, "") else s
  }

  /** The next-page key and button: on one page, never past totalPages. */
  function NextPage(s: Kiosk): (t: Kiosk)
    ensures PlaybackSame(s, t)
    ensures Inv(s) ==> Inv(t)
    ensures var p := s.browse.currentPage;
      && t.browse.currentPage == (if p < s.browse.totalPages then p + 1 else p)
      && (p < s.browse.totalPages ==> var r := Paginate(s.browse.allSongs, p + 1, PageSize);
                                      t.browse.songsData == r.songs && t.browse.totalPages == r.totalPages)
      && (p >= s.browse.totalPages ==> t == s)
  {
    var p := s.browse.currentPage;
    if p < s.browse.totalPages then FetchSongs(s.(browse := s.browse.(currentPage := p + 1)), p + 1, "") else s
  }

  /** The genre keys: the genre at index i, from its first page. */
  function SelectGenre(s: Kiosk, i: int): (t: Kiosk)
    requires 0 <= i < |s.browse.genres|
    ensures PlaybackSame(s, t)
    ensures t.browse.genreIndex == i && t.browse.currentGenre == s.browse.genres[i] && t.browse.currentPage == 1
    ensures t.browse.genres == s.browse.genres && t.browse.allSongs == s.browse.allSongs
    ensures t.browse.search == s.browse.search
    ensures Inv(s) ==> Inv(t)
  {
    var genre := s.browse.genres[i];
    FetchSongs(s.(browse := s.browse.(genreIndex := i, currentGenre := genre, currentPage := 1)), 1, genre)
  }

  /** The previous-genre key: one genre back, never before the first. */
  function PrevGenre(s: Kiosk): (t: Kiosk)
    requires Inv(s)
    ensures Inv(t) && PlaybackSame(s, t)
    ensures var i := s.browse.genreIndex;
      && t.browse.genreIndex == (if i > 0 then i - 1 else i)
      && (i > 0 ==> t.browse.currentPage == 1 && t.browse.currentGenre == s.browse.genres[i - 1])
  {
    var i := s.browse.genreIndex;
    if i > 0 then SelectGenre(s, i - 1) else s
  }

  /** The next-genre key: one genre on, never past the last. */
  function NextGenre(s: Kiosk): (t: Kiosk)
    requires Inv(s)
    ensures Inv(t) && PlaybackSame(s, t)
    ensures var i := s.browse.genreIndex;
      && t.browse.genreIndex == (if i < |s.browse.genres| - 1 then i + 1 else i)
      && (i < |s.browse.genres| - 1 ==> t.browse.currentPage == 1 && t.browse.currentGenre == s.browse.genres[i + 1])
  {
    var i := s.browse.genreIndex;
    if i < |s.browse.genres| - 1 then SelectGenre(s, i + 1) else s
  }

  /** `find` by id: the first song whose id is `id`. */
  function FindById(songs: seq<Song>, id: string): (r: Option<Song>)
    ensures r.Some? ==> exists k :: 0 <= k < |songs| && songs[k] == r.value && r.value.id == id
                          && forall j :: 0 <= j < k ==> songs[j].id != id
    ensures r.None? ==> forall k :: 0 <= k < |songs| ==> songs[k].id != id
  {
    if songs == [] then None
    else if songs[0].id == id then Some(songs[0])
    else
      var r := FindById(songs[1..], id);
      if r.Some? then
        var k :| 0 <= k < |songs[1..]| && songs[1..][k] == r.value && r.value.id == id
                 && forall j :: 0 <= j < k ==> songs[1..][j].id != id;
        assert songs[k + 1] == r.value;
        assert forall j :: 1 <= j < k + 1 ==> songs[j].id == songs[1..][j - 1].id;
        r
      else r
  }

  /** The lookup of a five-character entry: the first song with that id
      is queued with addToPlaylist and announced, or the entry is
      reported missing. */
  function EnterId(s: Kiosk, id: string): (t: Kiosk)
    ensures t.browse == s.browse && Extends(s.effects, t.effects)
    ensures Inv(s) ==> Inv(t)
    ensures match FindById(s.browse.allSongs, id)
      case Some(song) =>
        var a := AddToPlaylist(s, song.path);
        t.credits == a.credits && t.playlist == a.playlist && t.isPlaying == a.isPlaying
          && Played(t.effects) == Played(a.effects)
      case None =>
        t.playlist == s.playlist && t.credits == s.credits && t.isPlaying == s.isPlaying
          && Played(t.effects) == Played(s.effects) && t.effects == s.effects + [Notify("Canción no encontrada")]
  {
    match FindById(s.browse.allSongs, id)
    case Some(song) =>
      var a := AddToPlaylist(s, song.path);
      var t := Log(a, Notify("Canción " + song.title + " añadida"));
      assert t.effects[..|s.effects|] == t.effects[..|a.effects|][..|s.effects|];
      t
    case None => Log(s, Notify("Canción no encontrada"))
  }

  /** The search box's input handler: a five-character entry is looked
      up, and the box is emptied; any other length does nothing. */
  function Input(s: Kiosk): (t: Kiosk)
    ensures Inv(s) ==> Inv(t)
    ensures |s.browse.search| != 5 ==> t == s
    ensures |s.browse.search| == 5 ==>
      var e := EnterId(s, Lower(s.browse.search));
      && t.browse == s.browse.(search := "")
      && t.playlist == e.playlist && t.credits == e.credits && t.isPlaying == e.isPlaying
      && Played(t.effects) == Played(e.effects) && Extends(e.effects, t.effects)
  {
    var query := Lower(s.browse.search);
    if |query| == 5 then
      var s1 := EnterId(s, query);
      Log(s1.(browse := s1.browse.(search := "")), Render(s1.browse.songsData))
    else s
  }

  /** The keys the keydown handler tells apart. */
  datatype Key = Digit(digit: char) | GenreBack | GenreForward | PageBack | PageForward | Enter | Other

  function KeyOf(key: string): Key {
    if |key| == 1 && '0' <= key[0] <= '9' then Digit(key[0])
    else if key == "-" then GenreBack
    else if key == "+" then GenreForward
    else if key == "/" then PageBack
    else if key == "*" then PageForward
    else if key == "Enter" then Enter
    else Other
  }

  /** The keydown handler. Digits go into the search box, "-" and "+"
      step through the genres, "/" and "*" through the pages of the whole
      catalogue, and Enter removes the last character of the search box.
      The "." key only arms a timer (left out) and every other key is
      swallowed. */
  function Press(s: Kiosk, k: Key): (t: Kiosk)
    requires Inv(s)
    ensures Inv(t)
  {
    var b := s.browse;
    match k
    case Digit(d) => Input(s.(browse := b.(search := b.search + [d])))
    case GenreBack => PrevGenre(s)
    case GenreForward => NextGenre(s)
    case PageBack => PrevPage(s)
    case PageForward => NextPage(s)
    case Enter => if |b.search| > 0 then Input(s.(browse := b.(search := b.search[..|b.search| - 1]))) else s
    case Other => s
  }

  function KeyDown(s: Kiosk, key: string): (t: Kiosk)
    requires Inv(s)
    ensures Inv(t)
  {
    Press(s, KeyOf(key))
  }

  // ---------------------------------------------------------------------
  // Start-up (public/script.js:117-156, 368-380)
  // ---------------------------------------------------------------------

  /** fetchAllSongs, given what `getAllSongs` answered (None: it threw). */
  function FetchAllSongs(s: Kiosk, answer: Option<seq<Song>>): (t: Kiosk)
    ensures PlaybackSame(s, t)
    ensures answer.Some? ==> t.browse == s.browse.(allSongs := answer.value, totalPages := CeilDiv(|answer.value|, PageSize))
    ensures answer.None? ==> t.browse == s.browse
  {
    match answer
    case Some(songs) =>
      var s1 := s.(browse := s.browse.(allSongs := songs, totalPages := CeilDiv(|songs|, PageSize)));
      if |songs| == 0 then Log(s1, Notify("No hay canciones disponibles")) else s1
    case None => Log(s, Notify("Error al cargar canciones"))
  }

  /** fetchGenres, given what `getGenres` answered (None: the bridge is
      missing or the call threw). An empty or failed answer leaves the one
      genre "Todos". */
  function FetchGenres(s: Kiosk, answer: Option<seq<string>>): (t: Kiosk)
    ensures PlaybackSame(s, t)
    ensures t.browse.genres == (if answer.Some? && |answer.value| > 0 then answer.value else [AllGenres])
    ensures t.browse.currentGenre == t.browse.genres[0]
    ensures answer.Some? ==> t.browse.genreIndex == 0
    ensures answer.None? ==> t.browse.genreIndex == s.browse.genreIndex
    ensures t.browse == s.browse.(genres := t.browse.genres, genreIndex := t.browse.genreIndex, currentGenre := t.browse.currentGenre)
  {
    match answer
    case Some(g) =>
      var gs := if |g| == 0 then [AllGenres] else g;
      s.(browse := s.browse.(genres := gs, genreIndex := 0, currentGenre := gs[0]))
    case None =>
      var s1 := Log(s, Notify("Error al cargar géneros"));
      s1.(browse := s1.browse.(genres := [AllGenres], currentGenre := AllGenres))
  }

  /** The page once fetchAllSongs and fetchGenres have answered. */
  function Loaded(parsed: Option<seq<Song>>, songsAnswer: Option<seq<Song>>, genresAnswer: Option<seq<string>>): (t: Kiosk)
    ensures Inv(t) && t.credits == 1 && t.playlist == [] && Played(t.effects) == []
    ensures |t.browse.genres| >= 1 && t.browse.genreIndex == 0 && t.browse.currentGenre == t.browse.genres[0]
    ensures t.browse.allSongs == (if songsAnswer.Some? then songsAnswer.value else [])
    ensures t.browse.currentPage == 1
    ensures t.browse.catalogue == LoadCatalogue(parsed)
    ensures t.browse.search == ""
  {
    var s0 := Initial(parsed);
    assert Played(s0.effects) == [];
    var s1 := FetchAllSongs(s0, songsAnswer);
    assert s1.browse.currentPage == 1 && s1.browse.genreIndex == 0 && Played(s1.effects) == [];
    FetchGenres(s1, genresAnswer)
  }

  /** initializeApp on a freshly loaded page: all songs, the genres, then
      the first page of the whole catalogue. */
  function Initialize(parsed: Option<seq<Song>>, songsAnswer: Option<seq<Song>>, genresAnswer: Option<seq<string>>): (t: Kiosk)
    ensures Inv(t) && t.credits == 1 && t.playlist == [] && Played(t.effects) == []
    ensures |t.browse.genres| >= 1 && t.browse.genreIndex == 0 && t.browse.currentGenre == t.browse.genres[0]
    ensures t.browse.allSongs == (if songsAnswer.Some? then songsAnswer.value else [])
    ensures t.browse.currentPage == 1
    ensures t.browse.catalogue == LoadCatalogue(parsed)
    ensures t.browse.search == ""
    ensures t.browse.songsData == Paginate(t.browse.allSongs, 1, PageSize).songs
  {
    var s := Loaded(parsed, songsAnswer, genresAnswer);
    FetchSongs(s, s.browse.currentPage, "")
  }

  // ---------------------------------------------------------------------
  // Events
  // ---------------------------------------------------------------------

  /** What can happen to the page once it has started: the user's clicks
      and keys, the end or refusal of a song's playback, and the arrival
      of the promotional clip that checkCredits asked for. */
  datatype Event =
    | RightClick
    | LeftClick(onPageButton: bool)
    | Key(key: string)
    | PrevButton
    | NextButton
    | VideoEnded
    | PlayRefused
    | PromoLoaded(promo: Option<string>, playOk: bool)

  function Handle(s: Kiosk, e: Event): (t: Kiosk)
    requires Inv(s)
    ensures Inv(t)
  {
    match e
    case RightClick => ContextMenu(s)
    case LeftClick(onPageButton) => Click(s, onPageButton)
    case Key(key) => KeyDown(s, key)
    case PrevButton => PrevPage(s)
    case NextButton => NextPage(s)
    case VideoEnded => PlayNext(s)
    case PlayRefused => PlayNext(s)
    case PromoLoaded(promo, playOk) => PromoSettled(s, promo, playOk)
  }
}
