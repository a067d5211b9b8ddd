/*
 * What the handlers of public/script.js do when they are run in the
 * order the page runs them: the exact effects of one queued song, the
 * empty playlist that every run keeps, and the paging of the catalogue.
 */
module Session {
  import opened Wrappers
  import opened Order
  import opened Catalog
  import opened Engine

  /** The Stop that stopCurrentPlayback logs, if the video has a source. */
  function StopIf(srcSet: bool): (r: seq<Effect>)
    ensures r == [] || r == [Stop]
  {
    if srcSet then [Stop] else []
  }

  // ---------------------------------------------------------------------
  // playNextSong and checkCredits on a playlist of at most one song
  // ---------------------------------------------------------------------

  lemma StopIsLogged(s: Kiosk)
    ensures StopPlayback(s) == s.(effects := s.effects + StopIf(s.srcSet))
  {
  }

  lemma ShiftOnlySong(s: Kiosk, p: string)
    requires s.playlist == [p]
    ensures ShiftAndPlay(s) == s.(playlist := [], srcSet := true, effects := s.effects + [Play(p)])
  {
  }

  /** A playlist of at most six songs is shown whole in the "up next"
      list. */
  lemma RedrawShort(s: Kiosk)
    requires |s.playlist| <= UpNextSize
    ensures UpdateNextSongs(s) == s.(effects := s.effects + [UpNext(s.playlist)])
  {
    assert s.playlist[..|s.playlist|] == s.playlist;
  }

  /** playNextSong with one waiting song starts it and redraws an empty
      "up next" list. */
  lemma PlayOnlySong(s: Kiosk, p: string)
    requires s.playlist == [p]
    ensures PlayNext(s) == s.(playlist := [], srcSet := true,
                              effects := s.effects + StopIf(s.srcSet) + [Play(p)] + [UpNext([])])
  {
    StopIsLogged(s);
    var s1 := StopPlayback(s);
    ShiftOnlySong(s1, p);
    var s2 := ShiftAndPlay(s1);
    RedrawShort(s2);
    assert PlayNext(s) == PlayFront(s) == UpdateNextSongs(s2);
  }

  /** playNextSong on an empty playlist with credits left: the video is
      stopped and the controls come back. */
  lemma IdleWithCredits(s: Kiosk)
    requires s.playlist == [] && s.credits != 0
    ensures PlayNext(s) == s.(isPlaying := false, loop := false,
                              effects := s.effects + StopIf(s.srcSet) + [ControlsOn])
  {
    var s1 := StopPlayback(s.(isPlaying := false));
    assert s1 == s.(isPlaying := false, effects := s.effects + StopIf(s.srcSet));
    assert CheckCredits(s1) == Log(s1, ControlsOn).(loop := false);
  }

  /** playNextSong on an empty playlist without credits: the video is
      stopped, the controls go off and the promotional clip is asked for. */
  lemma IdleWithoutCredits(s: Kiosk)
    requires s.playlist == [] && s.credits == 0
    ensures PlayNext(s) == s.(isPlaying := false,
                              effects := s.effects + StopIf(s.srcSet) + [ControlsOff] + [PromoRequested])
  {
    var s1 := StopPlayback(s.(isPlaying := false));
    assert s1 == s.(isPlaying := false, effects := s.effects + StopIf(s.srcSet));
    CheckCreditsAsksForPromo(s1);
  }

  /** On an empty playlist playNextSong leaves the playlist empty and
      isPlaying false, and calling it again changes nothing but the log. */
  lemma PlayNextSettles(s: Kiosk)
    requires s.playlist == []
    ensures var t := PlayNext(s);
      && t.playlist == [] && !t.isPlaying
      && Played(t.effects) == Played(s.effects)
      && PlayNext(t).(effects := t.effects) == t
  {
    var t := PlayNext(s);
    if s.credits != 0 {
      IdleWithCredits(s);
      IdleWithCredits(t);
    } else {
      IdleWithoutCredits(s);
      IdleWithoutCredits(t);
    }
  }

  /** checkCredits without credits on an empty playlist turns the controls
      off and asks for the promotional clip, and does nothing else. */
  lemma CheckCreditsAsksForPromo(s: Kiosk)
    requires s.credits == 0 && s.playlist == []
    ensures CheckCredits(s) == s.(effects := s.effects + [ControlsOff] + [PromoRequested])
  {
  }

  /** checkCredits with credits and a waiting song starts the front of
      the playlist. */
  lemma CheckCreditsResumes(s: Kiosk)
    requires s.credits > 0 && |s.playlist| > 0 && !s.isPlaying
    ensures var t := CheckCredits(s);
      && Played(t.effects) == Played(s.effects) + [s.playlist[0]]
      && t.playlist == s.playlist[1..] && !t.loop && t.srcSet
  {
    CheckCreditsWithCredits(s);
    var c := Log(s, ControlsOn).(loop := false);
    assert c.playlist == s.playlist && Played(c.effects) == Played(s.effects) && !c.loop;
    assert PlayNext(c) == PlayFront(c);
  }

  // ---------------------------------------------------------------------
  // One call of addToPlaylist on an empty playlist
  // ---------------------------------------------------------------------

  /** addToPlaylist with a credit, unfolded into its steps. */
  lemma EnqueueSteps(s: Kiosk, p: string)
    requires s.credits > 0
    ensures var s3 := UpdateNextSongs(CheckCredits(s.(playlist := s.playlist + [p], credits := s.credits - 1)));
      AddToPlaylist(s, p) == if !s3.isPlaying then PlayNext(s3) else s3
  {
  }

  lemma CheckCreditsWithCredits(s: Kiosk)
    requires s.credits != 0
    ensures var c := Log(s, ControlsOn).(loop := false);
      CheckCredits(s) == if !s.isPlaying && |s.playlist| > 0 then PlayNext(c) else c
  {
  }

  lemma CheckCreditsWaiting(s: Kiosk)
    requires s.credits == 0 && |s.playlist| > 0
    ensures CheckCredits(s) == Log(s, ControlsOff)
  {
  }

  /** addToPlaylist with a credit on an empty playlist: checkCredits on
      the one queued song, the redraw, and the final playNextSong. */
  lemma EnqueueOnEmpty(s: Kiosk, p: string)
    requires s.credits > 0 && s.playlist == [] && !s.isPlaying
    ensures AddToPlaylist(s, p) == PlayNext(UpdateNextSongs(CheckCredits(s.(playlist := [p], credits := s.credits - 1))))
  {
    assert s.playlist + [p] == [p];
    EnqueueSteps(s, p);
  }

  /** checkCredits with credits left and one song waiting starts it. */
  lemma ResumeOnlySong(s: Kiosk, p: string)
    requires s.credits > 0 && s.playlist == [p] && !s.isPlaying
    ensures CheckCredits(s) == s.(playlist := [], srcSet := true, loop := false,
                                  effects := s.effects + [ControlsOn] + StopIf(s.srcSet) + [Play(p)] + [UpNext([])])
  {
    CheckCreditsWithCredits(s);
    PlayOnlySong(Log(s, ControlsOn).(loop := false), p);
  }

  /** With two credits or more, checkCredits starts the new song at once,
      and the playNextSong at the end of addToPlaylist, finding the
      playlist empty again, stops it. */
  lemma AddPreempts(s: Kiosk, p: string)
    requires s.credits >= 2 && s.playlist == [] && !s.isPlaying
    ensures AddToPlaylist(s, p) == s.(credits := s.credits - 1, srcSet := true, loop := false,
      effects := s.effects + [ControlsOn] + StopIf(s.srcSet) + [Play(p)] + [UpNext([])] + [UpNext([])] + [Stop] + [ControlsOn])
  {
    EnqueueOnEmpty(s, p);
    ResumeOnlySong(s.(playlist := [p], credits := s.credits - 1), p);
    var s2 := s.(credits := s.credits - 1, srcSet := true, loop := false,
                 effects := s.effects + [ControlsOn] + StopIf(s.srcSet) + [Play(p)] + [UpNext([])]);
    RedrawShort(s2);
    IdleWithCredits(s2.(effects := s2.effects + [UpNext([])]));
  }

  /** With the last credit, checkCredits turns the controls off and leaves
      the song waiting; the playNextSong at the end of addToPlaylist then
      starts it. */
  lemma AddLastCredit(s: Kiosk, p: string)
    requires s.credits == 1 && s.playlist == [] && !s.isPlaying
    ensures AddToPlaylist(s, p) == s.(credits := 0, srcSet := true,
      effects := s.effects + [ControlsOff] + [UpNext([p])] + StopIf(s.srcSet) + [Play(p)] + [UpNext([])])
  {
    EnqueueOnEmpty(s, p);
    var s1 := s.(playlist := [p], credits := 0);
    CheckCreditsWaiting(s1);
    RedrawShort(Log(s1, ControlsOff));
    PlayOnlySong(s1.(effects := s.effects + [ControlsOff] + [UpNext([p])]), p);
  }

  /** Without credits nothing is queued: the overlay, then the promotional
      clip is asked for. */
  lemma AddRefused(s: Kiosk, p: string)
    requires s.credits == 0 && s.playlist == []
    ensures AddToPlaylist(s, p) == s.(effects := s.effects + [NoCreditOverlay] + [ControlsOff] + [PromoRequested])
  {
    CheckCreditsAsksForPromo(Log(s, NoCreditOverlay));
  }

  /** Whatever the credits, addToPlaylist on an empty playlist leaves it
      empty: a song is never left waiting. */
  lemma AddFromEmpty(s: Kiosk, p: string)
    requires Inv(s) && s.playlist == []
    ensures AddToPlaylist(s, p).playlist == []
  {
    if s.credits >= 2 {
      AddPreempts(s, p);
    } else if s.credits == 1 {
      AddLastCredit(s, p);
    }
  }

  // ---------------------------------------------------------------------
  // Direct entry and the keys
  // ---------------------------------------------------------------------

  /** A five-character entry naming a song, with a credit left, queues
      that song's path and spends the credit; the search box is emptied. */
  lemma DirectEntryQueues(s: Kiosk, song: Song)
    requires |s.browse.search| == 5 && s.credits > 0
    requires FindById(s.browse.allSongs, Lower(s.browse.search)) == Some(song)
    ensures var t := Input(s);
      && t.credits == s.credits - 1
      && Played(t.effects) + t.playlist == Played(s.effects) + s.playlist + [song.path]
      && t.browse == s.browse.(search := "")
  {
  }

  /** A five-character entry naming no song queues nothing, spends
      nothing, reports the song missing and empties the search box. */
  lemma DirectEntryMissing(s: Kiosk)
    requires |s.browse.search| == 5
    requires FindById(s.browse.allSongs, Lower(s.browse.search)).None?
    ensures var t := Input(s);
      && t.credits == s.credits && t.playlist == s.playlist
      && |t.effects| > |s.effects| && t.effects[|s.effects|] == Notify("Canción no encontrada")
      && t.browse == s.browse.(search := "")
  {
    var e := EnterId(s, Lower(s.browse.search));
    assert e.effects == s.effects + [Notify("Canción no encontrada")];
    assert Input(s).effects[..|e.effects|] == e.effects;
  }

  lemma InputFromEmpty(s: Kiosk)
    requires Inv(s) && s.playlist == []
    ensures Input(s).playlist == []
  {
    if |s.browse.search| == 5 {
      match FindById(s.browse.allSongs, Lower(s.browse.search))
      case Some(song) => AddFromEmpty(s, song.path);
      case None =>
    }
  }

  lemma KeyDownFromEmpty(s: Kiosk, key: string)
    requires Inv(s) && s.playlist == []
    ensures KeyDown(s, key).playlist == []
  {
    var b := s.browse;
    match KeyOf(key)
    case Digit(d) => InputFromEmpty(s.(browse := b.(search := b.search + [d])));
    case Enter => if |b.search| > 0 { InputFromEmpty(s.(browse := b.(search := b.search[..|b.search| - 1]))); }
    case _ =>
  }

  /** The "/" key goes back one page, never before the first, and always
      pages the whole catalogue. */
  lemma PageBackKey(s: Kiosk)
    requires Inv(s)
    ensures var p := s.browse.currentPage; var t := KeyDown(s, "/");
      && t.browse.currentPage == (if p > 1 then p - 1 else p)
      && (p > 1 ==> t.browse.songsData == Paginate(s.browse.allSongs, p - 1, PageSize).songs)
  {
    assert KeyOf("/") == PageBack;
  }

  /** The "*" key goes on one page, never past the last, and always pages
      the whole catalogue. */
  lemma PageForwardKey(s: Kiosk)
    requires Inv(s)
    ensures var p := s.browse.currentPage; var t := KeyDown(s, "*");
      && t.browse.currentPage == (if p < s.browse.totalPages then p + 1 else p)
      && (p < s.browse.totalPages ==> t.browse.songsData == Paginate(s.browse.allSongs, p + 1, PageSize).songs)
  {
    assert KeyOf("*") == PageForward;
  }

  /** The "-" key steps back one genre, never below the first, and shows
      that genre from its first page. */
  lemma GenreBackKey(s: Kiosk)
    requires Inv(s)
    ensures var i := s.browse.genreIndex; var t := KeyDown(s, "-");
      && t.browse.genreIndex == (if i > 0 then i - 1 else i)
      && (i > 0 ==> t.browse.currentPage == 1 && t.browse.currentGenre == s.browse.genres[i - 1])
  {
    assert KeyOf("-") == GenreBack;
  }

  /** The "+" key steps on one genre, never past the last, and shows that
      genre from its first page. */
  lemma GenreForwardKey(s: Kiosk)
    requires Inv(s)
    ensures var i := s.browse.genreIndex; var t := KeyDown(s, "+");
      && t.browse.genreIndex == (if i < |s.browse.genres| - 1 then i + 1 else i)
      && (i < |s.browse.genres| - 1 ==> t.browse.currentPage == 1 && t.browse.currentGenre == s.browse.genres[i + 1])
  {
    assert KeyOf("+") == GenreForward;
  }

  /** A digit key appends the digit to the search box. Below four
      characters that is all it does; the fifth digit fires the lookup of
      the whole entry, which empties the box. */
  lemma DigitKey(s: Kiosk, d: char)
    requires Inv(s) && '0' <= d <= '9'
    ensures var b := s.browse; var typed := s.(browse := b.(search := b.search + [d]));
      && (|b.search| < 4 ==> KeyDown(s, [d]) == typed)
      && (|b.search| == 4 ==> KeyDown(s, [d]) == Input(typed) && KeyDown(s, [d]).browse.search == "")
  {
    assert KeyOf([d]) == Digit(d);
  }

  /** Enter removes the last character of the search box, and does
      nothing to an empty one. */
  lemma EnterKey(s: Kiosk)
    requires Inv(s)
    ensures var q := s.browse.search;
      && (q == [] ==> KeyDown(s, "Enter") == s)
      && (0 < |q| <= 5 ==> KeyDown(s, "Enter") == s.(browse := s.browse.(search := q[..|q| - 1])))
  {
    assert KeyOf("Enter") == Enter;
  }

  /** Typing the fifth digit of an id that names a song, with a credit
      left, queues that song's path, spends the credit and empties the
      box. */
  lemma TypeFifthDigit(s: Kiosk, d: char, song: Song)
    requires Inv(s) && '0' <= d <= '9' && |s.browse.search| == 4 && s.credits > 0
    requires FindById(s.browse.allSongs, Lower(s.browse.search + [d])) == Some(song)
    ensures var t := KeyDown(s, [d]);
      && t.credits == s.credits - 1
      && Played(t.effects) + t.playlist == Played(s.effects) + s.playlist + [song.path]
      && t.browse == s.browse.(search := "")
  {
    var typed := s.(browse := s.browse.(search := s.browse.search + [d]));
    DigitKey(s, d);
    DirectEntryQueues(typed, song);
  }

  // ---------------------------------------------------------------------
  // Whole runs
  // ---------------------------------------------------------------------

  /** The events of a run, handled one after the other. */
  function Run(s: Kiosk, events: seq<Event>): (t: Kiosk)
    requires Inv(s)
    ensures Inv(t)
    decreases |events|
  {
    if events == [] then s else Run(Handle(s, events[0]), events[1..])
  }

  /** No event leaves a song waiting in an empty playlist. */
  lemma HandleFromEmpty(s: Kiosk, e: Event)
    requires Inv(s) && s.playlist == []
    ensures Handle(s, e).playlist == []
  {
    match e
    case Key(key) => KeyDownFromEmpty(s, key);
    case _ =>
  }

  /** After start-up and any run of events, credits are not negative,
      nothing is marked as playing and no song waits in the playlist:
      every queued song is started, or preempted, by the call that queued
      it. */
  lemma {:induction false} PlaylistAlwaysEmpty(s: Kiosk, events: seq<Event>)
    requires Inv(s) && s.playlist == []
    ensures var t := Run(s, events); t.playlist == [] && t.credits >= 0 && !t.isPlaying
    decreases |events|
  {
    if events != [] {
      HandleFromEmpty(s, events[0]);
      PlaylistAlwaysEmpty(Handle(s, events[0]), events[1..]);
    }
  }

  /** No key takes a search box of at most four characters past four: only
      digits make it longer, and the fifth digit empties it. */
  lemma PressKeepsSearchShort(s: Kiosk, k: Key)
    requires Inv(s) && |s.browse.search| <= 4
    ensures |Press(s, k).browse.search| <= 4
  {
    var b := s.browse;
    match k
    case Digit(d) =>
      var typed := s.(browse := b.(search := b.search + [d]));
      assert |Lower(typed.browse.search)| == |typed.browse.search|;
    case Enter =>
      if |b.search| > 0 {
        var cut := s.(browse := b.(search := b.search[..|b.search| - 1]));
        assert |Lower(cut.browse.search)| == |cut.browse.search|;
      }
    case GenreBack =>
    case GenreForward =>
    case PageBack =>
    case PageForward =>
    case Other =>
  }

  /** No event takes a search box of at most four characters past four. */
  lemma HandleKeepsSearchShort(s: Kiosk, e: Event)
    requires Inv(s) && |s.browse.search| <= 4
    ensures |Handle(s, e).browse.search| <= 4
  {
    if e.Key? {
      PressKeepsSearchShort(s, KeyOf(e.key));
    }
  }

  /** Between events the search box never holds a whole entry. */
  lemma {:induction false} SearchStaysShort(s: Kiosk, events: seq<Event>)
    requires Inv(s) && |s.browse.search| <= 4
    ensures |Run(s, events).browse.search| <= 4
    decreases |events|
  {
    if events != [] {
      HandleKeepsSearchShort(s, events[0]);
      SearchStaysShort(Handle(s, events[0]), events[1..]);
    }
  }

  lemma SessionKeepsQueueEmpty(parsed: Option<seq<Song>>, songs: Option<seq<Song>>, genres: Option<seq<string>>, events: seq<Event>)
    ensures Run(Initialize(parsed, songs, genres), events).playlist == []
    ensures |Run(Initialize(parsed, songs, genres), events).browse.search| <= 4
  {
    PlaylistAlwaysEmpty(Initialize(parsed, songs, genres), events);
    SearchStaysShort(Initialize(parsed, songs, genres), events);
  }

  // ---------------------------------------------------------------------
  // The local pages
  // ---------------------------------------------------------------------

  /** Page p of the whole catalogue is the slice of 26 songs starting at
      (p - 1) * 26, cut short at the end. */
  lemma LocalPageIsSlice(s: Kiosk, p: int)
    requires p >= 1
    ensures var t := FetchSongs(s, p, ""); var all := s.browse.allSongs;
      t.browse.songsData == (if (p - 1) * PageSize < |all| then all[(p - 1) * PageSize..Min(p * PageSize, |all|)] else [])
  {
    var all := s.browse.allSongs;
    PageIsSlice(all, p, PageSize);
    TimesIsProduct(p - 1, PageSize);
    SliceFromZero(all, (p - 1) * PageSize, (p - 1) * PageSize + PageSize);
  }

  /** A real genre is paged by the main process: the page is the
      get-songs answer for that genre, and every song on it has it. */
  lemma GenrePageFromMain(s: Kiosk, page: int, genre: string)
    requires IsGenreQuery(genre)
    ensures var t := FetchSongs(s, page, genre); var r := GetSongs(s.browse.catalogue, page, PageSize, genre);
      && t.browse.songsData == r.songs && t.browse.totalPages == r.totalPages
      && forall x :: x in t.browse.songsData ==> x.genre == genre
  {
    GetSongsGenre(s.browse.catalogue, page, PageSize, genre);
  }

  /** Started without a readable db.json, the page shows no song and no
      page for any genre it asks the main process about. */
  lemma StartWithoutDb(songs: Option<seq<Song>>, genres: Option<seq<string>>, page: int, genre: string)
    requires IsGenreQuery(genre)
    ensures var t := FetchSongs(Initialize(None, songs, genres), page, genre);
      t.browse.songsData == [] && t.browse.totalPages == 0
  {
    var s := Initialize(None, songs, genres);
    GenrePageFromMain(s, page, genre);
    EmptyFallback(page, PageSize, genre);
  }

  /** Walking the local pages from 1 to totalPages shows every song of
      allSongs once, in order. */
  lemma LocalPagesCoverAllSongs(s: Kiosk)
    ensures PagesThrough(s.browse.allSongs, PageSize, FetchSongs(s, 1, "").browse.totalPages) == s.browse.allSongs
  {
    AllPagesRebuildList(s.browse.allSongs, PageSize);
  }
}
