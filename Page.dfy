/*
 * The page of public/script.js as an object: its module-level variables
 * are the fields of one Jukebox, and each handler updates them in place,
 * in the order the script does. Every method is proved to leave exactly
 * the state that the matching function of Engine describes, so that the
 * properties proved in Engine and Session hold of the object.
 */
module Page {
  import opened Wrappers
  import opened Order
  import opened Catalog
  import Engine

  class Jukebox {
    /** What the main process parsed from db.json at start-up, and the
        catalogue it answers `get-songs` from. */
    ghost const parsed: Option<seq<Song>>
    const catalogue: seq<Song>

    var allSongs: seq<Song>
    var songsData: seq<Song>
    var currentPage: int
    var totalPages: int
    var currentGenre: string
    var genres: seq<string>
    var genreIndex: int
    /** The value of the search box. */
    var search: string

    var playlist: seq<string>
    var isPlaying: bool
    var credits: int
    /** Whether the video element's `src` is truthy, and its loop flag. */
    var srcSet: bool
    var loop: bool
    /** What the page has shown and played so far. */
    var effects: seq<Engine.Effect>

    function Browse(): Engine.Browser
      reads this
    {
      Engine.Browser(catalogue, allSongs, songsData, currentPage, totalPages,
                     currentGenre, genres, genreIndex, search)
    }

    /** The page's variables as one value. */
    function State(): Engine.Kiosk
      reads this
    {
      Engine.Kiosk(Browse(), playlist, isPlaying, credits, srcSet, loop, effects)
    }

    ghost predicate Valid()
      reads this
    {
      Engine.Inv(State())
    }

    constructor (parsed: Option<seq<Song>>)
      ensures this.parsed == parsed
      ensures State() == Engine.Initial(parsed) && Valid()
    {
      this.parsed := parsed;
      this.catalogue := LoadCatalogue(parsed);
      allSongs, songsData := [], [];
      currentPage, totalPages := 1, 1;
      currentGenre, genres, genreIndex := "", [], 0;
      search := "";
      playlist, isPlaying, credits := [], false, 1;
      srcSet, loop := false, false;
      effects := [];
    }

    method Emit(e: Engine.Effect)
      modifies this
      ensures State() == Engine.Log(old(State()), e)
    {
      effects := effects + [e];
    }

    // -------------------------------------------------------------------
    // Playback
    // -------------------------------------------------------------------

    method StopCurrentPlayback()
      modifies this
      ensures State() == Engine.StopPlayback(old(State()))
    {
      if srcSet {
        Emit(Engine.Stop);
      }
    }

    method PlaySong(path: string)
      modifies this
      ensures State() == Engine.PlaySong(old(State()), path)
    {
      Emit(Engine.Play(path));
      srcSet := true;
    }

    method UpdateNextSongs()
      modifies this
      ensures State() == Engine.UpdateNextSongs(old(State()))
    {
      Emit(Engine.UpNext(Engine.UpNextWindow(playlist)));
    }

    method PlayNextSong()
      modifies this
      ensures State() == Engine.PlayNext(old(State()))
      decreases if |playlist| == 0 then 2 else 0
    {
      if |playlist| > 0 {
        StopCurrentPlayback();
        var next := playlist[0];
        playlist := playlist[1..];
        PlaySong(next);
        UpdateNextSongs();
      } else {
        isPlaying := false;
        StopCurrentPlayback();
        CheckCredits();
      }
    }

    method CheckCredits()
      modifies this
      ensures State() == Engine.CheckCredits(old(State()))
      decreases 1
    {
      if credits == 0 {
        Emit(Engine.ControlsOff);
        if |playlist| == 0 {
          Emit(Engine.PromoRequested);
        }
      } else {
        Emit(Engine.ControlsOn);
        loop := false;
        if !isPlaying && |playlist| > 0 {
          PlayNextSong();
        }
      }
    }

    /** The rest of checkCredits once the promotional clip has been
        fetched (None: the fetch failed) and started or refused. */
    method PromoSettled(promo: Option<string>, playOk: bool)
      modifies this
      ensures State() == Engine.PromoSettled(old(State()), promo, playOk)
    {
      match promo
      case None =>
        Emit(Engine.Notify("Error al cargar video promocional"));
      case Some(p) =>
        ghost var s := State();
        Emit(Engine.LoopPromo(p));
        srcSet, loop := true, true;
        assert State() == Engine.Log(s, Engine.LoopPromo(p)).(srcSet := true, loop := true);
        if playOk {
          isPlaying := false;
        } else {
          Emit(Engine.Notify("Error al cargar video promocional"));
        }
    }

    // -------------------------------------------------------------------
    // Credits and the playlist
    // -------------------------------------------------------------------

    /** The first branch of addToPlaylist. */
    method Enqueue(path: string)
      requires credits > 0
      modifies this
      ensures State() == Engine.Enqueue(old(State()), path)
    {
      ghost var s := State();
      playlist := playlist + [path];
      credits := credits - 1;
      ghost var s1 := State();
      assert s1 == s.(playlist := s.playlist + [path], credits := s.credits - 1);
      CheckCredits();
      UpdateNextSongs();
      if !isPlaying {
        PlayNextSong();
      }
    }

    /** The second branch of addToPlaylist. */
    method RefuseNoCredit()
      modifies this
      ensures State() == Engine.RefuseNoCredit(old(State()))
    {
      Emit(Engine.NoCreditOverlay);
      CheckCredits();
    }

    method AddToPlaylist(path: string)
      modifies this
      ensures State() == Engine.AddToPlaylist(old(State()), path)
    {
      if credits > 0 {
        Enqueue(path);
      } else {
        RefuseNoCredit();
      }
    }

    method OnContextMenu()
      modifies this
      ensures State() == Engine.ContextMenu(old(State()))
    {
      credits := credits + 1;
      CheckCredits();
    }

    method OnClick(onPageButton: bool)
      modifies this
      ensures State() == Engine.Click(old(State()), onPageButton)
    {
      if |playlist| > 0 && isPlaying && !onPageButton {
        StopCurrentPlayback();
        PlayNextSong();
      }
    }

    // -------------------------------------------------------------------
    // Browsing
    // -------------------------------------------------------------------

    method FetchSongs(page: int, genre: string)
      modifies this
      ensures State() == Engine.FetchSongs(old(State()), page, genre)
    {
      ghost var s := State();
      var data;
      if Engine.IsGenreQuery(genre) {
        data := GetSongs(catalogue, page, Engine.PageSize, genre);
      } else {
        data := Paginate(allSongs, page, Engine.PageSize);
      }
      songsData, totalPages, currentPage := data.songs, data.totalPages, page;
      assert State() == s.(browse := s.browse.(songsData := data.songs, totalPages := data.totalPages, currentPage := page));
      Emit(Engine.Render(songsData));
    }

    method PrevButton()
      modifies this
      ensures State() == Engine.PrevPage(old(State()))
    {
      ghost var s := State();
      if currentPage > 1 {
        currentPage := currentPage - 1;
        assert State() == s.(browse := s.browse.(currentPage := s.browse.currentPage - 1));
        FetchSongs(currentPage, "");
      }
    }

    method NextButton()
      modifies this
      ensures State() == Engine.NextPage(old(State()))
    {
      ghost var s := State();
      if currentPage < totalPages {
        currentPage := currentPage + 1;
        assert State() == s.(browse := s.browse.(currentPage := s.browse.currentPage + 1));
        FetchSongs(currentPage, "");
      }
    }

    method SelectGenre(i: int)
      requires 0 <= i < |genres|
      modifies this
      ensures State() == Engine.SelectGenre(old(State()), i)
    {
      ghost var s := State();
      genreIndex := i;
      currentGenre := genres[i];
      currentPage := 1;
      assert State() == s.(browse := s.browse.(genreIndex := i, currentGenre := s.browse.genres[i], currentPage := 1));
      FetchSongs(1, currentGenre);
    }

    /** The search box's input handler. */
    method OnInput()
      modifies this
      ensures State() == Engine.Input(old(State()))
    {
      var query := Lower(search);
      if |query| == 5 {
        ghost var s := State();
        var found := Engine.FindById(allSongs, query);
        if found.Some? {
          AddToPlaylist(found.value.path);
          Emit(Engine.Notify("Canción " + found.value.title + " añadida"));
        } else {
          Emit(Engine.Notify("Canción no encontrada"));
        }
        ghost var e := State();
        assert e == Engine.EnterId(s, query);
        search := "";
        assert State() == e.(browse := e.browse.(search := ""));
        Emit(Engine.Render(songsData));
      }
    }

    /** The search box now reads q, and its input handler runs. */
    method EditSearch(q: string)
      modifies this
      ensures State() == Engine.Input(old(State()).(browse := old(State()).browse.(search := q)))
    {
      ghost var s := State();
      search := q;
      assert State() == s.(browse := s.browse.(search := q));
      OnInput();
    }

    /** The keys that edit the search box: a digit, and Enter. */
    method PressSearchKey(k: Engine.Key)
      requires Valid() && (k.Digit? || k.Enter?)
      modifies this
      ensures State() == Engine.Press(old(State()), k)
    {
      if k.Digit? {
        EditSearch(search + [k.digit]);
      } else if |search| > 0 {
        EditSearch(search[..|search| - 1]);
      }
    }

    /** The key that steps back one genre. */
    method PrevGenre()
      requires Valid()
      modifies this
      ensures State() == Engine.PrevGenre(old(State()))
    {
      if genreIndex > 0 {
        SelectGenre(genreIndex - 1);
      }
    }

    /** The key that steps forward one genre. */
    method NextGenre()
      requires Valid()
      modifies this
      ensures State() == Engine.NextGenre(old(State()))
    {
      if genreIndex < |genres| - 1 {
        SelectGenre(genreIndex + 1);
      }
    }

    /** The keys that turn the page, and the keys that do nothing. */
    method PressPageKey(k: Engine.Key)
      requires Valid() && (k.PageBack? || k.PageForward? || k.Other?)
      modifies this
      ensures State() == Engine.Press(old(State()), k)
    {
      if k.PageBack? {
        PrevButton();
      } else if k.PageForward? {
        NextButton();
      }
    }

    /** The keydown handler, on the key it was told. */
    method Press(k: Engine.Key)
      requires Valid()
      modifies this
      ensures State() == Engine.Press(old(State()), k)
      ensures Valid()
    {
      if k.Digit? || k.Enter? {
        PressSearchKey(k);
      } else if k.GenreBack? {
        PrevGenre();
      } else if k.GenreForward? {
        NextGenre();
      } else {
        PressPageKey(k);
      }
    }

    method OnKeyDown(key: string)
      requires Valid()
      modifies this
      ensures State() == Engine.KeyDown(old(State()), key) && Valid()
    {
      Press(Engine.KeyOf(key));
    }

    // -------------------------------------------------------------------
    // Start-up
    // -------------------------------------------------------------------

    method FetchAllSongs(answer: Option<seq<Song>>)
      modifies this
      ensures State() == Engine.FetchAllSongs(old(State()), answer)
    {
      match answer
      case Some(songs) =>
        allSongs := songs;
        totalPages := CeilDiv(|songs|, Engine.PageSize);
        if |songs| == 0 {
          Emit(Engine.Notify("No hay canciones disponibles"));
        }
      case None =>
        Emit(Engine.Notify("Error al cargar canciones"));
    }

    method FetchGenres(answer: Option<seq<string>>)
      modifies this
      ensures State() == Engine.FetchGenres(old(State()), answer)
    {
      match answer
      case Some(g) =>
        genres := g;
        if |genres| == 0 {
          genres := [Engine.AllGenres];
        }
        genreIndex := 0;
        currentGenre := genres[0];
      case None =>
        Emit(Engine.Notify("Error al cargar géneros"));
        genres := [Engine.AllGenres];
        currentGenre := genres[0];
    }

    /** initializeApp, run on the page as it was constructed. */
    method InitializeApp(songsAnswer: Option<seq<Song>>, genresAnswer: Option<seq<string>>)
      requires State() == Engine.Initial(parsed)
      modifies this
      ensures State() == Engine.Initialize(parsed, songsAnswer, genresAnswer) && Valid()
    {
      FetchAllSongs(songsAnswer);
      FetchGenres(genresAnswer);
      FetchSongs(currentPage, "");
    }

    /** The events the page reacts to once it has started. */
    method Handle(e: Engine.Event)
      requires Valid()
      modifies this
      ensures State() == Engine.Handle(old(State()), e) && Valid()
    {
      match e
      case RightClick => OnContextMenu();
      case LeftClick(onPageButton) => OnClick(onPageButton);
      case Key(key) => OnKeyDown(key);
      case PrevButton => PrevButton();
      case NextButton => NextButton();
      case VideoEnded => PlayNextSong();
      case PlayRefused => PlayNextSong();
      case PromoLoaded(promo, playOk) => PromoSettled(promo, playOk);
    }
  }
}
