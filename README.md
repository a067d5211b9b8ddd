# Rockola: a verified model of the jukebox core

Rockola is a kiosk jukebox built on Electron. A Python script walks a
music folder laid out as `genre/artist/file` and writes a catalogue of
song records with five-digit ids. The main process answers catalogue
queries over IPC and serves media through a `rockola://` protocol. The
page takes coins (right clicks) as credits, queues songs typed in by id,
plays them, and falls back to a looping promotional clip when the
credits run out.

The model has three parts, one per source file:

- **`main.js`** (pure): the `get-songs`, `get-genres` and
  `get-background-video` handlers, the empty-catalogue fallback at load,
  and the `rockola://` router with a POSIX `path.join`. These are the
  modules `Catalog` and `Router`. `Order` holds the string order that
  `sort` uses and a stable insertion sort.
- **`public/script.js`** (imperative): the page's state is the class
  `Page.Jukebox`. Its fields are the script's module-level variables. Each
  handler is a method that updates those fields in the order the script
  does. Each method is proved to leave exactly the state that the matching
  function of `Engine` computes. `Engine` describes a page state as a
  `Kiosk` value and adds a log of effects: what the page would show or
  play. `Session` proves properties of whole runs of events on top of
  `Engine`.
- **`generate_db.py`** (imperative): `SongDb.GenerateSongDb` keeps the
  script's three nested loops, the growing `songs` list and the `song_id`
  counter. The loops run over a directory tree given as a datatype. Each
  loop level is one method: `ScanFiles`, `ScanArtists` and the outer
  loop in `GenerateSongDb`. All three are proved equal to the function
  `SongDb.Catalogue`, and the catalogue's properties are proved about
  that function.

Some behaviour of the source is modelled as written, even where it looks
unintended:

- `isPlaying` is never set to `true`. So on an empty playlist,
  `addToPlaylist` with two or more credits starts the song inside
  `checkCredits`. The `playNextSong` at its end then finds the playlist
  empty and stops that song (`Session.AddPreempts`).
- In every reachable state the playlist is empty
  (`Session.PlaylistAlwaysEmpty`).
- The router has no guard against `..`: a request for
  `rockola://musicac/../x` is served from outside the music folder
  (`Router.ParentEscapesMusicRoot`).

## Model

| member | source | states |
|---|---|---|
| Catalog.LoadCatalogue | main.js:11-21 | the catalogue is the parsed db.json, or empty when it is missing or fails to parse |
| Catalog.EmptyFallback | main.js:11-21 | without a readable db.json the process still answers: every get-songs reply has no songs, `totalSongs` 0 and `totalPages` 0, and get-genres is [] |
| Order.SortBy | main.js:81 | the sort returns a permutation of its input, of the same length |
| Order.SortBySorted | main.js:81 | the sort's result is in ascending key order |
| Order.InsertBySorted | main.js:81 | inserting into a sorted sequence keeps it sorted |
| Order.LexLeTotal | main.js:81 | any two ids are comparable in the order `sort` uses |
| Order.LexLeTransitive | main.js:81 | the order `sort` uses is transitive |
| Order.LexLeAntisymmetric | main.js:81 | two strings that are each at most the other are equal |
| Catalog.FilterGenre | main.js:85 | a song is kept exactly when it is in the input and has the genre; the result is no longer than the input |
| Catalog.FilterKeepsOrder | main.js:81-85 | filtering a list sorted by id leaves it sorted by id |
| Catalog.FilterPermutation | main.js:85 | filtering two permutations of each other gives permutations of each other |
| Catalog.ListingIsSortedPermutation | main.js:81-87 | the list that is paged is sorted by id and holds each record of the genre (or of the catalogue) exactly as often as the catalogue does |
| Catalog.Paginate | main.js:89-99 | a page has at most `limit` songs; `currentPage` is the page asked for and `totalSongs` the length of the paged list |
| Catalog.GetSongs | main.js:80-100 | the reply has at most `limit` songs and reports the page asked for |
| Catalog.GetSongsSorted | main.js:81-91 | the songs of every page are in ascending id order |
| Catalog.GetSongsIsSlice | main.js:82-91 | page p is the slice [(p-1)*limit, p*limit) of the listing, cut at its end, and `totalSongs` is the listing's length |
| Catalog.GetSongsGenre | main.js:82-87 | with a genre every song on the page has it and `totalSongs` is that genre's count; without one `totalSongs` is the catalogue size |
| Catalog.UnknownGenreIsEmpty | main.js:84-92 | a genre no record has gives no songs, `totalSongs` 0 and `totalPages` 0 |
| Catalog.PastLastPageIsEmpty | main.js:89-92 | a page past `totalPages` is empty and reports the same totals as page 1 |
| Catalog.PageStartIsProduct | main.js:89-90 | the start index is (page-1)*limit and the end index page*limit is one page further |
| Catalog.CeilDivIsDivision | main.js:92 | `totalPages` is (n + limit - 1) / limit |
| Catalog.CeilDivIsCeiling | main.js:92 | `totalPages` pages hold every song, one page fewer does not, and there are no pages exactly when there are no songs |
| Catalog.PagesThroughArePrefix | main.js:89-91 | pages 1..n put together are the first n*limit songs of the list, or all of it |
| Catalog.AllPagesRebuildList | main.js:89-92 | pages 1..`totalPages` put together give the list back |
| Catalog.AllPagesRebuildListing | main.js:81-92 | each get-songs page k up to `totalPages` is page k of the sorted, filtered listing, and those pages put together give the listing back |
| Catalog.GenreColumn | main.js:103 | the genre of every record, position by position |
| Catalog.Dedup | main.js:103 | the `Set` keeps exactly the values of its input, each once |
| Catalog.GenresAreSortedSet | main.js:102-105 | the genre list is strictly increasing and holds exactly the genres that occur in the catalogue |
| Catalog.PickBackground | main.js:111-113 | every pick is one of the three fixed clips |
| Catalog.EveryBackgroundIsPicked | main.js:111-113 | the k-th clip is picked when the random value is k/3, so each clip can come up |
| Router.Drop | main.js:54 | `substr(10)` keeps the characters from index 10 on, or nothing |
| Router.IndexOf | main.js:58 | the index found is the first occurrence of the pattern, and none means it does not occur |
| Router.ReplacePrefix | main.js:58 | replacing a prefix with "" leaves exactly what follows it |
| Router.RouteByPrefix | main.js:54-68 | the scheme's ten characters are dropped; `musicac/`, `promo/` and `background/` send the rest to the music folder, `promo` and `background`, in that order of precedence; anything else goes to `public` whole |
| Router.SongUrlRoutesToMusic | main.js:57-59 | `rockola://musicac/` followed by any encoded path is served from the music folder with that path as its relative part |
| Router.PromoUrlRoutesToPromo | main.js:62-63 | `rockola://promo/` followed by any encoded path is served from the `promo` folder with that path as its relative part |
| Router.SplitJoin | main.js:59 | splitting on '/' undoes joining with '/' for pieces without '/' |
| Router.ResolveIdempotent | main.js:59 | normalising the pieces of a path twice is normalising once |
| Router.AbsoluteHasNoParent | main.js:59 | a normalised absolute path holds no ".." piece |
| Router.JoinTwo | main.js:59 | `path.join` of two non-empty parts normalises them joined by '/' |
| Router.ServedMusicParent | main.js:57-59 | a `musicac/../x` request is served from the music folder joined with `../x` |
| Router.NormalizeParent | main.js:59 | for a single directory name m, "/m/../x" normalises to the same path as "/x" |
| Router.ParentEscapesMusicRoot | main.js:57-59 | with the music folder at "/m", `rockola://musicac/../x` is served from the normalised "/x", outside the folder |
| Order.Lower | public/script.js:337 | lower-casing keeps the length |
| Engine.Initial | public/script.js:14-24 | the page starts with one credit, an empty playlist, nothing playing, no songs and nothing logged, over the catalogue the main process loaded |
| Engine.StopPlayback | public/script.js:211-222 | stopping changes no credit, waiting song or started song, keeps the video's source and loop flags, and only adds to the log |
| Engine.PlaySong | public/script.js:240-243 | the path is logged as played and the video has a source |
| Engine.UpNextWindow | public/script.js:268 | the "up next" list is the first min(6, length) entries of the playlist |
| Engine.ShiftAndPlay | public/script.js:228-230 | the front entry leaves the playlist and is the song started |
| Engine.PlayFront | public/script.js:225-231 | the front entry, and only it, leaves the playlist and is played; played songs followed by waiting songs stay the same sequence |
| Engine.PlayNext | public/script.js:224-238 | the songs started plus the songs waiting stay one sequence, the playlist never grows, credits are untouched, and the invariant is kept |
| Engine.UpdateNextSongs | public/script.js:261-275 | redrawing the "up next" list changes no credit, waiting song or started song |
| Engine.CheckCredits | public/script.js:277-302 | the songs started plus the songs waiting stay one sequence, the playlist never grows and credits do not change |
| Engine.Enqueue | public/script.js:193-204 | the path is queued and exactly one credit is spent; afterwards played plus waiting songs are the old ones plus the path |
| Engine.RefuseNoCredit | public/script.js:205-208 | without credits the playlist does not change |
| Engine.AddToPlaylist | public/script.js:192-209 | with credits one is spent and the path joins the songs played or waiting; without credits neither credits nor playlist change; credits never go negative |
| Engine.ContextMenu | public/script.js:35-41 | a right click adds exactly one credit and queues nothing |
| Engine.Click | public/script.js:43-49 | in every reachable state a left click changes nothing, because `isPlaying` is never true |
| Engine.PromoSettled | public/script.js:283-293 | a fetched clip is logged and set looping with a source, and `isPlaying` is false after it plays; a failed fetch, or a refused play after the clip is set, shows the error; the playlist and credits do not change |
| Engine.FetchSongs | public/script.js:158-177 | only the page, the page count and the page number change, and playback does not; without a real genre the page and count are those of the local pages of 26 songs of `allSongs`; a page never has more than 26 songs |
| Engine.PrevPage | public/script.js:354-359 | from a page above 1 the page number goes back one and the local page of `allSongs` and its count are shown; on page 1 nothing changes; playback never changes and the invariant is kept |
| Engine.NextPage | public/script.js:361-366 | below `totalPages` the page number goes on one and the local page of `allSongs` and its count are shown; otherwise nothing changes; playback never changes and the invariant is kept |
| Engine.SelectGenre | public/script.js:60-64 | the chosen genre becomes current at its index, from page 1, with the genre list, the songs and the playback unchanged |
| Engine.PrevGenre | public/script.js:58-65 | "-" steps back one genre, never below the first, and shows it from page 1; playback does not change |
| Engine.NextGenre | public/script.js:66-73 | "+" steps on one genre, never past the last, and shows it from page 1; playback does not change |
| Engine.FindById | public/script.js:340 | `find` returns the first song with that id, or nothing when no song has it |
| Engine.EnterId | public/script.js:340-348 | a found id changes credits, playlist and songs started exactly as `addToPlaylist` of its path does; a missing one only logs "Canción no encontrada" |
| Engine.Input | public/script.js:336-352 | an entry of any other length changes nothing; a five-character entry is looked up lower-cased, has the lookup's effect on the playlist and credits, and empties the box |
| Engine.Press | public/script.js:51-108 | every key keeps the invariant (the search-box edits are stated by `Session.DigitKey`, `Session.EnterKey` and `Session.SearchStaysShort`) |
| Engine.KeyDown | public/script.js:51-108 | the keydown handler keeps the invariant (see `Session.DigitKey` and `Session.EnterKey`) |
| Engine.FetchAllSongs | public/script.js:142-156 | the answer becomes `allSongs` and the page count is its length divided by 26, rounded up; a failure changes nothing but the log |
| Engine.FetchGenres | public/script.js:117-140 | the genres are the answer, or the one genre "Todos" when it is empty or failed; the current genre is the first; the index is reset to 0 only on an answer |
| Engine.Loaded | public/script.js:371-372 | after the first two fetches the invariant holds, no song was played, the genre index is 0 and the search box is empty |
| Engine.Initialize | public/script.js:368-378 | start-up ends on page 1 of `allSongs`, the local first page shown, at the first genre, with one credit, an empty playlist, no song started, an empty search box and the loaded catalogue |
| Engine.Handle | public/script.js:35-366 | every event keeps the invariant |
| Page.Jukebox.constructor | public/script.js:14-24 | the fields start as the script's variables do, over the catalogue loaded from the parse result |
| Page.Jukebox.StopCurrentPlayback | public/script.js:211-222 | the new state is `Engine.StopPlayback` of the old |
| Page.Jukebox.PlaySong | public/script.js:240-243 | the new state is `Engine.PlaySong` of the old |
| Page.Jukebox.UpdateNextSongs | public/script.js:261-275 | the new state is `Engine.UpdateNextSongs` of the old |
| Page.Jukebox.PlayNextSong | public/script.js:224-238 | the new state is `Engine.PlayNext` of the old |
| Page.Jukebox.CheckCredits | public/script.js:277-302 | the new state is `Engine.CheckCredits` of the old |
| Page.Jukebox.PromoSettled | public/script.js:283-293 | the new state is `Engine.PromoSettled` of the old |
| Page.Jukebox.Enqueue | public/script.js:193-204 | the new state is `Engine.Enqueue` of the old |
| Page.Jukebox.RefuseNoCredit | public/script.js:205-208 | the new state is `Engine.RefuseNoCredit` of the old |
| Page.Jukebox.AddToPlaylist | public/script.js:192-209 | the new state is `Engine.AddToPlaylist` of the old |
| Page.Jukebox.OnContextMenu | public/script.js:35-41 | the new state is `Engine.ContextMenu` of the old |
| Page.Jukebox.OnClick | public/script.js:43-49 | the new state is `Engine.Click` of the old |
| Page.Jukebox.FetchSongs | public/script.js:158-177 | the new state is `Engine.FetchSongs` of the old |
| Page.Jukebox.PrevButton | public/script.js:354-359 | the new state is `Engine.PrevPage` of the old: one page back, never below 1 |
| Page.Jukebox.NextButton | public/script.js:361-366 | the new state is `Engine.NextPage` of the old: one page on, never past `totalPages` |
| Page.Jukebox.SelectGenre | public/script.js:60-64 | the new state is `Engine.SelectGenre` of the old |
| Page.Jukebox.PrevGenre | public/script.js:58-65 | the new state is `Engine.PrevGenre` of the old |
| Page.Jukebox.NextGenre | public/script.js:66-73 | the new state is `Engine.NextGenre` of the old |
| Page.Jukebox.OnInput | public/script.js:336-352 | the new state is `Engine.Input` of the old |
| Page.Jukebox.EditSearch | public/script.js:53-91 | setting the search box and dispatching `input` leaves `Engine.Input` of the state with the new text |
| Page.Jukebox.PressSearchKey | public/script.js:53-91 | a digit or Enter leaves `Engine.Press` of the old state |
| Page.Jukebox.PressPageKey | public/script.js:74-107 | "/", "*" or any other key leaves `Engine.Press` of the old state |
| Page.Jukebox.Press | public/script.js:51-108 | the new state is `Engine.Press` of the old, and the invariant holds |
| Page.Jukebox.OnKeyDown | public/script.js:51-108 | the new state is `Engine.KeyDown` of the old, and the invariant holds |
| Page.Jukebox.FetchAllSongs | public/script.js:142-156 | the new state is `Engine.FetchAllSongs` of the old |
| Page.Jukebox.FetchGenres | public/script.js:117-140 | the new state is `Engine.FetchGenres` of the old |
| Page.Jukebox.InitializeApp | public/script.js:368-378 | from the initial state the page reaches `Engine.Initialize`, and the invariant holds |
| Page.Jukebox.Handle | public/script.js:35-366 | the new state is `Engine.Handle` of the old, and the invariant holds |
| Session.StopIsLogged | public/script.js:217-221 | stopping logs Stop exactly when the video has a source, and changes nothing else |
| Session.PlayOnlySong | public/script.js:225-231 | with one waiting song, `playNextSong` stops, plays it and redraws an empty "up next" list |
| Session.IdleWithCredits | public/script.js:232-237 | on an empty playlist with credits, the video stops and the controls come back |
| Session.IdleWithoutCredits | public/script.js:232-237 | on an empty playlist without credits, the video stops, the controls go off and the clip is asked for |
| Session.PlayNextSettles | public/script.js:232-237 | on an empty playlist `playNextSong` leaves it empty with nothing playing, and a second call changes nothing but the log |
| Session.CheckCreditsAsksForPromo | public/script.js:278-284 | without credits on an empty playlist the controls go off and the promotional clip is asked for, and nothing else happens |
| Session.CheckCreditsResumes | public/script.js:295-300 | with credits and a waiting song, the front song starts and leaves the playlist, and the loop flag is cleared |
| Session.CheckCreditsWaiting | public/script.js:278-282 | without credits and with songs waiting, only the controls go off |
| Session.EnqueueOnEmpty | public/script.js:193-204 | with a credit on an empty playlist, `addToPlaylist` is the push and the spent credit, then `checkCredits`, `updateNextSongs` and `playNextSong` |
| Session.ResumeOnlySong | public/script.js:295-300 | with credits and one waiting song, `checkCredits` plays it |
| Session.AddPreempts | public/script.js:192-237 | with two or more credits on an empty playlist, the new song is started by `checkCredits` and stopped again by the final `playNextSong`, which leaves the controls on |
| Session.AddLastCredit | public/script.js:192-237 | with the last credit on an empty playlist, the controls go off, the song is listed as next, and the final `playNextSong` starts it |
| Session.AddRefused | public/script.js:205-208 | without credits, the overlay shows and the promotional clip is asked for; nothing is queued |
| Session.AddFromEmpty | public/script.js:192-209 | from a state that keeps the invariant, `addToPlaylist` on an empty playlist leaves it empty |
| Session.DirectEntryQueues | public/script.js:336-350 | a five-character id naming a song, with a credit, queues its path, spends the credit and empties the box |
| Session.DirectEntryMissing | public/script.js:336-350 | a five-character id naming no song logs "Canción no encontrada" first, queues and spends nothing, and empties the box |
| Session.PageBackKey | public/script.js:74-79 | "/" goes back one page, never below 1, and shows that page of all songs |
| Session.PageForwardKey | public/script.js:80-85 | "*" goes on one page, never past `totalPages`, and shows that page of all songs |
| Session.GenreBackKey | public/script.js:58-65 | "-" steps back one genre, never below the first, and shows it from page 1 |
| Session.GenreForwardKey | public/script.js:66-73 | "+" steps on one genre, never past the last, and shows it from page 1 |
| Session.DigitKey | public/script.js:53-57 | a digit key appends the digit to the search box; with four digits already there, the fifth runs the search input handler, which empties the box |
| Session.EnterKey | public/script.js:86-91 | Enter on an empty search box changes nothing, and otherwise drops the box's last character |
| Session.TypeFifthDigit | public/script.js:336-350 | a fifth digit that completes the id of a song, with credit left, takes one credit, queues or plays exactly that song's path, and empties the search box |
| Session.PressKeepsSearchShort | public/script.js:51-108 | no key takes a search box of at most four characters past four |
| Session.HandleKeepsSearchShort | public/script.js:51-108 | no event takes a search box of at most four characters past four |
| Session.SearchStaysShort | public/script.js:336-350 | over any run of events from a search box of at most four characters, the box never holds more than four between events |
| Session.Run | public/script.js:35-366 | any run of events keeps the invariant |
| Session.HandleFromEmpty | public/script.js:35-366 | from a state that keeps the invariant, no event leaves a song waiting in an empty playlist |
| Session.PlaylistAlwaysEmpty | public/script.js:22-24 | from a state with the invariant and an empty playlist, any run of events ends with credits not negative, nothing playing and the playlist empty |
| Session.SessionKeepsQueueEmpty | public/script.js:368-380 | from start-up, every run of events ends with an empty playlist and at most four characters in the search box |
| Session.StartWithoutDb | public/script.js:158-164 | started without a readable db.json, any genre the page asks the main process about shows no songs and no pages |
| Session.LocalPageIsSlice | public/script.js:165-168 | page p of all songs is the slice [(p-1)*26, p*26), cut at the end |
| Session.GenrePageFromMain | public/script.js:160-164 | a real genre's page and page count are the `get-songs` answer for 26 songs a page, and every song on it has the genre |
| Session.LocalPagesCoverAllSongs | public/script.js:165-167 | the local pages 1..`totalPages` put together give `allSongs` back |
| SongDb.GenerateSongDb | generate_db.py:24-57 | the songs written are exactly `Catalogue(root)` |
| SongDb.ScanFiles | generate_db.py:37-49 | the inner loop appends one numbered record per media file of the sorted listing, and the counter is one past the last id |
| SongDb.ScanArtists | generate_db.py:34-49 | the middle loop appends the records of each artist directory in sorted order, and the counter follows |
| SongDb.PadIdValue | generate_db.py:42 | reading an id back as a number gives the counter it was made from |
| SongDb.PadIdInjective | generate_db.py:42 | two counters give the same id exactly when they are equal |
| SongDb.PadIdLength | generate_db.py:42 | an id has at least five characters, and exactly five below 100000 |
| SongDb.PadIdDigits | generate_db.py:42 | an id is made of decimal digits only |
| SongDb.IsMediaIgnoresCase | generate_db.py:38 | the extension test gives the same answer for a name and its lower-cased form |
| SongDb.SplitExtParts | generate_db.py:45 | `splitext` cuts a name into a stem and an extension that is empty or a dot followed by no dot or slash |
| SongDb.MediaTitle | generate_db.py:38-45 | for a media file name, the extension `splitext` cuts off is the media extension, in any case, and the title is the rest |
| SongDb.CatalogueAt | generate_db.py:29-49 | the i-th song is the record of the i-th media file in traversal order, with counter i+1 |
| SongDb.CatalogueIds | generate_db.py:29-49 | the i-th id reads as i+1, two ids are equal exactly when they are the same song's, and the first 99999 ids have five characters |
| SongDb.NumberedId | generate_db.py:42-49 | a record numbered from 1 at position i has an all-digit id reading as i+1, five characters long below 100000 |
| SongDb.NumberedIdsDistinct | generate_db.py:42-49 | two records numbered from 1 have the same id exactly when they are at the same position |
| SongDb.TracksMember | generate_db.py:31-38 | a file is catalogued exactly when it is a media file in an artist directory inside a genre directory |
| SongDb.CatalogueSongListed | generate_db.py:31-49 | every song comes from a media file under a genre and an artist directory |
| SongDb.ListedInCatalogue | generate_db.py:31-49 | every such media file has a song in the catalogue |
| SongDb.RecordFields | generate_db.py:40-46 | genre and artist are the directory names, title plus extension is the file name, and the path is genre/artist/file with no backslash left |
| SongDb.CatalogueFields | generate_db.py:40-46 | the fields of every catalogue song, as in `RecordFields` |
| SongDb.TracksIncreasing | generate_db.py:31-37 | the files are visited in strictly increasing (genre, artist, file) order |
| SongDb.CatalogueOrdered | generate_db.py:31-37 | songs are ordered by genre, and by artist within a genre |
| SongDb.CatalogueCount | generate_db.py:48-57 | the number of songs is the number of distinct (genre, artist, file) media files listed in the tree |

## Left out

- `main.js`: window creation, the app lifecycle, resolving `MUSIC_DIR` and `process.exit`. These are Electron I/O.
- `main.js`: reading and parsing db.json are not modelled. `Catalog.LoadCatalogue` takes the parse result as an input, and the page's start state is built on its result.
- A db.json that parses to something other than an array of records is not modelled. Neither is a record with no `id`. On such a file, get-songs throws at `[...songsDatabase]` or at `localeCompare`. The model's parse result is always a sequence of complete records.
- `get-all-songs` and `get-promo-video` only return the catalogue and the fixed promotional clip. The page takes their answers as inputs.
- `get-background-video`: `Math.random()` is a parameter of `Catalog.PickBackground`.
- `get-songs`: `localeCompare` is modelled as code-point order on strings, which is its order on ids made of digits. `parseInt(page)` is taken to be the page itself, because the page always passes a whole number.
- `get-songs` with `limit <= 0` is not modelled: `Catalog.GetSongs` requires `limit > 0`. Its one caller, `fetchSongs`, passes 26. The handler's own default is 20.
- The router uses POSIX `path.join` only. Windows separators and drive letters are not modelled.
- `encodeURIComponent` and Electron's URL decoding are not modelled: the encoded path is an opaque string.
- `public/script.js`: DOM rendering, fullscreen, enabling and disabling controls, focus, the `mousemove` handler and Backspace's native editing are not modelled. They appear as entries of the effect log, or not at all.
- The 2-second overlay timers, the 5-second hold-"." timer and its `keyup` cancellation are not modelled. They depend on time; "." is a key that does nothing in the model.
- The answers of `getAllSongs`, `getGenres` and `getPromoVideo` are inputs. A failed call is `None`.
- `getSongs` is answered synchronously. `Engine.FetchSongs` computes the answer as `Catalog.GetSongs` over the main process's catalogue and applies it at once. The genre branch of `fetchSongs`, and `initializeApp`, therefore run through their `await`s without interruption.
- Each awaited answer is assumed to arrive before the next event. So the model does not capture a key or button pressed while a genre page is on its way, whose page the late answer then overwrites (`songsData`, `totalPages`, `currentPage`).
- The promotional clip's arrival, the end of a song and a refused `play()` are later events of their own.
- The rejection path of `fetchSongs` is not modelled, and neither is a missing `electronAPI`. When `getSongs` rejects, the page shows "Error al cargar canciones" and keeps `songsData` and `totalPages`. The key handler has already moved `currentPage`, `currentGenre` and `genreIndex` by then.
- Unicode: `toLowerCase` and Python's `lower()` are modelled on ASCII letters only. JavaScript's UTF-16 sort order is modelled as code-point order.
- `generate_db.py` is modelled with POSIX path rules (`SongDb.PathJoin`, `SongDb.SplitExt`). On Windows, `os.path.join` gives `genre\artist\file`, and the `.replace("\\", "/")` turns that into the same `genre/artist/file`. Directory names there contain neither '\' nor '/', so `splitext` cuts the same extension. The catalogue is therefore the same on both systems.
- `generate_db.py`: `get_music_folder`, `update_startup_file`, `json.dump`, `print` and the `main` driver are not modelled. They are I/O. `os.listdir` is the children of a `Dir` entry.
- `conver.py`, `descriptor.py` and `preload.js` are not part of this model. They are external tools, file dumps and one-line IPC forwards.
- SongDb.MediaTitle: only for names that contain no '/' and do not start with '.'. `splitext` gives a name such as ".mp3" no extension, and the title is then the whole name.
- SongDb.CatalogueFields: requires that every name in the tree is non-empty and contains no '/', as a directory listing's names are.
- SongDb.TracksIncreasing: requires unique names in every listing, as in a real directory. Without that, equal names would make the order only non-decreasing.
- SongDb.CatalogueOrdered: requires unique names in every listing, as in a real directory.
- SongDb.CatalogueCount: requires unique names in every listing, as in a real directory. It counts distinct (genre, artist, file) triples.
- Engine.Click: proved only for states that satisfy the invariant, which every reachable state does.
