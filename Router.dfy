/*
 * The `rockola://` file protocol of main.js (main.js:52-73): the scheme is
 * dropped, the rest is dispatched on its first folder and joined onto a
 * root with Node's `path.join`, taken here in its POSIX form.
 */
module Router {
  import opened Wrappers

  // ---------------------------------------------------------------------
  // String helpers with JavaScript's meaning
  // ---------------------------------------------------------------------

  /** `s.substr(k)` for k >= 0: everything from index k on, or "" when s is
      shorter. */
  function Drop(s: string, k: nat): (r: string)
    ensures |s| <= k ==> r == []
    ensures k < |s| ==> |r| == |s| - k && forall i :: 0 <= i < |r| ==> r[i] == s[k + i]
  {
    if |s| <= k then [] else s[k..]
  }

  predicate StartsWith(s: string, prefix: string) {
    |prefix| <= |s| && s[..|prefix|] == prefix
  }

  predicate OccursAt(s: string, p: string, i: nat) {
    i + |p| <= |s| && s[i..i + |p|] == p
  }

  lemma OccursShift(s: string, p: string)
    requires s != []
    ensures forall i: nat :: 1 <= i ==> (OccursAt(s, p, i) <==> OccursAt(s[1..], p, i - 1))
  {
  }

  /** The index of the first occurrence of p in s, if any. */
  function IndexOf(s: string, p: string): (r: Option<nat>)
    ensures r.Some? ==> OccursAt(s, p, r.value) && forall i: nat :: i < r.value ==> !OccursAt(s, p, i)
    ensures r.None? ==> forall i: nat :: !OccursAt(s, p, i)
    decreases |s|
  {
    if OccursAt(s, p, 0) then Some(0)
    else if s == [] then None
    else
      OccursShift(s, p);
      match IndexOf(s[1..], p)
      case None => None
      case Some(k) => Some(k + 1)
  }

  /** `s.replace(p, rep)` with a string pattern: only the first occurrence
      is replaced. */
  function ReplaceFirst(s: string, p: string, rep: string): (r: string)
  {
    match IndexOf(s, p)
    case None => s
    case Some(i) => s[..i] + rep + s[i + |p|..]
  }

  /** Removing a prefix with `replace` leaves exactly what follows it. */
  lemma ReplacePrefix(s: string, p: string)
    requires StartsWith(s, p)
    ensures ReplaceFirst(s, p, "") == s[|p|..]
  {
    assert OccursAt(s, p, 0);
  }

  // ---------------------------------------------------------------------
  // Dispatch (main.js:54-68)
  // ---------------------------------------------------------------------

  /** Where a request is served from: the music folder, or a folder of the
      application directory. */
  datatype Root = MusicRoot | AppFolder(folder: string)

  datatype Target = Target(root: Root, relative: string)

  /** The protocol handler's choice of root and relative part. */
  function Route(requestUrl: string): Target
  {
    var url := Drop(requestUrl, 10);
    if StartsWith(url, "musicac/") then Target(MusicRoot, ReplaceFirst(url, "musicac/", ""))
    else if StartsWith(url, "promo/") then Target(AppFolder("promo"), ReplaceFirst(url, "promo/", ""))
    else if StartsWith(url, "background/") then Target(AppFolder("background"), ReplaceFirst(url, "background/", ""))
    else Target(AppFolder("public"), url)
  }

  /** Only the part after the first ten characters decides the route, and
      each prefix sends the rest, unchanged, to its own root; everything
      else goes to `public` whole. */
  lemma RouteByPrefix(scheme: string, url: string)
    requires |scheme| == 10
    ensures var t := Route(scheme + url);
      var music, promo, background := StartsWith(url, "musicac/"), StartsWith(url, "promo/"), StartsWith(url, "background/");
      && (music ==> t == Target(MusicRoot, url[8..]))
      && (!music && promo ==> t == Target(AppFolder("promo"), url[6..]))
      && (!music && !promo && background ==> t == Target(AppFolder("background"), url[11..]))
      && (!music && !promo && !background ==> t == Target(AppFolder("public"), url))
  {
    assert Drop(scheme + url, 10) == url;
    if StartsWith(url, "musicac/") {
      ReplacePrefix(url, "musicac/");
    } else if StartsWith(url, "promo/") {
      ReplacePrefix(url, "promo/");
    } else if StartsWith(url, "background/") {
      ReplacePrefix(url, "background/");
    }
  }

  /** The URL that playSong builds (public/script.js:241) always reaches
      the music folder, with the encoded path as the relative part. */
  lemma SongUrlRoutesToMusic(encodedPath: string)
    ensures Route("rockola://musicac/" + encodedPath) == Target(MusicRoot, encodedPath)
  {
    assert "rockola://musicac/" + encodedPath == "rockola://" + ("musicac/" + encodedPath);
    RouteByPrefix("rockola://", "musicac/" + encodedPath);
  }

  /** The URL that checkCredits builds for the promotional clip
      (public/script.js:285) reaches the promo folder. */
  lemma PromoUrlRoutesToPromo(encodedPath: string)
    ensures Route("rockola://promo/" + encodedPath) == Target(AppFolder("promo"), encodedPath)
  {
    assert "rockola://promo/" + encodedPath == "rockola://" + ("promo/" + encodedPath);
    assert ("promo/" + encodedPath)[0] == 'p';
    RouteByPrefix("rockola://", "promo/" + encodedPath);
  }

  // ---------------------------------------------------------------------
  // POSIX path.join
  // ---------------------------------------------------------------------

  /** The pieces of s between the '/' characters ("" gives [""]). */
  function Split(s: string): (r: seq<string>)
    ensures |r| >= 1
    decreases |s|
  {
    if s == [] then [[]]
    else
      var rest := Split(s[1..]);
      if s[0] == '/' then [[]] + rest
      else [[s[0]] + rest[0]] + rest[1..]
  }

  /** No piece holds a '/'. */
  lemma {:induction false} SplitPieces(s: string)
    ensures forall k :: 0 <= k < |Split(s)| ==> '/' !in Split(s)[k]
    decreases |s|
  {
    if s != [] {
      SplitPieces(s[1..]);
      var rest := Split(s[1..]);
      if s[0] != '/' {
        var r := Split(s);
        assert forall k :: 1 <= k < |r| ==> r[k] == rest[k];
      }
    }
  }

  /** The pieces put back together with '/' between them. */
  function JoinSegs(segs: seq<string>): (r: string)
    decreases |segs|
  {
    if segs == [] then []
    else if |segs| == 1 then segs[0]
    else segs[0] + "/" + JoinSegs(segs[1..])
  }

  lemma {:induction false} SplitWord(w: string)
    requires '/' !in w
    ensures Split(w) == [w]
    decreases |w|
  {
    if w != [] {
      SplitWord(w[1..]);
      assert [w[0]] + w[1..] == w;
    }
  }

  lemma {:induction false} SplitWordThenSlash(w: string, t: string)
    requires '/' !in w
    ensures Split(w + "/" + t) == [w] + Split(t)
    decreases |w|
  {
    if w == [] {
      assert w + "/" + t == "/" + t;
      assert ("/" + t)[1..] == t;
    } else {
      SplitWordThenSlash(w[1..], t);
      assert (w + "/" + t)[1..] == w[1..] + "/" + t;
      assert [w[0]] + w[1..] == w;
    }
  }

  /** Splitting undoes joining, for pieces without '/'. */
  lemma {:induction false} SplitJoin(segs: seq<string>)
    requires |segs| >= 1
    requires forall k :: 0 <= k < |segs| ==> '/' !in segs[k]
    ensures Split(JoinSegs(segs)) == segs
    decreases |segs|
  {
    if |segs| == 1 {
      SplitWord(segs[0]);
    } else {
      SplitJoin(segs[1..]);
      SplitWordThenSlash(segs[0], JoinSegs(segs[1..]));
      assert [segs[0]] + segs[1..] == segs;
    }
  }

  /** One piece of normalizeString: "" and "." vanish, ".." removes the last
      kept piece unless that is itself "..", in which case (or when nothing
      is kept) it is kept for a relative path and dropped for an absolute
      one. */
  function Step(acc: seq<string>, seg: string, relative: bool): seq<string>
  {
    if seg == "" || seg == "." then acc
    else if seg == ".." then
      if |acc| > 0 && acc[|acc| - 1] != ".." then acc[..|acc| - 1]
      else if relative then acc + [".."]
      else acc
    else acc + [seg]
  }

  /** normalizeString over the pieces, left to right. */
  function Resolve(segs: seq<string>, relative: bool): seq<string>
    decreases |segs|
  {
    if segs == [] then []
    else Step(Resolve(segs[..|segs| - 1], relative), segs[|segs| - 1], relative)
  }

  /** What normalizeString can produce: no empty or "." pieces, ".." only
      at the front, and no ".." at all in an absolute path. */
  ghost predicate Clean(acc: seq<string>, relative: bool) {
    && (forall k :: 0 <= k < |acc| ==> acc[k] != "" && acc[k] != ".")
    && (forall i, j :: 0 <= i < j < |acc| && acc[j] == ".." ==> acc[i] == "..")
    && (!relative ==> forall k :: 0 <= k < |acc| ==> acc[k] != "..")
  }

  lemma StepClean(acc: seq<string>, seg: string, relative: bool)
    requires Clean(acc, relative)
    ensures Clean(Step(acc, seg, relative), relative)
  {
    var r := Step(acc, seg, relative);
    if seg == ".." && !(|acc| > 0 && acc[|acc| - 1] != "..") && relative {
      forall i, j | 0 <= i < j < |r| && r[j] == ".." ensures r[i] == ".." {
        if j < |acc| {
        } else if |acc| > 0 {
          assert acc[|acc| - 1] == "..";
        }
      }
    }
  }

  /** Normalized pieces are clean. */
  lemma {:induction false} ResolveClean(segs: seq<string>, relative: bool)
    ensures Clean(Resolve(segs, relative), relative)
    decreases |segs|
  {
    if segs != [] {
      ResolveClean(segs[..|segs| - 1], relative);
      StepClean(Resolve(segs[..|segs| - 1], relative), segs[|segs| - 1], relative);
    }
  }

  /** Appending the last piece of a clean sequence is one step. */
  lemma StepOnClean(init: seq<string>, last: string, relative: bool)
    requires Clean(init + [last], relative)
    ensures Clean(init, relative)
    ensures Step(init, last, relative) == init + [last]
  {
    var segs := init + [last];
    assert last == segs[|segs| - 1];
    assert forall k :: 0 <= k < |init| ==> init[k] == segs[k];
    if last == ".." && |init| > 0 {
      assert init[|init| - 1] == "..";
    }
  }

  /** Clean pieces are left as they are. */
  lemma {:induction false} CleanIsResolved(segs: seq<string>, relative: bool)
    requires Clean(segs, relative)
    ensures Resolve(segs, relative) == segs
    decreases |segs|
  {
    if segs != [] {
      var init := segs[..|segs| - 1];
      assert segs == init + [segs[|segs| - 1]];
      StepOnClean(init, segs[|segs| - 1], relative);
      CleanIsResolved(init, relative);
    }
  }

  /** Normalizing twice is normalizing once. */
  lemma ResolveIdempotent(segs: seq<string>, relative: bool)
    ensures Resolve(Resolve(segs, relative), relative) == Resolve(segs, relative)
  {
    ResolveClean(segs, relative);
    CleanIsResolved(Resolve(segs, relative), relative);
  }

  /** path.posix.normalize. */
  function Normalize(path: string): string
  {
    if path == [] then "."
    else
      var absolute := path[0] == '/';
      var trailing := path[|path| - 1] == '/';
      var body := JoinSegs(Resolve(Split(path), !absolute));
      if body == [] then (if absolute then "/" else if trailing then "./" else ".")
      else (if absolute then "/" else "") + body + (if trailing then "/" else "")
  }

  function NonEmpty(parts: seq<string>): (r: seq<string>)
    ensures forall k :: 0 <= k < |r| ==> r[k] != []
  {
    if parts == [] then []
    else (if parts[0] == [] then [] else [parts[0]]) + NonEmpty(parts[1..])
  }

  /** path.posix.join: the non-empty arguments joined with '/', then
      normalized; "." when there are none. */
  function Join(parts: seq<string>): string
  {
    var joined := JoinSegs(NonEmpty(parts));
    if joined == [] then "." else Normalize(joined)
  }

  /** An absolute result never holds a ".." piece: a join onto an absolute
      root cannot climb above "/". */
  lemma AbsoluteHasNoParent(path: string)
    requires path != [] && path[0] == '/'
    ensures forall k :: 0 <= k < |Resolve(Split(path), false)| ==> Resolve(Split(path), false)[k] != ".."
  {
    ResolveClean(Split(path), false);
  }

  /** The file the handler serves, given the music folder and the
      application directory. */
  function ServedPath(musicDir: string, appDir: string, requestUrl: string): string
  {
    var t := Route(requestUrl);
    match t.root
    case MusicRoot => Join([musicDir, t.relative])
    case AppFolder(folder) => Join([appDir, folder, t.relative])
  }

  /** Normalizing the pieces of `segs` onto what is already kept. */
  function ResolveOnto(acc: seq<string>, segs: seq<string>, relative: bool): seq<string>
    decreases |segs|
  {
    if segs == [] then acc
    else Step(ResolveOnto(acc, segs[..|segs| - 1], relative), segs[|segs| - 1], relative)
  }

  lemma {:induction false} ResolveAppend(a: seq<string>, b: seq<string>, relative: bool)
    ensures Resolve(a + b, relative) == ResolveOnto(Resolve(a, relative), b, relative)
    decreases |b|
  {
    if b == [] {
      assert a + b == a;
    } else {
      var ab := a + b;
      assert ab[..|ab| - 1] == a + b[..|b| - 1];
      assert ab[|ab| - 1] == b[|b| - 1];
      ResolveAppend(a, b[..|b| - 1], relative);
    }
  }

  lemma SplitRooted(x: string)
    ensures Split("/" + x) == [""] + Split(x)
  {
    assert "/" + x == [] + "/" + x;
    SplitWordThenSlash([], x);
  }

  /** "/m/../" + x splits into "", m, ".." and the pieces of x. */
  lemma SplitParent(m: string, x: string)
    requires '/' !in m
    ensures Split("/" + m + "/" + ("../" + x)) == ["", m, ".."] + Split(x)
  {
    var t1 := ".." + "/" + x;
    var t2 := m + "/" + t1;
    assert Split(t1) == [".."] + Split(x) by {
      SplitWordThenSlash("..", x);
    }
    assert Split(t2) == [m] + Split(t1) by {
      SplitWordThenSlash(m, t1);
    }
    assert Split("/" + t2) == [""] + Split(t2) by {
      SplitRooted(t2);
    }
    assert "/" + m + "/" + ("../" + x) == "/" + t2;
  }

  /** path.join of two non-empty pieces normalizes them joined by '/'. */
  lemma JoinTwo(a: string, b: string)
    requires a != [] && b != []
    ensures Join([a, b]) == Normalize(a + "/" + b)
  {
    var parts := [a, b];
    assert parts[1..] == [b] && [b][1..] == [];
    assert NonEmpty([b]) == [b];
    assert NonEmpty(parts) == parts;
    assert JoinSegs(parts) == a + "/" + b;
  }

  lemma ServedMusicParent(m: string, appDir: string, x: string)
    ensures ServedPath("/" + m, appDir, "rockola://musicac/../" + x) == Normalize("/" + m + "/" + ("../" + x))
  {
    var rel := "../" + x;
    assert Route("rockola://musicac/../" + x) == Target(MusicRoot, rel) by {
      assert "rockola://musicac/../" + x == "rockola://musicac/" + rel;
      SongUrlRoutesToMusic(rel);
    }
    JoinTwo("/" + m, rel);
  }

  lemma ResolveParent(m: string, tail: seq<string>)
    requires m != [] && m != "." && m != ".."
    ensures Resolve(["", m, ".."] + tail, false) == Resolve([""] + tail, false)
  {
    var front := ["", m, ".."];
    assert Resolve([""], false) == [] by {
      assert [""][..0] == [];
    }
    assert Resolve(front[..2], false) == [m] by {
      assert front[..2][..1] == [""];
    }
    assert Resolve(front, false) == [] by {
      assert front[..2] == front[..|front| - 1] && front[|front| - 1] == "..";
      assert Step([m], "..", false) == [];
    }
    ResolveAppend(front, tail, false);
    ResolveAppend([""], tail, false);
  }

  /** Two paths that start and end alike and whose segments resolve
      alike normalize alike. */
  lemma NormalizeAlike(a: string, b: string)
    requires a != [] && b != [] && a[0] == b[0] && a[|a| - 1] == b[|b| - 1]
    requires Resolve(Split(a), a[0] != '/') == Resolve(Split(b), b[0] != '/')
    ensures Normalize(a) == Normalize(b)
  {
  }

  lemma NormalizeParent(m: string, x: string)
    requires m != [] && '/' !in m && m != "." && m != ".."
    ensures Normalize("/" + m + "/" + ("../" + x)) == Normalize("/" + x)
  {
    var joined := "/" + m + "/" + ("../" + x);
    var target := "/" + x;
    assert Resolve(Split(joined), false) == Resolve(Split(target), false) by {
      SplitParent(m, x);
      SplitRooted(x);
      ResolveParent(m, Split(x));
    }
    assert joined[0] == '/' && target[0] == '/';
    assert joined[|joined| - 1] == target[|target| - 1];
    NormalizeAlike(joined, target);
  }

  /** No check keeps a request inside its root: when the music folder is
      /m, a song URL whose relative part is "../" + x is served as "/" + x,
      outside the music folder. */
  lemma ParentEscapesMusicRoot(m: string, appDir: string, x: string)
    requires m != [] && '/' !in m && m != "." && m != ".."
    ensures ServedPath("/" + m, appDir, "rockola://musicac/../" + x) == Normalize("/" + x)
  {
    ServedMusicParent(m, appDir, x);
    NormalizeParent(m, x);
  }
}
