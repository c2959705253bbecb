/** `TVScanner` (lib/meta.py): refreshing show metadata, ingesting episode
    files and dropping episodes whose files are gone. The TVDB service, the
    file system and the clock are parameters. */
module Meta {
  import opened Basics
  import opened Text
  import opened Tables
  import opened Rotation

  // ---------------------------------------------------------------------
  // update_shows (lines 66-100)

  /** `timedelta(days=7)` in seconds. */
  const Week: int := 7 * 24 * 60 * 60

  /** What `tvdb.get_series` returns that the update uses. */
  datatype Series = Series(name: string, overview: string, image: Option<string>)

  ghost predicate UniqueShowIds(shows: seq<Show>)
  {
    forall i, j :: 0 <= i < j < |shows| ==> shows[i].id != shows[j].id
  }

  /** Line 73: flagged, or last refreshed more than a week before `now`. */
  predicate Stale(s: Show, now: int)
  {
    s.needsUpdate || s.lastUpdated < now - Week
  }

  /** Lines 68-75: the given show when an id is passed, else the stale ones. */
  predicate ToUpdate(s: Show, showId: Option<nat>, now: int)
  {
    match showId
    case Some(id) => s.id == id
    case None => Stale(s, now)
  }

  /** The rows the query of lines 68-75 returns, in table order. */
  function Selected(shows: seq<Show>, showId: Option<nat>, now: int): (r: seq<Show>)
    ensures forall x :: x in r <==> x in shows && ToUpdate(x, showId, now)
  {
    if shows == [] then []
    else (if ToUpdate(shows[0], showId, now) then [shows[0]] else []) + Selected(shows[1..], showId, now)
  }

  /** Lines 87-88: the image is fetched only when the series has a
      non-empty one. */
  predicate HasImage(series: Series)
  {
    series.image.Some? && series.image.value != ""
  }

  /** The UPDATE of lines 90-99 on one row. */
  function Store(s: Show, name: string, overview: string, image: Option<string>, width: int, height: int,
                 now: int): Show
  {
    s.(title := name, description := overview, thumbnail := image, thumbnailWidth := width,
       thumbnailHeight := height, lastUpdated := now, needsUpdate := false)
  }

  /** Lines 84-99 for one show: the metadata of its series, the thumbnail
      size measured only when there is an image, and the flag cleared. */
  function Refresh(s: Show, series: Series, dims: string -> (int, int), now: int): (r: Show)
    ensures r.id == s.id && r.tvdbId == s.tvdbId && r.path == s.path && r.enabled == s.enabled
    ensures r.verified == s.verified && r.lastPlayed == s.lastPlayed
    ensures r.title == series.name && r.description == series.overview && r.thumbnail == series.image
    ensures !r.needsUpdate && r.lastUpdated == now
    ensures HasImage(series) ==> (r.thumbnailWidth, r.thumbnailHeight) == dims(series.image.value)
    ensures !HasImage(series) ==> r.thumbnailWidth == 0 && r.thumbnailHeight == 0
  {
    var size := if HasImage(series) then dims(series.image.value) else (0, 0);
    Store(s, series.name, series.overview, series.image, size.0, size.1, now)
  }

  /** `UPDATE tv_shows SET ... WHERE id = id`. */
  function StoreWhere(shows: seq<Show>, id: nat, name: string, overview: string, image: Option<string>,
                      width: int, height: int, now: int): (r: seq<Show>)
    ensures |r| == |shows|
  {
    seq(|shows|, k requires 0 <= k < |shows| =>
      if shows[k].id == id then Store(shows[k], name, overview, image, width, height, now) else shows[k])
  }

  /** The table after the rows with an id in `ids` have been refreshed. */
  function RefreshedAll(shows: seq<Show>, ids: set<nat>, series: nat -> Series, dims: string -> (int, int),
                        now: int): (r: seq<Show>)
    ensures |r| == |shows|
  {
    seq(|shows|, k requires 0 <= k < |shows| =>
      if shows[k].id in ids then Refresh(shows[k], series(shows[k].tvdbId), dims, now) else shows[k])
  }

  /** The ids of a list of shows. */
  function ShowIds(shows: seq<Show>): (r: set<nat>)
    ensures forall x :: x in shows ==> x.id in r
    ensures forall n :: n in r ==> exists x :: x in shows && x.id == n
  {
    if shows == [] then {} else ShowIds(shows[..|shows| - 1]) + {shows[|shows| - 1].id}
  }

  lemma ShowIdsStep(shows: seq<Show>, i: nat)
    requires i < |shows|
    ensures ShowIds(shows[..i + 1]) == ShowIds(shows[..i]) + {shows[i].id}
  {
    assert shows[..i + 1][..i] == shows[..i];
  }

  /** Storing over a stored row keeps only the second store. */
  lemma StoreTwice(s: Show, name: string, overview: string, image: Option<string>, width: int, height: int,
                   now: int, name': string, overview': string, image': Option<string>, width': int,
                   height': int, now': int)
    ensures Store(Store(s, name, overview, image, width, height, now), name', overview', image', width', height', now')
            == Store(s, name', overview', image', width', height', now')
  {}

  /** One pass of the loop of lines 83-100: refreshing show `s` adds its id. */
  lemma RefreshStep(shows: seq<Show>, ids: set<nat>, s: Show, series: nat -> Series,
                    dims: string -> (int, int), now: int)
    requires UniqueShowIds(shows) && s in shows
    ensures var info := series(s.tvdbId);
            var size := if HasImage(info) then dims(info.image.value) else (0, 0);
            StoreWhere(RefreshedAll(shows, ids, series, dims, now), s.id, info.name, info.overview,
                       info.image, size.0, size.1, now)
            == RefreshedAll(shows, ids + {s.id}, series, dims, now)
  {
    var info := series(s.tvdbId);
    var size := if HasImage(info) then dims(info.image.value) else (0, 0);
    var before := RefreshedAll(shows, ids, series, dims, now);
    var lhs := StoreWhere(before, s.id, info.name, info.overview, info.image, size.0, size.1, now);
    var rhs := RefreshedAll(shows, ids + {s.id}, series, dims, now);
    forall k | 0 <= k < |shows|
      ensures lhs[k] == rhs[k]
    {
      if shows[k].id == s.id {
        var j :| 0 <= j < |shows| && shows[j] == s;
        assert j == k;
        if shows[k].id in ids {
          StoreTwice(shows[k], info.name, info.overview, info.image, size.0, size.1, now,
                     info.name, info.overview, info.image, size.0, size.1, now);
        }
      }
    }
  }

  /** Lines 66-100 with `tvdb.get_series` as `series`, the image size
      lookup as `dims` and `datetime.now()` as `now`. */
  method UpdateShows(db: Db, showId: Option<nat>, now: int, series: nat -> Series, dims: string -> (int, int))
    requires UniqueShowIds(db.shows)
    modifies db
    ensures db.shows == RefreshedAll(old(db.shows), ShowIds(Selected(old(db.shows), showId, now)), series,
                                     dims, now)
    ensures db.episodes == old(db.episodes) && db.schedule == old(db.schedule)
    ensures db.nextEpisodeId == old(db.nextEpisodeId) && db.nextRowId == old(db.nextRowId)
  {
    ghost var shows := db.shows;
    var toUpdate := Selected(db.shows, showId, now);
    assert db.shows == RefreshedAll(shows, {}, series, dims, now);
    if toUpdate == [] {
      return;
    }
    for i := 0 to |toUpdate|
      invariant db.shows == RefreshedAll(shows, ShowIds(toUpdate[..i]), series, dims, now)
      invariant db.episodes == old(db.episodes) && db.schedule == old(db.schedule)
      invariant db.nextEpisodeId == old(db.nextEpisodeId) && db.nextRowId == old(db.nextRowId)
    {
      var s := toUpdate[i];
      RefreshStep(shows, ShowIds(toUpdate[..i]), s, series, dims, now);
      ShowIdsStep(toUpdate, i);
      var info := series(s.tvdbId);
      var width, height := 0, 0;
      if info.image.Some? && info.image.value != "" {
        var size := dims(info.image.value);
        width, height := size.0, size.1;
      }
      db.shows := StoreWhere(db.shows, s.id, info.name, info.overview, info.image, width, height, now);
    }
    assert toUpdate[..|toUpdate|] == toUpdate;
  }

  /** What `update_shows` does to each row: a selected row is refreshed
      from its series and is no longer stale at `now`; any other row is
      left as it was. */
  lemma UpdateRule(shows: seq<Show>, showId: Option<nat>, now: int, series: nat -> Series,
                   dims: string -> (int, int), k: nat)
    requires UniqueShowIds(shows) && k < |shows|
    ensures var r := RefreshedAll(shows, ShowIds(Selected(shows, showId, now)), series, dims, now);
            (ToUpdate(shows[k], showId, now) ==>
               r[k] == Refresh(shows[k], series(shows[k].tvdbId), dims, now) && !Stale(r[k], now))
            && (!ToUpdate(shows[k], showId, now) ==> r[k] == shows[k])
  {
    var sel := Selected(shows, showId, now);
    if !ToUpdate(shows[k], showId, now) && shows[k].id in ShowIds(sel) {
      assert false;
    }
  }

  // ---------------------------------------------------------------------
  // add_new_episodes (lines 102-168)

  /** An episode record of `tvdb.get_series_episodes`. */
  datatype TvdbEpisode = TvdbEpisode(id: nat, seasonNumber: int, number: int, overview: Option<string>)

  /** A file `os.walk` yields under a show's folder: its full path, its
      name, its size in bytes and the duration ffprobe reports, in seconds. */
  datatype File = File(path: string, name: string, size: nat, duration: nat)

  /** Lines 133-134: 100 MiB. */
  const MinSize: nat := 100 * 1024 * 1024

  /** The size test of lines 133-134 is a float division by 2^20, which is
      exact, so it is the integer comparison with `MinSize`. */
  lemma SizeRule(size: nat)
    ensures (size as real) / (1024.0 * 1024.0) < 100.0 <==> size < MinSize
  {}

  /** `S(\d\d)E(\d\d)` matches at position `i` of `name`. */
  predicate CodeAt(name: string, i: nat)
  {
    i + 6 <= |name| && name[i] == 'S' && IsDigit(name[i + 1]) && IsDigit(name[i + 2])
    && name[i + 3] == 'E' && IsDigit(name[i + 4]) && IsDigit(name[i + 5])
  }

  /** `re.search` from position `from`: the leftmost position where the
      pattern matches. */
  function FindCode(name: string, from: nat): (r: Option<nat>)
    ensures r.Some? ==> from <= r.value && CodeAt(name, r.value)
    ensures forall j :: from <= j && (r.None? || j < r.value) ==> !CodeAt(name, j)
    decreases |name| - from
  {
    if from + 6 > |name| then None
    else if CodeAt(name, from) then Some(from)
    else FindCode(name, from + 1)
  }

  /** Lines 137-143: season and episode from the leftmost match in the
      file name, both two decimal digits. */
  function ParseCode(name: string): (r: Option<(nat, nat)>)
    ensures r.Some? ==> r.value.0 < 100 && r.value.1 < 100
    ensures r.None? <==> forall j :: 0 <= j ==> !CodeAt(name, j)
    ensures r.Some? ==>
              var i := FindCode(name, 0).value;
              r.value == (10 * DigitValue(name[i + 1]) + DigitValue(name[i + 2]),
                          10 * DigitValue(name[i + 4]) + DigitValue(name[i + 5]))
  {
    match FindCode(name, 0)
    case None => None
    case Some(i) =>
      var s, e := name[i + 1..i + 3], name[i + 4..i + 6];
      TwoDigitsBelowHundred(s);
      TwoDigitsBelowHundred(e);
      Some((DigitsValue(s), DigitsValue(e)))
  }

  /** Two decimal digits for `n` below 100, with a leading zero. */
  function TwoDigits(n: nat): (r: string)
    requires n < 100
    ensures |r| == 2 && AllDigits(r)
  {
    [DigitChar(n / 10), DigitChar(n % 10)]
  }

  lemma TwoDigitsValue(n: nat)
    requires n < 100
    ensures DigitsValue(TwoDigits(n)) == n
  {
    var r := TwoDigits(n);
    var h := r[..1];
    assert h[..0] == [] && h[0] == r[0];
    assert DigitsValue(h) == DigitValue(r[0]) == n / 10;
    assert r[..|r| - 1] == h;
    assert DigitValue(r[1]) == n % 10;
  }

  /** A name in which `S<season>E<episode>` is the first code, after a
      prefix `p` in which no code starts, is read back as that season and
      episode. */
  lemma ParseCodeRoundTrip(p: string, season: nat, episode: nat, rest: string)
    requires season < 100 && episode < 100
    requires forall j :: 0 <= j < |p| ==> !CodeAt(p + "S" + TwoDigits(season) + "E" + TwoDigits(episode) + rest, j)
    ensures ParseCode(p + "S" + TwoDigits(season) + "E" + TwoDigits(episode) + rest) == Some((season, episode))
  {
    var name := p + "S" + TwoDigits(season) + "E" + TwoDigits(episode) + rest;
    var code := "S" + TwoDigits(season) + "E" + TwoDigits(episode);
    assert name == p + code + rest;
    assert name[|p|..|p| + 6] == code;
    assert CodeAt(name, |p|);
    assert FindCode(name, 0) == Some(|p|);
    assert name[|p| + 1..|p| + 3] == TwoDigits(season);
    assert name[|p| + 4..|p| + 6] == TwoDigits(episode);
    TwoDigitsValue(season);
    TwoDigitsValue(episode);
  }

  /** Line 147: the record is for that season and episode. */
  predicate Matches(r: TvdbEpisode, season: int, number: int)
  {
    r.seasonNumber == season && r.number == number
  }

  /** The record lines 145-149 pick: the first that matches. */
  function FirstMatch(records: seq<TvdbEpisode>, season: int, number: int): (r: Option<TvdbEpisode>)
    ensures r.None? <==> forall k :: 0 <= k < |records| ==> !Matches(records[k], season, number)
    ensures r.Some? ==> exists k :: 0 <= k < |records| && records[k] == r.value && Matches(r.value, season, number)
                                    && forall j :: 0 <= j < k ==> !Matches(records[j], season, number)
  {
    if records == [] then None
    else if Matches(records[0], season, number) then Some(records[0])
    else
      var r := FirstMatch(records[1..], season, number);
      assert forall k :: 1 <= k < |records| ==> records[k] == records[1..][k - 1];
      r
  }

  /** Lines 145-149: the `for ... break` search. */
  method MatchRecord(records: seq<TvdbEpisode>, season: int, number: int) returns (r: Option<TvdbEpisode>)
    ensures r == FirstMatch(records, season, number)
  {
    var k := 0;
    while k < |records|
      invariant 0 <= k <= |records|
      invariant forall j :: 0 <= j < k ==> !Matches(records[j], season, number)
    {
      if Matches(records[k], season, number) {
        return Some(records[k]);
      }
      k := k + 1;
    }
    return None;
  }

  /** Lines 126-128: a row of the table has this path. */
  predicate PathKnown(eps: seq<Episode>, path: string)
  {
    exists e :: e in eps && e.path == path
  }

  /** Why a file is skipped, in the order the checks are made. */
  datatype Skip = KnownPath | TooSmall | NoCode | NoRecord

  datatype Decision = Skipped(why: Skip) | Insert(season: nat, number: nat, record: TvdbEpisode)

  /** Lines 126-153 for one file: the first check that fails, or the
      season, episode and record of the row to insert. */
  function Decide(f: File, eps: seq<Episode>, records: seq<TvdbEpisode>): (d: Decision)
    ensures d == Skipped(KnownPath) <==> PathKnown(eps, f.path)
    ensures d == Skipped(TooSmall) <==> !PathKnown(eps, f.path) && f.size < MinSize
    ensures d == Skipped(NoCode) <==> !PathKnown(eps, f.path) && f.size >= MinSize && ParseCode(f.name).None?
    ensures d.Insert? <==> (!PathKnown(eps, f.path) && f.size >= MinSize && ParseCode(f.name).Some?
                            && FirstMatch(records, ParseCode(f.name).value.0, ParseCode(f.name).value.1).Some?)
    ensures d.Insert? ==> ParseCode(f.name) == Some((d.season, d.number)) && d.season < 100 && d.number < 100
                          && FirstMatch(records, d.season, d.number) == Some(d.record)
  {
    if PathKnown(eps, f.path) then Skipped(KnownPath)
    else if f.size < MinSize then Skipped(TooSmall)
    else match ParseCode(f.name)
      case None => Skipped(NoCode)
      case Some(code) =>
        match FirstMatch(records, code.0, code.1)
        case None => Skipped(NoRecord)
        case Some(rec) => Insert(code.0, code.1, rec)
  }

  /** Lines 155-165: the row inserted for file `f` of show `showId`. */
  function NewEpisode(id: nat, showId: nat, f: File, season: nat, number: nat, rec: TvdbEpisode, now: int): Episode
  {
    Episode(id, showId, rec.id, f.path, f.duration, season, number, rec.overview, now)
  }

  /** The episode table and the next auto-increment id. */
  datatype Catalog = Catalog(episodes: seq<Episode>, next: nat)

  /** The catalog after file `f` of show `showId` has been considered. */
  function Added(c: Catalog, showId: nat, f: File, records: seq<TvdbEpisode>, now: int): Catalog
  {
    match Decide(f, c.episodes, records)
    case Skipped(_) => c
    case Insert(season, number, rec) =>
      Catalog(c.episodes + [NewEpisode(c.next, showId, f, season, number, rec, now)], c.next + 1)
  }

  /** The catalog after the files of one show, in walk order. */
  function AddedFiles(c: Catalog, showId: nat, files: seq<File>, records: seq<TvdbEpisode>, now: int): Catalog
  {
    if files == [] then c
    else Added(AddedFiles(c, showId, files[..|files| - 1], records, now), showId, files[|files| - 1], records, now)
  }

  /** Line 105: the verified shows, in table order. */
  function VerifiedShows(shows: seq<Show>): (r: seq<Show>)
    ensures forall s :: s in r <==> s in shows && s.verified
  {
    if shows == [] then []
    else (if shows[0].verified then [shows[0]] else []) + VerifiedShows(shows[1..])
  }

  /** The catalog after the files of every show of `shows`, with `walk`
      listing a folder and `tvdb` the episode records of a series. */
  function AddedShows(c: Catalog, shows: seq<Show>, walk: string -> seq<File>, tvdb: nat -> seq<TvdbEpisode>,
                      now: int): Catalog
  {
    if shows == [] then c
    else
      var s := shows[|shows| - 1];
      AddedFiles(AddedShows(c, shows[..|shows| - 1], walk, tvdb, now), s.id, walk(s.path), tvdb(s.tvdbId), now)
  }

  /** Lines 118-166 for one file. */
  method AddFile(db: Db, showId: nat, f: File, records: seq<TvdbEpisode>, now: int)
    modifies db
    ensures var c := Added(Catalog(old(db.episodes), old(db.nextEpisodeId)), showId, f, records, now);
            db.episodes == c.episodes && db.nextEpisodeId == c.next
    ensures db.shows == old(db.shows) && db.schedule == old(db.schedule) && db.nextRowId == old(db.nextRowId)
  {
    if PathKnown(db.episodes, f.path) {
      return;
    }
    if f.size < MinSize {
      return;
    }
    var code := ParseCode(f.name);
    if code.None? {
      return;
    }
    var season, number := code.value.0, code.value.1;
    var record := MatchRecord(records, season, number);
    if record.None? {
      return;
    }
    db.episodes := db.episodes + [NewEpisode(db.nextEpisodeId, showId, f, season, number, record.value, now)];
    db.nextEpisodeId := db.nextEpisodeId + 1;
  }

  /** Lines 116-166: the files of one show. */
  method AddShowFiles(db: Db, showId: nat, files: seq<File>, records: seq<TvdbEpisode>, now: int)
    modifies db
    ensures var c := AddedFiles(Catalog(old(db.episodes), old(db.nextEpisodeId)), showId, files, records, now);
            db.episodes == c.episodes && db.nextEpisodeId == c.next
    ensures db.shows == old(db.shows) && db.schedule == old(db.schedule) && db.nextRowId == old(db.nextRowId)
  {
    ghost var start := Catalog(db.episodes, db.nextEpisodeId);
    for i := 0 to |files|
      invariant var c := AddedFiles(start, showId, files[..i], records, now);
                db.episodes == c.episodes && db.nextEpisodeId == c.next
      invariant db.shows == old(db.shows) && db.schedule == old(db.schedule) && db.nextRowId == old(db.nextRowId)
    {
      assert files[..i + 1][..i] == files[..i];
      AddFile(db, showId, files[i], records, now);
    }
    assert files[..|files|] == files;
  }

  /** Lines 102-168 with `os.walk` as `walk`, `tvdb.get_series_episodes`
      as `tvdb` and `datetime.now()` as `now`. */
  method AddNewEpisodes(db: Db, walk: string -> seq<File>, tvdb: nat -> seq<TvdbEpisode>, now: int)
    modifies db
    ensures var c := AddedShows(Catalog(old(db.episodes), old(db.nextEpisodeId)), VerifiedShows(old(db.shows)),
                                walk, tvdb, now);
            db.episodes == c.episodes && db.nextEpisodeId == c.next
    ensures db.shows == old(db.shows) && db.schedule == old(db.schedule) && db.nextRowId == old(db.nextRowId)
  {
    ghost var start := Catalog(db.episodes, db.nextEpisodeId);
    var shows := VerifiedShows(db.shows);
    for i := 0 to |shows|
      invariant var c := AddedShows(start, shows[..i], walk, tvdb, now);
                db.episodes == c.episodes && db.nextEpisodeId == c.next
      invariant db.shows == old(db.shows) && db.schedule == old(db.schedule) && db.nextRowId == old(db.nextRowId)
    {
      assert shows[..i + 1][..i] == shows[..i];
      var s := shows[i];
      AddShowFiles(db, s.id, walk(s.path), tvdb(s.tvdbId), now);
    }
    assert shows[..|shows|] == shows;
  }

  /** The table invariant ingestion keeps: no two rows share a path or an
      id, and every id is below the next one. */
  ghost predicate CatalogOk(c: Catalog)
  {
    (forall i, j :: 0 <= i < j < |c.episodes| ==> c.episodes[i].path != c.episodes[j].path)
    && (forall i, j :: 0 <= i < j < |c.episodes| ==> c.episodes[i].id != c.episodes[j].id)
    && (forall i :: 0 <= i < |c.episodes| ==> c.episodes[i].id < c.next)
  }

  /** Considering a file only appends: at most one row, with the next id,
      a new path, a size of at least 100 MiB and the first matching
      record; and it keeps the table invariant. */
  lemma AddedRule(c: Catalog, showId: nat, f: File, records: seq<TvdbEpisode>, now: int)
    ensures var c' := Added(c, showId, f, records, now);
            c.episodes <= c'.episodes && c'.next == c.next + |c'.episodes| - |c.episodes|
            && |c'.episodes| <= |c.episodes| + 1
    ensures var c' := Added(c, showId, f, records, now);
            |c'.episodes| == |c.episodes| + 1 ==>
              var e := c'.episodes[|c.episodes|];
              e.id == c.next && e.showId == showId && e.path == f.path && !PathKnown(c.episodes, f.path)
              && f.size >= MinSize && ParseCode(f.name) == Some((e.season, e.number))
              && FirstMatch(records, e.season, e.number) == Some(TvdbEpisode(e.tvdbId, e.season, e.number, e.description))
    ensures CatalogOk(c) ==> CatalogOk(Added(c, showId, f, records, now))
  {
    var c' := Added(c, showId, f, records, now);
    var d := Decide(f, c.episodes, records);
    if d.Insert? && CatalogOk(c) {
      var n := |c.episodes|;
      forall i | 0 <= i < n
        ensures c'.episodes[i].path != c'.episodes[n].path
      {
        assert c'.episodes[i] == c.episodes[i];
        assert c.episodes[i] in c.episodes;
      }
    }
  }

  /** The files of a show keep the invariant, and only append. */
  lemma {:induction false} AddedFilesRule(c: Catalog, showId: nat, files: seq<File>, records: seq<TvdbEpisode>,
                                          now: int)
    ensures var c' := AddedFiles(c, showId, files, records, now);
            c.episodes <= c'.episodes && c'.next == c.next + |c'.episodes| - |c.episodes|
    ensures CatalogOk(c) ==> CatalogOk(AddedFiles(c, showId, files, records, now))
  {
    if files != [] {
      var before := AddedFiles(c, showId, files[..|files| - 1], records, now);
      AddedFilesRule(c, showId, files[..|files| - 1], records, now);
      AddedRule(before, showId, files[|files| - 1], records, now);
    }
  }

  /** `add_new_episodes` keeps the invariant and never changes or removes
      a row that was there. */
  lemma {:induction false} AddedShowsRule(c: Catalog, shows: seq<Show>, walk: string -> seq<File>,
                                          tvdb: nat -> seq<TvdbEpisode>, now: int)
    ensures var c' := AddedShows(c, shows, walk, tvdb, now);
            c.episodes <= c'.episodes && c'.next == c.next + |c'.episodes| - |c.episodes|
    ensures CatalogOk(c) ==> CatalogOk(AddedShows(c, shows, walk, tvdb, now))
  {
    if shows != [] {
      var s := shows[|shows| - 1];
      var before := AddedShows(c, shows[..|shows| - 1], walk, tvdb, now);
      AddedShowsRule(c, shows[..|shows| - 1], walk, tvdb, now);
      AddedFilesRule(before, s.id, walk(s.path), tvdb(s.tvdbId), now);
    }
  }

  // ---------------------------------------------------------------------
  // remove_missing_episodes (lines 170-218)

  /** Lines 200-210: a row that the deletion of episode ids `gone` removes
      from the schedule, one starting at `now` or later. */
  predicate Cancelled(x: Row, gone: set<nat>, now: int)
  {
    x.episodeId.Some? && x.episodeId.value in gone && x.start >= now
  }

  /** The schedule without the rows `Cancelled` names, in order. */
  function Unscheduled(rows: seq<Row>, gone: set<nat>, now: int): seq<Row>
  {
    if rows == [] then []
    else (if Cancelled(rows[0], gone, now) then [] else [rows[0]]) + Unscheduled(rows[1..], gone, now)
  }

  /** Line 212: the episode table without the rows whose id is in `gone`. */
  function Dropping(eps: seq<Episode>, gone: set<nat>): seq<Episode>
  {
    if eps == [] then []
    else (if eps[0].id in gone then [] else [eps[0]]) + Dropping(eps[1..], gone)
  }

  /** The schedule keeps exactly the rows not cancelled. */
  lemma {:induction false} UnscheduledMembers(rows: seq<Row>, gone: set<nat>, now: int)
    ensures forall x :: x in Unscheduled(rows, gone, now) <==> x in rows && !Cancelled(x, gone, now)
  {
    if rows != [] {
      UnscheduledMembers(rows[1..], gone, now);
      assert forall x :: x in rows <==> x == rows[0] || x in rows[1..];
    }
  }

  /** The episode table keeps exactly the rows whose id is not deleted. */
  lemma {:induction false} DroppingMembers(eps: seq<Episode>, gone: set<nat>)
    ensures forall e :: e in Dropping(eps, gone) <==> e in eps && e.id !in gone
  {
    if eps != [] {
      DroppingMembers(eps[1..], gone);
      assert forall e :: e in eps <==> e == eps[0] || e in eps[1..];
    }
  }

  /** The ids of the episodes of `eps` whose file is missing (line 178). */
  function MissingIds(eps: seq<Episode>, present: string -> bool): (r: set<nat>)
    ensures forall e :: e in eps && !present(e.path) ==> e.id in r
    ensures forall n :: n in r ==> exists e :: e in eps && !present(e.path) && e.id == n
  {
    if eps == [] then {}
    else
      var e := eps[|eps| - 1];
      MissingIds(eps[..|eps| - 1], present) + (if present(e.path) then {} else {e.id})
  }

  lemma MissingIdsStep(eps: seq<Episode>, i: nat, present: string -> bool)
    requires i < |eps|
    ensures MissingIds(eps[..i + 1], present)
            == MissingIds(eps[..i], present) + (if present(eps[i].path) then {} else {eps[i].id})
  {
    assert eps[..i + 1][..i] == eps[..i];
  }

  lemma UnscheduledCons(x: Row, rows: seq<Row>, gone: set<nat>, now: int)
    ensures Unscheduled([x] + rows, gone, now) == (if Cancelled(x, gone, now) then [] else [x]) + Unscheduled(rows, gone, now)
  {
    assert ([x] + rows)[0] == x && ([x] + rows)[1..] == rows;
  }

  lemma DroppingCons(e: Episode, eps: seq<Episode>, gone: set<nat>)
    ensures Dropping([e] + eps, gone) == (if e.id in gone then [] else [e]) + Dropping(eps, gone)
  {
    assert ([e] + eps)[0] == e && ([e] + eps)[1..] == eps;
  }

  /** Deleting in two rounds deletes the union. */
  lemma {:induction false} UnscheduledTwice(rows: seq<Row>, a: set<nat>, b: set<nat>, now: int)
    ensures Unscheduled(Unscheduled(rows, a, now), b, now) == Unscheduled(rows, a + b, now)
  {
    if rows != [] {
      var x, rest := rows[0], rows[1..];
      UnscheduledTwice(rest, a, b, now);
      if !Cancelled(x, a, now) {
        assert Unscheduled(rows, a, now) == [x] + Unscheduled(rest, a, now);
        UnscheduledCons(x, Unscheduled(rest, a, now), b, now);
        assert Cancelled(x, a + b, now) == Cancelled(x, b, now);
        assert Unscheduled(rows, a + b, now) == (if Cancelled(x, b, now) then [] else [x]) + Unscheduled(rest, a + b, now);
      } else {
        assert Cancelled(x, a + b, now);
        assert Unscheduled(rows, a, now) == Unscheduled(rest, a, now);
        assert Unscheduled(rows, a + b, now) == Unscheduled(rest, a + b, now);
      }
    }
  }

  lemma {:induction false} DroppingTwice(eps: seq<Episode>, a: set<nat>, b: set<nat>)
    ensures Dropping(Dropping(eps, a), b) == Dropping(eps, a + b)
  {
    if eps != [] {
      var e, rest := eps[0], eps[1..];
      DroppingTwice(rest, a, b);
      if e.id !in a {
        assert Dropping(eps, a) == [e] + Dropping(rest, a);
        DroppingCons(e, Dropping(rest, a), b);
        assert Dropping(eps, a + b) == (if e.id in b then [] else [e]) + Dropping(rest, a + b);
      } else {
        assert Dropping(eps, a) == Dropping(rest, a);
        assert Dropping(eps, a + b) == Dropping(rest, a + b);
      }
    }
  }

  lemma {:induction false} UnscheduledNothing(rows: seq<Row>, now: int)
    ensures Unscheduled(rows, {}, now) == rows
  {
    if rows != [] {
      UnscheduledNothing(rows[1..], now);
    }
  }

  lemma {:induction false} DroppingNothing(eps: seq<Episode>)
    ensures Dropping(eps, {}) == eps
  {
    if eps != [] {
      DroppingNothing(eps[1..]);
    }
  }

  /** One pass of the loop of lines 177-216 over the snapshot `eps`: a
      missing episode adds its id to the deleted ones, a present one adds
      nothing. */
  lemma RemoveStep(eps: seq<Episode>, rows: seq<Row>, i: nat, present: string -> bool, now: int)
    requires i < |eps|
    ensures var gone, gone' := MissingIds(eps[..i], present), MissingIds(eps[..i + 1], present);
            present(eps[i].path) ==> gone' == gone
    ensures var gone, gone' := MissingIds(eps[..i], present), MissingIds(eps[..i + 1], present);
            !present(eps[i].path) ==>
              Dropping(Dropping(eps, gone), {eps[i].id}) == Dropping(eps, gone')
              && Unscheduled(Unscheduled(rows, gone, now), {eps[i].id}, now) == Unscheduled(rows, gone', now)
  {
    var gone := MissingIds(eps[..i], present);
    MissingIdsStep(eps, i, present);
    DroppingTwice(eps, gone, {eps[i].id});
    UnscheduledTwice(rows, gone, {eps[i].id}, now);
  }

  /** Lines 170-218 with `os.path.exists` as `present` and the database's
      `NOW()` as `now`: every episode whose file is missing is deleted along
      with its schedule rows from `now` on. */
  method RemoveMissingEpisodes(db: Db, present: string -> bool, now: int)
    modifies db
    ensures db.episodes == Dropping(old(db.episodes), MissingIds(old(db.episodes), present))
    ensures db.schedule == Unscheduled(old(db.schedule), MissingIds(old(db.episodes), present), now)
    ensures db.shows == old(db.shows)
    ensures db.nextEpisodeId == old(db.nextEpisodeId) && db.nextRowId == old(db.nextRowId)
  {
    ghost var schedule := db.schedule;
    var episodes := db.episodes;
    DroppingNothing(episodes);
    UnscheduledNothing(schedule, now);
    for i := 0 to |episodes|
      invariant db.episodes == Dropping(episodes, MissingIds(episodes[..i], present))
      invariant db.schedule == Unscheduled(schedule, MissingIds(episodes[..i], present), now)
      invariant db.shows == old(db.shows)
      invariant db.nextEpisodeId == old(db.nextEpisodeId) && db.nextRowId == old(db.nextRowId)
    {
      var e := episodes[i];
      RemoveStep(episodes, schedule, i, present, now);
      if !present(e.path) {
        db.schedule := Unscheduled(db.schedule, {e.id}, now);
        db.episodes := Dropping(db.episodes, {e.id});
      }
    }
    assert episodes[..|episodes|] == episodes;
  }

  /** The removal deletes exactly the episodes whose file is missing, and
      no schedule row that starts before `now`. */
  lemma RemovalRule(eps: seq<Episode>, rows: seq<Row>, present: string -> bool, now: int)
    requires UniqueEpisodeIds(eps)
    ensures var gone := MissingIds(eps, present);
            forall e :: e in eps ==> (e in Dropping(eps, gone) <==> present(e.path))
    ensures forall x :: x in rows && x.start < now ==> x in Unscheduled(rows, MissingIds(eps, present), now)
  {
    var gone := MissingIds(eps, present);
    DroppingMembers(eps, gone);
    UnscheduledMembers(rows, gone, now);
    forall e | e in eps && present(e.path)
      ensures e.id !in gone
    {
      if e.id in gone {
        assert false;
      }
    }
  }

  /** The rows of schedule it keeps are the ones it had: the removal never
      changes a row. */
  lemma RemovalOnlyDeletes(rows: seq<Row>, gone: set<nat>, now: int)
    ensures |Unscheduled(rows, gone, now)| <= |rows|
    ensures forall x :: x in Unscheduled(rows, gone, now) ==> x in rows
  {
    UnscheduledLength(rows, gone, now);
    UnscheduledMembers(rows, gone, now);
  }

  lemma {:induction false} UnscheduledLength(rows: seq<Row>, gone: set<nat>, now: int)
    ensures |Unscheduled(rows, gone, now)| <= |rows|
  {
    if rows != [] {
      UnscheduledLength(rows[1..], gone, now);
    }
  }

  /** A show whose rotation pointer names an episode with a missing file is
      left pointing at no row, so the next rotation lookup fails (lib/scheduler.py
      lines 33-35). */
  lemma RemovalLeavesDangling(shows: seq<Show>, eps: seq<Episode>, present: string -> bool, show: nat, e: Episode)
    requires e in eps && !present(e.path)
    requires FindShow(shows, show).Some? && FindShow(shows, show).value.lastPlayed == Some(e.id)
    ensures NextEpisode(shows, Dropping(eps, MissingIds(eps, present)), show) == Failure(DanglingPointer)
  {
    var left := Dropping(eps, MissingIds(eps, present));
    DroppingMembers(eps, MissingIds(eps, present));
    assert FindEpisode(left, e.id).None? by {
      forall i | 0 <= i < |left|
        ensures left[i].id != e.id
      {
        assert left[i] in left;
      }
    }
  }
}
