/** The three database tables the core reads and writes (`tv_shows`,
    `tv_episodes`, `schedule`), held in memory. Times are whole seconds on one
    clock; a table is a sequence of rows in the order the database returns
    them when a query has no ORDER BY. */
module Tables {
  import opened Basics

  /** A `tv_shows` row. */
  datatype Show = Show(
    id: nat,
    tvdbId: nat,
    path: string,
    title: string,
    description: string,
    thumbnail: Option<string>,
    thumbnailWidth: int,
    thumbnailHeight: int,
    enabled: bool,
    verified: bool,
    needsUpdate: bool,
    lastUpdated: int,
    lastPlayed: Option<nat>)     // the rotation pointer `last_played_episode`

  /** A `tv_episodes` row. */
  datatype Episode = Episode(
    id: nat,
    showId: nat,
    tvdbId: nat,
    path: string,
    duration: nat,              // seconds
    season: int,
    number: int,
    description: Option<string>,
    lastUpdated: int)

  /** A `schedule` row. */
  datatype Row = Row(
    id: nat,
    episodeId: Option<nat>,
    start: int,
    end: int,
    tag: string,                // "INTERMISSION", "MOVIE", ...
    isMarathon: bool,
    title: string,
    path: Option<string>,       // the row's own `path` column
    actualStart: Option<int>,
    actualEnd: Option<int>,
    completed: bool)

  const Intermission: string := "INTERMISSION"
  const Movie: string := "MOVIE"

  /** The database: its tables and the next values of the auto-increment ids. */
  class Db {
    var shows: seq<Show>
    var episodes: seq<Episode>
    var schedule: seq<Row>
    var nextEpisodeId: nat
    var nextRowId: nat

    constructor (shows: seq<Show>, episodes: seq<Episode>, schedule: seq<Row>,
                 nextEpisodeId: nat, nextRowId: nat)
      ensures this.shows == shows && this.episodes == episodes && this.schedule == schedule
      ensures this.nextEpisodeId == nextEpisodeId && this.nextRowId == nextRowId
    {
      this.shows := shows;
      this.episodes := episodes;
      this.schedule := schedule;
      this.nextEpisodeId := nextEpisodeId;
      this.nextRowId := nextRowId;
    }
  }

  /** `SELECT ... FROM tv_shows WHERE id = %s` followed by `fetchone()`. */
  function FindShow(shows: seq<Show>, id: nat): (r: Option<Show>)
    ensures r.None? <==> forall i :: 0 <= i < |shows| ==> shows[i].id != id
    ensures r.Some? ==> r.value in shows && r.value.id == id
  {
    if shows == [] then None
    else if shows[0].id == id then Some(shows[0])
    else FindShow(shows[1..], id)
  }

  /** `SELECT ... FROM tv_episodes WHERE id = %s` followed by `fetchone()`. */
  function FindEpisode(eps: seq<Episode>, id: nat): (r: Option<Episode>)
    ensures r.None? <==> forall i :: 0 <= i < |eps| ==> eps[i].id != id
    ensures r.Some? ==> r.value in eps && r.value.id == id
  {
    if eps == [] then None
    else if eps[0].id == id then Some(eps[0])
    else FindEpisode(eps[1..], id)
  }

  /** `SELECT * FROM schedule WHERE id = %s` followed by `fetchone()`. */
  function FindRow(rows: seq<Row>, id: nat): (r: Option<Row>)
    ensures r.None? <==> forall i :: 0 <= i < |rows| ==> rows[i].id != id
    ensures r.Some? ==> r.value in rows && r.value.id == id
  {
    if rows == [] then None
    else if rows[0].id == id then Some(rows[0])
    else FindRow(rows[1..], id)
  }

  /** A `WHERE` clause over the schedule table. */
  function Where(rows: seq<Row>, keep: Row -> bool): (r: seq<Row>)
    ensures forall x :: x in r <==> x in rows && keep(x)
  {
    if rows == [] then []
    else (if keep(rows[0]) then [rows[0]] else []) + Where(rows[1..], keep)
  }

  /** `id` is the table's primary key. */
  ghost predicate UniqueEpisodeIds(eps: seq<Episode>)
  {
    forall i, j :: 0 <= i < j < |eps| ==> eps[i].id != eps[j].id
  }

  /** With unique ids, looking up a row's id finds that row. */
  lemma {:induction false} FindEpisodeOfMember(eps: seq<Episode>, e: Episode)
    requires UniqueEpisodeIds(eps) && e in eps
    ensures FindEpisode(eps, e.id) == Some(e)
  {
    if eps[0] != e {
      assert eps[0].id != e.id by {
        var k :| 0 <= k < |eps| && eps[k] == e;
        assert k != 0;
      }
      assert UniqueEpisodeIds(eps[1..]) by {
        forall i, j | 0 <= i < j < |eps[1..]| ensures eps[1..][i].id != eps[1..][j].id {
          assert eps[1..][i] == eps[i + 1] && eps[1..][j] == eps[j + 1];
        }
      }
      assert e in eps[1..];
      FindEpisodeOfMember(eps[1..], e);
    }
  }
}
