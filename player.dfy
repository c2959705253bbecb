/** The playout bookkeeping of `Player.play`, `Player._handle_completed`
    and `PlayerThread`: which schedule entry goes out next, where playback
    starts inside it, when the playback thread waits, the ffmpeg command it
    builds and the start/end events it reports back. The controller and the
    playback thread are modelled as separate objects that share the two
    queues; each method is one uninterrupted stretch of one of them. */
module Player {
  import opened Basics
  import opened Text
  import opened Tables

  const SecondsPerDay: int := 86400

  /** `timedelta.seconds` of a difference of `d` seconds: the part left
      after whole days, days rounding down. */
  function DeltaSeconds(d: int): (r: nat)
    ensures r < SecondsPerDay && (d - r) % SecondsPerDay == 0
    ensures 0 <= d < SecondsPerDay ==> r == d
  {
    d % SecondsPerDay
  }

  // ---------------------------------------------------------------------
  // The schedule queries

  /** `ORDER BY start_time LIMIT 1`: a row of least start time (among equal
      start times, the first in table order). */
  function Earliest(rows: seq<Row>): (r: Option<Row>)
    ensures r.None? <==> rows == []
    ensures r.Some? ==> r.value in rows && forall x :: x in rows ==> r.value.start <= x.start
  {
    if rows == [] then None
    else
      var rest := Earliest(rows[1..]);
      if rest.Some? && rest.value.start < rows[0].start then rest else Some(rows[0])
  }

  /** The query of line 97: the entry airing at `now`. */
  function Covering(schedule: seq<Row>, now: int): Option<Row>
  {
    Earliest(Where(schedule, (x: Row) => x.start <= now && now < x.end))
  }

  /** The query of line 102: the first entry starting at or after `now`. */
  function Upcoming(schedule: seq<Row>, now: int): Option<Row>
  {
    Earliest(Where(schedule, (x: Row) => x.start >= now))
  }

  /** The query of line 139: the first entry starting strictly after `t`. */
  function After(schedule: seq<Row>, t: int): Option<Row>
  {
    Earliest(Where(schedule, (x: Row) => x.start > t))
  }

  /** The `path` of a row of the LEFT JOIN with `tv_episodes` (lines 97 and
      139): the dictionary cursor keeps the later of the two `path` columns,
      the episode's, which is NULL when the row names no episode. */
  function JoinedPath(eps: seq<Episode>, row: Row): (r: Option<string>)
    ensures r.Some? <==> row.episodeId.Some? && FindEpisode(eps, row.episodeId.value).Some?
    ensures r.Some? ==> r.value == FindEpisode(eps, row.episodeId.value).value.path
  {
    if row.episodeId.None? then None
    else
      match FindEpisode(eps, row.episodeId.value)
      case None => None
      case Some(e) => Some(e.path)
  }

  // ---------------------------------------------------------------------
  // Starting playout (lines 97-125)

  /** A message on the playlist queue. */
  datatype Item = Item(id: nat, path: Option<string>, skipto: Option<nat>, waitUntil: Option<int>)

  /** What `play` does before starting the thread: the entry it starts with,
      how long it sleeps first (lines 110-113) and the first item it queues. */
  datatype StartPlan = StartPlan(entry: Row, delay: nat, item: Item)

  /** Lines 115-119: the offset into an entry that started before `now`,
      in whole seconds within a day; no offset when that is 0. */
  function Skipto(start: int, now: int): (r: Option<nat>)
    ensures r.Some? <==> start < now && (now - start) % SecondsPerDay != 0
    ensures r.Some? ==> 0 < r.value < SecondsPerDay && (now - start - r.value) % SecondsPerDay == 0
    ensures start < now < start + SecondsPerDay ==> r == Some(now - start)
  {
    if start < now && DeltaSeconds(now - start) > 0 then Some(DeltaSeconds(now - start)) else None
  }

  /** The sleep of lines 110-113 before an entry that has not started yet. */
  function StartDelay(start: int, now: int): (r: nat)
    ensures now < start < now + SecondsPerDay ==> r == start - now
    ensures start <= now ==> r == 0
  {
    if now < start then DeltaSeconds(start - now) else 0
  }

  function Plan(entry: Row, path: Option<string>, delay: nat, later: int): StartPlan
  {
    StartPlan(entry, delay, Item(entry.id, path, Skipto(entry.start, later), None))
  }

  /** Lines 97-125 as written. The queries run at `now`; `later` is the
      clock when `skipto` is computed, after any sleep. The fallback query
      of line 102 reads the schedule table alone, so the path it queues is
      the row's own `path` column, not its episode's. */
  function PlanStartAsWritten(schedule: seq<Row>, eps: seq<Episode>, now: int, later: int): Option<StartPlan>
  {
    match Covering(schedule, now)
    case Some(row) => Some(Plan(row, JoinedPath(eps, row), 0, later))
    case None =>
      match Upcoming(schedule, now)
      case None => None
      case Some(row) => Some(Plan(row, row.path, StartDelay(row.start, now), later))
  }

  /** Lines 97-125 with the fallback entry's path taken from its episode, as
      the other two queries do. */
  function PlanStart(schedule: seq<Row>, eps: seq<Episode>, now: int, later: int): Option<StartPlan>
  {
    match Covering(schedule, now)
    case Some(row) => Some(Plan(row, JoinedPath(eps, row), 0, later))
    case None =>
      match Upcoming(schedule, now)
      case None => None
      case Some(row) => Some(Plan(row, JoinedPath(eps, row), StartDelay(row.start, now), later))
  }

  /** The starting entry is an earliest entry airing at `now`; failing that,
      an earliest entry starting at or after `now`; with neither, nothing is
      queued. The first item carries the entry's id, its episode's path and
      the `skipto` offset, and no `wait_until`. */
  lemma StartingEntry(schedule: seq<Row>, eps: seq<Episode>, now: int, later: int)
    ensures PlanStart(schedule, eps, now, later).None? <==>
              forall x :: x in schedule ==> !(x.start <= now < x.end) && x.start < now
    ensures PlanStart(schedule, eps, now, later).Some? ==>
              PlanStart(schedule, eps, now, later).value.entry in schedule
    ensures PlanStart(schedule, eps, now, later).Some? &&
            (exists x :: x in schedule && x.start <= now < x.end) ==>
              PlanStart(schedule, eps, now, later).value.entry.start <= now
              < PlanStart(schedule, eps, now, later).value.entry.end
              && PlanStart(schedule, eps, now, later).value.delay == 0
              && forall x :: x in schedule && x.start <= now < x.end ==>
                   PlanStart(schedule, eps, now, later).value.entry.start <= x.start
    ensures PlanStart(schedule, eps, now, later).Some? &&
            (forall x :: x in schedule ==> !(x.start <= now < x.end)) ==>
              now <= PlanStart(schedule, eps, now, later).value.entry.start
              && forall x :: x in schedule && now <= x.start ==>
                   PlanStart(schedule, eps, now, later).value.entry.start <= x.start
    ensures PlanStart(schedule, eps, now, later).Some? ==>
              PlanStart(schedule, eps, now, later).value.item ==
              Item(PlanStart(schedule, eps, now, later).value.entry.id,
                   JoinedPath(eps, PlanStart(schedule, eps, now, later).value.entry),
                   Skipto(PlanStart(schedule, eps, now, later).value.entry.start, later), None)
  {
    var cover := Where(schedule, (x: Row) => x.start <= now && now < x.end);
    var up := Where(schedule, (x: Row) => x.start >= now);
    if cover == [] {
      if up != [] {
        var y := up[0];
        assert y in schedule && y.start >= now;
      }
    } else {
      var y := cover[0];
      assert y in schedule && y.start <= now < y.end;
    }
  }

  /** As written, starting ahead of an episode entry queues that entry with
      no path, even though its episode has one: the schedule inserts episode
      rows with a NULL `path` column. */
  lemma StartPathAsWritten()
    ensures var ep := Episode(1, 1, 0, "/tv/s01e01.mkv", 1200, 1, 1, None, 0);
            var row := Row(7, Some(1), 100, 1300, "", false, "", None, None, None, false);
            PlanStartAsWritten([row], [ep], 0, 100) ==
              Some(StartPlan(row, 100, Item(7, None, None, None)))
            && PlanStart([row], [ep], 0, 100) ==
              Some(StartPlan(row, 100, Item(7, Some("/tv/s01e01.mkv"), None, None)))
  {
    var ep := Episode(1, 1, 0, "/tv/s01e01.mkv", 1200, 1, 1, None, 0);
    var row := Row(7, Some(1), 100, 1300, "", false, "", None, None, None, false);
    assert Where([row], (x: Row) => x.start <= 0 && 0 < x.end) == [];
    assert Where([row], (x: Row) => x.start >= 0) == [row];
  }

  // ---------------------------------------------------------------------
  // The next entry (lines 139-157)

  /** Lines 148-150: the playback thread is told to wait for the next
      entry's start exactly when it does not start where the previous one
      ends. */
  function WaitUntil(next: Row, previous: Row): (r: Option<int>)
    ensures r.Some? <==> next.start != previous.end
    ensures r.Some? ==> r.value == next.start
  {
    if next.start != previous.end then Some(next.start) else None
  }

  /** Lines 55-60: how long the playback thread sleeps before an item it
      takes at `now`. */
  function ThreadDelay(waitUntil: Option<int>, now: int): (r: nat)
    ensures waitUntil.None? ==> r == 0
    ensures waitUntil.Some? && waitUntil.value <= now ==> r == 0
  {
    if waitUntil.Some? && waitUntil.value > now then DeltaSeconds(waitUntil.value - now) else 0
  }

  /** The gap rule end to end: an entry that starts where the previous one
      ends is played straight away, and after a gap of less than a day the
      thread sleeps exactly until the entry's planned start if it takes the
      item before then. */
  lemma GapIsWaited(next: Row, previous: Row, now: int)
    ensures next.start == previous.end ==> ThreadDelay(WaitUntil(next, previous), now) == 0
    ensures next.start != previous.end && now < next.start < now + SecondsPerDay ==>
              now + ThreadDelay(WaitUntil(next, previous), now) == next.start
    ensures next.start != previous.end && next.start <= now ==>
              ThreadDelay(WaitUntil(next, previous), now) == 0
  {
  }

  /** The query of line 139: the next entry is an earliest one starting
      after the previous entry's start, and there is none exactly when no
      entry starts later. */
  lemma NextEntry(schedule: seq<Row>, previous: Row)
    ensures After(schedule, previous.start).None? <==>
              forall x :: x in schedule ==> x.start <= previous.start
    ensures After(schedule, previous.start).Some? ==>
              After(schedule, previous.start).value in schedule
              && After(schedule, previous.start).value.start > previous.start
              && forall x :: x in schedule && x.start > previous.start ==>
                   After(schedule, previous.start).value.start <= x.start
  {
    var later := Where(schedule, (x: Row) => x.start > previous.start);
    if later != [] {
      var y := later[0];
      assert y in schedule;
    }
  }

  // ---------------------------------------------------------------------
  // Completion events (lines 62-65, 74-78, 162-181)

  /** A message on the completed queue. */
  datatype Event = Started(id: nat, time: int) | Ended(id: nat, time: int)

  /** The UPDATE of line 168 or line 172 applied to one row. */
  function Mark(row: Row, e: Event): (r: Row)
    ensures row.id != e.id ==> r == row
  {
    if row.id != e.id then row
    else
      match e
      case Started(_, t) => row.(actualStart := Some(t), completed := false)
      case Ended(_, t) => row.(actualEnd := Some(t), completed := true)
  }

  /** One UPDATE over the whole schedule table. */
  function MarkAll(schedule: seq<Row>, e: Event): (r: seq<Row>)
    ensures |r| == |schedule|
    ensures forall i :: 0 <= i < |r| ==> r[i] == Mark(schedule[i], e)
  {
    if schedule == [] then [] else [Mark(schedule[0], e)] + MarkAll(schedule[1..], e)
  }

  /** The schedule after the UPDATEs for `events`, in queue order. */
  function Drain(schedule: seq<Row>, events: seq<Event>): (r: seq<Row>)
    ensures |r| == |schedule|
  {
    if events == [] then schedule else MarkAll(Drain(schedule, events[..|events| - 1]), Last(events))
  }

  /** The last event about row `id`. */
  function LastFor(events: seq<Event>, id: nat): (r: Option<Event>)
    ensures r.Some? ==> r.value in events && r.value.id == id
    ensures r.None? <==> forall i :: 0 <= i < |events| ==> events[i].id != id
  {
    if events == [] then None
    else if Last(events).id == id then Some(Last(events))
    else
      var r := LastFor(events[..|events| - 1], id);
      assert forall i :: 0 <= i < |events| - 1 ==> events[..|events| - 1][i] == events[i];
      r
  }

  /** The time of the last start event about row `id`. */
  function LastStart(events: seq<Event>, id: nat): Option<int>
  {
    if events == [] then None
    else if Last(events).Started? && Last(events).id == id then Some(Last(events).time)
    else LastStart(events[..|events| - 1], id)
  }

  /** The time of the last end event about row `id`. */
  function LastEnd(events: seq<Event>, id: nat): Option<int>
  {
    if events == [] then None
    else if Last(events).Ended? && Last(events).id == id then Some(Last(events).time)
    else LastEnd(events[..|events| - 1], id)
  }

  function OrElse(a: Option<int>, b: Option<int>): Option<int>
  {
    if a.Some? then a else b
  }

  /** What draining the queue does to each row: a row no event names is
      unchanged; otherwise it carries the latest reported start and end
      times, and it is completed exactly when its latest event is an end
      event. No other column changes. */
  lemma {:induction false} DrainEffect(schedule: seq<Row>, events: seq<Event>, i: nat)
    requires i < |schedule|
    ensures Drain(schedule, events)[i] ==
            schedule[i].(actualStart := OrElse(LastStart(events, schedule[i].id), schedule[i].actualStart),
                         actualEnd := OrElse(LastEnd(events, schedule[i].id), schedule[i].actualEnd),
                         completed := if LastFor(events, schedule[i].id).None? then schedule[i].completed
                                      else LastFor(events, schedule[i].id).value.Ended?)
    decreases |events|
  {
    if events != [] {
      DrainEffect(schedule, events[..|events| - 1], i);
    }
  }

  /** A FIFO `queue.Queue`, touched by one side at a time. */
  class Queue<T> {
    var items: seq<T>

    constructor ()
      ensures items == []
    {
      items := [];
    }

    method Put(x: T)
      modifies this
      ensures items == old(items) + [x]
    {
      items := items + [x];
    }

    /** `get(block=False)`, with `queue.Empty` as `None`. */
    method TryGet() returns (r: Option<T>)
      modifies this
      ensures old(items) == [] ==> r == None && items == []
      ensures old(items) != [] ==> r == Some(old(items)[0]) && items == old(items)[1..]
    {
      if items == [] {
        r := None;
      } else {
        r := Some(items[0]);
        items := items[1..];
      }
    }
  }

  /** `Player._handle_completed`: takes every event off the queue and applies
      its UPDATE. */
  method HandleCompleted(db: Db, completed: Queue<Event>)
    modifies db, completed
    ensures db.schedule == Drain(old(db.schedule), old(completed.items))
    ensures completed.items == []
    ensures db.shows == old(db.shows) && db.episodes == old(db.episodes)
    ensures db.nextEpisodeId == old(db.nextEpisodeId) && db.nextRowId == old(db.nextRowId)
  {
    ghost var events := completed.items;
    ghost var n := 0;
    while true
      invariant 0 <= n <= |events| && completed.items == events[n..]
      invariant db.schedule == Drain(old(db.schedule), events[..n])
      invariant db.shows == old(db.shows) && db.episodes == old(db.episodes)
      invariant db.nextEpisodeId == old(db.nextEpisodeId) && db.nextRowId == old(db.nextRowId)
      decreases |completed.items|
    {
      var e := completed.TryGet();
      if e.None? {
        assert events[..n] == events;
        return;
      }
      assert events[..n + 1][..n] == events[..n] && Last(events[..n + 1]) == e.value;
      db.schedule := MarkAll(db.schedule, e.value);
      n := n + 1;
    }
  }

  // ---------------------------------------------------------------------
  // The controller loop (lines 131-157)

  datatype Pass =
    | Backoff              // lines 135-137: an item is still waiting on the playlist
    | NothingNext          // lines 143-146
    | Enqueued(item: Item) // lines 152-157

  /** One pass of the loop of lines 131-157: first drain the completion
      events, then queue the entry after `previous`, unless an item is still
      waiting to be taken. Returns the new `previous_played`. */
  method ControlPass(db: Db, playlist: Queue<Item>, completed: Queue<Event>, previous: Row)
    returns (pass: Pass, previous': Row)
    modifies db, playlist, completed
    ensures db.schedule == Drain(old(db.schedule), old(completed.items)) && completed.items == []
    ensures db.shows == old(db.shows) && db.episodes == old(db.episodes)
    ensures db.nextEpisodeId == old(db.nextEpisodeId) && db.nextRowId == old(db.nextRowId)
    ensures old(playlist.items) != [] ==>
              pass == Backoff && playlist.items == old(playlist.items) && previous' == previous
    ensures old(playlist.items) == [] && After(db.schedule, previous.start).None? ==>
              pass == NothingNext && playlist.items == [] && previous' == previous
    ensures old(playlist.items) == [] && After(db.schedule, previous.start).Some? ==>
              previous' == After(db.schedule, previous.start).value
              && pass == Enqueued(Item(previous'.id, JoinedPath(db.episodes, previous'), None,
                                       WaitUntil(previous', previous)))
              && playlist.items == [pass.item]
  {
    if completed.items != [] {
      HandleCompleted(db, completed);
    }
    if playlist.items != [] {
      return Backoff, previous;
    }
    var next := After(db.schedule, previous.start);
    if next.None? {
      return NothingNext, previous;
    }
    var item := Item(next.value.id, JoinedPath(db.episodes, next.value), None, WaitUntil(next.value, previous));
    playlist.Put(item);
    pass, previous' := Enqueued(item), next.value;
  }

  /** Lookahead is one item: a pass never leaves more than one item
      waiting, and queues nothing while one is waiting. */
  method Lookahead(db: Db, playlist: Queue<Item>, completed: Queue<Event>, previous: Row)
    returns (pass: Pass, previous': Row)
    requires |playlist.items| <= 1
    modifies db, playlist, completed
    ensures |playlist.items| <= 1
    ensures pass.Enqueued? ==> old(playlist.items) == [] && playlist.items == [pass.item]
  {
    pass, previous' := ControlPass(db, playlist, completed, previous);
  }

  // ---------------------------------------------------------------------
  // The playback thread (lines 21-83)

  /** Line 29: read the input at its native rate, decoding on the GPU. */
  const InputOptions: seq<string> := ["ffmpeg", "-hwaccel_output_format", "cuda", "-re"]

  /** Lines 36-51: scale and pad to 1080p at 29.97 frames per second with
      NVENC, mono 44.1 kHz AAC at 256 kbit/s. */
  const EncodeOptions: seq<string> :=
    ["-c:v", "h264_nvenc",
     "-vf", "scale=1920:1080:force_original_aspect_ratio=decrease,pad=1920:1080:(ow-iw)/2:(oh-ih)/2,setsar=1,format=yuv420p",
     "-pix_fmt", "yuv420p",
     "-r", "30000/1001",
     "-c:a", "aac",
     "-ar", "44100",
     "-b:a", "256k",
     "-ac", "1"]

  /** Lines 31-33: a seek goes before the input only for a non-zero offset. */
  function Seek(skipto: Option<nat>): (r: seq<string>)
    ensures |r| == 0 || |r| == 2
  {
    if skipto.Some? && skipto.value != 0 then ["-ss", NatToString(skipto.value)] else []
  }

  /** Lines 29-53: the ffmpeg command line for one item. */
  function FfmpegArgs(path: string, skipto: Option<nat>, rtmp: string): seq<string>
  {
    InputOptions + Seek(skipto) + ["-i", path] + EncodeOptions + ["-f", "flv", rtmp]
  }

  /** The seek offset a command line asks for. */
  function ArgsSkipto(args: seq<string>): Option<nat>
  {
    if |args| > 5 && args[4] == "-ss" && AllDigits(args[5]) then Some(DigitsValue(args[5])) else None
  }

  /** The input file a command line names. */
  function ArgsInput(args: seq<string>): string
  {
    var j := if |args| > 4 && args[4] == "-ss" then 7 else 5;
    if j < |args| then args[j] else ""
  }

  /** The command line starts with `ffmpeg -hwaccel_output_format cuda -re`,
      has `-ss <skipto>` right before `-i <path>` exactly when `skipto` is
      set and non-zero, ends with `-f flv <destination>`, and gives back the
      offset and the path it was built from. */
  lemma FfmpegArgsShape(path: string, skipto: Option<nat>, rtmp: string)
    ensures FfmpegArgs(path, skipto, rtmp)[..4] == ["ffmpeg", "-hwaccel_output_format", "cuda", "-re"]
    ensures FfmpegArgs(path, skipto, rtmp)[4] == "-ss" <==> skipto.Some? && skipto.value != 0
    ensures FfmpegArgs(path, skipto, rtmp)[|FfmpegArgs(path, skipto, rtmp)| - 3..] == ["-f", "flv", rtmp]
    ensures ArgsSkipto(FfmpegArgs(path, skipto, rtmp)) == if skipto.Some? && skipto.value != 0 then skipto else None
    ensures ArgsInput(FfmpegArgs(path, skipto, rtmp)) == path
  {
    var args := FfmpegArgs(path, skipto, rtmp);
    if skipto.Some? && skipto.value != 0 {
      NatToStringRoundTrip(skipto.value);
      assert args[5] == NatToString(skipto.value);
      assert args[6] == "-i" && args[7] == path;
    } else {
      assert args[4] == "-i" && args[5] == path;
    }
  }

  /** The ffmpeg process the thread is waiting on, and the item it plays. */
  datatype Running = Running(id: nat, args: seq<string>)

  datatype Playback =
    | QueueEmpty                              // lines 25-27
    | Launched(item: Item, delay: nat)        // lines 29-68
    | Crashed(item: Item)                     // line 68 with no path: `Popen` raises

  class PlayerThread {
    const playlist: Queue<Item>
    const completed: Queue<Event>
    var keepListening: bool
    var process: Option<Running>

    constructor (playlist: Queue<Item>, completed: Queue<Event>)
      ensures this.playlist == playlist && this.completed == completed
      ensures keepListening && process == None
    {
      this.playlist := playlist;
      this.completed := completed;
      keepListening := true;
      process := None;
    }

    /** Lines 24-68 of one iteration of `run`, taking an item at `now`: the
        start event is put on the completed queue before ffmpeg is
        launched, stamped with the time after the wait. */
    method Launch(rtmp: string, now: int) returns (r: Playback)
      requires process == None
      modifies this, playlist, completed
      ensures keepListening == old(keepListening)
      ensures old(playlist.items) == [] ==>
                r == QueueEmpty && playlist.items == [] && completed.items == old(completed.items)
                && process == None
      ensures old(playlist.items) != [] ==>
                !r.QueueEmpty? && r.item == old(playlist.items)[0] && playlist.items == old(playlist.items)[1..]
                && completed.items == old(completed.items) + [Started(r.item.id, now + ThreadDelay(r.item.waitUntil, now))]
      ensures r.Launched? ==>
                r.delay == ThreadDelay(r.item.waitUntil, now) && r.item.path.Some?
                && process == Some(Running(r.item.id, FfmpegArgs(r.item.path.value, r.item.skipto, rtmp)))
      ensures r.Crashed? ==> r.item.path.None? && process == None
      ensures old(playlist.items) != [] && old(playlist.items)[0].path.Some? ==> r.Launched?
    {
      var got := playlist.TryGet();
      if got.None? {
        return QueueEmpty;
      }
      var item := got.value;
      var delay := ThreadDelay(item.waitUntil, now);
      completed.Put(Started(item.id, now + delay));
      if item.path.None? {
        return Crashed(item);
      }
      process := Some(Running(item.id, FfmpegArgs(item.path.value, item.skipto, rtmp)));
      r := Launched(item, delay);
    }

    /** Lines 70-78: ffmpeg has exited at `now`; the end event is reported
        only while the thread is still listening. */
    method Finish(now: int)
      requires process.Some?
      modifies this, completed
      ensures process == None && keepListening == old(keepListening)
      ensures old(keepListening) ==> completed.items == old(completed.items) + [Ended(old(process).value.id, now)]
      ensures !old(keepListening) ==> completed.items == old(completed.items)
    {
      var id := process.value.id;
      process := None;
      if keepListening {
        completed.Put(Ended(id, now));
      }
    }

    /** Lines 80-83: stop listening, and terminate ffmpeg if one is running. */
    method Stop() returns (terminated: bool)
      modifies this
      ensures !keepListening && process == old(process)
      ensures terminated <==> old(process).Some?
    {
      keepListening := false;
      terminated := process.Some?;
    }
  }

  /** The event order of one item: its start event is reported before its
      process runs, and after `stop` its end event is never reported. */
  method StopDuringPlayback(t: PlayerThread, rtmp: string, now: int, later: int)
    returns (r: Playback)
    requires t.process == None && t.playlist.items != [] && t.playlist.items[0].path.Some?
    modifies t, t.playlist, t.completed
    ensures r.Launched? && r.item == old(t.playlist.items)[0]
    ensures t.completed.items ==
              old(t.completed.items) + [Started(r.item.id, now + ThreadDelay(r.item.waitUntil, now))]
    ensures !t.keepListening && t.process == None
  {
    r := t.Launch(rtmp, now);
    var terminated := t.Stop();
    t.Finish(later);
  }
}
