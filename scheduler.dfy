/** The day builder `Scheduler.build_schedule` (lib/scheduler.py:61-177) and
    the title and description defaults of `Scheduler.generate_xmltv`
    (lib/scheduler.py:215-225).

    Times are whole seconds; `day` is the date's midnight and the day's grid
    starts at 04:00. Every random draw of the source (`random.random()`,
    `random.randint`, `ORDER BY RAND() LIMIT 1`) reads the next value of an
    oracle `rng: nat -> nat`, so each run of the model is one run of the
    source for some sequence of draws. */
module Scheduler {
  import opened Basics
  import opened Text
  import opened Tables
  import opened Rotation

  const DayStart: int := 4 * 3600           // `dttime(4)`
  const DayLength: int := 86400             // `timedelta(hours=24)`
  const MarathonMinContent: int := 72000    // `HAVING total_duration >= 72000`
  const MarathonLatestStart: int := 43200   // `randint(0, 43200)`
  const MarathonMinDuration: int := 28800   // `randint(28800, 43200)`
  const MarathonMaxDuration: int := 43200
  const ShortEpisode: int := 1800           // `duration > 1800` allows only 2 repeats
  const RepeatChance: real := 0.4           // `random.random() < 0.4`

  /** `random.random()` read from a draw: a 53-bit fraction in [0, 1). */
  function Unit(x: nat): (u: real)
    ensures 0.0 <= u < 1.0
  {
    (x % 0x20_0000_0000_0000) as real / 0x20_0000_0000_0000 as real
  }

  /** `random.randint(lo, hi)` read from a draw. */
  function RandInt(lo: int, hi: int, x: nat): (r: int)
    requires lo <= hi
    ensures lo <= r <= hi
  {
    lo + x % (hi - lo + 1)
  }

  /** Every value of the range can be drawn. */
  lemma RandIntReachable(lo: int, hi: int, v: int)
    requires lo <= v <= hi
    ensures RandInt(lo, hi, (v - lo) as nat) == v
  {
  }

  // ---------------------------------------------------------------------
  // The queries of build_schedule

  /** `SELECT * FROM schedule WHERE start_time >= s AND start_time < s + 24h LIMIT 1`
      found a row (lines 65-71). */
  function DayTaken(schedule: seq<Row>, s: int): (r: bool)
    ensures r <==> exists row :: row in schedule && s <= row.start < s + DayLength
  {
    if schedule == [] then false
    else (s <= schedule[0].start < s + DayLength) || DayTaken(schedule[1..], s)
  }

  /** `SUM(duration)` of a show's episodes. */
  function TotalDuration(eps: seq<Episode>, show: nat): nat
  {
    if eps == [] then 0
    else (if eps[0].showId == show then eps[0].duration else 0) + TotalDuration(eps[1..], show)
  }

  /** The shows the marathon query of line 78 can return: enabled, with at
      least 20 hours of episodes. */
  function MarathonCandidates(shows: seq<Show>, eps: seq<Episode>): (r: seq<nat>)
    ensures forall id :: id in r <==>
              exists s :: s in shows && s.id == id && s.enabled && TotalDuration(eps, id) >= MarathonMinContent
  {
    if shows == [] then []
    else
      var s := shows[0];
      (if s.enabled && TotalDuration(eps, s.id) >= MarathonMinContent then [s.id] else [])
      + MarathonCandidates(shows[1..], eps)
  }

  /** The show ids the pick of lines 107-120 chooses from: enabled shows other
      than the previously placed show and the marathon show. */
  function ShowCandidates(shows: seq<Show>, previous: Option<nat>, marathon: Option<nat>): (r: seq<nat>)
    ensures forall id :: id in r <==>
              EnabledId(shows, id) && previous != Some(id) && marathon != Some(id)
  {
    if shows == [] then []
    else
      var s := shows[0];
      (if s.enabled && previous != Some(s.id) && marathon != Some(s.id) then [s.id] else [])
      + ShowCandidates(shows[1..], previous, marathon)
  }

  ghost predicate EnabledId(shows: seq<Show>, id: nat)
  {
    exists s :: s in shows && s.enabled && s.id == id
  }

  /** The repeat count chosen at lines 148-158 from the two draws `coin`
      (`random.random()`) and `pick` (`random.randint(0, len - 1)`). */
  function RepeatChoice(duration: nat, coin: nat, pick: nat): (r: nat)
    ensures r == 0 || r == 2 || r == 4
    ensures r == 4 ==> duration <= ShortEpisode
    ensures Unit(coin) >= RepeatChance ==> r == 0
    ensures Unit(coin) < RepeatChance ==> r != 0
  {
    var options := if duration > ShortEpisode then [2] else [2, 4];
    if Unit(coin) < RepeatChance then options[RandInt(0, |options| - 1, pick)] else 0
  }

  /** Every outcome the source allows is reachable: 0 always, 2 always, and 4
      exactly for episodes of at most 1800 s. */
  lemma RepeatChoiceReachable(duration: nat)
    ensures RepeatChoice(duration, 0x20_0000_0000_0000 - 1, 0) == 0
    ensures RepeatChoice(duration, 0, 0) == 2
    ensures duration <= ShortEpisode ==> RepeatChoice(duration, 0, 1) == 4
  {
    assert Unit(0x20_0000_0000_0000 - 1) >= RepeatChance;
    assert Unit(0) < RepeatChance;
  }

  // ---------------------------------------------------------------------
  // What a run places

  /** The marathon window drawn at lines 86-94, relative to the day's start. */
  datatype Marathon = Marathon(showId: nat, start: int, duration: int)

  /** One placed episode with the loop's bookkeeping at the moment it was
      placed: whether the show was picked afresh in that iteration (`picked`), whether a
      new repeat count was drawn (`decided`), the repeat count and the show
      counter after the placement. */
  datatype Placement = Placement(
    episode: Episode,
    start: int,
    end: int,
    inMarathon: bool,
    picked: bool,
    decided: bool,
    repeats: nat,
    counter: nat)

  datatype BuildOutcome =
    | AlreadyScheduled   // lines 68-71
    | DayFull            // line 146: the next episode would pass 24 hours
    | NoShowToPick       // line 122: `fetchone()` found no show, `res['id']` raises
    | RotationFailed     // line 126: `get_next_episode` raises
    | OutOfFuel          // the model's bound on the `while True` loop

  /** Content placed so far: the running clock `total_duration`. */
  function SumDur(ps: seq<Placement>): nat
  {
    if ps == [] then 0 else SumDur(ps[..|ps| - 1]) + Last(ps).episode.duration
  }

  /** Content placed inside the marathon: the `marathon_timer`. */
  function MarathonTime(ps: seq<Placement>): nat
  {
    if ps == [] then 0
    else MarathonTime(ps[..|ps| - 1]) + (if Last(ps).inMarathon then Last(ps).episode.duration else 0)
  }

  /** The show table after the pointer updates of line 173 for each placement. */
  function Replay(shows: seq<Show>, ps: seq<Placement>): seq<Show>
  {
    if ps == [] then shows
    else SetPointer(Replay(shows, ps[..|ps| - 1]), Last(ps).episode.showId, Last(ps).episode.id)
  }

  /** The row inserted at line 170. The insert sets only the episode and
      the two times; the other columns take assumed defaults: an empty,
      non-NULL tag and title, not a marathon, no path, no actual times and
      not completed. */
  function NewRow(id: nat, p: Placement): Row
  {
    Row(id, Some(p.episode.id), p.start, p.end, "", false, "", None, None, None, false)
  }

  /** The rows inserted for the placements, with consecutive ids from `id0`. */
  function Rows(ps: seq<Placement>, id0: nat): (r: seq<Row>)
    ensures |r| == |ps|
  {
    if ps == [] then [] else Rows(ps[..|ps| - 1], id0) + [NewRow(id0 + |ps| - 1, Last(ps))]
  }

  /** What the run fixed before the loop. */
  datatype Context = Context(s0: int, shows: seq<Show>, eps: seq<Episode>, marathon: Option<Marathon>)

  /** What the loop guarantees of placement `p`, given the placements before it. */
  ghost predicate PlacedOk(before: seq<Placement>, p: Placement, c: Context)
  {
    // back to back, within the day
    p.start == c.s0 + SumDur(before)
    && p.end == p.start + p.episode.duration
    && SumDur(before) + p.episode.duration <= DayLength
    // the episode is the rotation's next episode of its show at that moment
    && NextEpisode(Replay(c.shows, before), c.eps, p.episode.showId) == Success(Some(p.episode))
    // repeat counts
    && (p.repeats == 0 || p.repeats == 2 || p.repeats == 4)
    && (p.decided && p.repeats == 4 ==> p.episode.duration <= ShortEpisode)
    && (p.decided ==> p.counter >= 1)
    && (!p.decided ==>
          before != [] && p.repeats == Last(before).repeats
          && p.counter == Last(before).counter + 1 <= p.repeats)
    // a show picked afresh in this iteration
    && (p.picked ==>
          p.decided && p.counter == 1 && EnabledId(c.shows, p.episode.showId)
          && (before != [] ==> p.episode.showId != Last(before).episode.showId)
          && (c.marathon.Some? ==> p.episode.showId != c.marathon.value.showId))
    // otherwise the run or the marathon continues
    && (!p.picked && !p.inMarathon ==>
          !p.decided && before != [] && p.episode.showId == Last(before).episode.showId)
    && (p.inMarathon ==>
          c.marathon.Some? && p.episode.showId == c.marathon.value.showId
          && MarathonTime(before) + p.episode.duration <= c.marathon.value.duration)
  }

  /** Every placement satisfies `PlacedOk` given the ones before it. */
  ghost predicate AllPlacedOk(ps: seq<Placement>, c: Context)
  {
    ps == [] || (AllPlacedOk(ps[..|ps| - 1], c) && PlacedOk(ps[..|ps| - 1], Last(ps), c))
  }

  lemma AllPlacedOkSnoc(ps: seq<Placement>, p: Placement, c: Context)
    requires AllPlacedOk(ps, c) && PlacedOk(ps, p, c)
    ensures AllPlacedOk(ps + [p], c)
  {
    assert (ps + [p])[..|ps|] == ps;
  }

  /** `AllPlacedOk`, one index at a time. */
  lemma {:induction false} PlacedAt(ps: seq<Placement>, c: Context, j: nat)
    requires AllPlacedOk(ps, c) && j < |ps|
    ensures PlacedOk(ps[..j], ps[j], c)
    decreases |ps|
  {
    if j < |ps| - 1 {
      var front := ps[..|ps| - 1];
      PlacedAt(front, c, j);
      assert front[..j] == ps[..j] && front[j] == ps[j];
    }
  }

  /** The shows table differs from `shows` at most in the rotation pointers. */
  ghost predicate SameShows(a: seq<Show>, shows: seq<Show>)
  {
    |a| == |shows| && forall i :: 0 <= i < |a| ==> a[i].(lastPlayed := shows[i].lastPlayed) == shows[i]
  }

  lemma SameShowsEnabled(a: seq<Show>, shows: seq<Show>, id: nat)
    requires SameShows(a, shows) && EnabledId(a, id)
    ensures EnabledId(shows, id)
  {
    var s :| s in a && s.enabled && s.id == id;
    var i :| 0 <= i < |a| && a[i] == s;
    assert shows[i].enabled && shows[i].id == id;
  }

  lemma SameShowsFind(a: seq<Show>, shows: seq<Show>, id: nat)
    requires SameShows(a, shows) && EnabledId(a, id)
    ensures FindShow(a, id).Some?
  {
    var s :| s in a && s.enabled && s.id == id;
  }

  /** The running sums and tables after one more placement. */
  lemma SnocFacts(ps: seq<Placement>, p: Placement, shows: seq<Show>, id0: nat)
    ensures Last(ps + [p]) == p
    ensures SumDur(ps + [p]) == SumDur(ps) + p.episode.duration
    ensures MarathonTime(ps + [p]) == MarathonTime(ps) + (if p.inMarathon then p.episode.duration else 0)
    ensures Replay(shows, ps + [p]) == SetPointer(Replay(shows, ps), p.episode.showId, p.episode.id)
    ensures Rows(ps + [p], id0) == Rows(ps, id0) + [NewRow(id0 + |ps|, p)]
  {
    assert (ps + [p])[..|ps|] == ps;
  }

  /** The schedule table after one more insert. */
  lemma ScheduleSnoc(after: seq<Row>, before: seq<Row>, schedule: seq<Row>, ps: seq<Placement>,
                     p: Placement, id0: nat, id: nat)
    requires before == schedule + Rows(ps, id0) && id == id0 + |ps|
    requires after == before + [NewRow(id, p)]
    ensures after == schedule + Rows(ps + [p], id0)
  {
    SnocFacts(ps, p, [], id0);
  }

  lemma SetPointerSameShows(a: seq<Show>, shows: seq<Show>, show: nat, ep: nat)
    requires SameShows(a, shows)
    ensures SameShows(SetPointer(a, show, ep), shows)
  {
  }

  /** The local variables of the loop of lines 96-102. */
  datatype Vars = Vars(
    total: nat,               // `total_duration`
    previous: Option<nat>,    // `previous_show`
    counter: nat,             // `current_show_counter`
    repeats: nat,             // `current_show_repeats`
    current: Option<nat>,     // `current_show_id`
    inMarathon: bool,         // `in_marathon`
    timer: nat)               // `marathon_timer`

  function MarathonId(c: Context): Option<nat>
  {
    if c.marathon.Some? then Some(c.marathon.value.showId) else None
  }

  /** The loop invariant of `build_schedule`, in terms of what has been placed. */
  ghost predicate LoopInv(v: Vars, placed: seq<Placement>, c: Context)
  {
    v.total == SumDur(placed) <= DayLength
    && v.timer == MarathonTime(placed)
    && (c.marathon.Some? ==> v.timer <= c.marathon.value.duration)
    && (c.marathon.None? ==> v.timer == 0 && !v.inMarathon)
    && (v.inMarathon ==> v.current.Some?)
    && (v.repeats == 0 || v.repeats == 2 || v.repeats == 4)
    && (v.counter == 0 ==> v.repeats == 0)
    && (placed == [] ==> v.previous == None && v.counter == 0)
    && (placed != [] ==> v.previous == Some(Last(placed).episode.showId))
    && (v.counter > 0 ==>
          placed != [] && v.counter == Last(placed).counter
          && v.repeats == Last(placed).repeats && v.current == v.previous)
    && (v.inMarathon && v.counter > 0 ==> v.previous == MarathonId(c))
  }

  /** `v` holds the loop variables once the show of the iteration is chosen,
      `ep` is that show's next episode and none of the `continue`s or the
      `break` of lines 126-146 applies. */
  ghost predicate Chosen(v: Vars, placed: seq<Placement>, c: Context, shows: seq<Show>,
                         picked: bool, ep: Episode)
  {
    LoopInv(v, placed, c)
    && SameShows(shows, c.shows) && shows == Replay(c.shows, placed)
    && v.current == Some(ep.showId)
    && NextEpisode(shows, c.eps, ep.showId) == Success(Some(ep))
    && (picked ==>
          v.counter == 0 && v.repeats == 0 && !v.inMarathon
          && ep.showId in ShowCandidates(shows, v.previous, MarathonId(c)))
    && (!picked ==>
          !(v.counter >= v.repeats && !v.inMarathon) && (v.inMarathon ==> Some(ep.showId) == MarathonId(c)))
    && !(c.marathon.Some? && v.total + ep.duration > c.marathon.value.start && !v.inMarathon && v.timer == 0)
    && !(v.inMarathon && c.marathon.Some? && v.timer + ep.duration > c.marathon.value.duration)
    && v.total + ep.duration <= DayLength
  }

  /** `Chosen`, together with the repeat count `repeats` after line 158 and
      the placement `p` built from them. */
  ghost predicate Placeable(v: Vars, placed: seq<Placement>, c: Context, shows: seq<Show>,
                            picked: bool, ep: Episode, repeats: nat, p: Placement)
  {
    Chosen(v, placed, c, shows, picked, ep)
    && (v.counter >= v.repeats ==>
          (repeats == 0 || repeats == 2 || repeats == 4) && (repeats == 4 ==> ep.duration <= ShortEpisode))
    && (v.counter < v.repeats ==> repeats == v.repeats)
    && p.episode == ep && p.start == c.s0 + v.total && p.end == p.start + ep.duration
    && p.inMarathon == v.inMarathon && p.picked == picked && p.decided == (v.counter >= v.repeats)
    && p.repeats == repeats && p.counter == v.counter + 1
  }

  /** One placement (lines 148-175) keeps the loop invariant and is in order;
      `v'` holds the loop variables after lines 163-168. */
  lemma PlaceStep(v: Vars, v': Vars, placed: seq<Placement>, c: Context, shows: seq<Show>,
                  picked: bool, ep: Episode, repeats: nat, p: Placement)
    requires Placeable(v, placed, c, shows, picked, ep, repeats, p)
    requires v'.total == v.total + ep.duration && v'.previous == Some(ep.showId)
    requires v'.counter == v.counter + 1 && v'.repeats == repeats && v'.current == v.current
    requires v'.inMarathon == v.inMarathon
    requires v'.timer == v.timer + (if v.inMarathon then ep.duration else 0)
    ensures LoopInv(v', placed + [p], c)
    ensures PlacedOk(placed, p, c)
  {
    PlacedStep(v, placed, c, shows, picked, ep, repeats, p);
    InvStep(v, v', placed, c, p);
  }

  /** The placement made by one iteration is in order. */
  lemma PlacedStep(v: Vars, placed: seq<Placement>, c: Context, shows: seq<Show>,
                   picked: bool, ep: Episode, repeats: nat, p: Placement)
    requires Placeable(v, placed, c, shows, picked, ep, repeats, p)
    ensures PlacedOk(placed, p, c)
    ensures p.inMarathon ==> c.marathon.Some? && MarathonTime(placed) + ep.duration <= c.marathon.value.duration
  {
    var d := ep.duration;
    var show := ep.showId;
    assert p.start == c.s0 + SumDur(placed) && p.end == p.start + d && SumDur(placed) + d <= DayLength;
    if picked {
      SameShowsEnabled(shows, c.shows, show);
      assert p.decided && p.counter == 1 && EnabledId(c.shows, show);
      assert placed != [] ==> show != Last(placed).episode.showId;
      assert c.marathon.Some? ==> show != c.marathon.value.showId;
    } else if !v.inMarathon {
      assert v.counter > 0;
      assert !p.decided && placed != [] && show == Last(placed).episode.showId;
    }
    assert !p.decided ==>
             placed != [] && p.repeats == Last(placed).repeats && p.counter == Last(placed).counter + 1 <= p.repeats;
    assert p.inMarathon ==>
             c.marathon.Some? && show == c.marathon.value.showId
             && MarathonTime(placed) + d <= c.marathon.value.duration;
  }

  /** Choosing the show of an iteration (lines 104-124) keeps the loop
      invariant: the counters are reset for a fresh pick, and inside a
      marathon the show is the marathon's. */
  lemma SelectedInv(v: Vars, v1: Vars, placed: seq<Placement>, c: Context)
    requires LoopInv(v, placed, c)
    requires v1.total == v.total && v1.previous == v.previous && v1.timer == v.timer
    requires v1.inMarathon == v.inMarathon && v1.current.Some?
    requires (v1.counter == 0 && v1.repeats == 0)
             || (v1.counter == v.counter && v1.repeats == v.repeats
                 && (v1.current == v.current || (v.inMarathon && v1.current == MarathonId(c))))
    ensures LoopInv(v1, placed, c)
  {
  }

  /** The iterations that place nothing (lines 128-142) keep the loop invariant. */
  lemma ContinueInv(v1: Vars, v2: Vars, placed: seq<Placement>, c: Context)
    requires LoopInv(v1, placed, c) && v1.current.Some?
    requires v2.total == v1.total && v2.previous == v1.previous && v2.timer == v1.timer
    requires v2.current == v1.current
    requires (v2.counter == 0 && v2.repeats == 0) || (v2.counter == v1.counter && v2.repeats == v1.repeats)
    requires v2.inMarathon ==> v1.inMarathon || (c.marathon.Some? && v2.counter == 0)
    ensures LoopInv(v2, placed, c)
  {
  }

  /** The loop invariant after appending a placement that is itself in order. */
  lemma InvStep(v: Vars, v': Vars, placed: seq<Placement>, c: Context, p: Placement)
    requires LoopInv(v, placed, c)
    requires p.repeats == 0 || p.repeats == 2 || p.repeats == 4
    requires p.inMarathon ==> c.marathon.Some? && MarathonTime(placed) + p.episode.duration <= c.marathon.value.duration
    requires SumDur(placed) + p.episode.duration <= DayLength
    requires v'.total == v.total + p.episode.duration && v'.previous == Some(p.episode.showId)
    requires v'.counter == p.counter >= 1 && v'.repeats == p.repeats && v'.current == Some(p.episode.showId)
    requires v'.inMarathon == v.inMarathon == p.inMarathon
    requires v'.timer == v.timer + (if p.inMarathon then p.episode.duration else 0)
    requires p.inMarathon ==> v'.previous == MarathonId(c)
    ensures LoopInv(v', placed + [p], c)
  {
    SnocFacts(placed, p, c.shows, 0);
  }

  /** The writes of lines 161-175: the schedule row, then the show's pointer. */
  method Record(db: Db, p: Placement)
    modifies db
    ensures db.schedule == old(db.schedule) + [NewRow(old(db.nextRowId), p)]
    ensures db.nextRowId == old(db.nextRowId) + 1
    ensures db.shows == SetPointer(old(db.shows), p.episode.showId, p.episode.id)
    ensures db.episodes == old(db.episodes) && db.nextEpisodeId == old(db.nextEpisodeId)
  {
    db.schedule := db.schedule + [NewRow(db.nextRowId, p)];
    db.nextRowId := db.nextRowId + 1;
    db.shows := SetPointer(db.shows, p.episode.showId, p.episode.id);
  }

  /** Lines 73-94: with probability `chance` (`config.MARATHON_CHANCE`) a
      random enabled show with at least 20 hours of episodes gets a marathon window. The
      draws are read from `rng` starting at `k`; `r.1` is the next unread draw. */
  function DrawMarathon(shows: seq<Show>, eps: seq<Episode>, chance: real, rng: nat -> nat, k: nat): (r: (Option<Marathon>, nat))
    ensures r.0.None? <==> Unit(rng(k)) > chance || MarathonCandidates(shows, eps) == []
    ensures r.0.Some? ==>
              0 <= r.0.value.start <= MarathonLatestStart
              && MarathonMinDuration <= r.0.value.duration <= MarathonMaxDuration
              && r.0.value.showId in MarathonCandidates(shows, eps)
    ensures r.1 > k
  {
    var cands := MarathonCandidates(shows, eps);
    if Unit(rng(k)) <= chance && cands != [] then
      var id := cands[rng(k + 1) % |cands|];
      var start := RandInt(0, MarathonLatestStart, rng(k + 2));
      var duration := RandInt(MarathonMinDuration, MarathonMaxDuration, rng(k + 3));
      (Some(Marathon(id, start, duration)), k + 4)
    else if Unit(rng(k)) <= chance then (None, k + 2)
    else (None, k + 1)
  }

  /** What one iteration of the loop of lines 103-175 did. */
  datatype Step =
    | Placed(p: Placement)          // an episode was inserted
    | Skipped                       // a `continue`
    | Stopped(outcome: BuildOutcome)

  /** Lines 148-175: the repeat count, the placed episode's slot, the
      updated loop variables and the two writes. */
  method Place(db: Db, s0: int, rng: nat -> nat, k: nat, v: Vars, picked: bool, ep: Episode,
               ghost c: Context, ghost placed: seq<Placement>)
    returns (p: Placement, k': nat, v': Vars)
    modifies db
    requires c.s0 == s0 && Chosen(v, placed, c, db.shows, picked, ep)
    ensures LoopInv(v', placed + [p], c) && PlacedOk(placed, p, c)
    ensures db.schedule == old(db.schedule) + [NewRow(old(db.nextRowId), p)]
    ensures db.nextRowId == old(db.nextRowId) + 1
    ensures db.shows == SetPointer(old(db.shows), p.episode.showId, p.episode.id)
    ensures db.episodes == old(db.episodes) && db.nextEpisodeId == old(db.nextEpisodeId)
  {
    k' := k;
    var repeats := v.repeats;
    var decided := v.counter >= v.repeats;
    if decided {
      repeats := RepeatChoice(ep.duration, rng(k'), rng(k' + 1));
      k' := k' + 2;
    }
    p := Placement(ep, s0 + v.total, s0 + v.total + ep.duration, v.inMarathon, picked, decided,
                   repeats, v.counter + 1);
    var timer := v.timer;
    if v.inMarathon {
      timer := timer + ep.duration;
    }
    v' := Vars(v.total + ep.duration, Some(ep.showId), v.counter + 1, repeats, v.current, v.inMarathon, timer);
    PlaceStep(v, v', placed, c, db.shows, picked, ep, repeats, p);
    Record(db, p);
  }

  /** One iteration of the `while True` loop of `build_schedule`, on the
      loop's local variables `v`. */
  method Iteration(db: Db, s0: int, marathon: Option<Marathon>, rng: nat -> nat, k: nat, v: Vars,
                   ghost c: Context, ghost placed: seq<Placement>)
    returns (step: Step, k': nat, v': Vars)
    modifies db
    requires c.s0 == s0 && c.marathon == marathon && c.eps == db.episodes
    requires SameShows(db.shows, c.shows) && db.shows == Replay(c.shows, placed)
    requires LoopInv(v, placed, c)
    ensures db.episodes == old(db.episodes) && db.nextEpisodeId == old(db.nextEpisodeId)
    ensures step.Placed? ==>
              LoopInv(v', placed + [step.p], c) && PlacedOk(placed, step.p, c)
              && db.schedule == old(db.schedule) + [NewRow(old(db.nextRowId), step.p)]
              && db.nextRowId == old(db.nextRowId) + 1
              && db.shows == SetPointer(old(db.shows), step.p.episode.showId, step.p.episode.id)
    ensures !step.Placed? ==>
              LoopInv(v', placed, c)
              && db.schedule == old(db.schedule) && db.nextRowId == old(db.nextRowId) && db.shows == old(db.shows)
    ensures step.Stopped? ==> step.outcome in {DayFull, NoShowToPick, RotationFailed}
  {
    k' := k;
    var total, previous, counter, repeats, current, inMarathon, timer :=
      v.total, v.previous, v.counter, v.repeats, v.current, v.inMarathon, v.timer;
    var marathonId := if marathon.Some? then Some(marathon.value.showId) else None;

    // lines 104-124: the show for this iteration
    var picked := false;
    if current.None? || (counter >= repeats && !inMarathon) {
      counter, repeats := 0, 0;
      var cands := ShowCandidates(db.shows, previous, marathonId);
      if cands == [] {
        return Stopped(NoShowToPick), k', v;
      }
      current := Some(cands[rng(k') % |cands|]);
      k' := k' + 1;
      picked := true;
    } else if inMarathon {
      current := Some(marathon.value.showId);
    }
    var show := current.value;
    var v1 := Vars(total, previous, counter, repeats, current, inMarathon, timer);
    SelectedInv(v, v1, placed, c);

    // lines 126-130
    var next := NextEpisode(db.shows, db.episodes, show);
    if next.Failure? {
      return Stopped(RotationFailed), k', v1;
    }
    if next.value.None? {
      v' := Vars(total, previous, 0, 0, current, inMarathon, timer);
      ContinueInv(v1, v', placed, c);
      return Skipped, k', v';
    }
    var ep := next.value.value;

    // lines 133-137: the marathon begins
    if marathon.Some? && total + ep.duration > marathon.value.start && !inMarathon && timer == 0 {
      v' := Vars(total, previous, 0, 0, current, true, timer);
      ContinueInv(v1, v', placed, c);
      return Skipped, k', v';
    }
    // lines 140-142: the marathon ends
    if inMarathon && timer + ep.duration > marathon.value.duration {
      v' := Vars(total, previous, counter, repeats, current, false, timer);
      ContinueInv(v1, v', placed, c);
      return Skipped, k', v';
    }
    // lines 145-146
    if total + ep.duration > DayLength {
      return Stopped(DayFull), k', v1;
    }
    var p;
    p, k', v' := Place(db, s0, rng, k', v1, picked, ep, c, placed);
    return Placed(p), k', v';
  }

  /** `Scheduler.build_schedule` for the day whose midnight is `day`.
      `placed` lists what was inserted, in order, with the loop's
      bookkeeping; the tables change only by those inserts and the matching
      pointer updates. */
  method BuildSchedule(db: Db, day: int, marathonChance: real, rng: nat -> nat, fuel: nat)
    returns (outcome: BuildOutcome, marathon: Option<Marathon>, placed: seq<Placement>)
    modifies db
    ensures outcome == AlreadyScheduled <==> DayTaken(old(db.schedule), day + DayStart)
    ensures outcome == AlreadyScheduled ==> placed == [] && marathon == None
    ensures marathon.Some? ==>
              0 <= marathon.value.start <= MarathonLatestStart
              && MarathonMinDuration <= marathon.value.duration <= MarathonMaxDuration
              && marathon.value.showId in MarathonCandidates(old(db.shows), old(db.episodes))
    ensures AllPlacedOk(placed, Context(day + DayStart, old(db.shows), old(db.episodes), marathon))
    ensures SumDur(placed) <= DayLength
    ensures marathon.Some? ==> MarathonTime(placed) <= marathon.value.duration
    ensures marathon.None? ==> MarathonTime(placed) == 0
    ensures db.episodes == old(db.episodes)
    ensures db.shows == Replay(old(db.shows), placed)
    ensures db.schedule == old(db.schedule) + Rows(placed, old(db.nextRowId))
    ensures db.nextRowId == old(db.nextRowId) + |placed|
    ensures db.nextEpisodeId == old(db.nextEpisodeId)
  {
    var s0 := day + DayStart;
    marathon := None;
    placed := [];
    if DayTaken(db.schedule, s0) {
      return AlreadyScheduled, marathon, placed;
    }
    ghost var shows0, eps0, schedule0, rowId0 := db.shows, db.episodes, db.schedule, db.nextRowId;
    var k: nat;
    marathon, k := DrawMarathon(db.shows, db.episodes, marathonChance, rng, 0).0, DrawMarathon(db.shows, db.episodes, marathonChance, rng, 0).1;
    ghost var c := Context(s0, shows0, eps0, marathon);

    var v := Vars(0, None, 0, 0, None, false, 0);
    var f := fuel;
    outcome := OutOfFuel;
    while f > 0
      invariant db.episodes == eps0 && db.nextEpisodeId == old(db.nextEpisodeId)
      invariant SameShows(db.shows, shows0) && db.shows == Replay(shows0, placed)
      invariant db.schedule == schedule0 + Rows(placed, rowId0) && db.nextRowId == rowId0 + |placed|
      invariant AllPlacedOk(placed, c) && LoopInv(v, placed, c)
      invariant outcome == OutOfFuel
      decreases f
    {
      f := f - 1;
      ghost var shows1, schedule1, rowId1 := db.shows, db.schedule, db.nextRowId;
      var step;
      step, k, v := Iteration(db, s0, marathon, rng, k, v, c, placed);
      if step.Stopped? {
        outcome := step.outcome;
        break;
      }
      if step.Placed? {
        var p := step.p;
        SetPointerSameShows(shows1, shows0, p.episode.showId, p.episode.id);
        SnocFacts(placed, p, shows0, rowId0);
        AllPlacedOkSnoc(placed, p, c);
        ScheduleSnoc(db.schedule, schedule1, schedule0, placed, p, rowId0, rowId1);
        placed := placed + [p];
      }
    }
  }
}
