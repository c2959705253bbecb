/** What every run of `build_schedule` guarantees about the day it fills,
    stated over the placements `BuildSchedule` returns (whose `AllPlacedOk`
    it ensures) and the rows it inserts. */
module ScheduleProps {
  import opened Basics
  import opened Tables
  import opened Rotation
  import opened Scheduler

  lemma {:induction false} SumDurPrefix(ps: seq<Placement>, i: nat)
    requires i < |ps|
    ensures SumDur(ps[..i + 1]) == SumDur(ps[..i]) + ps[i].episode.duration
  {
    assert ps[..i + 1][..i] == ps[..i];
  }

  /** The clock facts of one placement. */
  lemma PlacedTimes(ps: seq<Placement>, c: Context, i: nat)
    requires AllPlacedOk(ps, c) && i < |ps|
    ensures ps[i].start == c.s0 + SumDur(ps[..i])
    ensures ps[i].end == ps[i].start + ps[i].episode.duration
    ensures SumDur(ps[..i]) + ps[i].episode.duration <= DayLength
  {
    PlacedAt(ps, c, i);
  }

  /** The placements tile the day: the first starts at 04:00, each starts
      where the one before it ends, each ends its episode's duration after
      it starts and nothing ends after 04:00 the next day. */
  lemma {:induction false} BackToBack(ps: seq<Placement>, c: Context)
    requires AllPlacedOk(ps, c)
    ensures ps != [] ==> ps[0].start == c.s0
    ensures forall i :: 0 < i < |ps| ==> ps[i].start == ps[i - 1].end
    ensures forall i :: 0 <= i < |ps| ==>
              c.s0 <= ps[i].start && ps[i].end == ps[i].start + ps[i].episode.duration
              && ps[i].end <= c.s0 + DayLength
  {
    forall i | 0 <= i < |ps|
      ensures c.s0 <= ps[i].start && ps[i].end == ps[i].start + ps[i].episode.duration
      ensures ps[i].end <= c.s0 + DayLength
    {
      PlacedTimes(ps, c, i);
    }
    if ps != [] {
      PlacedTimes(ps, c, 0);
      assert ps[..0] == [];
    }
    forall i | 0 < i < |ps|
      ensures ps[i].start == ps[i - 1].end
    {
      PlacedTimes(ps, c, i);
      PlacedTimes(ps, c, i - 1);
      SumDurPrefix(ps, i - 1);
    }
  }

  lemma {:induction false} RowsAt(ps: seq<Placement>, id0: nat, i: nat)
    requires i < |ps|
    ensures Rows(ps, id0)[i] == NewRow(id0 + i, ps[i])
    decreases |ps|
  {
    if i < |ps| - 1 {
      var front := ps[..|ps| - 1];
      RowsAt(front, id0, i);
      assert front[i] == ps[i];
    }
  }

  /** The rows a run inserts: consecutive ids, each naming its placed
      episode, back to back from 04:00 and within the 24 hours. */
  lemma {:induction false} InsertedRows(ps: seq<Placement>, c: Context, id0: nat)
    requires AllPlacedOk(ps, c)
    ensures |Rows(ps, id0)| == |ps|
    ensures forall i :: 0 <= i < |ps| ==>
              Rows(ps, id0)[i].id == id0 + i && Rows(ps, id0)[i].episodeId == Some(ps[i].episode.id)
              && Rows(ps, id0)[i].end == Rows(ps, id0)[i].start + ps[i].episode.duration
              && c.s0 <= Rows(ps, id0)[i].start && Rows(ps, id0)[i].end <= c.s0 + DayLength
    ensures ps != [] ==> Rows(ps, id0)[0].start == c.s0
    ensures forall i :: 0 < i < |ps| ==> Rows(ps, id0)[i].start == Rows(ps, id0)[i - 1].end
  {
    BackToBack(ps, c);
    forall i | 0 <= i < |ps|
      ensures Rows(ps, id0)[i] == NewRow(id0 + i, ps[i])
    {
      RowsAt(ps, id0, i);
    }
  }

  /** A placement that is no marathon's and keeps the show of the one
      before it continues that one's run: one more on the same counter. */
  lemma RunGoesOn(ps: seq<Placement>, c: Context, k: nat)
    requires AllPlacedOk(ps, c) && 0 < k < |ps|
    requires !ps[k].inMarathon && ps[k].episode.showId == ps[k - 1].episode.showId
    ensures ps[k].counter == ps[k - 1].counter + 1 <= ps[k].repeats
  {
    PlacedAt(ps, c, k);
    assert Last(ps[..k]) == ps[k - 1];
  }

  lemma CounterBounds(ps: seq<Placement>, c: Context, k: nat)
    requires AllPlacedOk(ps, c) && k < |ps|
    ensures ps[k].counter >= 1 && ps[k].repeats <= 4
  {
    PlacedAt(ps, c, k);
  }

  /** Outside a marathon no show airs five times in a row: a run goes on
      only while its counter is below the repeat count, and that count is
      at most 4. */
  lemma NoLongRuns(ps: seq<Placement>, c: Context, i: nat)
    requires AllPlacedOk(ps, c) && i + 4 < |ps|
    requires forall k :: i <= k <= i + 4 ==> !ps[k].inMarathon
    ensures exists k :: i < k <= i + 4 && ps[k].episode.showId != ps[k - 1].episode.showId
  {
    if forall k :: i < k <= i + 4 ==> ps[k].episode.showId == ps[k - 1].episode.showId {
      CounterBounds(ps, c, i);
      RunGoesOn(ps, c, i + 1);
      RunGoesOn(ps, c, i + 2);
      RunGoesOn(ps, c, i + 3);
      RunGoesOn(ps, c, i + 4);
      CounterBounds(ps, c, i + 4);
      assert false;
    }
  }

  /** A freshly picked show is enabled and is neither the show placed just
      before it nor the marathon show. */
  lemma PickedShow(ps: seq<Placement>, c: Context, i: nat)
    requires AllPlacedOk(ps, c) && i < |ps| && ps[i].picked
    ensures EnabledId(c.shows, ps[i].episode.showId)
    ensures i > 0 ==> ps[i].episode.showId != ps[i - 1].episode.showId
    ensures c.marathon.Some? ==> ps[i].episode.showId != c.marathon.value.showId
  {
    PlacedAt(ps, c, i);
    if i > 0 {
      assert Last(ps[..i]) == ps[i - 1];
    }
  }

  /** Every episode placed inside the marathon window is the marathon show's,
      and a repeat count of 4 is only ever drawn for an episode of at most
      30 minutes. */
  lemma MarathonAndRepeats(ps: seq<Placement>, c: Context, i: nat)
    requires AllPlacedOk(ps, c) && i < |ps|
    ensures ps[i].inMarathon ==> c.marathon.Some? && ps[i].episode.showId == c.marathon.value.showId
    ensures ps[i].repeats in {0, 2, 4}
    ensures ps[i].decided && ps[i].repeats == 4 ==> ps[i].episode.duration <= ShortEpisode
  {
    PlacedAt(ps, c, i);
  }

  /** The episode of the last placement of `show` in `ps`. */
  function LastOfShow(ps: seq<Placement>, show: nat): (r: Option<Episode>)
    ensures r.Some? ==> exists k :: 0 <= k < |ps| && ps[k].episode == r.value
    ensures r.Some? ==> r.value.showId == show
    ensures r.None? <==> forall k :: 0 <= k < |ps| ==> ps[k].episode.showId != show
  {
    if ps == [] then None
    else if Last(ps).episode.showId == show then Some(Last(ps).episode)
    else
      var r := LastOfShow(ps[..|ps| - 1], show);
      assert forall k :: 0 <= k < |ps| - 1 ==> ps[..|ps| - 1][k] == ps[k];
      r
  }

  /** After the placements, a show's row is what it was, with its rotation
      pointer on the last episode of it that was placed, if any. */
  lemma {:induction false} ReplayFind(shows: seq<Show>, ps: seq<Placement>, show: nat)
    ensures FindShow(Replay(shows, ps), show) ==
            match FindShow(shows, show)
            case None => None
            case Some(s) =>
              Some(if LastOfShow(ps, show).Some? then s.(lastPlayed := Some(LastOfShow(ps, show).value.id)) else s)
  {
    if ps != [] {
      var front := ps[..|ps| - 1];
      ReplayFind(shows, front, show);
      FindShowAfterSetPointer(Replay(shows, front), Last(ps).episode.showId, Last(ps).episode.id, show);
    }
  }

  /** The placement at `j` is the rotation's next episode given the
      pointers left by the placements before it. */
  lemma PlacedNext(ps: seq<Placement>, c: Context, j: nat)
    requires AllPlacedOk(ps, c) && j < |ps|
    ensures NextEpisode(Replay(c.shows, ps[..j]), c.eps, ps[j].episode.showId) == Success(Some(ps[j].episode))
  {
    PlacedAt(ps, c, j);
  }

  /** Each placed episode follows its show's previous placement in the
      rotation: the least `(season, episode)` key above it, wrapping to the
      first. */
  lemma RotationOrder(ps: seq<Placement>, c: Context, j: nat)
    requires AllPlacedOk(ps, c) && UniqueEpisodeIds(c.eps) && j < |ps|
    requires LastOfShow(ps[..j], ps[j].episode.showId).Some?
    ensures Some(ps[j].episode)
            == Successor(ShowEpisodes(c.eps, ps[j].episode.showId),
                         KeyOf(LastOfShow(ps[..j], ps[j].episode.showId).value))
  {
    var show := ps[j].episode.showId;
    var last := LastOfShow(ps[..j], show).value;
    assert last in c.eps by {
      var k :| 0 <= k < j && ps[..j][k].episode == last;
      assert ps[..j][k] == ps[k];
      PlacedNext(ps, c, k);
    }
    var replayed := Replay(c.shows, ps[..j]);
    PlacedNext(ps, c, j);
    assert FindShow(replayed, show).Some? && FindShow(replayed, show).value.lastPlayed == Some(last.id) by {
      ReplayFind(c.shows, ps[..j], show);
    }
    PointerToMember(replayed, c.eps, show, last);
  }

  /** A show's first placement of the day continues from the pointer the
      shows table held before the run. */
  lemma RotationStart(ps: seq<Placement>, c: Context, j: nat)
    requires AllPlacedOk(ps, c) && j < |ps|
    requires LastOfShow(ps[..j], ps[j].episode.showId).None?
    ensures NextEpisode(c.shows, c.eps, ps[j].episode.showId) == Success(Some(ps[j].episode))
  {
    var show := ps[j].episode.showId;
    PlacedNext(ps, c, j);
    assert FindShow(Replay(c.shows, ps[..j]), show) == FindShow(c.shows, show) by {
      ReplayFind(c.shows, ps[..j], show);
    }
    SameFindSameNext(Replay(c.shows, ps[..j]), c.shows, c.eps, show);
  }
}
