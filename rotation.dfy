/** Episode rotation (`Scheduler.get_next_episode`, lib/scheduler.py:17-59):
    each show keeps a pointer to its last played episode, and the next episode
    is the successor of the pointer's (season, episode) key, wrapping to the
    show's first episode. Rows whose keys tie under ORDER BY are taken in
    table order. */
module Rotation {
  import opened Basics
  import opened Tables

  /** The ordering key `(season_number, episode_number)`. */
  type Key = (int, int)

  function KeyOf(e: Episode): Key
  {
    (e.season, e.number)
  }

  /** Strict lexicographic order on keys, `ORDER BY season_number, episode_number`. */
  predicate Below(a: Key, b: Key)
  {
    a.0 < b.0 || (a.0 == b.0 && a.1 < b.1)
  }

  /** `WHERE tv_show_id = show`. */
  function ShowEpisodes(eps: seq<Episode>, show: nat): (r: seq<Episode>)
    ensures forall e :: e in r <==> e in eps && e.showId == show
  {
    if eps == [] then []
    else (if eps[0].showId == show then [eps[0]] else []) + ShowEpisodes(eps[1..], show)
  }

  /** The rows whose key is above `k`. */
  function Above(es: seq<Episode>, k: Key): (r: seq<Episode>)
    ensures forall e :: e in r <==> e in es && Below(k, KeyOf(e))
  {
    if es == [] then []
    else (if Below(k, KeyOf(es[0])) then [es[0]] else []) + Above(es[1..], k)
  }

  /** `AND season_number = k.0 AND episode_number > k.1` (line 39). */
  function LaterInSeason(es: seq<Episode>, k: Key): (r: seq<Episode>)
    ensures forall e :: e in r <==> e in es && e.season == k.0 && e.number > k.1
  {
    if es == [] then []
    else (if es[0].season == k.0 && es[0].number > k.1 then [es[0]] else [])
         + LaterInSeason(es[1..], k)
  }

  /** `AND season_number > s` (line 47). */
  function LaterSeasons(es: seq<Episode>, s: int): (r: seq<Episode>)
    ensures forall e :: e in r <==> e in es && e.season > s
  {
    if es == [] then []
    else (if es[0].season > s then [es[0]] else []) + LaterSeasons(es[1..], s)
  }

  /** `ORDER BY season_number, episode_number LIMIT 1`: the first row of least key. */
  function First(es: seq<Episode>): (r: Option<Episode>)
    ensures r.None? <==> es == []
    ensures r.Some? ==> r.value in es && forall e :: e in es ==> !Below(KeyOf(e), KeyOf(r.value))
  {
    if es == [] then None
    else
      var rest := First(es[1..]);
      if rest.None? || !Below(KeyOf(rest.value), KeyOf(es[0])) then Some(es[0]) else rest
  }

  /** The reference rule: the least key above `k`, or else the least key
      (the wrap to the show's first episode). */
  function Successor(es: seq<Episode>, k: Key): (r: Option<Episode>)
    ensures r.None? <==> es == []
    ensures r.Some? ==> r.value in es
  {
    var up := First(Above(es, k));
    if up.Some? then up else First(es)
  }

  /** What `Successor` picks: when some key lies above `k`, the least such;
      otherwise an episode of least key. It is never missing while the show
      has episodes. */
  lemma SuccessorIsLeastAbove(es: seq<Episode>, k: Key)
    ensures Successor(es, k).None? <==> es == []
    ensures (exists e :: e in es && Below(k, KeyOf(e))) ==>
              var r := Successor(es, k).value;
              Below(k, KeyOf(r)) && forall e :: e in es && Below(k, KeyOf(e)) ==> !Below(KeyOf(e), KeyOf(r))
    ensures (forall e :: e in es ==> !Below(k, KeyOf(e))) ==> es != [] ==>
              forall e :: e in es ==> !Below(KeyOf(e), KeyOf(Successor(es, k).value))
  {
    if e :| e in es && Below(k, KeyOf(e)) {
      assert e in Above(es, k);
    }
  }

  /** Why `get_next_episode` can fail: `fetchone()` found no show row (line 23),
      or the pointer refers to no episode row (line 35). */
  datatype RotationError = UnknownShow | DanglingPointer

  /** `Scheduler.get_next_episode`: the chain of queries of lines 17-59, with
      its two failing lookups as errors. */
  function NextEpisode(shows: seq<Show>, eps: seq<Episode>, show: nat): (r: Result<Option<Episode>, RotationError>)
    ensures FindShow(shows, show).None? ==> r == Failure(UnknownShow)
    ensures FindShow(shows, show).Some? && FindShow(shows, show).value.lastPlayed.None? ==>
              r == Success(First(ShowEpisodes(eps, show)))
    ensures FindShow(shows, show).Some? && FindShow(shows, show).value.lastPlayed.Some? ==>
              var p := FindEpisode(eps, FindShow(shows, show).value.lastPlayed.value);
              (p.None? ==> r == Failure(DanglingPointer))
              && (p.Some? ==> r == Success(Successor(ShowEpisodes(eps, show), KeyOf(p.value))))
    ensures r.Success? && r.value.Some? ==> r.value.value in eps && r.value.value.showId == show
  {
    match FindShow(shows, show)
    case None => Failure(UnknownShow)
    case Some(s) =>
      var all := ShowEpisodes(eps, show);
      match s.lastPlayed
      case None => Success(First(all))
      case Some(pid) =>
        match FindEpisode(eps, pid)
        case None => Failure(DanglingPointer)
        case Some(p) =>
          var k := KeyOf(p);
          var sameSeason := First(LaterInSeason(all, k));
          SuccessorByQueries(all, k);
          if sameSeason.Some? then Success(sameSeason)
          else
            var laterSeason := First(LaterSeasons(all, k.0));
            if laterSeason.Some? then Success(laterSeason)
            else Success(First(all))
  }

  /** The next episode of a show depends only on the show's own row. */
  lemma SameFindSameNext(a: seq<Show>, b: seq<Show>, eps: seq<Episode>, show: nat)
    requires FindShow(a, show) == FindShow(b, show)
    ensures NextEpisode(a, eps, show) == NextEpisode(b, eps, show)
  { }

  lemma FirstCons(x: Episode, rest: seq<Episode>)
    ensures First([x] + rest) ==
            (if First(rest).None? || !Below(KeyOf(First(rest).value), KeyOf(x)) then Some(x) else First(rest))
  {
    assert ([x] + rest)[1..] == rest;
  }

  /** The three queries of lines 39-59 compute the least key above `k`: first
      the same season, then the later seasons. */
  lemma {:induction false} SuccessorByQueries(es: seq<Episode>, k: Key)
    ensures First(Above(es, k)) ==
            if First(LaterInSeason(es, k)).Some? then First(LaterInSeason(es, k))
            else First(LaterSeasons(es, k.0))
  {
    if es != [] {
      var x, rest := es[0], es[1..];
      assert es == [x] + rest;
      SuccessorByQueries(rest, k);
      var a, s, l := Above(rest, k), LaterInSeason(rest, k), LaterSeasons(rest, k.0);
      if x.season == k.0 && x.number > k.1 {
        assert Above(es, k) == [x] + a;
        assert LaterInSeason(es, k) == [x] + s;
        assert LaterSeasons(es, k.0) == l;
        FirstCons(x, a);
        FirstCons(x, s);
      } else if x.season > k.0 {
        assert Above(es, k) == [x] + a;
        assert LaterInSeason(es, k) == s;
        assert LaterSeasons(es, k.0) == [x] + l;
        FirstCons(x, a);
        FirstCons(x, l);
      } else {
        assert Above(es, k) == a;
        assert LaterInSeason(es, k) == s;
        assert LaterSeasons(es, k.0) == l;
      }
    }
  }

  /** `UPDATE tv_shows SET last_played_episode = ep WHERE id = show`. */
  function SetPointer(shows: seq<Show>, show: nat, ep: nat): (r: seq<Show>)
    ensures |r| == |shows|
    ensures forall i :: 0 <= i < |r| ==>
              r[i] == if shows[i].id == show then shows[i].(lastPlayed := Some(ep)) else shows[i]
  {
    if shows == [] then []
    else [if shows[0].id == show then shows[0].(lastPlayed := Some(ep)) else shows[0]]
         + SetPointer(shows[1..], show, ep)
  }

  lemma {:induction false} FindShowAfterSetPointer(shows: seq<Show>, show: nat, ep: nat, other: nat)
    ensures FindShow(SetPointer(shows, show, ep), other) ==
            match FindShow(shows, other)
            case None => None
            case Some(s) => Some(if other == show then s.(lastPlayed := Some(ep)) else s)
  {
    if shows != [] {
      var r := SetPointer(shows, show, ep);
      assert r[1..] == SetPointer(shows[1..], show, ep);
      FindShowAfterSetPointer(shows[1..], show, ep, other);
    }
  }

  /** Once the pointer refers to an episode of the show (ids being unique), the
      next episode is the reference `Successor` of that episode's key. */
  lemma FollowPointer(shows: seq<Show>, eps: seq<Episode>, show: nat, e: Episode)
    requires UniqueEpisodeIds(eps) && e in eps
    requires FindShow(shows, show).Some?
    ensures NextEpisode(SetPointer(shows, show, e.id), eps, show)
            == Success(Successor(ShowEpisodes(eps, show), KeyOf(e)))
  {
    FindShowAfterSetPointer(shows, show, e.id, show);
    PointerToMember(SetPointer(shows, show, e.id), eps, show, e);
  }

  /** A pointer naming an episode row gives that episode's successor. */
  lemma PointerToMember(shows: seq<Show>, eps: seq<Episode>, show: nat, e: Episode)
    requires UniqueEpisodeIds(eps) && e in eps
    requires FindShow(shows, show).Some? && FindShow(shows, show).value.lastPlayed == Some(e.id)
    ensures NextEpisode(shows, eps, show) == Success(Successor(ShowEpisodes(eps, show), KeyOf(e)))
  {
    FindEpisodeOfMember(eps, e);
  }

  // ---------------------------------------------------------------------
  // Repeated rotation visits every key once, in ascending order, then wraps.

  /** The distinct keys of a list of episodes. */
  ghost function Keys(es: seq<Episode>): set<Key>
  {
    set e | e in es :: KeyOf(e)
  }

  /** The key the pointer moves to, starting from `p` (no pointer: `None`). */
  function NextKey(es: seq<Episode>, p: Option<Key>): Key
    requires es != []
  {
    match p
    case None => KeyOf(First(es).value)
    case Some(k) => KeyOf(Successor(es, k).value)
  }

  /** The first `n` keys played by repeated rotation from pointer `p`. */
  function Tour(es: seq<Episode>, p: Option<Key>, n: nat): (r: seq<Key>)
    requires es != []
    ensures |r| == n
    decreases n
  {
    if n == 0 then [] else var k := NextKey(es, p); [k] + Tour(es, Some(k), n - 1)
  }

  lemma {:induction false} TourSnoc(es: seq<Episode>, p: Option<Key>, n: nat)
    requires es != []
    decreases n
    ensures Tour(es, p, n + 1) ==
            Tour(es, p, n) + [NextKey(es, if n == 0 then p else Some(Tour(es, p, n)[n - 1]))]
  {
    if n > 0 {
      var k := NextKey(es, p);
      TourSnoc(es, Some(k), n - 1);
    }
  }

  /** The keys of the show that are at most `k`. */
  ghost function UpTo(es: seq<Episode>, k: Key): set<Key>
  {
    set x | x in Keys(es) && !Below(k, x)
  }

  ghost function Elements(w: seq<Key>): set<Key>
  {
    set i | 0 <= i < |w| :: w[i]
  }

  ghost predicate Ascending(w: seq<Key>)
  {
    forall i, j :: 0 <= i < j < |w| ==> Below(w[i], w[j])
  }

  lemma SubsetSameSize(a: set<Key>, b: set<Key>)
    requires a <= b && |a| == |b|
    ensures a == b
  {
    if a != b {
      var x :| x in b && x !in a;
      assert a <= b - {x};
      SubsetSize(a, b - {x});
    }
  }

  lemma {:induction false} SubsetSize(a: set<Key>, b: set<Key>)
    requires a <= b
    ensures |a| <= |b|
    decreases |a|
  {
    if a != {} {
      var x :| x in a;
      SubsetSize(a - {x}, b - {x});
    }
  }

  lemma ElementsSnoc(v: seq<Key>, x: Key)
    ensures Elements(v + [x]) == Elements(v) + {x}
  {
    var w := v + [x];
    forall y | y in Elements(w) ensures y in Elements(v) + {x} {
      var i :| 0 <= i < |w| && w[i] == y;
      if i < |v| { assert v[i] == y; }
    }
    forall y | y in Elements(v) + {x} ensures y in Elements(w) {
      if y == x {
        assert w[|v|] == x;
      } else {
        var i :| 0 <= i < |v| && v[i] == y;
        assert w[i] == y;
      }
    }
  }

  lemma AscendingSnoc(v: seq<Key>, x: Key)
    requires Ascending(v) && v != [] && Below(v[|v| - 1], x)
    ensures Ascending(v + [x])
  {
    var w := v + [x];
    forall i, j | 0 <= i < j < |w| ensures Below(w[i], w[j]) {
      if j == |v| && i < |v| - 1 { assert Below(v[i], v[|v| - 1]); }
    }
  }

  /** When `next` is the least key above `last`, the keys up to `next` are
      those up to `last` and `next` itself. */
  lemma UpToStep(es: seq<Episode>, last: Key, next: Key)
    requires Below(last, next) && next in Keys(es)
    requires forall e :: e in es && Below(last, KeyOf(e)) ==> !Below(KeyOf(e), next)
    ensures UpTo(es, next) == UpTo(es, last) + {next}
  {
    forall x | x in UpTo(es, next) ensures x in UpTo(es, last) + {next} {
      var e :| e in es && KeyOf(e) == x;
    }
  }

  /** One more step of the tour keeps its invariant. */
  lemma TourStep(es: seq<Episode>, v: seq<Key>, next: Key)
    requires v != [] && Ascending(v) && Elements(v) == UpTo(es, v[|v| - 1])
    requires Below(v[|v| - 1], next) && next in Keys(es)
    requires forall e :: e in es && Below(v[|v| - 1], KeyOf(e)) ==> !Below(KeyOf(e), next)
    ensures Ascending(v + [next]) && Elements(v + [next]) == UpTo(es, next)
    ensures |Elements(v + [next])| == |Elements(v)| + 1
  {
    ElementsSnoc(v, next);
    AscendingSnoc(v, next);
    UpToStep(es, v[|v| - 1], next);
  }

  /** While fewer keys have been seen than the show has, some key lies above
      the last one seen. */
  lemma SomeKeyAbove(es: seq<Episode>, v: seq<Key>)
    requires v != [] && Elements(v) == UpTo(es, v[|v| - 1]) && |Elements(v)| < |Keys(es)|
    ensures exists e :: e in es && Below(v[|v| - 1], KeyOf(e))
  {
    var last := v[|v| - 1];
    assert UpTo(es, last) != Keys(es);
    var y :| y in Keys(es) && y !in UpTo(es, last);
    var ey :| ey in es && KeyOf(ey) == y;
    assert Below(last, KeyOf(ey));
  }

  /** The tour's first key: the least key of the show. */
  lemma TourStart(es: seq<Episode>)
    requires es != []
    ensures var w := Tour(es, None, 1);
            Ascending(w) && Elements(w) == UpTo(es, w[0]) && |Elements(w)| == 1
  {
    var w := Tour(es, None, 1);
    var k := KeyOf(First(es).value);
    assert w == [k];
    ElementsSnoc([], k);
    assert [] + [k] == [k];
    assert Elements([]) == {};
    forall x | x in UpTo(es, k) ensures x == k {
      var e :| e in es && KeyOf(e) == x;
    }
    assert k in Keys(es);
  }

  /** The tour keeps its invariant while keys remain unseen. */
  lemma TourExtend(es: seq<Episode>, n: nat)
    requires es != [] && 2 <= n <= |Keys(es)|
    requires var v := Tour(es, None, n - 1);
             Ascending(v) && Elements(v) == UpTo(es, v[n - 2]) && |Elements(v)| == n - 1
    ensures var w := Tour(es, None, n);
            Ascending(w) && Elements(w) == UpTo(es, w[n - 1]) && |Elements(w)| == n
  {
    var v := Tour(es, None, n - 1);
    TourSnoc(es, None, n - 1);
    var next := NextKey(es, Some(v[n - 2]));
    assert Tour(es, None, n) == v + [next];
    SomeKeyAbove(es, v);
    SuccessorIsLeastAbove(es, v[n - 2]);
    assert next in Keys(es);
    TourStep(es, v, next);
  }

  /** The loop invariant of the tour: the first `n` keys ascend, and they are
      exactly the keys up to the last one. */
  lemma {:induction false} TourPrefix(es: seq<Episode>, n: nat)
    requires es != [] && 1 <= n <= |Keys(es)|
    ensures var w := Tour(es, None, n);
            Ascending(w) && Elements(w) == UpTo(es, w[n - 1]) && |Elements(w)| == n
  {
    if n == 1 {
      TourStart(es);
    } else {
      TourPrefix(es, n - 1);
      TourExtend(es, n);
    }
  }

  /** Once as many keys have been seen as the show has, they are all of its
      keys and the last one is the greatest. */
  lemma AllSeen(es: seq<Episode>, v: seq<Key>)
    requires v != [] && Elements(v) == UpTo(es, v[|v| - 1]) && |Elements(v)| == |Keys(es)|
    ensures Elements(v) == Keys(es)
    ensures forall e :: e in es ==> !Below(v[|v| - 1], KeyOf(e))
  {
    SubsetSameSize(UpTo(es, v[|v| - 1]), Keys(es));
    forall e | e in es ensures !Below(v[|v| - 1], KeyOf(e)) {
      assert KeyOf(e) in Keys(es);
    }
  }

  /** From the greatest key the pointer wraps to where it started. */
  lemma WrapToFirst(es: seq<Episode>, k: Key)
    requires es != [] && forall e :: e in es ==> !Below(k, KeyOf(e))
    ensures NextKey(es, Some(k)) == NextKey(es, None)
  {
    NothingAbove(es, k);
  }

  lemma {:induction false} NothingAbove(es: seq<Episode>, k: Key)
    requires forall e :: e in es ==> !Below(k, KeyOf(e))
    ensures Above(es, k) == []
  {
    if es != [] {
      assert es[0] in es;
      NothingAbove(es[1..], k);
    }
  }

  /** Rotation from no pointer plays the show's distinct keys in strictly
      ascending order, each exactly once, and then starts over at the least. */
  lemma RotationCycle(es: seq<Episode>)
    requires es != []
    ensures |Keys(es)| >= 1 && |Tour(es, None, |Keys(es)| + 1)| == |Keys(es)| + 1
    ensures Ascending(Tour(es, None, |Keys(es)| + 1)[..|Keys(es)|])
    ensures Elements(Tour(es, None, |Keys(es)| + 1)[..|Keys(es)|]) == Keys(es)
    ensures Tour(es, None, |Keys(es)| + 1)[|Keys(es)|] == Tour(es, None, |Keys(es)| + 1)[0]
    ensures forall e :: e in es ==> !Below(KeyOf(e), Tour(es, None, |Keys(es)| + 1)[0])
  {
    var m := |Keys(es)|;
    assert KeyOf(es[0]) in Keys(es);
    TourPrefix(es, m);
    TourSnoc(es, None, m);
    var v := Tour(es, None, m);
    AllSeen(es, v);
    WrapToFirst(es, v[m - 1]);
    var w := Tour(es, None, m + 1);
    assert w == v + [NextKey(es, None)];
    assert w[..m] == v;
    assert w[0] == v[0] == NextKey(es, None);
  }

  /** Rotation as the source performs it: call `get_next_episode`, then move
      the pointer to the episode it returned; stops early on a failure. */
  function Rotate(shows: seq<Show>, eps: seq<Episode>, show: nat, n: nat): (r: seq<Episode>)
    ensures |r| <= n
    decreases n
  {
    if n == 0 then []
    else
      var next := NextEpisode(shows, eps, show);
      if next.Success? && next.value.Some? then
        var e := next.value.value;
        [e] + Rotate(SetPointer(shows, show, e.id), eps, show, n - 1)
      else []
  }

  /** The key of the episode the show's pointer names, if any. */
  function PointerKey(shows: seq<Show>, eps: seq<Episode>, show: nat): Option<Key>
  {
    match FindShow(shows, show)
    case None => None
    case Some(s) =>
      match s.lastPlayed
      case None => None
      case Some(id) =>
        match FindEpisode(eps, id)
        case None => None
        case Some(p) => Some(KeyOf(p))
  }

  /** The keys of a list of episodes, in order. */
  function KeysOf(r: seq<Episode>): (w: seq<Key>)
    ensures |w| == |r| && forall i :: 0 <= i < |r| ==> w[i] == KeyOf(r[i])
  {
    if r == [] then [] else [KeyOf(r[0])] + KeysOf(r[1..])
  }

  /** The show exists and its pointer, if set, names an episode row. */
  ghost predicate PointerOk(shows: seq<Show>, eps: seq<Episode>, show: nat)
  {
    FindShow(shows, show).Some?
    && (FindShow(shows, show).value.lastPlayed.Some? ==>
          FindEpisode(eps, FindShow(shows, show).value.lastPlayed.value).Some?)
  }

  /** One rotation step: the query finds the episode of the reference next
      key, and moving the pointer to it keeps the pointer valid. */
  lemma RotateOnce(shows: seq<Show>, eps: seq<Episode>, show: nat)
    requires UniqueEpisodeIds(eps) && ShowEpisodes(eps, show) != [] && PointerOk(shows, eps, show)
    ensures NextEpisode(shows, eps, show).Success? && NextEpisode(shows, eps, show).value.Some?
    ensures KeyOf(NextEpisode(shows, eps, show).value.value)
            == NextKey(ShowEpisodes(eps, show), PointerKey(shows, eps, show))
    ensures PointerOk(SetPointer(shows, show, NextEpisode(shows, eps, show).value.value.id), eps, show)
    ensures PointerKey(SetPointer(shows, show, NextEpisode(shows, eps, show).value.value.id), eps, show)
            == Some(KeyOf(NextEpisode(shows, eps, show).value.value))
  {
    var e := NextEpisode(shows, eps, show).value.value;
    FindShowAfterSetPointer(shows, show, e.id, show);
    FindEpisodeOfMember(eps, e);
  }

  /** Rotation as performed (query, then move the pointer) plays the keys of
      the reference `Tour`, as long as the pointer refers to an episode. */
  lemma {:induction false} RotateIsTour(shows: seq<Show>, eps: seq<Episode>, show: nat, n: nat)
    requires UniqueEpisodeIds(eps) && ShowEpisodes(eps, show) != [] && PointerOk(shows, eps, show)
    decreases n
    ensures KeysOf(Rotate(shows, eps, show, n)) == Tour(ShowEpisodes(eps, show), PointerKey(shows, eps, show), n)
  {
    if n > 0 {
      RotateOnce(shows, eps, show);
      var e := NextEpisode(shows, eps, show).value.value;
      var shows' := SetPointer(shows, show, e.id);
      RotateIsTour(shows', eps, show, n - 1);
      var rest := Rotate(shows', eps, show, n - 1);
      assert Rotate(shows, eps, show, n) == [e] + rest;
      assert ([e] + rest)[1..] == rest;
    }
  }

  /** `r` plays every distinct key of `es` once, in strictly ascending order,
      and then comes back to the first key. */
  ghost predicate PlaysEveryKeyOnce(es: seq<Episode>, r: seq<Episode>)
  {
    |r| == |Keys(es)| + 1
    && (forall i, j :: 0 <= i < j < |Keys(es)| ==> Below(KeyOf(r[i]), KeyOf(r[j])))
    && (forall e :: e in es ==> exists i :: 0 <= i < |Keys(es)| && KeyOf(r[i]) == KeyOf(e))
    && KeyOf(r[|Keys(es)|]) == KeyOf(r[0])
  }

  /** Starting from a show with no rotation pointer, `get_next_episode` with
      the pointer update after each call plays every distinct key of the show
      once in ascending order before any key comes round again. */
  lemma RotationVisitsEveryKey(shows: seq<Show>, eps: seq<Episode>, show: nat)
    requires UniqueEpisodeIds(eps) && ShowEpisodes(eps, show) != []
    requires FindShow(shows, show).Some? && FindShow(shows, show).value.lastPlayed.None?
    ensures PlaysEveryKeyOnce(ShowEpisodes(eps, show),
                              Rotate(shows, eps, show, |Keys(ShowEpisodes(eps, show))| + 1))
  {
    var es := ShowEpisodes(eps, show);
    var m := |Keys(es)|;
    assert PointerKey(shows, eps, show) == None;
    RotateIsTour(shows, eps, show, m + 1);
    TourPlaysEveryKey(es, Rotate(shows, eps, show, m + 1));
  }

  /** Any list of episodes whose keys are those of the tour from no pointer
      plays every key once. */
  lemma TourPlaysEveryKey(es: seq<Episode>, r: seq<Episode>)
    requires es != [] && KeysOf(r) == Tour(es, None, |Keys(es)| + 1)
    ensures PlaysEveryKeyOnce(es, r)
  {
    RotationCycle(es);
    TourCovers(es, r);
    TourAscends(es, r);
  }

  lemma {:induction false} TourCovers(es: seq<Episode>, r: seq<Episode>)
    requires |r| > |Keys(es)| && Elements(KeysOf(r)[..|Keys(es)|]) == Keys(es)
    ensures forall e :: e in es ==> exists i :: 0 <= i < |Keys(es)| && KeyOf(r[i]) == KeyOf(e)
  {
    var m := |Keys(es)|;
    var w := KeysOf(r);
    forall e | e in es ensures exists i :: 0 <= i < m && KeyOf(r[i]) == KeyOf(e) {
      assert KeyOf(e) in Keys(es);
      var i :| 0 <= i < m && w[..m][i] == KeyOf(e);
      assert KeyOf(r[i]) == KeyOf(e);
    }
  }

  lemma {:induction false} TourAscends(es: seq<Episode>, r: seq<Episode>)
    requires |r| > |Keys(es)| && Ascending(KeysOf(r)[..|Keys(es)|])
    ensures forall i, j :: 0 <= i < j < |Keys(es)| ==> Below(KeyOf(r[i]), KeyOf(r[j]))
  {
    var m := |Keys(es)|;
    var w := KeysOf(r);
    forall i, j | 0 <= i < j < m ensures Below(KeyOf(r[i]), KeyOf(r[j])) {
      assert w[..m][i] == w[i] && w[..m][j] == w[j];
    }
  }
}
