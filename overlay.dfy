/** The on-screen part of an intermission video (lib/intermission.py): the
    drawtext filter graph that lists the next entries, one under the other,
    and the rule `generate_all_future_intermissions` uses to decide which
    pending intermissions get a video at all. */
module Overlay {
  import opened Basics
  import opened Text
  import opened Tables
  import opened Titles
  import opened Drawtext
  import opened Voiceover

  // ---------------------------------------------------------------------
  // The layout loop (lines 140-193)

  /** Every text of the overlay starts in this column (line 145). */
  const Column: nat := 600
  /** The start time of the first entry is drawn at this height (line 144). */
  const FirstTop: nat := 150

  /** What the overlay shows of an entry: its start, and its two text
      lines escaped for drawtext. */
  datatype Slot = Slot(start: int, line1: string, line2: string)

  /** Lines 148-161: the title split, then escaped. */
  function SlotOf(x: Row): Slot
  {
    var lines := OverlayLines(x.title);
    Slot(x.start, Normalize(lines.0), Normalize(lines.1))
  }

  /** The second line is empty exactly when the title has no season and
      episode to show, and the escaping loses nothing. */
  lemma SlotLines(x: Row)
    ensures SlotOf(x).line2 == "" <==> OverlayLines(x.title).1 == ""
    ensures Unescape(SlotOf(x).line1) == OverlayLines(x.title).0
    ensures Unescape(SlotOf(x).line2) == OverlayLines(x.title).1
  {
    UnescapeNormalize(OverlayLines(x.title).0);
    UnescapeNormalize(OverlayLines(x.title).1);
  }

  function Slots(items: seq<Row>): (r: seq<Slot>)
    ensures |r| == |items|
  {
    seq(|items|, k requires 0 <= k < |items| => SlotOf(items[k]))
  }

  predicate HasSeasonLine(s: Slot)
  {
    s.line2 != ""
  }

  /** One drawtext filter of the overlay, at column `Column`. */
  datatype TextFilter =
    | TimeText(font: string, text: string, y: nat)     // lines 166-172, the start time in bold
    | TitleText(font: string, text: string, y: nat)    // lines 174-181, the show or movie title
    | SeasonText(font: string, text: string, y: nat)   // lines 183-191, `Season S Episode E`

  /** The filter as ffmpeg reads it; the season line has its options in
      another order. */
  function Render(d: TextFilter): string
  {
    var at := ":x=" + NatToString(Column) + ":y=" + NatToString(d.y);
    match d
    case TimeText(f, t, _) => "drawtext=fontfile=" + f + ":text=" + t + ":fontsize=72:fontcolor=white" + at
    case TitleText(f, t, _) => "drawtext=fontfile=" + f + ":text=" + t + ":fontsize=56:fontcolor=white" + at
    case SeasonText(f, t, _) => "drawtext=fontfile=" + f + ":text=" + t + ":fontsize=38" + at + ":fontcolor=white"
  }

  /** How far down the next entry starts: 63 to the title, 58 more to the
      season line when there is one, then 100. */
  function Height(x: Slot): (h: nat)
    ensures h == 163 || h == 221
  {
    63 + (if HasSeasonLine(x) then 58 else 0) + 100
  }

  /** The height at which entry `k` starts. */
  function Top(items: seq<Slot>, k: nat): nat
    requires k <= |items|
  {
    if k == 0 then FirstTop else Top(items, k - 1) + Height(items[k - 1])
  }

  /** How many of the first `k` entries have a season line. */
  function SeasonLines(items: seq<Slot>, k: nat): (n: nat)
    requires k <= |items|
    ensures n <= k
  {
    if k == 0 then 0 else SeasonLines(items, k - 1) + (if HasSeasonLine(items[k - 1]) then 1 else 0)
  }

  /** The drawtext filters of one entry starting at height `y`: its time
      and its title, and its season line when there is one. */
  function EntryFilters(x: Slot, y: nat, font: string, boldFont: string, clock: int -> string): seq<TextFilter>
  {
    [TimeText(boldFont, clock(x.start), y), TitleText(font, x.line1, y + 63)]
    + (if x.line2 != "" then [SeasonText(font, x.line2, y + 121)] else [])
  }

  /** The drawtext filters of the first `k` entries, in order. */
  function Filters(items: seq<Slot>, k: nat, font: string, boldFont: string, clock: int -> string): seq<TextFilter>
    requires k <= |items|
  {
    if k == 0 then []
    else Filters(items, k - 1, font, boldFont, clock) + EntryFilters(items[k - 1], Top(items, k - 1), font, boldFont, clock)
  }

  /** The filters rendered and joined with commas into one filter graph. */
  function Graph(s: seq<TextFilter>, say: TextFilter -> string): string
  {
    if s == [] then ""
    else if |s| == 1 then say(s[0])
    else Graph(s[..|s| - 1], say) + "," + say(s[|s| - 1])
  }

  lemma RenderNonEmpty(d: TextFilter)
    ensures Render(d) != ""
  {
    assert Render(d)[0] == 'd';
  }

  lemma GraphSnoc(s: seq<TextFilter>, d: TextFilter, say: TextFilter -> string)
    ensures Graph(s + [d], say) == if s == [] then say(d) else Graph(s, say) + "," + say(d)
  {
    assert (s + [d])[..|s|] == s;
  }

  /** Entry `k` starts below the first by 163 per entry before it, plus 58
      per season line among them. */
  lemma {:induction false} TopClosedForm(items: seq<Slot>, k: nat)
    requires k <= |items|
    ensures Top(items, k) == FirstTop + 163 * k + 58 * SeasonLines(items, k)
  {
    if k > 0 {
      TopClosedForm(items, k - 1);
    }
  }

  /** With the four entries the query returns at most, the last line of
      text starts at height 934 at most, well inside a 1080-line frame. */
  lemma LayoutFits(items: seq<Slot>, k: nat)
    requires k < |items| <= 4
    ensures Top(items, k) + 121 <= 934
  {
    TopClosedForm(items, k);
  }

  /** Each entry gives two filters, and one more for its season line. */
  lemma {:induction false} FilterCount(items: seq<Slot>, k: nat, font: string, boldFont: string, clock: int -> string)
    requires k <= |items|
    ensures |Filters(items, k, font, boldFont, clock)| == 2 * k + SeasonLines(items, k)
  {
    if k > 0 {
      FilterCount(items, k - 1, font, boldFont, clock);
    }
  }

  /** With no filter written as empty text, the graph is empty exactly
      when there are no filters. */
  lemma GraphEmpty(s: seq<TextFilter>, say: TextFilter -> string)
    requires forall d :: say(d) != ""
    ensures Graph(s, say) == "" <==> s == []
  {
    if |s| > 1 {
      var g := Graph(s, say);
      var last := say(s[|s| - 1]);
      assert g[|g| - 1] == last[|last| - 1];
    }
  }

  lemma GraphPair(s: seq<TextFilter>, t: TextFilter, l: TextFilter, say: TextFilter -> string)
    ensures Graph(s + [t] + [l], say) == (if s == [] then "" else Graph(s, say) + ",") + say(t) + "," + say(l)
  {
    GraphSnoc(s, t, say);
    GraphSnoc(s + [t], l, say);
  }

  /** The graph `g` with the filters of entry `x` at height `y` added: a
      comma unless it is the first entry, then its time, its title and its
      season line when it has one. */
  function Extend(g: string, x: Slot, y: nat, font: string, boldFont: string, clock: int -> string,
                  say: TextFilter -> string): string
  {
    var head := (if g == "" then "" else g + ",") + say(TimeText(boldFont, clock(x.start), y)) + ","
                + say(TitleText(font, x.line1, y + 63));
    if x.line2 != "" then head + "," + say(SeasonText(font, x.line2, y + 121)) else head
  }

  /** Appending the filters of one entry to a graph: a comma unless the
      graph is empty, then its time, its title and its season line when it
      has one. */
  lemma GraphEntry(fs: seq<TextFilter>, x: Slot, y: nat, font: string, boldFont: string, clock: int -> string,
                   say: TextFilter -> string)
    requires forall d :: say(d) != ""
    ensures Graph(fs + EntryFilters(x, y, font, boldFont, clock), say)
            == Extend(Graph(fs, say), x, y, font, boldFont, clock, say)
  {
    var t, l := TimeText(boldFont, clock(x.start), y), TitleText(font, x.line1, y + 63);
    var g := Graph(fs, say);
    assert Graph(fs + [t] + [l], say) == (if g == "" then "" else g + ",") + say(t) + "," + say(l) by {
      GraphEmpty(fs, say);
      GraphPair(fs, t, l, say);
    }
    if x.line2 != "" {
      var s := SeasonText(font, x.line2, y + 121);
      assert fs + EntryFilters(x, y, font, boldFont, clock) == fs + [t] + [l] + [s];
      GraphSnoc(fs + [t] + [l], s, say);
    } else {
      assert fs + EntryFilters(x, y, font, boldFont, clock) == fs + [t] + [l];
    }
  }

  /** The graph the loop of lines 148-193 has built after `k` entries. */
  function Drawn(slots: seq<Slot>, k: nat, font: string, boldFont: string, clock: int -> string,
                 say: TextFilter -> string): string
    requires k <= |slots|
  {
    if k == 0 then ""
    else Extend(Drawn(slots, k - 1, font, boldFont, clock, say), slots[k - 1], Top(slots, k - 1),
                font, boldFont, clock, say)
  }

  /** Built entry by entry, the graph is the filters of all entries joined
      with commas. */
  lemma {:induction false} DrawnIsGraph(slots: seq<Slot>, k: nat, font: string, boldFont: string,
                                        clock: int -> string, say: TextFilter -> string)
    requires k <= |slots| && forall d :: say(d) != ""
    ensures Drawn(slots, k, font, boldFont, clock, say) == Graph(Filters(slots, k, font, boldFont, clock), say)
  {
    if k > 0 {
      DrawnIsGraph(slots, k - 1, font, boldFont, clock, say);
      GraphEntry(Filters(slots, k - 1, font, boldFont, clock), slots[k - 1], Top(slots, k - 1),
                 font, boldFont, clock, say);
    }
  }

  /** Lines 148-193 for entry `i`: its filters appended to the graph of
      the entries before it, which ends at height `y`. */
  method DrawEntry(filters: string, y: nat, slots: seq<Slot>, i: nat, font: string, boldFont: string,
                   clock: int -> string, say: TextFilter -> string)
    returns (filters': string, y': nat)
    requires i < |slots| && y == Top(slots, i)
    requires filters == Drawn(slots, i, font, boldFont, clock, say)
    ensures filters' == Drawn(slots, i + 1, font, boldFont, clock, say)
    ensures y' == Top(slots, i + 1)
  {
    var x := slots[i];
    filters' := filters;
    if filters' != "" {
      filters' := filters' + ",";
    }
    filters' := filters' + say(TimeText(boldFont, clock(x.start), y)) + ",";
    y' := y + 63;
    filters' := filters' + say(TitleText(font, x.line1, y'));
    if x.line2 != "" {
      y' := y' + 58;
      filters' := filters' + "," + say(SeasonText(font, x.line2, y'));
    }
    y' := y' + 100;
  }

  /** Lines 144-193: the filter graph of the entries, given as slots, and
      the height below the last one. */
  method Layout(slots: seq<Slot>, font: string, boldFont: string, clock: int -> string,
                say: TextFilter -> string)
    returns (filters: string, y: nat)
    requires forall d :: say(d) != ""
    ensures filters == Graph(Filters(slots, |slots|, font, boldFont, clock), say)
    ensures y == Top(slots, |slots|)
  {
    filters := "";
    y := FirstTop;
    var i := 0;
    while i < |slots|
      invariant 0 <= i <= |slots|
      invariant filters == Drawn(slots, i, font, boldFont, clock, say)
      invariant y == Top(slots, i)
      decreases |slots| - i
    {
      filters, y := DrawEntry(filters, y, slots, i, font, boldFont, clock, say);
      i := i + 1;
    }
    DrawnIsGraph(slots, |slots|, font, boldFont, clock, say);
  }
  /** Lines 113-142 up to the filter graph: no graph when the row is
      missing, else the layout of the first four announced entries from the
      intermission's end on. */
  function OverlayFilters(schedule: seq<Row>, id: nat, font: string, boldFont: string, clock: int -> string)
    : Option<string>
  {
    match FindRow(schedule, id)
    case None => None
    case Some(x) =>
      var items := FutureEntries(schedule, x.end, 4);
      Some(Graph(Filters(Slots(items), |items|, font, boldFont, clock), Render))
  }

  method IntermissionFilters(schedule: seq<Row>, id: nat, font: string, boldFont: string, clock: int -> string)
    returns (r: Option<string>)
    ensures r == OverlayFilters(schedule, id, font, boldFont, clock)
    ensures r.Some? ==> FindRow(schedule, id).Some?
  {
    var intermission := FindRow(schedule, id);
    if intermission.None? {
      return None;
    }
    var items := FutureEntries(schedule, intermission.value.end, 4);
    forall d {
      RenderNonEmpty(d);
    }
    var filters, y := Layout(Slots(items), font, boldFont, clock, Render);
    r := Some(filters);
  }

  // ---------------------------------------------------------------------
  // Which intermissions get a video (lines 39-79)

  /** Lines 43-48: an intermission still to come that has no video yet. */
  predicate Pending(x: Row, now: int)
  {
    x.start > now && x.tag == Intermission && x.path.None?
  }

  /** Lines 53-62: four announced entries start at or after the
      intermission's end. */
  predicate Enough(schedule: seq<Row>, x: Row)
  {
    |FutureEntries(schedule, x.end, 4)| == 4
  }

  /** Lines 69-74: the `path` of every row with that id becomes `path`. */
  function SetPath(rows: seq<Row>, id: nat, path: Option<string>): (r: seq<Row>)
    ensures |r| == |rows|
  {
    seq(|rows|, k requires 0 <= k < |rows| => if rows[k].id == id then rows[k].(path := path) else rows[k])
  }

  /** Row `x` of the table once the pending intermissions whose ids are in
      `done` have been handled: if it is one of them and enough follows it,
      its path is what rendering it gave. */
  function Handled(schedule: seq<Row>, x: Row, done: set<nat>, now: int, render: nat -> Option<string>): Row
  {
    if x.id in done && Pending(x, now) && Enough(schedule, x) then x.(path := render(x.id)) else x
  }

  function HandledAll(schedule: seq<Row>, done: set<nat>, now: int, render: nat -> Option<string>): (r: seq<Row>)
    ensures |r| == |schedule|
  {
    seq(|schedule|, k requires 0 <= k < |schedule| => Handled(schedule, schedule[k], done, now, render))
  }

  /** The ids of the intermissions waiting for a video at `now`. */
  function PendingIds(schedule: seq<Row>, now: int): set<nat>
  {
    set x | x in schedule && Pending(x, now) :: x.id
  }

  ghost predicate UniqueRowIds(rows: seq<Row>)
  {
    forall i, j :: 0 <= i < j < |rows| ==> rows[i].id != rows[j].id
  }

  /** `Where` keeps as many rows of two tables whose rows `keep` treats
      alike. */
  lemma {:induction false} WhereAlike(a: seq<Row>, b: seq<Row>, keep: Row -> bool)
    requires |a| == |b| && forall k :: 0 <= k < |a| ==> keep(a[k]) == keep(b[k])
    ensures |Where(a, keep)| == |Where(b, keep)|
  {
    if a != [] {
      assert forall k :: 0 <= k < |a[1..]| ==> a[1..][k] == a[k + 1] && b[1..][k] == b[k + 1];
      WhereAlike(a[1..], b[1..], keep);
    }
  }

  /** Giving videos to intermissions changes only paths, so it changes no
      answer to the "enough entries follow" query. */
  lemma EnoughAfterHandling(schedule: seq<Row>, done: set<nat>, now: int, render: nat -> Option<string>, t: int)
    ensures |FutureEntries(HandledAll(schedule, done, now, render), t, 4)|
            == |FutureEntries(schedule, t, 4)|
  {
    var h := HandledAll(schedule, done, now, render);
    var keep := (x: Row) => x.start >= t && Announced(x);
    WhereAlike(h, schedule, keep);
  }

  /** One pass of the loop: handling intermission `c` adds its id. */
  lemma HandleOne(schedule: seq<Row>, done: set<nat>, now: int, render: nat -> Option<string>, c: Row)
    requires UniqueRowIds(schedule) && c in schedule && Pending(c, now)
    ensures Enough(schedule, c) ==>
              SetPath(HandledAll(schedule, done, now, render), c.id, render(c.id))
              == HandledAll(schedule, done + {c.id}, now, render)
    ensures !Enough(schedule, c) ==>
              HandledAll(schedule, done, now, render) == HandledAll(schedule, done + {c.id}, now, render)
  {
    forall k | 0 <= k < |schedule| && schedule[k].id == c.id
      ensures schedule[k] == c
    {
      var j :| 0 <= j < |schedule| && schedule[j] == c;
      assert j == k;
    }
  }

  /** Lines 53-74 for intermission `c`, asked of the table as the loop has
      left it: when four entries follow, setting its path handles it, and
      otherwise there is nothing to do. */
  lemma HandleStep(schedule: seq<Row>, done: set<nat>, now: int, render: nat -> Option<string>, c: Row)
    requires UniqueRowIds(schedule) && c in schedule && Pending(c, now)
    ensures var h := HandledAll(schedule, done, now, render);
            |FutureEntries(h, c.end, 4)| == 4 ==>
              SetPath(h, c.id, render(c.id)) == HandledAll(schedule, done + {c.id}, now, render)
    ensures var h := HandledAll(schedule, done, now, render);
            |FutureEntries(h, c.end, 4)| != 4 ==> h == HandledAll(schedule, done + {c.id}, now, render)
  {
    EnoughAfterHandling(schedule, done, now, render, c.end);
    HandleOne(schedule, done, now, render, c);
  }

  /** The ids of the rows of `rows`. */
  function Ids(rows: seq<Row>): (r: set<nat>)
    ensures forall x :: x in rows ==> x.id in r
    ensures forall n :: n in r ==> exists x :: x in rows && x.id == n
  {
    if rows == [] then {} else Ids(rows[..|rows| - 1]) + {rows[|rows| - 1].id}
  }

  lemma IdsStep(rows: seq<Row>, i: nat)
    requires i < |rows|
    ensures Ids(rows[..i + 1]) == Ids(rows[..i]) + {rows[i].id}
  {
    assert rows[..i + 1][..i] == rows[..i];
  }

  /** The candidates fetched at lines 43-48 carry exactly the pending ids. */
  lemma CandidateIds(schedule: seq<Row>, now: int)
    ensures Ids(Where(schedule, (x: Row) => Pending(x, now))) == PendingIds(schedule, now)
  {
    var w := Where(schedule, (x: Row) => Pending(x, now));
    assert forall x :: x in w <==> x in schedule && Pending(x, now);
  }

  /** Lines 39-79 with the rendering of lines 65-66 given: every pending
      intermission with four announced entries after it gets the path
      rendering gave it (NULL when rendering failed); nothing else changes. */
  method GenerateAllFutureIntermissions(db: Db, now: int, render: nat -> Option<string>)
    requires UniqueRowIds(db.schedule)
    modifies db
    ensures db.schedule == HandledAll(old(db.schedule), PendingIds(old(db.schedule), now), now, render)
    ensures db.shows == old(db.shows) && db.episodes == old(db.episodes)
    ensures db.nextEpisodeId == old(db.nextEpisodeId) && db.nextRowId == old(db.nextRowId)
  {
    ghost var schedule := db.schedule;
    var intermissions := Where(db.schedule, (x: Row) => Pending(x, now));
    assert db.schedule == HandledAll(schedule, {}, now, render);
    for i := 0 to |intermissions|
      invariant db.schedule == HandledAll(schedule, Ids(intermissions[..i]), now, render)
      invariant db.shows == old(db.shows) && db.episodes == old(db.episodes)
      invariant db.nextEpisodeId == old(db.nextEpisodeId) && db.nextRowId == old(db.nextRowId)
    {
      var c := intermissions[i];
      HandleStep(schedule, Ids(intermissions[..i]), now, render, c);
      IdsStep(intermissions, i);
      var following := FutureEntries(db.schedule, c.end, 4);
      if |following| == 4 {
        db.schedule := SetPath(db.schedule, c.id, render(c.id));
      }
    }
    assert intermissions[..|intermissions|] == intermissions;
    CandidateIds(schedule, now);
  }

  /** The skip rule: an intermission with fewer than four announced entries
      after it keeps no video, and one that was not pending is left as it
      was. */
  lemma SkipRule(schedule: seq<Row>, now: int, render: nat -> Option<string>, k: nat)
    requires k < |schedule|
    ensures !Enough(schedule, schedule[k]) || !Pending(schedule[k], now) ==>
              HandledAll(schedule, PendingIds(schedule, now), now, render)[k] == schedule[k]
    ensures Enough(schedule, schedule[k]) && Pending(schedule[k], now) ==>
              HandledAll(schedule, PendingIds(schedule, now), now, render)[k]
              == schedule[k].(path := render(schedule[k].id))
  {
    assert Pending(schedule[k], now) ==> schedule[k].id in PendingIds(schedule, now);
  }
}
