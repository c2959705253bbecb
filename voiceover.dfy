/** The voiceover text of an intermission, as `generate_voiceover_text`
    (lib/intermission.py) composes it from the entry that ended last before
    the intermission and the next few entries after it: an opening phrase
    for the entries that go on with the previous show, then one phrase per
    run of entries of one show, or per movie, all inside a fixed frame. */
module Voiceover {
  import opened Basics
  import opened Text
  import opened Tables
  import opened Titles

  const Intro: string :=
    "Time to stretch your legs, get a new snack and beer, and take a little break. "
    + "But don't worry, there's more coming up on dumbie TV! "

  /** Reading `previous_schedule['is_marathon']` when no entry ended before
      the intermission raises a `TypeError`. */
  datatype VoiceoverError = NoPreviousEntry

  // ---------------------------------------------------------------------
  // The queries (lines 245-276)

  /** Entries other than intermissions are announced. */
  predicate Announced(x: Row)
  {
    x.tag != Intermission
  }

  /** The entry that ended last at or before `t` (`ORDER BY end_time DESC
      LIMIT 1`); among ties this model takes the first in table order. */
  function PreviousEntry(schedule: seq<Row>, t: int): (r: Option<Row>)
    ensures r.None? <==> forall i :: 0 <= i < |schedule| ==> !(schedule[i].end <= t && Announced(schedule[i]))
    ensures r.Some? ==> r.value in schedule && r.value.end <= t && Announced(r.value)
    ensures r.Some? ==> forall i :: 0 <= i < |schedule| && schedule[i].end <= t && Announced(schedule[i]) ==>
                                    schedule[i].end <= r.value.end
  {
    if schedule == [] then None
    else
      var rest := PreviousEntry(schedule[1..], t);
      var x := schedule[0];
      assert forall i :: 0 < i < |schedule| ==> schedule[i] == schedule[1..][i - 1];
      if x.end <= t && Announced(x) && (rest.None? || rest.value.end <= x.end) then Some(x) else rest
  }

  /** The first `n` announced entries, in table order, that start at or
      after `t` (`LIMIT %s` without an ORDER BY). */
  function FutureEntries(schedule: seq<Row>, t: int, n: nat): (r: seq<Row>)
    ensures |r| <= n
    ensures forall x :: x in r ==> x in schedule && x.start >= t && Announced(x)
    ensures |r| < n ==> forall x :: x in schedule && x.start >= t && Announced(x) ==> x in r
  {
    var all := Where(schedule, (x: Row) => x.start >= t && Announced(x));
    assert forall x :: x in all ==> x in schedule && x.start >= t && Announced(x);
    if n < |all| then
      assert forall x :: x in all[..n] ==> x in all;
      all[..n]
    else all
  }

  // ---------------------------------------------------------------------
  // The opening phrase (lines 278-287)

  /** What the voiceover needs of an entry: its title, the spoken name of
      its show (`_get_show_name` with `tts_clean`), whether it is a movie and
      whether it is part of a marathon. */
  datatype Entry = Entry(title: string, name: string, isMovie: bool, isMarathon: bool)

  function Announce(x: Row): (e: Entry)
    ensures e.title == x.title && e.isMovie == (x.tag == Movie) && e.isMarathon == x.isMarathon
    ensures e.name == ShowName(x.title, true)
  {
    Entry(x.title, ShowName(x.title, true), x.tag == Movie, x.isMarathon)
  }

  function AnnounceAll(rows: seq<Row>): (r: seq<Entry>)
    ensures |r| == |rows| && forall k :: 0 <= k < |rows| ==> r[k] == Announce(rows[k])
  {
    if rows == [] then [] else [Announce(rows[0])] + AnnounceAll(rows[1..])
  }

  function AnnounceOption(x: Option<Row>): (r: Option<Entry>)
    ensures r.Some? <==> x.Some?
    ensures x.Some? ==> r.value == Announce(x.value)
  {
    if x.None? then None else Some(Announce(x.value))
  }

  /** How many entries from `i` on are of the show `name`. */
  function RunOf(name: string, s: seq<Entry>, i: nat): (n: nat)
    requires i <= |s|
    ensures i + n <= |s|
    decreases |s| - i
  {
    if i == |s| || s[i].name != name then 0 else 1 + RunOf(name, s, i + 1)
  }

  /** `RunOf` counts the longest run of `name` from `i` on, and no other
      count is one. */
  lemma {:induction false} RunOfIs(name: string, s: seq<Entry>, i: nat, m: nat)
    requires i + m <= |s|
    ensures RunOf(name, s, i) == m <==>
              (forall k :: i <= k < i + m ==> s[k].name == name) && (i + m < |s| ==> s[i + m].name != name)
    decreases |s| - i
  {
    if i < |s| && s[i].name == name && m > 0 {
      RunOfIs(name, s, i + 1, m - 1);
      assert (forall k :: i <= k < i + m ==> s[k].name == name)
             <==> (forall k :: i + 1 <= k < i + 1 + (m - 1) ==> s[k].name == name);
    }
  }

  /** The previous entry can be continued: there is one, it is not a movie
      and it is not part of a marathon. */
  predicate Continues(previous: Option<Entry>)
  {
    previous.Some? && !previous.value.isMovie && !previous.value.isMarathon
  }

  /** `repeats`: the entries at the front of `future` that go on with the
      previous show. */
  function Repeats(previous: Option<Entry>, future: seq<Entry>): (n: nat)
    ensures n <= |future|
    ensures n > 0 ==> Continues(previous)
  {
    if Continues(previous) then RunOf(previous.value.name, future, 0) else 0
  }

  function Lead(previous: Option<Entry>, future: seq<Entry>): string
  {
    var n := Repeats(previous, future);
    if n == 0 || previous.value.name == "" then ""
    else if n == 1 then "Up next is another episode of " + previous.value.name
    else "Coming up is " + NatToString(n) + " more episodes of " + previous.value.name
  }

  /** The opening phrase announces exactly the entries at the front of
      `future` that share the previous show's name, with their count, and
      says nothing when the previous entry is missing, a movie or part of a
      marathon, or its name is empty. */
  lemma LeadSpec(previous: Option<Entry>, future: seq<Entry>)
    ensures !Continues(previous) ==> Repeats(previous, future) == 0 && Lead(previous, future) == ""
    ensures Continues(previous) ==>
              (forall k :: 0 <= k < Repeats(previous, future) ==> future[k].name == previous.value.name)
              && (Repeats(previous, future) < |future| ==>
                    future[Repeats(previous, future)].name != previous.value.name)
    ensures Lead(previous, future) == "" <==> Repeats(previous, future) == 0 || previous.value.name == ""
    ensures Lead(previous, future) != "" ==> EndsWith(Lead(previous, future), " of " + previous.value.name)
    ensures Lead(previous, future) != "" && Repeats(previous, future) > 1 ==>
              EndsWith(Lead(previous, future),
                       " " + NatToString(Repeats(previous, future)) + " more episodes of " + previous.value.name)
  {
    var n := Repeats(previous, future);
    if Continues(previous) {
      RunOfIs(previous.value.name, future, 0, n);
    }
    if n > 0 && previous.value.name != "" {
      var name := previous.value.name;
      if n == 1 {
        var l := "Up next is another episode of " + name;
        assert l[|l| - |" of " + name|..] == " of " + name;
      } else {
        var tail := " " + NatToString(n) + " more episodes of " + name;
        var l := "Coming up is" + tail;
        assert l == "Coming up is " + NatToString(n) + " more episodes of " + name;
        assert l[|l| - |tail|..] == tail;
        assert tail[|tail| - |" of " + name|..] == " of " + name;
      }
    }
  }

  // ---------------------------------------------------------------------
  // A single remaining entry (lines 290-308)

  /** Lines 292-308 as written: the movie test is followed by a separate
      `if`, so a movie is announced by its title and then once more as an
      episode or a marathon. */
  function SingleAsWritten(acc: string, last: Entry): string
  {
    var acc1 := if last.isMovie then
                  acc + (if acc != "" then ", and then " + last.title else "Up next is " + last.title)
                else acc;
    if last.isMarathon then
      acc1 + (if acc1 != "" then ", then a " + last.name + " marathon"
              else "Coming up is a " + last.name + " marathon")
    else
      acc1 + (if acc1 != "" then ", then an episode of " + last.name
              else "Coming up is an episode of " + last.name)
  }

  /** The single remaining entry announced once: a movie by its title, any
      other entry by its show, after what has been said so far. */
  function Single(acc: string, last: Entry): (r: string)
    ensures StartsWith(r, acc) && |r| > |acc|
    ensures last.isMovie ==> EndsWith(r, last.title)
    ensures !last.isMovie && last.isMarathon ==> EndsWith(r, " " + last.name + " marathon")
    ensures !last.isMovie && !last.isMarathon ==> EndsWith(r, " an episode of " + last.name)
  {
    var started := acc != "";
    var front := if last.isMovie then (if started then ", and then " else "Up next is ")
                 else if last.isMarathon then (if started then ", then a" else "Coming up is a")
                 else if started then ", then" else "Coming up is";
    var tail := if last.isMovie then last.title
                else if last.isMarathon then " " + last.name + " marathon"
                else " an episode of " + last.name;
    assert StartsWith(acc + front + tail, acc) by {
      Affixes(acc, front + tail);
      Associative(acc, front, tail);
    }
    assert EndsWith(acc + front + tail, tail) by {
      Affixes(acc + front, tail);
    }
    acc + front + tail
  }

  /** A movie as the single remaining entry is also announced as an
      episode of a show named after it. */
  lemma MovieAnnouncedTwice(acc: string, last: Entry)
    requires last.isMovie && !last.isMarathon
    ensures SingleAsWritten(acc, last) == Single(acc, last) + ", then an episode of " + last.name
  {
  }

  // ---------------------------------------------------------------------
  // Several remaining entries (lines 309-394)

  /** The entries from `i` on that share `rem[i]`'s show name. */
  function RunLen(rem: seq<Entry>, i: nat): (n: nat)
    requires i < |rem|
    ensures 1 <= n <= |rem| - i
  {
    RunOf(rem[i].name, rem, i)
  }

  /** How many entries one phrase covers: a movie alone, else the run of
      its show. */
  function Step(rem: seq<Entry>, i: nat): (n: nat)
    requires i < |rem|
    ensures 1 <= n && i + n <= |rem|
    ensures rem[i].isMovie ==> n == 1
  {
    if rem[i].isMovie then 1 else RunLen(rem, i)
  }

  /** What one phrase of the loop says, before it is put into words. */
  datatype Wording =
    | TheMovie(title: string)        // a movie, by its title
    | AMarathon(name: string)        // a marathon of a show
    | OurMarathon(name: string)      // the marathon already on air goes on
    | Episodes(count: string, name: string)   // the count as said
    | AnEpisode(name: string)

  /** A wording, whether something was said before it and whether it
      covers the last entry. */
  datatype Phrase = Phrase(wording: Wording, started: bool, last: bool)

  /** How the `n` entries from `i` on are announced, after something has
      been said (`started`) or not. Only the two branches of lines 331 and
      369 read the previous entry. */
  function Announcement(rem: seq<Entry>, i: nat, n: nat, started: bool, prev: Option<Entry>)
    : (r: Result<Phrase, VoiceoverError>)
    requires i < |rem| && 1 <= n && i + n <= |rem|
    ensures r.Failure? <==> (!started && prev.None? && !rem[i].isMovie && rem[i].isMarathon
                             && (n > 1 <==> i + n == |rem|))
    ensures r.Success? ==> r.value.started == started && r.value.last == (i + n == |rem|)
    ensures r.Success? && rem[i].isMovie ==> r.value.wording == TheMovie(rem[i].title)
    ensures r.Success? && !rem[i].isMovie && rem[i].isMarathon ==>
              r.value.wording in {AMarathon(rem[i].name), OurMarathon(rem[i].name)}
    ensures r.Success? && !rem[i].isMovie && !rem[i].isMarathon ==>
              r.value.wording == if n > 1 then Episodes(NatToString(n), rem[i].name) else AnEpisode(rem[i].name)
  {
    var x := rem[i].name;
    var last := i + n == |rem|;
    if rem[i].isMovie then Success(Phrase(TheMovie(rem[i].title), started, last))
    else if rem[i].isMarathon then
      if !started && (n > 1) == last then
        if prev.None? then Failure(NoPreviousEntry)
        else if prev.value.isMarathon then Success(Phrase(OurMarathon(x), started, last))
        else Success(Phrase(AMarathon(x), started, last))
      else Success(Phrase(AMarathon(x), started, last))
    else if n > 1 then Success(Phrase(Episodes(NatToString(n), x), started, last))
    else Success(Phrase(AnEpisode(x), started, last))
  }

  /** A comma and `joiner` when something has been said already, else
      `opening`; then `tail`. */
  function Said(started: bool, joiner: string, opening: string, tail: string): string
  {
    (if started then ", " + joiner else opening) + tail
  }

  lemma SaidShape(started: bool, joiner: string, opening: string, tail: string)
    requires tail != []
    ensures EndsWith(Said(started, joiner, opening, tail), tail)
    ensures started ==> StartsWith(Said(started, joiner, opening, tail), ", ")
  {
    var front := if started then ", " + joiner else opening;
    Affixes(front, tail);
    Affixes(", ", joiner + tail);
    assert started ==> front + tail == ", " + (joiner + tail);
  }

  /** The words of a phrase (lines 326-392). */
  function Spoken(p: Phrase): string
  {
    var joiner := if p.last then "followed by" else "then";
    match p.wording
    case TheMovie(t) => Said(p.started, joiner, "Coming up is", " " + t)
    case AMarathon(x) => Said(p.started, joiner + " a", "Coming up is a", " " + x + " marathon")
    case OurMarathon(x) => Said(p.started, joiner + " our", "Coming up we will continue our", " marathon of " + x)
    case Episodes(n, x) => Said(p.started, joiner, "Coming up is", " " + n + " episodes of " + x)
    case AnEpisode(x) => Said(p.started, joiner, "Up next is", " an episode of " + x)
  }

  /** What a phrase ends with: the movie's title, or the show's name and
      what of it is on, the count included. */
  function Tail(w: Wording): (t: string)
    ensures t != []
  {
    match w
    case TheMovie(t) => " " + t
    case AMarathon(x) => " " + x + " marathon"
    case OurMarathon(x) => " marathon of " + x
    case Episodes(n, x) => " " + n + " episodes of " + x
    case AnEpisode(x) => " an episode of " + x
  }

  /** Each phrase ends with its tail; after something has been said it
      starts with a comma. */
  lemma SpokenShape(p: Phrase)
    ensures Spoken(p) != [] && (p.started ==> StartsWith(Spoken(p), ", "))
    ensures EndsWith(Spoken(p), Tail(p.wording))
  {
    var joiner := if p.last then "followed by" else "then";
    match p.wording
    case TheMovie(t) => SaidShape(p.started, joiner, "Coming up is", " " + t);
    case AMarathon(x) => SaidShape(p.started, joiner + " a", "Coming up is a", " " + x + " marathon");
    case OurMarathon(x) => SaidShape(p.started, joiner + " our", "Coming up we will continue our", " marathon of " + x);
    case Episodes(n, x) => SaidShape(p.started, joiner, "Coming up is", " " + n + " episodes of " + x);
    case AnEpisode(x) => SaidShape(p.started, joiner, "Up next is", " an episode of " + x);
  }

  /** The first index of each phrase's entries, from `i` on: the phrases
      cover the entries one after another, each entry exactly once. */
  function RunStarts(rem: seq<Entry>, i: nat): (s: seq<nat>)
    requires i <= |rem|
    ensures i < |rem| <==> s != []
    ensures forall k :: 0 <= k < |s| ==> i <= s[k] < |rem|
    ensures s != [] ==> s[0] == i && s[|s| - 1] + Step(rem, s[|s| - 1]) == |rem|
    ensures forall k :: 0 <= k < |s| - 1 ==> s[k + 1] == s[k] + Step(rem, s[k])
    decreases |rem| - i
  {
    if i == |rem| then []
    else
      var rest := RunStarts(rem, i + Step(rem, i));
      StartsCons(rem, i, rest);
      [i] + rest
  }

  /** One more step in front of a chain of run starts is still a chain. */
  lemma StartsCons(rem: seq<Entry>, i: nat, rest: seq<nat>)
    requires i < |rem|
    requires i + Step(rem, i) < |rem| <==> rest != []
    requires forall k :: 0 <= k < |rest| ==> i + Step(rem, i) <= rest[k] < |rem|
    requires rest != [] ==> rest[0] == i + Step(rem, i) && rest[|rest| - 1] + Step(rem, rest[|rest| - 1]) == |rem|
    requires forall k :: 0 <= k < |rest| - 1 ==> rest[k + 1] == rest[k] + Step(rem, rest[k])
    ensures forall k :: 0 <= k < |[i] + rest| ==> i <= ([i] + rest)[k] < |rem|
    ensures ([i] + rest)[|[i] + rest| - 1] + Step(rem, ([i] + rest)[|[i] + rest| - 1]) == |rem|
    ensures forall k :: 0 <= k < |[i] + rest| - 1 ==> ([i] + rest)[k + 1] == ([i] + rest)[k] + Step(rem, ([i] + rest)[k])
  {
    var s := [i] + rest;
    assert forall k :: 1 <= k < |s| ==> s[k] == rest[k - 1];
  }

  /** `ps` in front of whatever `r` holds. */
  function Prepend(ps: seq<Phrase>, r: Result<seq<Phrase>, VoiceoverError>): Result<seq<Phrase>, VoiceoverError>
  {
    match r
    case Failure(e) => Failure(e)
    case Success(qs) => Success(ps + qs)
  }

  /** The phrases for the entries from `i` on, in order. */
  function Phrases(rem: seq<Entry>, i: nat, started: bool, prev: Option<Entry>): Result<seq<Phrase>, VoiceoverError>
    requires i <= |rem|
    decreases |rem| - i
  {
    if i == |rem| then Success([])
    else
      match Announcement(rem, i, Step(rem, i), started, prev)
      case Failure(e) => Failure(e)
      case Success(p) => Prepend([p], Phrases(rem, i + Step(rem, i), true, prev))
  }

  /** One phrase per step of `RunStarts`, each the announcement of that
      step's entries; only the first can come before anything has been
      said. */
  lemma {:induction false} OnePhrasePerRun(rem: seq<Entry>, i: nat, started: bool, prev: Option<Entry>)
    requires i <= |rem| && Phrases(rem, i, started, prev).Success?
    ensures |Phrases(rem, i, started, prev).value| == |RunStarts(rem, i)|
    ensures forall k :: 0 <= k < |RunStarts(rem, i)| ==>
              Announcement(rem, RunStarts(rem, i)[k], Step(rem, RunStarts(rem, i)[k]), started || k > 0, prev)
              == Success(Phrases(rem, i, started, prev).value[k])
    decreases |rem| - i
  {
    if i < |rem| {
      var n := Step(rem, i);
      var first := Announcement(rem, i, n, started, prev);
      var later := Phrases(rem, i + n, true, prev);
      assert first.Success? && later.Success?;
      var ps := Phrases(rem, i, started, prev).value;
      assert ps == [first.value] + later.value;
      OnePhrasePerRun(rem, i + n, true, prev);
      var s := RunStarts(rem, i);
      var rest := RunStarts(rem, i + n);
      assert s == [i] + rest;
      forall k | 0 <= k < |s|
        ensures Announcement(rem, s[k], Step(rem, s[k]), started || k > 0, prev) == Success(ps[k])
      {
        if k > 0 {
          assert s[k] == rest[k - 1] && ps[k] == later.value[k - 1];
        }
      }
    }
  }

  /** The phrases fail only on the first one, when nothing has been said
      and no entry precedes the intermission. */
  lemma {:induction false} PhrasesFailure(rem: seq<Entry>, i: nat, started: bool, prev: Option<Entry>)
    requires i <= |rem| && Phrases(rem, i, started, prev).Failure?
    ensures !started && prev.None?
    decreases |rem| - i
  {
    var n := Step(rem, i);
    if Announcement(rem, i, n, started, prev).Success? {
      PhrasesFailure(rem, i + n, true, prev);
    }
  }

  /** The phrases said one after another, each in the words `say` gives it. */
  function Render(ps: seq<Phrase>, say: Phrase -> string): string
  {
    if ps == [] then "" else say(ps[0]) + Render(ps[1..], say)
  }

  /** The text the announcement loop builds on `acc`: each run's phrase
      appended in turn, or the first failure. */
  function Speech(rem: seq<Entry>, i: nat, started: bool, prev: Option<Entry>, acc: string, say: Phrase -> string)
    : Result<string, VoiceoverError>
    requires i <= |rem|
    decreases |rem| - i
  {
    if i == |rem| then Success(acc)
    else
      match Announcement(rem, i, Step(rem, i), started, prev)
      case Failure(e) => Failure(e)
      case Success(p) => Speech(rem, i + Step(rem, i), true, prev, acc + say(p), say)
  }

  /** Appending phrase by phrase says the phrases of `Phrases` in order
      after `acc`, and fails exactly where `Phrases` does. */
  lemma {:induction false} SpeechSaysPhrases(rem: seq<Entry>, i: nat, started: bool, prev: Option<Entry>,
                                             acc: string, say: Phrase -> string)
    requires i <= |rem|
    ensures Phrases(rem, i, started, prev).Failure? ==>
              Speech(rem, i, started, prev, acc, say) == Failure(Phrases(rem, i, started, prev).error)
    ensures Phrases(rem, i, started, prev).Success? ==>
              Speech(rem, i, started, prev, acc, say) == Success(acc + Render(Phrases(rem, i, started, prev).value, say))
    decreases |rem| - i
  {
    if i == |rem| {
      AppendNothing(acc);
    } else {
      var n := Step(rem, i);
      var a := Announcement(rem, i, n, started, prev);
      if a.Success? {
        var p := a.value;
        var rest := Phrases(rem, i + n, true, prev);
        assert Phrases(rem, i, started, prev) == Prepend([p], rest);
        SpeechSaysPhrases(rem, i + n, true, prev, acc + say(p), say);
        if rest.Success? {
          var qs := rest.value;
          assert ([p] + qs)[0] == p && ([p] + qs)[1..] == qs;
          Associative(acc, say(p), Render(qs, say));
        }
      }
    }
  }

  // ---------------------------------------------------------------------
  // The whole text (lines 289 and 396-398)

  /** What is said between the frame's two sentences. Every entry that
      goes on with the previous show leaves nothing to add to the opening
      phrase, whose closing period is the frame's. */
  function Body(previous: Option<Entry>, future: seq<Entry>): Result<string, VoiceoverError>
  {
    var lead := Lead(previous, future);
    var rem := future[Repeats(previous, future)..];
    if |rem| == 0 then Success(lead)
    else if |rem| == 1 then Success(Single(lead, rem[0]))
    else
      match Phrases(rem, 0, lead != "", previous)
      case Failure(e) => Failure(e)
      case Success(ps) => Success(lead + Render(ps, Spoken))
  }

  /** Line 289 as written: the opening phrase gets a period of its own,
      and line 397 then adds another. */
  function BodyAsWritten(previous: Option<Entry>, future: seq<Entry>): Result<string, VoiceoverError>
  {
    var lead := Lead(previous, future);
    var rem := future[Repeats(previous, future)..];
    if |rem| == 0 then Success(Strip(lead) + ".")
    else if |rem| == 1 then Success(SingleAsWritten(lead, rem[0]))
    else
      match Phrases(rem, 0, lead != "", previous)
      case Failure(e) => Failure(e)
      case Success(ps) => Success(lead + Render(ps, Spoken))
  }

  function Frame(body: string): (r: string)
    ensures StartsWith(r, Intro) && EndsWith(r, ".")
  {
    assert (Intro + Strip(body) + ".")[..|Intro|] == Intro;
    Intro + Strip(body) + "."
  }

  /** The corrected text for an intermission between `previous` and
      `future`, with a lone movie announced once and a single final period:
      empty when nothing follows, else the framed body. It fails only when
      no entry precedes the intermission. */
  function Compose(previous: Option<Entry>, future: seq<Entry>): (r: Result<string, VoiceoverError>)
    ensures r.Success? ==> (r.value == "" <==> future == [])
    ensures r.Success? && future != [] ==> StartsWith(r.value, Intro) && EndsWith(r.value, ".")
    ensures r.Failure? ==> previous.None? && future != []
  {
    if future == [] then Success("")
    else
      match Body(previous, future)
      case Failure(e) =>
        assert previous.None? by {
          var rem := future[Repeats(previous, future)..];
          PhrasesFailure(rem, 0, Lead(previous, future) != "", previous);
        }
        Failure(e)
      case Success(b) => Success(Frame(b))
  }

  /** Lines 288-308 and 396-398 as written: the text `generate_voiceover_text`
      returns. It is empty exactly when nothing follows, and fails only
      when no entry precedes the intermission. */
  function ComposeAsWritten(previous: Option<Entry>, future: seq<Entry>): (r: Result<string, VoiceoverError>)
    ensures r.Success? ==> (r.value == "" <==> future == [])
    ensures r.Success? && future != [] ==> StartsWith(r.value, Intro) && EndsWith(r.value, ".")
    ensures r.Failure? ==> previous.None? && future != []
  {
    if future == [] then Success("")
    else
      match BodyAsWritten(previous, future)
      case Failure(e) =>
        assert previous.None? by {
          var rem := future[Repeats(previous, future)..];
          PhrasesFailure(rem, 0, Lead(previous, future) != "", previous);
        }
        Failure(e)
      case Success(b) => Success(Frame(b))
  }

  /** Apart from a lone remaining entry, a movie after or in place of the
      opening phrase, the single-entry branch as written says what the
      corrected one says. */
  lemma SingleAgrees(acc: string, last: Entry)
    requires !last.isMovie
    ensures SingleAsWritten(acc, last) == Single(acc, last)
  {
    if last.isMarathon {
      assert ", then a " + last.name + " marathon" == ", then a" + (" " + last.name + " marathon");
      assert "Coming up is a " + last.name + " marathon" == "Coming up is a" + (" " + last.name + " marathon");
    } else {
      assert ", then an episode of " + last.name == ", then" + (" an episode of " + last.name);
      assert "Coming up is an episode of " + last.name == "Coming up is" + (" an episode of " + last.name);
    }
  }

  /** Outside the two cases of the findings (every entry going on with the
      previous show, and a lone movie after the opening phrase) the text as
      written is the corrected text. */
  lemma AsWrittenAgrees(previous: Option<Entry>, future: seq<Entry>)
    requires Repeats(previous, future) < |future|
    requires Repeats(previous, future) == |future| - 1 ==> !future[|future| - 1].isMovie
    ensures ComposeAsWritten(previous, future) == Compose(previous, future)
  {
    var rem := future[Repeats(previous, future)..];
    if |rem| == 1 {
      assert rem[0] == future[|future| - 1];
      SingleAgrees(Lead(previous, future), rem[0]);
    }
  }

  /** A stripped text with a period after it needs no more stripping. */
  lemma StrippedPeriod(l: string)
    ensures Strip(Strip(l) + ".") == Strip(l) + "."
  {
    var s := Strip(l) + ".";
    assert s[|s| - 1] == '.';
    if Strip(l) != "" {
      assert s[0] == Strip(l)[0];
    }
    StripTrimmed(s);
  }

  /** When every future entry goes on with the previous show, the text as
      written ends in two periods. */
  lemma AllRepeatsTwoPeriods(previous: Option<Entry>, future: seq<Entry>)
    requires future != [] && Repeats(previous, future) == |future|
    ensures ComposeAsWritten(previous, future) == Success(Intro + Strip(Lead(previous, future)) + "." + ".")
  {
    var lead := Lead(previous, future);
    assert future[Repeats(previous, future)..] == [];
    assert BodyAsWritten(previous, future) == Success(Strip(lead) + ".");
    StrippedPeriod(lead);
    Associative(Intro, Strip(lead), ".");
    Associative(Intro + Strip(lead), ".", ".");
  }

  /** The corrected text, in the same case, ends in one. */
  lemma AllRepeatsOnePeriod(previous: Option<Entry>, future: seq<Entry>)
    requires future != [] && Repeats(previous, future) == |future|
    ensures Compose(previous, future) == Success(Intro + Strip(Lead(previous, future)) + ".")
  {
    assert future[Repeats(previous, future)..] == [];
    assert Body(previous, future) == Success(Lead(previous, future));
  }

  /** The text for the intermission row `id`, as the source composes it:
      empty when there is no such row, else composed from the entry that
      ended last before it starts and the first `futureItems` entries from
      its end on. */
  function VoiceoverText(schedule: seq<Row>, id: nat, futureItems: nat): Result<string, VoiceoverError>
  {
    match FindRow(schedule, id)
    case None => Success("")
    case Some(x) =>
      ComposeAsWritten(AnnounceOption(PreviousEntry(schedule, x.start)),
              AnnounceAll(FutureEntries(schedule, x.end, futureItems)))
  }

  /** The text is empty exactly when the row is missing or nothing is
      announced after it. */
  lemma VoiceoverEmpty(schedule: seq<Row>, id: nat, futureItems: nat)
    requires VoiceoverText(schedule, id, futureItems).Success?
    ensures VoiceoverText(schedule, id, futureItems).value == "" <==>
              FindRow(schedule, id).None?
              || FutureEntries(schedule, FindRow(schedule, id).value.end, futureItems) == []
  {
  }

  // ---------------------------------------------------------------------
  // The loops

  /** Lines 312-324: the entries from `i` on that one phrase covers, found
      by scanning forward while the show name stays the same. */
  method RunFrom(remaining: seq<Entry>, i: nat) returns (run: nat)
    requires i < |remaining|
    ensures run == Step(remaining, i)
  {
    run := 1;
    if !remaining[i].isMovie {
      var thisTitle := remaining[i].name;
      var x := i + 1;
      while x < |remaining|
        invariant i < x <= |remaining| && run == x - i
        invariant forall k :: i <= k < x ==> remaining[k].name == thisTitle
        decreases |remaining| - x
      {
        if remaining[x].name != thisTitle {
          break;
        }
        run := run + 1;
        x := x + 1;
      }
      RunOfIs(thisTitle, remaining, i, run);
    }
  }

  /** The loop of lines 311-394 over the entries left after the repeats:
      one phrase per run, appended in order. Whether anything has been said
      yet is kept in `started`. */
  method AnnounceRemaining(remaining: seq<Entry>, lead: string, previous: Option<Entry>)
    returns (r: Result<string, VoiceoverError>)
    ensures r == Speech(remaining, 0, lead != "", previous, lead, Spoken)
  {
    var voiceover := lead;
    var started := lead != "";
    var i := 0;
    while i < |remaining|
      invariant 0 <= i <= |remaining|
      invariant Speech(remaining, 0, lead != "", previous, lead, Spoken)
                == Speech(remaining, i, started, previous, voiceover, Spoken)
      decreases |remaining| - i
    {
      var run := RunFrom(remaining, i);
      var phrase := Announcement(remaining, i, run, started, previous);
      if phrase.Failure? {
        return Failure(phrase.error);
      }
      voiceover := voiceover + Spoken(phrase.value);
      started := true;
      i := i + run;
    }
    r := Success(voiceover);
  }

  /** Lines 290-308: the single remaining entry appended to `voiceover`,
      the movie test and the marathon test one after the other. */
  method AnnounceLast(lead: string, last: Entry) returns (voiceover: string)
    ensures voiceover == SingleAsWritten(lead, last)
  {
    voiceover := lead;
    if last.isMovie {
      if voiceover != "" {
        voiceover := voiceover + (", and then " + last.title);
      } else {
        voiceover := voiceover + ("Up next is " + last.title);
      }
    }
    if last.isMarathon {
      if voiceover != "" {
        voiceover := voiceover + (", then a " + last.name + " marathon");
      } else {
        voiceover := voiceover + ("Coming up is a " + last.name + " marathon");
      }
    } else {
      if voiceover != "" {
        voiceover := voiceover + (", then an episode of " + last.name);
      } else {
        voiceover := voiceover + ("Coming up is an episode of " + last.name);
      }
    }
  }

  /** Lines 272-397: the repeats counted with a `break`, the opening
      phrase, then the branch on how many entries remain, as written. */
  method ComposeVoiceover(previous: Option<Entry>, future: seq<Entry>) returns (r: Result<string, VoiceoverError>)
    ensures r == ComposeAsWritten(previous, future)
  {
    if future == [] {
      return Success("");
    }
    var repeats := 0;
    var previousName := "";
    if Continues(previous) {
      previousName := previous.value.name;
      while repeats < |future|
        invariant 0 <= repeats <= |future|
        invariant forall k :: 0 <= k < repeats ==> future[k].name == previousName
        decreases |future| - repeats
      {
        if future[repeats].name != previousName {
          break;
        }
        repeats := repeats + 1;
      }
    }
    if Continues(previous) {
      RunOfIs(previousName, future, 0, repeats);
    }
    assert repeats == Repeats(previous, future);
    var voiceover := "";
    if repeats == 1 && previousName != "" {
      voiceover := "Up next is another episode of " + previousName;
    } else if repeats > 1 && previousName != "" {
      voiceover := "Coming up is " + NatToString(repeats) + " more episodes of " + previousName;
    }
    assert voiceover == Lead(previous, future);
    var remaining := future[repeats..];
    if |remaining| == 0 {
      voiceover := Strip(voiceover) + ".";
    } else if |remaining| == 1 {
      voiceover := AnnounceLast(voiceover, remaining[0]);
    } else {
      var tour := AnnounceRemaining(remaining, voiceover, previous);
      SpeechSaysPhrases(remaining, 0, voiceover != "", previous, voiceover, Spoken);
      if tour.Failure? {
        return Failure(tour.error);
      }
      voiceover := tour.value;
    }
    r := Success(Frame(voiceover));
  }

  /** `generate_voiceover_text(schedule_id, future_items)`. */
  method GenerateVoiceoverText(schedule: seq<Row>, id: nat, futureItems: nat) returns (r: Result<string, VoiceoverError>)
    ensures r == VoiceoverText(schedule, id, futureItems)
  {
    var intermission := FindRow(schedule, id);
    if intermission.None? {
      return Success("");
    }
    var previous := AnnounceOption(PreviousEntry(schedule, intermission.value.start));
    var future := AnnounceAll(FutureEntries(schedule, intermission.value.end, futureItems));
    r := ComposeVoiceover(previous, future);
  }

}
