/** The text of one `programme` element of the XMLTV guide: its title and
    its description, from the columns of the schedule query's LEFT JOIN,
    any of which may be NULL. */
module Xmltv {
  import opened Basics
  import opened Text

  /** How an f-string renders a text column: NULL becomes `None`. */
  function ColumnText(s: Option<string>): (r: string)
    ensures s.None? ==> r == "None"
    ensures s.Some? ==> r == s.value
  {
    if s.None? then "None" else s.value
  }

  /** How an f-string renders an integer column: `str(int)`, NULL becomes `None`. */
  function ColumnInt(i: Option<int>): (r: string)
    ensures ' ' !in r
  {
    if i.None? then "None"
    else
      var r := IntToString(i.value);
      assert AllDigits(NatToString(if i.value < 0 then -i.value else i.value));
      assert forall k :: 0 <= k < |r| ==> r[k] == '-' || IsDigit(r[k]) by {
        if i.value < 0 {
          forall k | 0 < k < |r| ensures IsDigit(r[k]) {
            assert r[k] == r[1..][k - 1];
          }
        }
      }
      r
  }

  /** The programme title: show title, then `S` and the season number, then
      `E` and the episode number. */
  function ProgrammeTitle(show: Option<string>, season: Option<int>, number: Option<int>): (t: string)
    ensures StartsWith(t, ColumnText(show) + " S")
  {
    ColumnText(show) + " S" + ColumnInt(season) + " E" + ColumnInt(number)
  }

  /** The programme description: the episode's description, or
      `No description` when that column is NULL (an empty description is
      kept as it is). */
  function ProgrammeDescription(description: Option<string>): (r: string)
    ensures description.None? ==> r == "No description"
    ensures description.Some? ==> r == description.value
  {
    if description.None? then "No description" else description.value
  }

  lemma NatToStringInjective(a: nat, b: nat)
    requires NatToString(a) == NatToString(b)
    ensures a == b
  {
    NatToStringRoundTrip(a);
    NatToStringRoundTrip(b);
  }

  /** Different column values render differently. */
  lemma ColumnIntInjective(a: Option<int>, b: Option<int>)
    requires ColumnInt(a) == ColumnInt(b)
    ensures a == b
  {
    if a.Some? && b.Some? {
      if a.value >= 0 && b.value >= 0 {
        NatToStringInjective(a.value, b.value);
      } else if a.value < 0 && b.value < 0 {
        NatToStringInjective(-a.value, -b.value);
      }
    }
  }

  /** In `a + " E" + b` the first space is the one after `a`. */
  lemma FirstSpace(a: string, b: string)
    requires ' ' !in a
    ensures (a + " E" + b)[|a|] == ' '
    ensures forall k :: 0 <= k < |a| ==> (a + " E" + b)[k] != ' '
  {
    forall k | 0 <= k < |a| ensures (a + " E" + b)[k] != ' ' {
      assert (a + " E" + b)[k] == a[k];
    }
  }

  /** `p + a + " E" + b` splits back into `a` and `b` when neither holds a space. */
  lemma SplitAtSpace(p: string, a: string, b: string, c: string, d: string)
    requires ' ' !in a && ' ' !in b && ' ' !in c && ' ' !in d
    requires p + a + " E" + b == p + c + " E" + d
    ensures a == c && b == d
  {
    var t := p + a + " E" + b;
    var x := a + " E" + b;
    var y := c + " E" + d;
    assert t == p + x;
    assert t == p + y;
    assert x == t[|p|..] == y;
    FirstSpace(a, b);
    FirstSpace(c, d);
    assert |a| == |c|;
    assert a == x[..|a|] && c == y[..|c|];
    assert b == x[|a| + 2..] && d == y[|c| + 2..];
  }

  /** Within one show, the title names the season and episode numbers
      unambiguously: two programmes with the same title have the same
      numbers (NULLs included). */
  lemma TitleDeterminesEpisode(show: Option<string>, s1: Option<int>, n1: Option<int>,
                               s2: Option<int>, n2: Option<int>)
    requires ProgrammeTitle(show, s1, n1) == ProgrammeTitle(show, s2, n2)
    ensures s1 == s2 && n1 == n2
  {
    SplitAtSpace(ColumnText(show) + " S", ColumnInt(s1), ColumnInt(n1), ColumnInt(s2), ColumnInt(n2));
    ColumnIntInjective(s1, s2);
    ColumnIntInjective(n1, n2);
  }

  /** A schedule row whose episode the LEFT JOIN does not find (an
      intermission, or an episode since deleted) has every joined column
      NULL: its programme reads `None SNone ENone`, described as
      `No description`. A found episode keeps its own, possibly empty,
      description, and only a NULL one is replaced. */
  lemma UnjoinedProgramme(show: Option<string>, season: Option<int>, number: Option<int>,
                          description: Option<string>)
    ensures show.None? && season.None? && number.None? ==>
              ProgrammeTitle(show, season, number) == "None SNone ENone"
    ensures description.None? ==> ProgrammeDescription(description) == "No description"
    ensures ProgrammeDescription(description) != "No description" ==> description == Some(ProgrammeDescription(description))
  {
  }
}
