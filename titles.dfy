/** The two regular expressions lib/intermission.py applies to schedule
    titles, decided without backtracking: `_get_show_name`'s
    `^(.+?)(\(.+\))?\s*(Marathon!)?\s*S(\d+) E(\d+)$`, whose lazy first
    group is the shortest prefix after which the rest matches, and the
    overlay's `^(.+)S(\d+)\s*E(\d+)\s*$`, whose greedy first group is the
    longest. `.` matches anything but a newline, `\s` is `IsSpace` and `\d`
    an ASCII digit. */
module Titles {
  import opened Basics
  import opened Text

  /** The length of the longest all-digit suffix of `s`. */
  function DigitSuffix(s: string): (n: nat)
    ensures n <= |s| && AllDigits(s[|s| - n..])
    ensures n < |s| ==> !IsDigit(s[|s| - n - 1])
  {
    if s != [] && IsDigit(s[|s| - 1]) then
      var n := DigitSuffix(s[..|s| - 1]) + 1;
      assert s[|s| - n..] == s[..|s| - 1][|s| - n..] + [s[|s| - 1]];
      n
    else 0
  }

  /** The length of the longest all-digit prefix of `s`. */
  function DigitPrefix(s: string): (n: nat)
    ensures n <= |s| && AllDigits(s[..n])
    ensures n < |s| ==> !IsDigit(s[n])
  {
    if s != [] && IsDigit(s[0]) then DigitPrefix(s[1..]) + 1 else 0
  }

  /** The length of the longest whitespace prefix of `s`. */
  function SpacePrefix(s: string): (n: nat)
    ensures n <= |s| && AllSpace(s[..n])
    ensures n < |s| ==> !IsSpace(s[n])
  {
    if s != [] && IsSpace(s[0]) then SpacePrefix(s[1..]) + 1 else 0
  }

  // ---------------------------------------------------------------------
  // `_get_show_name` (lines 461-472)

  /** `(\(.+\))?`, matched in full. */
  predicate Parenthesised(s: string)
  {
    s == [] || (|s| >= 3 && s[0] == '(' && s[|s| - 1] == ')' && '\n' !in s[1..|s| - 1])
  }

  /** `(\(.+\))?\s*(Marathon!)?\s*`, matched in full. The parenthesised part
      ends in `)` and the marathon marker in `!`, so after dropping trailing
      whitespace the marker is there exactly when the text ends in it. */
  predicate Qualifiers(q: string)
  {
    var q1 := RStrip(q);
    if EndsWith(q1, "Marathon!") then Parenthesised(RStrip(q1[..|q1| - 9]))
    else Parenthesised(q1)
  }

  /** `(\(.+\))?\s*(Marathon!)?\s*S(\d+) E(\d+)`, matched in full: both digit
      runs are as long as possible, since an `S` and an `E` precede them. */
  predicate EpisodeTail(r: string)
  {
    var d2 := DigitSuffix(r);
    var a := r[..|r| - d2];
    d2 > 0 && EndsWith(a, " E")
    && var b := a[..|a| - 2];
       var d1 := DigitSuffix(b);
       var c := b[..|b| - d1];
       d1 > 0 && EndsWith(c, "S") && Qualifiers(c[..|c| - 1])
  }

  /** The part after the first group, up to `$`, which also matches just
      before a final newline. */
  predicate ShowTail(r: string)
  {
    EpisodeTail(r) || (r != [] && r[|r| - 1] == '\n' && EpisodeTail(r[..|r| - 1]))
  }

  /** The index of the first newline, or the length: a prefix is
      newline-free exactly when it is no longer than this. */
  function FirstNewline(s: string): (n: nat)
    ensures n <= |s| && '\n' !in s[..n]
    ensures n < |s| ==> s[n] == '\n'
  {
    if s == [] || s[0] == '\n' then 0
    else
      var n := FirstNewline(s[1..]) + 1;
      assert s[..n] == [s[0]] + s[1..][..n - 1];
      n
  }

  /** The least `j` from `k` to `bound` with `p(j)`: how a lazy group
      tries its lengths. */
  function Least(k: nat, bound: nat, p: nat -> bool): (r: Option<nat>)
    ensures r.Some? ==> k <= r.value <= bound && p(r.value)
    ensures r.Some? ==> forall j :: k <= j < r.value ==> !p(j)
    ensures r.None? ==> forall j :: k <= j <= bound ==> !p(j)
    decreases if k <= bound then bound - k + 1 else 0
  {
    if k > bound then None
    else if p(k) then Some(k)
    else Least(k + 1, bound, p)
  }

  /** The greatest `j` from 1 to `k` with `p(j)`: how a greedy group tries
      its lengths. */
  function Greatest(k: nat, p: nat -> bool): (r: Option<nat>)
    ensures r.Some? ==> 1 <= r.value <= k && p(r.value)
    ensures r.Some? ==> forall j :: r.value < j <= k ==> !p(j)
    ensures r.None? ==> forall j :: 1 <= j <= k ==> !p(j)
  {
    if k == 0 then None
    else if p(k) then Some(k)
    else Greatest(k - 1, p)
  }

  /** The length of the lazy first group, if the title matches at all: the
      shortest newline-free prefix after which the rest matches. */
  function ShowMatch(title: string): (r: Option<nat>)
    ensures r.Some? ==> 1 <= r.value <= FirstNewline(title) && ShowTail(title[r.value..])
    ensures r.Some? ==> forall j :: 1 <= j < r.value ==> !ShowTail(title[j..])
    ensures r.None? ==> forall j :: 1 <= j <= FirstNewline(title) ==> !ShowTail(title[j..])
  {
    var p := (j: nat) => j <= |title| && ShowTail(title[j..]);
    var r := Least(1, FirstNewline(title), p);
    assert r.None? ==> forall j :: 1 <= j <= FirstNewline(title) ==> !ShowTail(title[j..]) by {
      forall j | 1 <= j <= FirstNewline(title) && r.None?
        ensures !ShowTail(title[j..])
      {
        assert !p(j);
      }
    }
    assert r.Some? ==> forall j :: 1 <= j < r.value ==> !ShowTail(title[j..]) by {
      forall j | r.Some? && 1 <= j < r.value
        ensures !ShowTail(title[j..])
      {
        assert !p(j);
      }
    }
    r
  }

  /** `_get_show_name`: the stripped first group when the title matches,
      the title itself otherwise; `tts_clean` then drops every `:` and `!`. */
  function ShowName(title: string, ttsClean: bool): string
  {
    var m := ShowMatch(title);
    var name := if m.Some? then Strip(title[..m.value]) else title;
    if ttsClean then ReplaceChar(ReplaceChar(name, ':', ""), '!', "") else name
  }

  /** A title the pattern does not match comes back unchanged (unless
      cleaned), a matched one gives the stripped shortest prefix after which
      the rest matches, and a cleaned name holds no `:` and no `!`. */
  lemma ShowNameSpec(title: string, ttsClean: bool)
    ensures ShowMatch(title).None? && !ttsClean ==> ShowName(title, ttsClean) == title
    ensures ShowMatch(title).None? ==>
              forall j :: 1 <= j <= FirstNewline(title) ==> !ShowTail(title[j..])
    ensures ShowMatch(title).Some? && !ttsClean ==>
              var k := ShowMatch(title).value;
              ShowName(title, ttsClean) == Strip(title[..k]) && ShowTail(title[k..])
              && forall j :: 1 <= j < k ==> !ShowTail(title[j..])
    ensures ttsClean ==> ':' !in ShowName(title, ttsClean) && '!' !in ShowName(title, ttsClean)
  {
    if ttsClean {
      var m := ShowMatch(title);
      var name := if m.Some? then Strip(title[..m.value]) else title;
      ReplaceCharKeepsOut(ReplaceChar(name, ':', ""), '!', "", ':');
    }
  }

  // ---------------------------------------------------------------------
  // The overlay title split (lines 149-158)

  /** `S(\d+)\s*E(\d+)\s*$`, matched in full: the season and episode digit
      strings. */
  function EpisodeMarks(r: string): (m: Option<(string, string)>)
    ensures m.Some? ==> m.value.0 != [] && m.value.1 != [] && AllDigits(m.value.0) && AllDigits(m.value.1)
  {
    if r == [] || r[0] != 'S' then None
    else
      var d1 := DigitPrefix(r[1..]);
      var r1 := r[1 + d1..];
      var w := SpacePrefix(r1);
      var r2 := r1[w..];
      if d1 == 0 || r2 == [] || r2[0] != 'E' then None
      else
        var d2 := DigitPrefix(r2[1..]);
        assert r[1..1 + d1] == r[1..][..d1] && r2[1..1 + d2] == r2[1..][..d2];
        if d2 > 0 && AllSpace(r2[1 + d2..]) then Some((r[1..1 + d1], r2[1..1 + d2])) else None
  }

  /** The length of the greedy first group, if the title matches at all:
      the longest newline-free prefix after which the rest matches. */
  function TitleMatch(title: string): (r: Option<nat>)
    ensures r.Some? ==> 1 <= r.value <= FirstNewline(title) && EpisodeMarks(title[r.value..]).Some?
    ensures r.Some? ==> forall j :: r.value < j <= FirstNewline(title) ==> EpisodeMarks(title[j..]).None?
    ensures r.None? ==> forall j :: 1 <= j <= FirstNewline(title) ==> EpisodeMarks(title[j..]).None?
  {
    var p := (j: nat) => j <= |title| && EpisodeMarks(title[j..]).Some?;
    var r := Greatest(FirstNewline(title), p);
    assert r.None? ==> forall j :: 1 <= j <= FirstNewline(title) ==> EpisodeMarks(title[j..]).None? by {
      forall j | 1 <= j <= FirstNewline(title) && r.None?
        ensures EpisodeMarks(title[j..]).None?
      {
        assert !p(j);
      }
    }
    assert r.Some? ==> forall j :: r.value < j <= FirstNewline(title) ==> EpisodeMarks(title[j..]).None? by {
      forall j | r.Some? && r.value < j <= FirstNewline(title)
        ensures EpisodeMarks(title[j..]).None?
      {
        assert !p(j);
      }
    }
    r
  }

  /** The two text lines of an overlay entry: the stripped show title and
      `Season S Episode E` when the title matches, else the whole title and
      an empty second line. */
  function OverlayLines(title: string): (r: (string, string))
    ensures r.1 == [] <==> TitleMatch(title).None?
    ensures TitleMatch(title).None? ==> r.0 == title
  {
    match TitleMatch(title)
    case None => (title, "")
    case Some(k) =>
      var m := EpisodeMarks(title[k..]).value;
      (Strip(title[..k]), "Season " + m.0 + " Episode " + m.1)
  }
}
