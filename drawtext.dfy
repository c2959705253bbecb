/** `normalize_text` (lib/intermission.py), which escapes a string for the
    `text=` option of ffmpeg's drawtext filter inside a filter graph. */
module Drawtext {
  import opened Text

  const Backslash: char := '\\'

  /** What `normalize_text` puts in place of each special character. */
  const EscBackslash: string := "\\\\\\\\"
  const EscDoubleQuote: string := "\\\\\""
  const EscQuote: string := "\\\\\\'"
  const EscPercent: string := "\\\\\\\\%"
  const EscColon: string := "\\\\:"
  const EscComma: string := "\\\\\\,"

  /** `normalize_text` as written: six `str.replace` calls in a row. */
  function NormalizeChain(t: string): string
  {
    var t1 := ReplaceChar(t, '\\', EscBackslash);
    var t2 := ReplaceChar(t1, '"', EscDoubleQuote);
    var t3 := ReplaceChar(t2, '\'', EscQuote);
    var t4 := ReplaceChar(t3, '%', EscPercent);
    var t5 := ReplaceChar(t4, ':', EscColon);
    ReplaceChar(t5, ',', EscComma)
  }

  /** The escape of one character: a run of backslashes and then the
      character itself, or the character alone. */
  function Escape(c: char): (r: string)
    ensures |r| >= 1 && r[|r| - 1] == c
    ensures forall k :: 0 <= k < |r| - 1 ==> r[k] == Backslash
  {
    match c
    case '\\' => EscBackslash
    case '"' => EscDoubleQuote
    case '\'' => EscQuote
    case '%' => EscPercent
    case ':' => EscColon
    case ',' => EscComma
    case _ => [c]
  }

  /** The escaped text, one character at a time. */
  function Normalize(t: string): (r: string)
    ensures |r| >= |t|
  {
    if t == [] then [] else Escape(t[0]) + Normalize(t[1..])
  }

  /** `Normalize` maps concatenation to concatenation. */
  lemma {:induction false} NormalizeAppend(a: string, b: string)
    ensures Normalize(a + b) == Normalize(a) + Normalize(b)
    decreases |a|
  {
    if a == [] {
      assert a + b == b;
    } else {
      assert (a + b)[0] == a[0] && (a + b)[1..] == a[1..] + b;
      NormalizeAppend(a[1..], b);
    }
  }

  lemma {:induction false} NormalizeChainAppend(a: string, b: string)
    ensures NormalizeChain(a + b) == NormalizeChain(a) + NormalizeChain(b)
  {
    var a1, b1 := ReplaceChar(a, '\\', EscBackslash), ReplaceChar(b, '\\', EscBackslash);
    ReplaceCharAppend(a, b, '\\', EscBackslash);
    var a2, b2 := ReplaceChar(a1, '"', EscDoubleQuote), ReplaceChar(b1, '"', EscDoubleQuote);
    ReplaceCharAppend(a1, b1, '"', EscDoubleQuote);
    var a3, b3 := ReplaceChar(a2, '\'', EscQuote), ReplaceChar(b2, '\'', EscQuote);
    ReplaceCharAppend(a2, b2, '\'', EscQuote);
    var a4, b4 := ReplaceChar(a3, '%', EscPercent), ReplaceChar(b3, '%', EscPercent);
    ReplaceCharAppend(a3, b3, '%', EscPercent);
    var a5, b5 := ReplaceChar(a4, ':', EscColon), ReplaceChar(b4, ':', EscColon);
    ReplaceCharAppend(a4, b4, ':', EscColon);
    ReplaceCharAppend(a5, b5, ',', EscComma);
  }

  lemma ReplaceOne(c: char, p: char, rep: string)
    ensures ReplaceChar([c], p, rep) == if c == p then rep else [c]
  {
    assert [c][1..] == [];
  }

  lemma ChainBackslash()
    ensures NormalizeChain(['\\']) == Escape('\\')
  {
    ReplaceOne('\\', '\\', EscBackslash);
    assert '"' !in EscBackslash && '\'' !in EscBackslash && '%' !in EscBackslash && ':' !in EscBackslash && ',' !in EscBackslash;
  }

  lemma ChainDoubleQuote()
    ensures NormalizeChain(['"']) == Escape('"')
  {
    ReplaceOne('"', '\\', EscBackslash);
    ReplaceOne('"', '"', EscDoubleQuote);
    assert '\'' !in EscDoubleQuote && '%' !in EscDoubleQuote && ':' !in EscDoubleQuote && ',' !in EscDoubleQuote;
  }

  lemma ChainQuote()
    ensures NormalizeChain(['\'']) == Escape('\'')
  {
    ReplaceOne('\'', '\\', EscBackslash);
    ReplaceOne('\'', '"', EscDoubleQuote);
    ReplaceOne('\'', '\'', EscQuote);
    assert '%' !in EscQuote && ':' !in EscQuote && ',' !in EscQuote;
  }

  lemma ChainPercent()
    ensures NormalizeChain(['%']) == Escape('%')
  {
    ReplaceOne('%', '\\', EscBackslash);
    ReplaceOne('%', '"', EscDoubleQuote);
    ReplaceOne('%', '\'', EscQuote);
    ReplaceOne('%', '%', EscPercent);
    assert ':' !in EscPercent && ',' !in EscPercent;
  }

  lemma ChainColon()
    ensures NormalizeChain([':']) == Escape(':')
  {
    ReplaceOne(':', '\\', EscBackslash);
    ReplaceOne(':', '"', EscDoubleQuote);
    ReplaceOne(':', '\'', EscQuote);
    ReplaceOne(':', '%', EscPercent);
    ReplaceOne(':', ':', EscColon);
    assert ',' !in EscColon;
  }

  lemma ChainComma()
    ensures NormalizeChain([',']) == Escape(',')
  {
    ReplaceOne(',', '\\', EscBackslash);
    ReplaceOne(',', '"', EscDoubleQuote);
    ReplaceOne(',', '\'', EscQuote);
    ReplaceOne(',', '%', EscPercent);
    ReplaceOne(',', ':', EscColon);
    ReplaceOne(',', ',', EscComma);
  }

  /** On a single character the six replaces give its escape: each later
      pattern is absent from the earlier replacements, so nothing is
      escaped twice. */
  lemma NormalizeChainChar(c: char)
    ensures NormalizeChain([c]) == Escape(c)
  {
    match c
    case '\\' => ChainBackslash();
    case '"' => ChainDoubleQuote();
    case '\'' => ChainQuote();
    case '%' => ChainPercent();
    case ':' => ChainColon();
    case ',' => ChainComma();
    case _ =>
  }

  /** The chain of replaces is exactly the per-character escape map:
      backslashes that later replaces introduce are not escaped again. */
  lemma {:induction false} NormalizeIsEscapeMap(t: string)
    ensures NormalizeChain(t) == Normalize(t)
    decreases |t|
  {
    if t == [] {
    } else {
      assert t == [t[0]] + t[1..];
      NormalizeChainAppend([t[0]], t[1..]);
      NormalizeChainChar(t[0]);
      NormalizeIsEscapeMap(t[1..]);
    }
  }

  /** The length of the escape that ends in character `c`. */
  function EscapeLength(c: char): (n: nat)
    ensures n == |Escape(c)|
  {
    match c
    case '\\' => 4
    case '"' => 3
    case '\'' => 4
    case '%' => 5
    case ':' => 3
    case ',' => 4
    case _ => 1
  }

  /** Reads escaped text back from its end: every escape ends in the
      character it stands for, and no two escapes end in the same
      character. */
  function Unescape(t: string): (r: string)
    decreases |t|
  {
    if t == [] then []
    else if |t| < EscapeLength(t[|t| - 1]) then t
    else Unescape(t[..|t| - EscapeLength(t[|t| - 1])]) + [t[|t| - 1]]
  }

  /** The escaped text determines the original: `Unescape` undoes
      `normalize_text`. */
  lemma {:induction false} UnescapeNormalize(t: string)
    ensures Unescape(Normalize(t)) == t
    decreases |t|
  {
    if t != [] {
      var front, c := t[..|t| - 1], t[|t| - 1];
      assert t == front + [c];
      NormalizeAppend(front, [c]);
      assert Normalize([c]) == Escape(c) by {
        assert [c][1..] == [];
      }
      var n := Normalize(t);
      assert n == Normalize(front) + Escape(c);
      assert n[|n| - 1] == c;
      assert n[..|n| - EscapeLength(c)] == Normalize(front);
      UnescapeNormalize(front);
    }
  }
}
