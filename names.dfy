/**
 * Splitting a player's display name into first and last name:
 * `first, *rest = name.split()` and `last = " ".join(rest)`.
 */
module Names {
  import opened Wrappers

  /** The characters Python's `str.isspace` accepts; `str.split()` with no
      separator splits on runs of exactly these. */
  predicate IsSpace(c: char) {
    || ('\t' <= c <= '\r')
    || ('\U{1c}' <= c <= ' ')
    || c == '\U{85}' || c == '\U{a0}' || c == '\U{1680}'
    || ('\U{2000}' <= c <= '\U{200a}')
    || c == '\U{2028}' || c == '\U{2029}' || c == '\U{202f}' || c == '\U{205f}' || c == '\U{3000}'
  }

  predicate NoSpace(s: string) {
    forall i :: 0 <= i < |s| ==> !IsSpace(s[i])
  }

  predicate AllSpace(s: string) {
    forall i :: 0 <= i < |s| ==> IsSpace(s[i])
  }

  /** A token `str.split()` can produce: non-empty, without whitespace. */
  predicate IsWord(w: string) {
    |w| > 0 && NoSpace(w)
  }

  /** The length of the run of non-space characters that `s` starts with. */
  function WordLength(s: string): (n: nat)
    ensures n <= |s|
    ensures forall i :: 0 <= i < n ==> !IsSpace(s[i])
    ensures n < |s| ==> IsSpace(s[n])
  {
    if s == [] || IsSpace(s[0]) then 0 else 1 + WordLength(s[1..])
  }

  /** `s.split()`: the maximal runs of non-space characters of `s`, in order. */
  function Words(s: string): (ws: seq<string>)
    ensures forall k :: 0 <= k < |ws| ==> IsWord(ws[k])
    ensures ws == [] <==> AllSpace(s)
    decreases |s|
  {
    if s == [] then []
    else if IsSpace(s[0]) then
      assert AllSpace(s) <==> AllSpace(s[1..]) by {
        if AllSpace(s[1..]) {
          forall i | 0 <= i < |s| ensures IsSpace(s[i]) {
            if i > 0 { assert s[i] == s[1..][i - 1]; }
          }
        }
      }
      Words(s[1..])
    else
      var n := WordLength(s);
      [s[..n]] + Words(s[n..])
  }

  /** `" ".join(ws)`: over words, empty only for no words, and neither
      starting nor ending with a blank. */
  function Join(ws: seq<string>): (r: string)
    ensures (forall k :: 0 <= k < |ws| ==> IsWord(ws[k])) ==> (r == [] <==> ws == [])
    ensures (forall k :: 0 <= k < |ws| ==> IsWord(ws[k])) && r != [] ==> !IsSpace(r[0]) && !IsSpace(r[|r| - 1])
  {
    if ws == [] then ""
    else if |ws| == 1 then ws[0]
    else ws[0] + " " + Join(ws[1..])
  }

  /** The parts a display name is stored as. */
  datatype NameParts = NameParts(first: string, last: string)

  /** `first, *rest = name.split()`; `last = " ".join(rest) if rest else ""`.
      None when the name has no word at all: the unpacking raises. */
  function SplitName(name: string): (r: Option<NameParts>)
    ensures r.None? <==> AllSpace(name)
    ensures r.Some? ==> IsWord(r.value.first) && [r.value.first] + Words(r.value.last) == Words(name)
    ensures r.Some? ==> r.value.first == Words(name)[0] && r.value.last == Join(Words(name)[1..])
  {
    var ws := Words(name);
    if ws == [] then None
    else
      WordsOfJoin(ws[1..]);
      Some(NameParts(ws[0], Join(ws[1..])))
  }

  /** A word followed by nothing or by a space is read as one whole token. */
  lemma {:induction false} WordLengthOfWord(w: string, rest: string)
    requires NoSpace(w)
    requires rest == [] || IsSpace(rest[0])
    ensures WordLength(w + rest) == |w|
  {
    if w != [] {
      assert (w + rest)[1..] == w[1..] + rest;
      WordLengthOfWord(w[1..], rest);
    }
  }

  /** Round trip: splitting words joined by single spaces gives back the words. */
  lemma {:induction false} WordsOfJoin(ws: seq<string>)
    requires forall k :: 0 <= k < |ws| ==> IsWord(ws[k])
    ensures Words(Join(ws)) == ws
  {
    if ws == [] {
    } else if |ws| == 1 {
      var w := ws[0];
      WordLengthOfWord(w, "");
      assert w + "" == w;
      assert w[|w|..] == "";
    } else {
      var w, rest := ws[0], Join(ws[1..]);
      var s := w + " " + rest;
      assert s == w + (" " + rest);
      WordLengthOfWord(w, " " + rest);
      assert s[..|w|] == w;
      assert s[|w|..] == " " + rest;
      assert (" " + rest)[1..] == rest;
      WordsOfJoin(ws[1..]);
    }
  }

  /** A one-word name is all first name: the last name is empty. */
  lemma SplitOneWord(w: string)
    requires IsWord(w)
    ensures SplitName(w) == Some(NameParts(w, ""))
  {
    WordsOfJoin([w]);
  }

  /** A name of several words keeps word 0 as first name and the remaining
      words, joined by single spaces, as last name. */
  lemma SplitWords(ws: seq<string>)
    requires |ws| >= 1
    requires forall k :: 0 <= k < |ws| ==> IsWord(ws[k])
    ensures SplitName(Join(ws)) == Some(NameParts(ws[0], Join(ws[1..])))
  {
    WordsOfJoin(ws);
  }

  /** A string of blank runs and words: `pads[0] + ws[0] + pads[1] + ... + ws[|ws|-1] + pads[|ws|]`. */
  function Interleave(pads: seq<string>, ws: seq<string>): string
    requires |pads| == |ws| + 1
  {
    if ws == [] then pads[0] else pads[0] + ws[0] + Interleave(pads[1..], ws[1..])
  }

  /** Blank runs around the words, with at least one blank between two words. */
  predicate Padding(pads: seq<string>, ws: seq<string>) {
    && |pads| == |ws| + 1
    && (forall i :: 0 <= i < |pads| ==> AllSpace(pads[i]))
    && (forall i :: 0 < i < |ws| ==> pads[i] != [])
  }

  /** Leading blanks are skipped. */
  lemma {:induction false} WordsOfBlank(p: string, s: string)
    requires AllSpace(p)
    ensures Words(p + s) == Words(s)
  {
    if p != [] {
      assert (p + s)[0] == p[0] && IsSpace(p[0]);
      assert (p + s)[1..] == p[1..] + s;
      assert AllSpace(p[1..]) by {
        forall i | 0 <= i < |p[1..]| ensures IsSpace(p[1..][i]) { assert p[1..][i] == p[i + 1]; }
      }
      WordsOfBlank(p[1..], s);
    } else {
      assert p + s == s;
    }
  }

  /** A word followed by nothing or by a blank is the next token. */
  lemma WordsOfWord(w: string, rest: string)
    requires IsWord(w)
    requires rest == [] || IsSpace(rest[0])
    ensures Words(w + rest) == [w] + Words(rest)
  {
    WordLengthOfWord(w, rest);
    assert (w + rest)[..|w|] == w;
    assert (w + rest)[|w|..] == rest;
  }

  /** `str.split()` gives back exactly the words, whatever blank runs separate,
      precede or follow them. */
  lemma {:induction false} WordsOfPadded(pads: seq<string>, ws: seq<string>)
    requires Padding(pads, ws)
    requires forall k :: 0 <= k < |ws| ==> IsWord(ws[k])
    ensures Words(Interleave(pads, ws)) == ws
  {
    if ws == [] {
      assert Words(pads[0] + []) == Words([]) by { WordsOfBlank(pads[0], []); }
      assert pads[0] + [] == pads[0];
    } else {
      var tail := Interleave(pads[1..], ws[1..]);
      assert Padding(pads[1..], ws[1..]) by {
        forall i | 0 < i < |ws[1..]| ensures pads[1..][i] != [] {
          assert pads[1..][i] == pads[i + 1];
        }
      }
      assert tail == [] || IsSpace(tail[0]) by {
        if |ws| == 1 {
          assert tail == pads[1];
        } else {
          assert tail == pads[1] + ws[1] + Interleave(pads[2..], ws[2..]) by { assert pads[1..][1..] == pads[2..]; }
          assert pads[1] != [];
        }
      }
      calc {
        Words(Interleave(pads, ws));
        { assert Interleave(pads, ws) == pads[0] + (ws[0] + tail); WordsOfBlank(pads[0], ws[0] + tail); }
        Words(ws[0] + tail);
        { WordsOfWord(ws[0], tail); }
        [ws[0]] + Words(tail);
        { WordsOfPadded(pads[1..], ws[1..]); }
        [ws[0]] + ws[1..];
      }
    }
  }

  /** A name of at least one word, however it is spaced, keeps its first word
      as first name and its other words, joined by single spaces, as last name. */
  lemma SplitPadded(pads: seq<string>, ws: seq<string>)
    requires |ws| >= 1 && Padding(pads, ws)
    requires forall k :: 0 <= k < |ws| ==> IsWord(ws[k])
    ensures SplitName(Interleave(pads, ws)) == Some(NameParts(ws[0], Join(ws[1..])))
  {
    WordsOfPadded(pads, ws);
  }
}
