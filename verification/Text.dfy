/**
 The string operations the parsers and formatters share: trimming, the part of a
 string that is not white space, and cutting a string at chosen positions.
 Strings are sequences of code points.
 */
module Text {
  // The White_Space code points, as Go's unicode.IsSpace tests them.
  predicate IsSpace(c: char) {
    var n := c as int;
    || 9 <= n <= 13 || n == 32 || n == 0x85 || n == 0xA0 || n == 0x1680 || 0x2000 <= n <= 0x200A
    || n == 0x2028 || n == 0x2029 || n == 0x202F || n == 0x205F || n == 0x3000
  }

  predicate NoSlash(s: string) {
    forall i :: 0 <= i < |s| ==> s[i] != '/'
  }

  function TrimLeft(s: string): string {
    if |s| > 0 && IsSpace(s[0]) then TrimLeft(s[1..]) else s
  }

  function TrimRight(s: string): string {
    if |s| > 0 && IsSpace(s[|s| - 1]) then TrimRight(s[..|s| - 1]) else s
  }

  function Trim(s: string): string {
    TrimRight(TrimLeft(s))
  }

  // s without its white space.
  function Visible(s: string): string {
    if |s| == 0 then "" else Visible(s[..|s| - 1]) + if IsSpace(s[|s| - 1]) then "" else [s[|s| - 1]]
  }

  lemma {:induction false} VisibleDistributes(a: string, b: string)
    ensures Visible(a + b) == Visible(a) + Visible(b)
  {
    if |b| == 0 {
      assert a + b == a;
    } else {
      VisibleDistributes(a, b[..|b| - 1]);
      assert (a + b)[..|a + b| - 1] == a + b[..|b| - 1];
    }
  }

  lemma EmptyIsNeutral(s: string)
    ensures s + "" == s && "" + s == s
  {
  }

  lemma VisibleOne(c: char)
    ensures Visible([c]) == if IsSpace(c) then "" else [c]
  {
    assert [c][..0] == "";
  }

  lemma VisibleOfThree(a: string, b: string, c: string)
    ensures Visible(a + b + c) == Visible(a) + Visible(b) + Visible(c)
  {
    VisibleDistributes(a + b, c);
    VisibleDistributes(a, b);
  }

  lemma VisibleOfFour(a: string, b: string, c: string, d: string)
    ensures Visible(a + b + c + d) == Visible(a) + Visible(b) + Visible(c) + Visible(d)
  {
    VisibleDistributes(a + b + c, d);
    VisibleOfThree(a, b, c);
  }

  lemma {:induction false} TrimLeftKeepsVisible(s: string)
    ensures Visible(TrimLeft(s)) == Visible(s)
  {
    if |s| > 0 && IsSpace(s[0]) {
      TrimLeftKeepsVisible(s[1..]);
      VisibleDistributes([s[0]], s[1..]);
      VisibleOne(s[0]);
      EmptyIsNeutral(Visible(s[1..]));
      assert [s[0]] + s[1..] == s;
    }
  }

  lemma {:induction false} TrimRightKeepsVisible(s: string)
    ensures Visible(TrimRight(s)) == Visible(s)
  {
    if |s| > 0 && IsSpace(s[|s| - 1]) {
      TrimRightKeepsVisible(s[..|s| - 1]);
    }
  }

  lemma TrimKeepsVisible(s: string)
    ensures Visible(Trim(s)) == Visible(s)
  {
    TrimLeftKeepsVisible(s);
    TrimRightKeepsVisible(TrimLeft(s));
  }

  // --- cutting -------------------------------------------------------------

  ghost predicate Ascending(cuts: seq<nat>, n: nat) {
    && (forall i, j :: 0 <= i < j < |cuts| ==> cuts[i] < cuts[j])
    && (forall i :: 0 <= i < |cuts| ==> cuts[i] < n)
  }

  // Where the text after the last cut begins.
  function After(cuts: seq<nat>): nat {
    if |cuts| == 0 then 0 else cuts[|cuts| - 1] + 1
  }

  lemma AscendingPrefix(cuts: seq<nat>, n: nat)
    requires Ascending(cuts, n) && |cuts| > 0
    ensures Ascending(cuts[..|cuts| - 1], n) && After(cuts[..|cuts| - 1]) <= cuts[|cuts| - 1] < n
  {
  }

  // The pieces that end at a cut, without the cut characters.
  ghost function Pieces(s: string, cuts: seq<nat>): seq<string>
    requires Ascending(cuts, |s|)
  {
    if |cuts| == 0 then []
    else
      var last := |cuts| - 1;
      AscendingPrefix(cuts, |s|);
      Pieces(s, cuts[..last]) + [s[After(cuts[..last])..cuts[last]]]
  }

  lemma PiecesSnoc(s: string, cuts: seq<nat>, cut: nat)
    requires Ascending(cuts, |s|) && After(cuts) <= cut < |s|
    ensures Ascending(cuts + [cut], |s|) && Pieces(s, cuts + [cut]) == Pieces(s, cuts) + [s[After(cuts)..cut]]
  {
    assert (cuts + [cut])[..|cuts|] == cuts;
  }

  // All pieces: a final one only if text is left after the last cut.
  ghost function SplitAt(s: string, cuts: seq<nat>): seq<string>
    requires Ascending(cuts, |s|)
  {
    Pieces(s, cuts) + if After(cuts) < |s| then [s[After(cuts)..]] else []
  }

  // A splitter at position i: the pieces closed so far, and the one being
  // collected, for the cuts made so far.
  datatype Split = Split(parts: seq<string>, current: string)

  ghost predicate Splits(s: string, i: nat, cuts: seq<nat>, st: Split) {
    && After(cuts) <= i <= |s| && Ascending(cuts, |s|)
    && st == Split(Pieces(s, cuts), s[After(cuts)..i])
  }

  lemma NothingSplit(s: string)
    ensures Splits(s, 0, [], Split([], ""))
  {
    assert s[0..0] == "";
  }

  lemma CollectOne(s: string, i: nat, cuts: seq<nat>, st: Split)
    requires Splits(s, i, cuts, st) && i < |s|
    ensures Splits(s, i + 1, cuts, Split(st.parts, st.current + [s[i]]))
  {
  }

  lemma CutHere(s: string, i: nat, cuts: seq<nat>, st: Split)
    requires Splits(s, i, cuts, st) && i < |s|
    ensures Splits(s, i + 1, cuts + [i], Split(st.parts + [st.current], ""))
  {
    PiecesSnoc(s, cuts, i);
  }

  function Finish(st: Split): seq<string> {
    if |st.current| > 0 then st.parts + [st.current] else st.parts
  }

  lemma FinishSplit(s: string, cuts: seq<nat>, st: Split)
    requires Splits(s, |s|, cuts, st)
    ensures Ascending(cuts, |s|) && SplitAt(s, cuts) == Finish(st)
  {
    assert st.current == s[After(cuts)..];
  }

  function Terminated(parts: seq<string>, sep: char): string {
    if |parts| == 0 then "" else Terminated(parts[..|parts| - 1], sep) + parts[|parts| - 1] + [sep]
  }

  function Glue(parts: seq<string>, sep: char): string {
    if |parts| == 0 then "" else Terminated(parts[..|parts| - 1], sep) + parts[|parts| - 1]
  }

  lemma {:induction false} PiecesCoverThePrefix(s: string, cuts: seq<nat>, sep: char)
    requires Ascending(cuts, |s|) && forall k :: 0 <= k < |cuts| ==> s[cuts[k]] == sep
    ensures |Pieces(s, cuts)| == |cuts| && After(cuts) <= |s|
    ensures Terminated(Pieces(s, cuts), sep) == s[..After(cuts)]
  {
    if |cuts| == 0 {
    } else {
      var last := |cuts| - 1;
      var init := cuts[..last];
      AscendingPrefix(cuts, |s|);
      PiecesCoverThePrefix(s, init, sep);
      var piece := s[After(init)..cuts[last]];
      TerminatedSnoc(Pieces(s, init), piece, sep);
      PrefixGrows(s, After(init), cuts[last]);
    }
  }

  lemma TerminatedSnoc(parts: seq<string>, part: string, sep: char)
    ensures Terminated(parts + [part], sep) == Terminated(parts, sep) + part + [sep]
  {
    assert (parts + [part])[..|parts|] == parts;
  }

  lemma PrefixGrows(s: string, i: nat, j: nat)
    requires i <= j < |s|
    ensures s[..i] + s[i..j] + [s[j]] == s[..j + 1]
  {
  }

  // Gluing the pieces gives the text back, less a cut at its very end.
  lemma GlueUndoesSplit(s: string, cuts: seq<nat>, sep: char)
    requires Ascending(cuts, |s|) && forall k :: 0 <= k < |cuts| ==> s[cuts[k]] == sep
    ensures Glue(SplitAt(s, cuts), sep) + (if |s| > 0 && After(cuts) == |s| then [sep] else "") == s
    ensures |SplitAt(s, cuts)| == |cuts| + if After(cuts) < |s| then 1 else 0
  {
    PiecesCoverThePrefix(s, cuts, sep);
    var pieces := Pieces(s, cuts);
    if After(cuts) < |s| {
      assert SplitAt(s, cuts)[..|cuts|] == pieces;
      assert s[..After(cuts)] + s[After(cuts)..] == s;
    } else {
      assert SplitAt(s, cuts) == pieces;
      assert s[..After(cuts)] == s;
    }
  }
}
