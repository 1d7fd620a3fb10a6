/**
 Splitting an ALTER TABLE statement into its clauses (pkg/ddl/format.go) undoes
 printing it from them, for every list of clauses that begin with a keyword and
 hold commas only inside parentheses.
 */
module AlterSplit {
  import opened Text
  import opened DdlFormat

  const WORDS := {
    "ADD ", "DROP ", "MODIFY ", "CHANGE ", "RENAME ", "ALTER ", "CONVERT ", "ENABLE ", "DISABLE ", "ORDER "
  }

  function Small(c: char): char {
    if 'A' <= c <= 'Z' then (c as int + 32) as char else c
  }

  // The text begins with the word, in capitals, small letters or a mixture.
  predicate BeginsWith(text: string, word: string) {
    |word| <= |text| && forall i :: 0 <= i < |word| ==> text[i] == word[i] || text[i] == Small(word[i])
  }

  predicate Begins(clause: string) {
    exists word <- WORDS :: BeginsWith(clause, word)
  }

  // Commas stand inside parentheses only, and those are closed.
  predicate Whole(clause: string) {
    && clause != "" && Depth(clause, 0, |clause|) == 0
    && forall i :: 0 <= i < |clause| && clause[i] == ',' ==> Depth(clause, 0, i) != 0
  }

  predicate Proper(clauses: seq<string>) {
    && |clauses| > 0 && Whole(clauses[0])
    && (|clauses| > 1 ==> Begins(clauses[1]) && Proper(clauses[1..]))
  }

  function Joined(clauses: seq<string>): string {
    if |clauses| == 0 then ""
    else if |clauses| == 1 then clauses[0]
    else clauses[0] + [',', ' '] + Joined(clauses[1..])
  }

  // --- the scan ------------------------------------------------------------

  lemma BeginsIsAKeyword(text: string)
    requires Begins(text)
    ensures IsClauseKeyword(text) && text != "" && text[0] != ' '
  {
    var word :| word in WORDS && BeginsWith(text, word);
    var k := WordAt(word);
    assert forall i :: 0 <= i < |word| ==> Upper(text[i]) == word[i];
    assert text[0] == word[0] || text[0] == Small(word[0]);
    assert StartsWithFolded(text, KEYWORDS[k]);
  }

  // Each word is a keyword, and folds to itself.
  lemma WordAt(word: string) returns (k: nat)
    requires word in WORDS
    ensures k < |KEYWORDS| && KEYWORDS[k] == word && word != "" && word[0] != ' '
    ensures forall i :: 0 <= i < |word| ==> Upper(word[i]) == word[i] && Upper(Small(word[i])) == word[i]
    ensures Small(word[0]) != ' '
  {
    k := if word == "ADD " then 0 else if word == "DROP " then 1 else if word == "MODIFY " then 2
    else if word == "CHANGE " then 3 else if word == "RENAME " then 4 else if word == "ALTER " then 5
    else if word == "CONVERT " then 6 else if word == "ENABLE " then 7 else if word == "DISABLE " then 8 else 9;
    assert KEYWORDS[k] == word;
  }

  lemma {:induction false} DepthInside(s: string, i: nat, c: string, n: nat)
    requires n <= |c| && i + |c| <= |s| && s[i..i + |c|] == c && Depth(s, 0, i) == 0
    ensures Depth(s, 0, i + n) == Depth(c, 0, n)
  {
    if n == 0 {
    } else {
      DepthInside(s, i, c, n - 1);
      assert s[i + n - 1] == s[i..i + |c|][n - 1] == c[n - 1];
    }
  }

  // Up to the next cut the scan only collects.
  lemma {:induction false} Collects(s: string, i: nat, j: nat, current: string)
    requires i <= j <= |s| && forall k :: i <= k < j ==> !ClauseCut(IsClauseKeyword, s, k)
    ensures Clauses(IsClauseKeyword, s, i, current) == Clauses(IsClauseKeyword, s, j, current + s[i..j])
    decreases j - i
  {
    if i == j {
      EmptyIsNeutral(current);
    } else {
      Collects(s, i + 1, j, current + [s[i]]);
      assert current + [s[i]] + s[i + 1..j] == current + s[i..j];
    }
  }

  lemma NotACut(s: string, i: nat, c: string, k: nat)
    requires i + |c| <= |s| && s[i..i + |c|] == c && Depth(s, 0, i) == 0 && Whole(c) && i <= k < i + |c|
    ensures !ClauseCut(IsClauseKeyword, s, k)
  {
    DepthInside(s, i, c, k - i);
    assert s[k] == s[i..i + |c|][k - i] == c[k - i];
  }

  lemma NoCutInside(s: string, i: nat, c: string)
    requires i + |c| <= |s| && s[i..i + |c|] == c && Depth(s, 0, i) == 0 && Whole(c)
    ensures Clauses(IsClauseKeyword, s, i, "") == Clauses(IsClauseKeyword, s, i + |c|, c)
  {
    forall k | i <= k < i + |c|
      ensures !ClauseCut(IsClauseKeyword, s, k)
    {
      NotACut(s, i, c, k);
    }
    Collects(s, i, i + |c|, "");
    EmptyIsNeutral(c);
  }

  lemma CutsBetween(s: string, j: nat, next: string)
    requires j <= |s| && s[j..] == [',', ' '] + next && Begins(next) && Depth(s, 0, j) == 0
    ensures j + 2 <= |s| && s[j + 2..] == next && Depth(s, 0, j + 2) == 0
    ensures ClauseCut(IsClauseKeyword, s, j) && Resume(s, j) == j + 2
  {
    BeginsIsAKeyword(next);
    assert s[j] == s[j..][0] && s[j + 1] == s[j..][1] && s[j + 2] == s[j..][2];
    assert s[j + 2..] == s[j..][2..];
    assert SkipBlanks(s, j + 1) == SkipBlanks(s, j + 2) == j + 2;
    BlanksKeepDepth(s, j, j + 2);
  }

  lemma InTwo(s: string, i: nat, c: string, tail: string)
    requires i <= |s| && s[i..] == c + tail
    ensures i + |c| <= |s| && s[i..i + |c|] == c && s[i + |c|..] == tail
  {
    assert s[i..i + |c|] == s[i..][..|c|] && s[i + |c|..] == s[i..][|c|..];
  }

  lemma LastClause(s: string, i: nat, c: string)
    requires i <= |s| && s[i..] == c && Depth(s, 0, i) == 0 && Whole(c)
    ensures Clauses(IsClauseKeyword, s, i, "") == [c]
  {
    EmptyIsNeutral(c);
    InTwo(s, i, c, "");
    NoCutInside(s, i, c);
  }

  lemma NextClause(s: string, i: nat, c: string, next: string)
    requires i <= |s| && s[i..] == c + ([',', ' '] + next) && Depth(s, 0, i) == 0 && Whole(c) && Begins(next)
    ensures var k := i + |c| + 2;
            && k <= |s| && s[k..] == next && Depth(s, 0, k) == 0
            && Clauses(IsClauseKeyword, s, i, "") == [c] + Clauses(IsClauseKeyword, s, k, "")
  {
    InTwo(s, i, c, [',', ' '] + next);
    NoCutInside(s, i, c);
    DepthInside(s, i, c, |c|);
    CutsBetween(s, i + |c|, next);
  }

  lemma JoinedBegins(clauses: seq<string>)
    requires |clauses| > 0 && Begins(clauses[0])
    ensures Begins(Joined(clauses))
  {
    var word :| word in WORDS && BeginsWith(clauses[0], word);
    assert clauses[0] <= Joined(clauses);
    assert BeginsWith(Joined(clauses), word);
  }

  /** From any point of the scan: printed clauses are split back. */
  lemma {:induction false} SplitsBack(s: string, i: nat, clauses: seq<string>)
    requires i <= |s| && s[i..] == Joined(clauses) && Depth(s, 0, i) == 0 && Proper(clauses)
    ensures Clauses(IsClauseKeyword, s, i, "") == clauses
    decreases |clauses|
  {
    var c := clauses[0];
    assert Whole(c);
    if |clauses| == 1 {
      LastClause(s, i, c);
      assert clauses == [c];
    } else {
      var rest := clauses[1..];
      RestIsProper(clauses);
      NextClause(s, i, c, Joined(rest));
      SplitsBack(s, i + |c| + 2, rest);
    }
  }

  lemma RestIsProper(clauses: seq<string>)
    requires Proper(clauses) && |clauses| > 1
    ensures var c, rest := clauses[0], clauses[1..];
            && Proper(rest) && Begins(Joined(rest)) && [c] + rest == clauses
            && Joined(clauses) == c + ([',', ' '] + Joined(rest))
  {
    JoinedBegins(clauses[1..]);
    Flattened(clauses[0], [',', ' '], Joined(clauses[1..]));
  }

  lemma Flattened(a: string, b: string, c: string)
    ensures a + b + c == a + (b + c)
  {
  }

  // --- the whole statement -------------------------------------------------

  // The statement as it is printed, with the table's name as it is given.
  function Statement(name: string, clauses: seq<string>): string {
    "ALTER TABLE " + name + [' '] + Joined(clauses)
  }

  // A name in backticks that does not begin with a blank, or one without either.
  predicate QuotedName(name: string) {
    && |name| >= 2 && name[0] == '`' && name[|name| - 1] == '`' && name[1] != ' '
    && forall i :: 0 < i < |name| - 1 ==> name[i] != '`'
  }

  predicate PlainName(name: string) {
    forall i :: 0 <= i < |name| ==> name[i] != '`' && name[i] != ' '
  }

  // A backtick followed by a blank.
  predicate QuoteThenBlank(s: string, k: nat) {
    k + 1 < |s| && s[k] == '`' && s[k + 1] == ' '
  }

  lemma HeadOf(name: string, rest: string)
    ensures var ddl := "ALTER TABLE " + name + [' '] + rest;
            && |ddl| == 13 + |name| + |rest|
            && ddl[..12] == "ALTER TABLE " && ddl[12..12 + |name|] == name && ddl[12 + |name|] == ' '
            && ddl[..13 + |name|] == "ALTER TABLE " + name + [' '] && ddl[13 + |name|..] == rest
  {
  }

  /** Behind a quoted name the clauses begin; behind a plain one too, as long as no
      backtick followed by a blank comes later, and else behind the first of those. */
  lemma ClausesBeginAt(name: string, rest: string)
    ensures var ddl := "ALTER TABLE " + name + [' '] + rest;
            && (QuotedName(name) ==> TableNameEnd(ddl) == 13 + |name|)
            && (PlainName(name) && (forall k :: 0 <= k < |rest| ==> !QuoteThenBlank(rest, k)) ==>
                  TableNameEnd(ddl) == 13 + |name|)
  {
    var ddl := "ALTER TABLE " + name + [' '] + rest;
    HeadOf(name, rest);
    if QuotedName(name) {
      QuotedEnd(ddl, name);
    } else if PlainName(name) && forall k :: 0 <= k < |rest| ==> !QuoteThenBlank(rest, k) {
      PlainEnd(ddl, name, rest);
    }
  }

  lemma NoQuoteInTheWords(ddl: string, j: nat)
    requires |ddl| >= 12 && ddl[..12] == "ALTER TABLE " && j < 12
    ensures ddl[j] != '`'
  {
    assert ddl[j] == ddl[..12][j];
  }

  lemma QuotedEnd(ddl: string, name: string)
    requires |ddl| >= 13 + |name| && ddl[..12] == "ALTER TABLE "
    requires ddl[12..12 + |name|] == name && ddl[12 + |name|] == ' ' && QuotedName(name)
    ensures TableNameEnd(ddl) == 13 + |name|
  {
    var end := 11 + |name|;
    assert forall i :: 0 <= i < |name| ==> ddl[12 + i] == ddl[12..12 + |name|][i] == name[i];
    assert ddl[end] == '`' && ddl[end + 1] == ' ';
    forall j | 0 <= j < end
      ensures !(ddl[j] == '`' && ddl[j + 1] == ' ')
    {
      if j < 12 {
        NoQuoteInTheWords(ddl, j);
      } else if j > 12 {
        assert ddl[j] == name[j - 12];
      }
    }
  }

  lemma PlainEnd(ddl: string, name: string, rest: string)
    requires ddl == "ALTER TABLE " + name + [' '] + rest && PlainName(name)
    requires forall k :: 0 <= k < |rest| ==> !QuoteThenBlank(rest, k)
    ensures TableNameEnd(ddl) == 13 + |name|
  {
    HeadOf(name, rest);
    forall j | 0 <= j < |ddl| && j + 1 < |ddl|
      ensures !QuoteThenBlank(ddl, j)
    {
      NoQuoteBlank(ddl, name, rest, j);
    }
    assert forall i :: 0 <= i < 12 ==> ddl[i] == ddl[..12][i];
    assert StartsWithFolded(ddl, ALTER_TABLE);
    assert forall i :: 0 <= i < |name| ==> ddl[12 + i] == ddl[12..12 + |name|][i] == name[i];
    assert BlankFrom(ddl, 12) == 12 + |name|;
    assert !QuoteThenBlank(ddl, QuoteEnd(ddl, 0));
  }

  lemma NoQuoteBlank(ddl: string, name: string, rest: string, j: nat)
    requires ddl == "ALTER TABLE " + name + [' '] + rest && PlainName(name) && j + 1 < |ddl|
    requires forall k :: 0 <= k < |rest| ==> !QuoteThenBlank(rest, k)
    ensures !(ddl[j] == '`' && ddl[j + 1] == ' ')
  {
    HeadOf(name, rest);
    var start := 13 + |name|;
    if j < 12 {
      NoQuoteInTheWords(ddl, j);
    } else if j < 12 + |name| {
      assert ddl[j] == ddl[12..12 + |name|][j - 12] == name[j - 12];
    } else if j >= start {
      assert !QuoteThenBlank(rest, j - start);
      assert ddl[j] == ddl[start..][j - start] && ddl[j + 1] == ddl[start..][j + 1 - start];
    }
  }

  /** Splitting a printed statement gives its clauses back, the first behind the table
      part: for every quoted name, and for a plain one while no backtick followed by a
      blank stands among the clauses. */
  lemma SplitUndoesPrint(name: string, clauses: seq<string>)
    requires Proper(clauses)
    requires var rest := Joined(clauses);
             QuotedName(name) || (PlainName(name) && forall k :: 0 <= k < |rest| ==> !QuoteThenBlank(rest, k))
    ensures AlterClauses(Statement(name, clauses)) == ["ALTER TABLE " + name + [' '] + clauses[0]] + clauses[1..]
  {
    var rest := Joined(clauses);
    ClausesBeginAt(name, rest);
    HeadOf(name, rest);
    assert rest[0..] == rest;
    SplitsBack(rest, 0, clauses);
    assert Whole(clauses[0]);
    assert clauses[0] <= rest;
  }

  // --- and where it does not -----------------------------------------------

  // The first backtick followed by a blank.
  predicate FirstQuoteThenBlank(s: string, q: nat) {
    QuoteThenBlank(s, q) && forall k :: 0 <= k < q ==> !QuoteThenBlank(s, k)
  }

  lemma PlainEndsLate(ddl: string, name: string, rest: string, q: nat)
    requires ddl == "ALTER TABLE " + name + [' '] + rest && PlainName(name) && FirstQuoteThenBlank(rest, q)
    ensures TableNameEnd(ddl) == 13 + |name| + q + 2
  {
    HeadOf(name, rest);
    var start := 13 + |name|;
    assert ddl[start + q] == ddl[start..][q] && ddl[start + q + 1] == ddl[start..][q + 1];
    forall j | 0 <= j < start + q
      ensures !(ddl[j] == '`' && ddl[j + 1] == ' ')
    {
      if j < 12 {
        NoQuoteInTheWords(ddl, j);
      } else if j < 12 + |name| {
        assert ddl[j] == ddl[12..12 + |name|][j - 12] == name[j - 12];
      } else if j >= start {
        assert !QuoteThenBlank(rest, j - start);
        assert ddl[j] == ddl[start..][j - start] && ddl[j + 1] == ddl[start..][j + 1 - start];
      }
    }
    assert QuoteEnd(ddl, 0) == start + q;
  }

  lemma {:induction false} DepthOfSuffix(c: string, m: nat, k: nat)
    requires m + k <= |c|
    ensures Depth(c, 0, m + k) == Depth(c, 0, m) + Depth(c[m..], 0, k)
  {
    if k == 0 {
    } else {
      DepthOfSuffix(c, m, k - 1);
      assert c[m..][k - 1] == c[m + k - 1];
    }
  }

  // The first of several pieces ends at a cut.
  lemma {:induction false} FirstPiece(s: string, i: nat, current: string) returns (j: nat)
    requires i <= |s| && |Clauses(IsClauseKeyword, s, i, current)| > 1
    ensures i <= j < |s| && ClauseCut(IsClauseKeyword, s, j)
    ensures Clauses(IsClauseKeyword, s, i, current)[0] == current + s[i..j]
    decreases |s| - i
  {
    if ClauseCut(IsClauseKeyword, s, i) {
      j := i;
      EmptyIsNeutral(current);
    } else {
      j := FirstPiece(s, i + 1, current + [s[i]]);
      assert current + [s[i]] + s[i + 1..j] == current + s[i..j];
    }
  }

  lemma LeftThenOthers(s: string, left: string, others: seq<string>)
    requires s == left + ([',', ' '] + Joined(others)) && (left == "" || Whole(left))
    requires Proper(others) && Begins(Joined(others))
    ensures Clauses(IsClauseKeyword, s, 0, "") == [left] + others
  {
    assert s[0..] == s;
    if left == "" {
      EmptyIsNeutral([',', ' '] + Joined(others));
      CutsBetween(s, 0, Joined(others));
      SplitsBack(s, 2, others);
    } else {
      NextClause(s, 0, left, Joined(others));
      SplitsBack(s, |left| + 2, others);
    }
  }

  lemma Later(c: string, tail: string, m: nat)
    requires m <= |c|
    ensures (c + tail)[m..] == c[m..] + tail && (c + tail)[..m] == c[..m] && c[..m] + c[m..] == c
  {
  }

  // What is left of the first clause, and the others.
  lemma TailSplits(clauses: seq<string>, m: nat)
    requires Proper(clauses) && |clauses| > 1 && m <= |clauses[0]| && Depth(clauses[0], 0, m) == 0
    ensures m <= |Joined(clauses)|
    ensures Clauses(IsClauseKeyword, Joined(clauses)[m..], 0, "") == [clauses[0][m..]] + clauses[1..]
  {
    RestIsProper(clauses);
    Later(clauses[0], [',', ' '] + Joined(clauses[1..]), m);
    if m < |clauses[0]| {
      LeftIsWhole(clauses[0], m);
    }
    LeftThenOthers(Joined(clauses)[m..], clauses[0][m..], clauses[1..]);
  }

  lemma LeftIsWhole(c: string, m: nat)
    requires Whole(c) && m < |c| && Depth(c, 0, m) == 0
    ensures Whole(c[m..])
  {
    forall k | 0 <= k <= |c| - m
      ensures Depth(c[m..], 0, k) == Depth(c, 0, m + k)
    {
      DepthOfSuffix(c, m, k);
    }
    assert forall k :: 0 <= k < |c| - m ==> c[m..][k] == c[m + k];
  }

  // Inside parentheses the first clause is not cut where it ends.
  lemma TailDoesNotSplit(clauses: seq<string>, m: nat)
    requires Proper(clauses) && |clauses| > 1 && m <= |clauses[0]| && Depth(clauses[0], 0, m) != 0
    ensures m <= |Joined(clauses)|
    ensures Clauses(IsClauseKeyword, Joined(clauses)[m..], 0, "") != [clauses[0][m..]] + clauses[1..]
  {
    RestIsProper(clauses);
    Later(clauses[0], [',', ' '] + Joined(clauses[1..]), m);
    DepthOfSuffix(clauses[0], m, |clauses[0]| - m);
    NotCutThere(Joined(clauses)[m..], clauses[0][m..], [',', ' '] + Joined(clauses[1..]), clauses[1..]);
  }

  lemma NotCutThere(s: string, left: string, tail: string, others: seq<string>)
    requires s == left + tail && Depth(left, 0, |left|) != 0 && others != []
    ensures Clauses(IsClauseKeyword, s, 0, "") != [left] + others
  {
    assert s[0..0 + |left|] == left;
    DepthInside(s, 0, left, |left|);
    if |Clauses(IsClauseKeyword, s, 0, "")| > 1 {
      var j := FirstPiece(s, 0, "");
      assert |"" + s[0..j]| == j;
    }
  }

  lemma ClausesFrom(head: string, rest: string, m: nat)
    requires m <= |rest| && TableNameEnd(head + rest) == |head| + m
    ensures m < |rest| ==> Clauses(IsClauseKeyword, rest[m..], 0, "") != []
    ensures var pieces := Clauses(IsClauseKeyword, rest[m..], 0, "");
            AlterClauses(head + rest)
            == if m == |rest| then [head + rest] else [head + rest[..m] + pieces[0]] + pieces[1..]
  {
    assert (head + rest)[..|head| + m] == head + rest[..m] && (head + rest)[|head| + m..] == rest[m..];
    if m < |rest| {
      ClausesExist(IsClauseKeyword, rest[m..], 0, "");
    }
  }

  /** Behind a plain name with a backtick followed by a blank among several clauses, the
      statement is split into them exactly if the first of those stands in the first
      clause, and outside its parentheses. */
  lemma PlainNameSplitsIff(name: string, clauses: seq<string>, q: nat)
    requires PlainName(name) && Proper(clauses) && |clauses| > 1 && FirstQuoteThenBlank(Joined(clauses), q)
    ensures AlterClauses(Statement(name, clauses)) == ["ALTER TABLE " + name + [' '] + clauses[0]] + clauses[1..]
            <==> q + 2 <= |clauses[0]| && Depth(clauses[0], 0, q + 2) == 0
  {
    var head := "ALTER TABLE " + name + [' '];
    PlainEndsLate(Statement(name, clauses), name, Joined(clauses), q);
    SplitsIff(head, clauses, q + 2);
  }

  lemma SplitsIff(head: string, clauses: seq<string>, m: nat)
    requires Proper(clauses) && |clauses| > 1 && m <= |Joined(clauses)|
    requires TableNameEnd(head + Joined(clauses)) == |head| + m
    ensures AlterClauses(head + Joined(clauses)) == [head + clauses[0]] + clauses[1..]
            <==> m <= |clauses[0]| && Depth(clauses[0], 0, m) == 0
  {
    var rest, c := Joined(clauses), clauses[0];
    ClausesFrom(head, rest, m);
    RestIsProper(clauses);
    var pieces := Clauses(IsClauseKeyword, rest[m..], 0, "");
    if m == |rest| {
      assert |[head + c] + clauses[1..]| > 1;
    } else if m > |c| {
      LongerFirst(head, rest, m, c, pieces[0]);
      assert ([head + rest[..m] + pieces[0]] + pieces[1..])[0] != ([head + c] + clauses[1..])[0];
    } else {
      Later(c, [',', ' '] + Joined(clauses[1..]), m);
      Flattened(head, c[..m], c[m..]);
      SamePieces(head + c[..m], pieces, c[m..], clauses[1..]);
      if Depth(c, 0, m) == 0 {
        TailSplits(clauses, m);
      } else {
        TailDoesNotSplit(clauses, m);
      }
    }
  }

  lemma LongerFirst(head: string, rest: string, m: nat, c: string, piece: string)
    requires |c| < m <= |rest|
    ensures head + rest[..m] + piece != head + c
  {
    assert |head + rest[..m] + piece| > |head + c|;
  }

  lemma SamePieces(head: string, pieces: seq<string>, first: string, others: seq<string>)
    requires pieces != []
    ensures [head + pieces[0]] + pieces[1..] == [head + first] + others <==> pieces == [first] + others
  {
    var xs, ys := [head + pieces[0]] + pieces[1..], [head + first] + others;
    assert xs[0] == head + pieces[0] && ys[0] == head + first && xs[1..] == pieces[1..] && ys[1..] == others;
    assert (head + pieces[0])[|head|..] == pieces[0] && (head + first)[|head|..] == first;
    assert pieces == [pieces[0]] + pieces[1..];
    if pieces == [first] + others {
      assert pieces[0] == first && pieces[1..] == others;
    }
  }

  predicate NoTicks(s: string) {
    forall i :: 0 <= i < |s| ==> s[i] != '`'
  }

  lemma WordHasNoTicks(word: string)
    requires word in WORDS
    ensures NoTicks(word)
  {
    var k := WordAt(word);
  }

  // A column in backticks, and what follows it.
  function Ticked(column: string, tail: string): string {
    ['`'] + column + ['`', ' '] + tail
  }

  // The only backtick before the one that is taken for the end of the name has no
  // blank behind it.
  lemma HiddenEnd(before: string, column: string, tail: string)
    requires NoTicks(before) && |before| > 12 && PlainName(column)
    ensures TableNameEnd(before + Ticked(column, tail)) == |before| + |column| + 3
  {
    var ddl := before + Ticked(column, tail);
    var end := |before| + 1 + |column|;
    assert ddl[end] == '`' && ddl[end + 1] == ' ' && ddl[|before|] == '`';
    assert forall i :: 0 <= i < |before| ==> ddl[i] == before[i];
    assert forall i :: 0 <= i < |column| ==> ddl[|before| + 1 + i] == column[i];
    forall j | 0 <= j < end
      ensures !(ddl[j] == '`' && ddl[j + 1] == ' ')
    {
      if j == |before| && |column| > 0 {
        assert ddl[j + 1] == column[0];
      } else if j > |before| {
        assert ddl[j] == column[j - |before| - 1];
      }
    }
  }

  lemma NothingIsCut(before: string, column: string, tail: string)
    requires NoTicks(before) && |before| > 12 && PlainName(column) && tail != ""
    requires forall i :: 0 <= i < |tail| ==> tail[i] != ','
    ensures AlterClauses(before + Ticked(column, tail)) == [before + Ticked(column, tail)]
  {
    var ddl, end := before + Ticked(column, tail), |before| + |column| + 3;
    HiddenEnd(before, column, tail);
    assert ddl[end..] == tail && ddl[..end] + tail == ddl;
    Collects(tail, 0, |tail|, "");
    assert "" + tail[0..|tail|] == tail;
  }

  /** Behind a plain name, the table part is taken to end after the first backtick
      followed by a blank: if that is in the last clause, nothing is split. */
  lemma PlainNameCanHideClauses(name: string, first: string, word: string, column: string, tail: string)
    requires PlainName(name) && PlainName(column) && word in WORDS && NoTicks(first) && tail != ""
    requires forall i :: 0 <= i < |tail| ==> tail[i] != ','
    ensures var ddl := Statement(name, [first, word + Ticked(column, tail)]);
            AlterClauses(ddl) == [ddl]
  {
    StatementOfTwo(name, first, word, Ticked(column, tail));
    HeadHasNoTicks(name, first, word);
    NothingIsCut(Head(name, first, word), column, tail);
  }

  // The statement up to the second clause's word.
  function Head(name: string, first: string, word: string): string {
    "ALTER TABLE " + name + [' '] + (first + [',', ' '] + word)
  }

  lemma HeadHasNoTicks(name: string, first: string, word: string)
    requires PlainName(name) && NoTicks(first) && word in WORDS
    ensures NoTicks(Head(name, first, word)) && |Head(name, first, word)| > 12
  {
    WordHasNoTicks(word);
  }

  lemma StatementOfTwo(name: string, first: string, word: string, rest: string)
    ensures Statement(name, [first, word + rest]) == Head(name, first, word) + rest
  {
    assert [first, word + rest][1..] == [word + rest];
    assert Joined([first, word + rest]) == first + [',', ' '] + (word + rest);
    Flattened(first + [',', ' '], word, rest);
    Flattened("ALTER TABLE " + name + [' '], first + [',', ' '] + word, rest);
  }
}
