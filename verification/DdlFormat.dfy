/**
 The statement splitters and the CREATE TABLE formatter (pkg/ddl/format.go).
 `Depth` counts parentheses; a comma outside all of them separates columns, and
 the splitter is specified by the positions of those commas.
 */
module DdlFormat {
  import opened Text

  function Weight(c: char): int {
    if c == '(' then 1 else if c == ')' then -1 else 0
  }

  // Open minus closed parentheses in s[from..to].
  function Depth(s: string, from: nat, to: nat): int
    requires from <= to <= |s|
  {
    if from == to then 0 else Depth(s, from, to - 1) + Weight(s[to - 1])
  }

  // --- matching parenthesis ------------------------------------------------

  ghost predicate Closes(s: string, open: nat, j: nat)
    requires open <= j < |s|
  {
    s[j] == ')' && Depth(s, open, j + 1) == 0
  }

  method FindMatchingParen(s: string, open: nat) returns (k: int)
    requires open <= |s|
    ensures k == -1 ==> forall j :: open <= j < |s| ==> !Closes(s, open, j)
    ensures k != -1 ==> open <= k < |s| && Closes(s, open, k) && forall j :: open <= j < k ==> !Closes(s, open, j)
  {
    var depth := 0;
    for i := open to |s|
      invariant depth == Depth(s, open, i)
      invariant forall j :: open <= j < i ==> !Closes(s, open, j)
    {
      if s[i] == '(' {
        depth := depth + 1;
      } else if s[i] == ')' {
        depth := depth - 1;
        if depth == 0 {
          return i;
        }
      }
    }
    k := -1;
  }

  // --- splitting columns ---------------------------------------------------

  predicate Cut(s: string, i: nat)
    requires i < |s|
  {
    s[i] == ',' && Depth(s, 0, i) == 0
  }

  ghost function Cuts(s: string, n: nat): seq<nat>
    requires n <= |s|
  {
    if n == 0 then [] else Cuts(s, n - 1) + if Cut(s, n - 1) then [n - 1] else []
  }

  // All the separating commas and nothing else, from left to right.
  lemma {:induction false} CutsAreTheSeparators(s: string, n: nat)
    requires n <= |s|
    ensures Ascending(Cuts(s, n), n)
    ensures forall i :: i in Cuts(s, n) <==> 0 <= i < n && Cut(s, i)
  {
    if n == 0 {
    } else {
      CutsAreTheSeparators(s, n - 1);
    }
  }

  ghost function Columns(s: string): seq<string> {
    CutsAreTheSeparators(s, |s|);
    SplitAt(s, Cuts(s, |s|))
  }

  ghost predicate EndsInCut(s: string) {
    |s| > 0 && Cut(s, |s| - 1)
  }

  // The scan: what has been split off s[..i].
  function Scan(s: string, i: nat): Split
    requires i <= |s|
  {
    if i == 0 then Split([], "")
    else
      var st := Scan(s, i - 1);
      if Cut(s, i - 1) then Split(st.parts + [st.current], "") else Split(st.parts, st.current + [s[i - 1]])
  }

  lemma {:induction false} ScanSplitsAtCuts(s: string, i: nat)
    requires i <= |s|
    ensures Splits(s, i, Cuts(s, i), Scan(s, i))
  {
    if i == 0 {
      NothingSplit(s);
    } else {
      ScanSplitsAtCuts(s, i - 1);
      var cuts, st := Cuts(s, i - 1), Scan(s, i - 1);
      if Cut(s, i - 1) {
        CutHere(s, i - 1, cuts, st);
        assert Cuts(s, i) == cuts + [i - 1] && Scan(s, i) == Split(st.parts + [st.current], "");
      } else {
        CollectOne(s, i - 1, cuts, st);
        assert Cuts(s, i) == cuts && Scan(s, i) == Split(st.parts, st.current + [s[i - 1]]);
      }
    }
  }

  lemma ScanFindsTheColumns(s: string)
    ensures Finish(Scan(s, |s|)) == Columns(s)
  {
    ScanSplitsAtCuts(s, |s|);
    FinishSplit(s, Cuts(s, |s|), Scan(s, |s|));
  }

  method SplitByComma(s: string) returns (parts: seq<string>)
    ensures parts == Columns(s)
  {
    parts := [];
    var current := "";
    var depth := 0;
    for i := 0 to |s|
      invariant depth == Depth(s, 0, i)
      invariant Split(parts, current) == Scan(s, i)
    {
      var c := s[i];
      depth := depth + Weight(c);
      if c == ',' && depth == 0 {
        parts := parts + [current];
        current := "";
      } else {
        current := current + [c];
      }
    }
    ScanFindsTheColumns(s);
    if |current| > 0 {
      parts := parts + [current];
    }
  }

  lemma CutAtEndIffNothingLeft(s: string)
    ensures After(Cuts(s, |s|)) <= |s|
    ensures |s| > 0 && After(Cuts(s, |s|)) == |s| <==> EndsInCut(s)
  {
    CutsAreTheSeparators(s, |s|);
    var cuts := Cuts(s, |s|);
    if EndsInCut(s) {
      assert |s| - 1 in cuts;
    } else if |cuts| > 0 {
      assert cuts[|cuts| - 1] in cuts;
    }
  }

  /** The columns glued with commas are the text again, up to one comma at its
      end that separates nothing. */
  lemma ColumnsRejoin(s: string)
    ensures Glue(Columns(s), ',') + (if EndsInCut(s) then "," else "") == s
    ensures |Columns(s)| == |Cuts(s, |s|)| + if s == "" || EndsInCut(s) then 0 else 1
  {
    CutsAreTheSeparators(s, |s|);
    var cuts := Cuts(s, |s|);
    assert forall k :: 0 <= k < |cuts| ==> cuts[k] in cuts;
    GlueUndoesSplit(s, cuts, ',');
    CutAtEndIffNothingLeft(s);
  }

  // --- CREATE TABLE --------------------------------------------------------

  // What formatCreateTable cuts a statement into.
  datatype Statement = NoColumnList | ColumnList(open: nat, close: nat)

  ghost predicate Locates(ddl: string, st: Statement) {
    match st
    case NoColumnList =>
      forall open | 0 <= open < |ddl| && ddl[open] == '(' && (forall i :: 0 <= i < open ==> ddl[i] != '(') ::
        forall j :: open <= j < |ddl| ==> !Closes(ddl, open, j)
    case ColumnList(open, close) =>
      && open < close < |ddl|
      && ddl[open] == '(' && (forall i :: 0 <= i < open ==> ddl[i] != '(')
      && Closes(ddl, open, close) && (forall j :: open <= j < close ==> !Closes(ddl, open, j))
  }

  method Locate(ddl: string) returns (st: Statement)
    ensures Locates(ddl, st)
  {
    var open := 0;
    while open < |ddl| && ddl[open] != '('
      invariant open <= |ddl|
      invariant forall i :: 0 <= i < open ==> ddl[i] != '('
    {
      open := open + 1;
    }
    if open == |ddl| {
      return NoColumnList;
    }
    var close := FindMatchingParen(ddl, open);
    if close == -1 {
      st := NoColumnList;
    } else {
      st := ColumnList(open, close);
    }
  }

  const INDENT := "    "

  function Lines(parts: seq<string>): string {
    if |parts| == 0 then ""
    else LinesBefore(parts[..|parts| - 1]) + INDENT + Trim(parts[|parts| - 1]) + ['\n']
  }

  function LinesBefore(parts: seq<string>): string {
    if |parts| == 0 then ""
    else LinesBefore(parts[..|parts| - 1]) + INDENT + Trim(parts[|parts| - 1]) + [',', '\n']
  }

  method WriteLines(parts: seq<string>) returns (text: string)
    ensures text == Lines(parts)
  {
    text := "";
    for i := 0 to |parts|
      invariant text == if i < |parts| then LinesBefore(parts[..i]) else Lines(parts)
    {
      assert parts[..i + 1][..i] == parts[..i];
      assert i + 1 == |parts| ==> parts[..i] == parts[..|parts| - 1];
      text := text + INDENT + Trim(parts[i]);
      if i < |parts| - 1 {
        text := text + [',', '\n'];
      } else {
        text := text + ['\n'];
      }
    }
  }

  // What the formatter keeps of the column list: a comma that ends a list of
  // several columns is lost.
  ghost function KeptBody(body: string): string {
    if |Columns(body)| > 1 && EndsInCut(body) then body[..|body| - 1] else body
  }

  // The table options, and the visible text the formatter makes of a statement.
  function OptionsOf(ddl: string, close: nat): string
    requires close < |ddl|
  {
    Trim(ddl[close + 1..])
  }

  ghost function VisibleResult(header: string, kept: string, options: string): string {
    Visible(header) + Visible(kept) + [')'] + Visible(options)
  }

  // The statement as it is laid out: one line per column when there are several,
  // otherwise only the options are rewritten.
  ghost function Laid(ddl: string, open: nat, close: nat, formatOptions: string -> string): string
    requires open < close < |ddl|
  {
    var header, body, options := ddl[..open + 1], ddl[open + 1..close], OptionsOf(ddl, close);
    if |Columns(body)| > 1 then
      var table := header + ['\n'] + Lines(Columns(body)) + [')'];
      if options == "" then table else table + [' '] + formatOptions(options)
    else if options == "" then ddl
    else header + Trim(body) + [')', ' '] + formatOptions(options)
  }

  // The single-line and the many-line form, with the options already formatted.
  lemma OneLineIsVisible(header: string, body: string, options: string)
    ensures Visible(header + Trim(body) + [')', ' '] + options) == VisibleResult(header, body, options)
  {
    VisibleOfFour(header, Trim(body), [')', ' '], options);
    TrimKeepsVisible(body);
    SpacedIsVisible(')', ' ');
  }

  lemma OptionsAreVisible(table: string, header: string, kept: string, options: string)
    requires Visible(table) == VisibleResult(header, kept, "")
    ensures Visible(table + [' '] + options) == VisibleResult(header, kept, options)
  {
    VisibleOfThree(table, [' '], options);
    VisibleOne(' ');
    EmptyIsNeutral(Visible(table));
  }

  /** Whatever `formatOptions` does to the table options, the formatter changes
      only white space in the rest, apart from the comma `KeptBody` drops. */
  method FormatCreateTable(ddl: string, formatOptions: string -> string) returns (r: string, st: Statement)
    ensures Locates(ddl, st)
    ensures st.NoColumnList? ==> r == ddl
    ensures st.ColumnList? ==> r == Laid(ddl, st.open, st.close, formatOptions)
    ensures st.ColumnList? ==>
              var options := OptionsOf(ddl, st.close);
              Visible(r) == VisibleResult(ddl[..st.open + 1], KeptBody(ddl[st.open + 1..st.close]),
                                          if options == "" then "" else formatOptions(options))
  {
    var located := Locate(ddl);
    st := located;
    if located.NoColumnList? {
      return ddl, st;
    }
    var header := ddl[..located.open + 1];
    var body := ddl[located.open + 1..located.close];
    var parts := SplitByComma(body);
    var options := OptionsOf(ddl, located.close);
    if |parts| <= 1 {
      if options != "" {
        r := header + Trim(body) + [')', ' '] + formatOptions(options);
        OneLineIsVisible(header, body, formatOptions(options));
      } else {
        r := ddl;
        PartsAreVisible(ddl, located.open, located.close);
      }
      return r, st;
    }
    var lines := WriteLines(parts);
    r := header + ['\n'] + lines + [')'];
    ColumnsAreVisible(header, body);
    if options != "" {
      OptionsAreVisible(r, header, KeptBody(body), formatOptions(options));
      r := r + [' '] + formatOptions(options);
    }
  }

  lemma StatementInFour(ddl: string, open: nat, close: nat)
    requires open < close < |ddl| && ddl[close] == ')'
    ensures ddl[..open + 1] + ddl[open + 1..close] + [')'] + ddl[close + 1..] == ddl
  {
  }

  lemma PartsAreVisible(ddl: string, open: nat, close: nat)
    requires open < close < |ddl| && ddl[close] == ')'
    ensures Visible(ddl) == VisibleResult(ddl[..open + 1], ddl[open + 1..close], OptionsOf(ddl, close))
  {
    StatementInFour(ddl, open, close);
    FourAreVisible(ddl[..open + 1], ddl[open + 1..close], ddl[close + 1..]);
  }

  lemma FourAreVisible(header: string, body: string, rest: string)
    ensures Visible(header + body + [')'] + rest) == VisibleResult(header, body, Trim(rest))
  {
    TrimKeepsVisible(rest);
    VisibleOne(')');
    VisibleOfFour(header, body, [')'], rest);
  }

  /** Without table options the result is the statement up to white space, except
      exactly when a list of several columns ends in a separating comma. */
  lemma OnlyWhiteSpaceChangesIff(ddl: string, open: nat, close: nat, r: string)
    requires open < close < |ddl| && ddl[close] == ')' && OptionsOf(ddl, close) == ""
    requires Visible(r) == VisibleResult(ddl[..open + 1], KeptBody(ddl[open + 1..close]), "")
    ensures var body := ddl[open + 1..close];
            Visible(r) == Visible(ddl) <==> !(|Columns(body)| > 1 && EndsInCut(body))
  {
    PartsAreVisible(ddl, open, close);
    var body := ddl[open + 1..close];
    if |Columns(body)| > 1 && EndsInCut(body) {
      assert body == KeptBody(body) + [','];
      VisibleDistributes(KeptBody(body), [',']);
      VisibleOne(',');
      assert |Visible(body)| == |Visible(KeptBody(body))| + 1;
    }
  }

  lemma SpacedIsVisible(c: char, space: char)
    requires !IsSpace(c) && IsSpace(space)
    ensures Visible([c, space]) == [c]
  {
    VisibleDistributes([c], [space]);
    VisibleOne(c);
    VisibleOne(space);
    assert [c, space] == [c] + [space];
  }

  lemma IndentIsInvisible()
    ensures Visible(INDENT) == ""
  {
    VisibleOfFour([' '], [' '], [' '], [' ']);
    VisibleOne(' ');
    assert INDENT == [' '] + [' '] + [' '] + [' '];
  }

  lemma {:induction false} LinesBeforeAreVisible(parts: seq<string>)
    ensures Visible(LinesBefore(parts)) == Visible(Terminated(parts, ','))
  {
    if |parts| == 0 {
    } else {
      var init, part := parts[..|parts| - 1], parts[|parts| - 1];
      LinesBeforeAreVisible(init);
      LineIsVisible(LinesBefore(init), part, [',', '\n']);
      SpacedIsVisible(',', '\n');
      VisibleOfThree(Terminated(init, ','), part, [',']);
      VisibleOne(',');
    }
  }

  lemma LineIsVisible(before: string, part: string, end: string)
    ensures Visible(before + INDENT + Trim(part) + end) == Visible(before) + Visible(part) + Visible(end)
  {
    VisibleOfFour(before, INDENT, Trim(part), end);
    IndentIsInvisible();
    EmptyIsNeutral(Visible(before));
    TrimKeepsVisible(part);
  }

  lemma LinesAreVisible(parts: seq<string>)
    ensures Visible(Lines(parts)) == Visible(Glue(parts, ','))
  {
    if |parts| > 0 {
      var init, part := parts[..|parts| - 1], parts[|parts| - 1];
      LinesBeforeAreVisible(init);
      LineIsVisible(LinesBefore(init), part, ['\n']);
      VisibleOne('\n');
      VisibleDistributes(Terminated(init, ','), part);
    }
  }

  lemma ColumnsAreVisible(header: string, body: string)
    requires |Columns(body)| > 1
    ensures Visible(header + ['\n'] + Lines(Columns(body)) + [')']) == VisibleResult(header, KeptBody(body), "")
  {
    TableIsVisible(header, Lines(Columns(body)));
    LinesAreVisible(Columns(body));
    KeptIsGlued(body);
  }

  lemma TableIsVisible(header: string, lines: string)
    ensures Visible(header + ['\n'] + lines + [')']) == Visible(header) + Visible(lines) + [')']
  {
    VisibleOfFour(header, ['\n'], lines, [')']);
    VisibleOne('\n');
    VisibleOne(')');
    EmptyIsNeutral(Visible(header));
  }

  lemma KeptIsGlued(body: string)
    requires |Columns(body)| > 1
    ensures Glue(Columns(body), ',') == KeptBody(body)
  {
    ColumnsRejoin(body);
  }

  // --- ALTER TABLE clauses -------------------------------------------------

  function Upper(c: char): char {
    if 'a' <= c <= 'z' then (c as int - 32) as char else c
  }

  predicate StartsWithFolded(s: string, keyword: string) {
    |keyword| <= |s| && forall i :: 0 <= i < |keyword| ==> Upper(s[i]) == keyword[i]
  }

  const KEYWORDS: seq<string> :=
    ["ADD ", "DROP ", "MODIFY ", "CHANGE ", "RENAME ", "ALTER ", "CONVERT ", "ENABLE ", "DISABLE ", "ORDER "]

  predicate IsClauseKeyword(s: string) {
    exists k :: 0 <= k < |KEYWORDS| && StartsWithFolded(s, KEYWORDS[k])
  }

  predicate IsLetter(c: char) {
    'A' <= Upper(c) <= 'Z'
  }

  // All the splitter needs to know of the clause keywords.
  ghost predicate StartsWithTwoLetters(keyword: string -> bool) {
    forall s :: keyword(s) ==> |s| > 2 && IsLetter(s[0]) && IsLetter(s[1])
  }

  lemma ClauseKeywordsStartWithTwoLetters()
    ensures StartsWithTwoLetters(IsClauseKeyword)
  {
    assert forall k :: 0 <= k < |KEYWORDS| ==>
             |KEYWORDS[k]| > 2 && 'A' <= KEYWORDS[k][0] <= 'Z' && 'A' <= KEYWORDS[k][1] <= 'Z';
    forall s | IsClauseKeyword(s)
      ensures |s| > 2 && IsLetter(s[0]) && IsLetter(s[1])
    {
      var k :| 0 <= k < |KEYWORDS| && StartsWithFolded(s, KEYWORDS[k]);
      assert Upper(s[0]) == KEYWORDS[k][0] && Upper(s[1]) == KEYWORDS[k][1];
    }
  }

  // The first position from i on that does not hold a blank.
  function SkipBlanks(s: string, i: nat): (k: nat)
    requires i <= |s|
    ensures i <= k <= |s| && (forall j :: i <= j < k ==> s[j] == ' ') && (k < |s| ==> s[k] != ' ')
    decreases |s| - i
  {
    if i < |s| && s[i] == ' ' then SkipBlanks(s, i + 1) else i
  }

  predicate ClauseCut(keyword: string -> bool, s: string, i: nat)
    requires i < |s|
  {
    s[i] == ',' && Depth(s, 0, i) == 0 && i + 1 < |s| && keyword(s[SkipBlanks(s, i + 1)..])
  }

  // Where the scan goes on after a cut: past the character that follows the
  // comma, whatever it is, and then past blanks.
  function Resume(s: string, i: nat): (k: nat)
    requires i + 1 < |s|
    ensures i + 2 <= k <= |s|
  {
    SkipBlanks(s, i + 2)
  }

  function Clauses(keyword: string -> bool, s: string, i: nat, current: string): seq<string>
    requires i <= |s|
    decreases |s| - i
  {
    if i == |s| then if |current| > 0 then [current] else []
    else if ClauseCut(keyword, s, i) then [current] + Clauses(keyword, s, Resume(s, i), "")
    else Clauses(keyword, s, i + 1, current + [s[i]])
  }

  // The characters a cut skips hold no parenthesis, so the depth carries over.
  lemma {:induction false} BlanksKeepDepth(s: string, i: nat, k: nat)
    requires i <= k <= |s| && forall j :: i <= j < k ==> Weight(s[j]) == 0
    ensures Depth(s, 0, k) == Depth(s, 0, i)
    decreases k
  {
    if i == k {
    } else {
      BlanksKeepDepth(s, i, k - 1);
    }
  }

  lemma AfterACut(keyword: string -> bool, s: string, i: nat)
    requires StartsWithTwoLetters(keyword) && i < |s| && ClauseCut(keyword, s, i)
    ensures Resume(s, i) < |s|
    ensures Depth(s, 0, Resume(s, i)) == 0
    ensures forall j :: i < j < Resume(s, i) ==> !ClauseCut(keyword, s, j)
    ensures forall j :: i + 1 < j < Resume(s, i) ==> s[j] == ' '
    ensures !IsSpace(s[i + 1]) <==> s[i + 1] != ' '
  {
    var k := SkipBlanks(s, i + 1);
    assert keyword(s[k..]);
    assert s[k..][0] == s[k] && s[k..][1] == s[k + 1];
    if s[i + 1] != ' ' {
      assert k == i + 1 && Resume(s, i) == i + 2;
    }
    BlanksKeepDepth(s, i, Resume(s, i));
  }

  method SkipBlanksFrom(s: string, i: nat) returns (k: nat)
    requires i <= |s|
    ensures k == SkipBlanks(s, i)
  {
    k := i;
    while k < |s| && s[k] == ' '
      invariant i <= k <= |s| && SkipBlanks(s, i) == SkipBlanks(s, k)
    {
      k := k + 1;
    }
  }

  method ScanClauses(keyword: string -> bool, s: string) returns (r: seq<string>)
    requires StartsWithTwoLetters(keyword)
    ensures r == Clauses(keyword, s, 0, "")
  {
    r := [];
    var current := "";
    var depth := 0;
    var i := 0;
    while i < |s|
      invariant i <= |s| && depth == Depth(s, 0, i)
      invariant Clauses(keyword, s, 0, "") == r + Clauses(keyword, s, i, current)
      decreases |s| - i
    {
      depth := depth + Weight(s[i]);
      if depth == 0 && s[i] == ',' && i + 1 < |s| && keyword(s[SkipBlanks(s, i + 1)..]) {
        AfterACut(keyword, s, i);
        MoveFirst(r, current, Clauses(keyword, s, Resume(s, i), ""));
        r := r + [current];
        current := "";
        i := SkipBlanksFrom(s, i + 2);
      } else {
        current := current + [s[i]];
        i := i + 1;
      }
    }
    if |current| > 0 {
      r := r + [current];
    }
  }

  lemma MoveFirst(r: seq<string>, first: string, rest: seq<string>)
    ensures r + ([first] + rest) == (r + [first]) + rest
  {
  }

  method SplitAlterClauses(keyword: string -> bool, ddl: string, tableEnd: nat) returns (r: seq<string>)
    requires StartsWithTwoLetters(keyword)
    ensures tableEnd >= |ddl| ==> r == [ddl]
    ensures tableEnd < |ddl| ==>
              var clauses := Clauses(keyword, ddl[tableEnd..], 0, "");
              |clauses| > 0 && r == [ddl[..tableEnd] + clauses[0]] + clauses[1..]
  {
    if tableEnd >= |ddl| {
      return [ddl];
    }
    r := ScanClauses(keyword, ddl[tableEnd..]);
    ClausesExist(keyword, ddl[tableEnd..], 0, "");
    r := [ddl[..tableEnd] + r[0]] + r[1..];
  }

  lemma {:induction false} ClausesExist(keyword: string -> bool, s: string, i: nat, current: string)
    requires i <= |s| && (i < |s| || |current| > 0)
    ensures |Clauses(keyword, s, i, current)| > 0
    decreases |s| - i
  {
    if i < |s| && !ClauseCut(keyword, s, i) {
      ClausesExist(keyword, s, i + 1, current + [s[i]]);
    }
  }

  // Every cut from i on is a comma followed by a blank.
  ghost predicate BlankAfterCuts(keyword: string -> bool, s: string, i: nat)
    requires i <= |s|
  {
    forall j :: i <= j < |s| && ClauseCut(keyword, s, j) ==> s[j + 1] == ' '
  }

  lemma {:induction false} BlanksAreInvisible(s: string)
    requires forall j :: 0 <= j < |s| ==> s[j] == ' '
    ensures Visible(s) == ""
  {
    if |s| == 0 {
    } else {
      BlanksAreInvisible(s[..|s| - 1]);
    }
  }

  // What lies between a cut's comma and the point where the scan resumes.
  lemma CutInFour(s: string, i: nat, k: nat)
    requires i + 2 <= k <= |s|
    ensures [s[i]] + [s[i + 1]] + s[i + 2..k] + s[k..] == s[i..]
  {
  }

  lemma SkippedIsVisible(keyword: string -> bool, s: string, i: nat)
    requires StartsWithTwoLetters(keyword) && i < |s| && ClauseCut(keyword, s, i)
    ensures Resume(s, i) <= |s|
    ensures Visible(s[i..]) == [','] + (if s[i + 1] == ' ' then "" else [s[i + 1]]) + Visible(s[Resume(s, i)..])
  {
    AfterACut(keyword, s, i);
    var k := Resume(s, i);
    CutInFour(s, i, k);
    assert s[i] == ',';
    GapIsVisible(s[i + 1], s[i + 2..k], s[k..]);
  }

  lemma GapIsVisible(c: char, blanks: string, rest: string)
    requires forall j :: 0 <= j < |blanks| ==> blanks[j] == ' '
    requires !IsSpace(c) <==> c != ' '
    ensures Visible([','] + [c] + blanks + rest) == [','] + (if c == ' ' then "" else [c]) + Visible(rest)
  {
    VisibleOfFour([','], [c], blanks, rest);
    VisibleOne(',');
    VisibleOne(c);
    BlanksAreInvisible(blanks);
    EmptyIsNeutral([','] + Visible([c]));
  }

  lemma GlueFirst(first: string, rest: seq<string>)
    requires |rest| > 0
    ensures Glue([first] + rest, ',') == first + [','] + Glue(rest, ',')
  {
    var init, last := rest[..|rest| - 1], rest[|rest| - 1];
    assert ([first] + rest)[..|rest|] == [first] + init;
    TerminatedFirst(first, init);
    assert first + [','] + Terminated(init, ',') + last == first + [','] + (Terminated(init, ',') + last);
  }

  lemma {:induction false} TerminatedFirst(first: string, rest: seq<string>)
    ensures Terminated([first] + rest, ',') == first + [','] + Terminated(rest, ',')
  {
    if |rest| == 0 {
      assert [first] + rest == [first] && [first][..0] == [];
    } else {
      assert ([first] + rest)[..|rest|] == [first] + rest[..|rest| - 1];
      TerminatedFirst(first, rest[..|rest| - 1]);
    }
  }

  // `text` is `whole` if `good`, and otherwise is missing some of it.
  ghost predicate Keeps(text: string, whole: string, good: bool) {
    && |text| <= |whole|
    && (good ==> text == whole)
    && (!good ==> |text| < |whole|)
  }

  lemma KeepsAfterCut(first: string, text: string, whole: string, good: bool, skipped: string)
    requires Keeps(text, whole, good)
    ensures Keeps(first + [','] + text, first + ([','] + skipped + whole), good && skipped == "")
  {
    if good && skipped == "" {
      assert first + [','] + text == first + ([','] + skipped + whole);
    }
  }

  lemma BlankAfterCutsNext(keyword: string -> bool, s: string, i: nat)
    requires StartsWithTwoLetters(keyword) && i < |s|
    ensures ClauseCut(keyword, s, i) ==> Resume(s, i) < |s|
    ensures ClauseCut(keyword, s, i) ==> (BlankAfterCuts(keyword, s, i)
                                          <==> s[i + 1] == ' ' && BlankAfterCuts(keyword, s, Resume(s, i)))
    ensures !ClauseCut(keyword, s, i) ==> (BlankAfterCuts(keyword, s, i) <==> BlankAfterCuts(keyword, s, i + 1))
  {
    if ClauseCut(keyword, s, i) {
      AfterACut(keyword, s, i);
    }
  }

  lemma {:induction false} ClausesKeepTheText(keyword: string -> bool, s: string, i: nat, current: string)
    requires StartsWithTwoLetters(keyword) && i <= |s|
    ensures Keeps(Visible(Glue(Clauses(keyword, s, i, current), ',')), Visible(current) + Visible(s[i..]),
                  BlankAfterCuts(keyword, s, i))
    decreases |s| - i
  {
    if i == |s| {
      LastClause(current);
      assert s[i..] == "";
    } else {
      BlankAfterCutsNext(keyword, s, i);
      if ClauseCut(keyword, s, i) {
        var k := Resume(s, i);
        ClausesKeepTheText(keyword, s, k, "");
        ClausesExist(keyword, s, k, "");
        assert Visible("") + Visible(s[k..]) == Visible(s[k..]);
        CutKeepsTheText(keyword, s, i, current, Clauses(keyword, s, k, ""));
        assert Clauses(keyword, s, i, current) == [current] + Clauses(keyword, s, k, "");
      } else {
        ClausesKeepTheText(keyword, s, i + 1, current + [s[i]]);
        VisibleMoves(current, s, i);
        assert Clauses(keyword, s, i, current) == Clauses(keyword, s, i + 1, current + [s[i]]);
      }
    }
  }

  lemma LastClause(current: string)
    ensures Visible(Glue(if |current| > 0 then [current] else [], ',')) == Visible(current)
  {
    if |current| > 0 {
      assert [current][..0] == [];
      assert Glue([current], ',') == current;
    }
  }

  lemma VisibleMoves(current: string, s: string, i: nat)
    requires i < |s|
    ensures Visible(current + [s[i]]) + Visible(s[i + 1..]) == Visible(current) + Visible(s[i..])
  {
    VisibleDistributes(current, [s[i]]);
    VisibleDistributes([s[i]], s[i + 1..]);
    assert s[i..] == [s[i]] + s[i + 1..];
  }

  lemma CutKeepsTheText(keyword: string -> bool, s: string, i: nat, current: string, rest: seq<string>)
    requires StartsWithTwoLetters(keyword) && i < |s| && ClauseCut(keyword, s, i) && |rest| > 0
    requires Keeps(Visible(Glue(rest, ',')), Visible(s[Resume(s, i)..]), BlankAfterCuts(keyword, s, Resume(s, i)))
    ensures Keeps(Visible(Glue([current] + rest, ',')), Visible(current) + Visible(s[i..]),
                  s[i + 1] == ' ' && BlankAfterCuts(keyword, s, Resume(s, i)))
  {
    var skipped := if s[i + 1] == ' ' then "" else [s[i + 1]];
    KeepsAfterCut(Visible(current), Visible(Glue(rest, ',')), Visible(s[Resume(s, i)..]),
                  BlankAfterCuts(keyword, s, Resume(s, i)), skipped);
    SkippedIsVisible(keyword, s, i);
    GluedIsVisible(current, rest);
  }

  lemma GluedIsVisible(current: string, rest: seq<string>)
    requires |rest| > 0
    ensures Visible(Glue([current] + rest, ',')) == Visible(current) + [','] + Visible(Glue(rest, ','))
  {
    GlueFirst(current, rest);
    VisibleOfThree(current, [','], Glue(rest, ','));
    VisibleOne(',');
  }

  /** The clauses glued with commas are the statement up to white space exactly
      when every comma they were cut at is followed by a blank; otherwise the
      first letter of a clause keyword is lost. */
  lemma ClausesRejoinIff(keyword: string -> bool, ddl: string, tableEnd: nat, r: seq<string>)
    requires StartsWithTwoLetters(keyword) && tableEnd < |ddl| && |Clauses(keyword, ddl[tableEnd..], 0, "")| > 0
    requires var clauses := Clauses(keyword, ddl[tableEnd..], 0, "");
             r == [ddl[..tableEnd] + clauses[0]] + clauses[1..]
    ensures Visible(Glue(r, ',')) == Visible(ddl) <==> BlankAfterCuts(keyword, ddl[tableEnd..], 0)
  {
    var header, s := ddl[..tableEnd], ddl[tableEnd..];
    var clauses := Clauses(keyword, s, 0, "");
    ClausesKeepTheText(keyword, s, 0, "");
    assert s[0..] == s;
    PrefixedRejoin(header, s, clauses, BlankAfterCuts(keyword, s, 0));
    assert ddl == header + s;
  }

  lemma PrefixedRejoin(header: string, s: string, clauses: seq<string>, good: bool)
    requires |clauses| > 0 && Keeps(Visible(Glue(clauses, ',')), Visible("") + Visible(s), good)
    ensures Visible(Glue([header + clauses[0]] + clauses[1..], ',')) == Visible(header + s) <==> good
  {
    GluePrefixed(header, clauses);
    VisibleDistributes(header, Glue(clauses, ','));
    VisibleDistributes(header, s);
  }

  lemma GluePrefixed(prefix: string, parts: seq<string>)
    requires |parts| > 0
    ensures Glue([prefix + parts[0]] + parts[1..], ',') == prefix + Glue(parts, ',')
  {
    if |parts| == 1 {
      assert parts == [parts[0]] && [prefix + parts[0]] + parts[1..] == [prefix + parts[0]];
      assert [prefix + parts[0]][..0] == [] && parts[..0] == [];
    } else {
      GlueFirst(prefix + parts[0], parts[1..]);
      GlueFirst(parts[0], parts[1..]);
      assert [parts[0]] + parts[1..] == parts;
    }
  }

  // --- the whole ALTER TABLE statement -------------------------------------

  // The first backtick followed by a blank, or |s|.
  function QuoteEnd(s: string, i: nat): (k: nat)
    requires i <= |s|
    ensures i <= k <= |s| && (k < |s| ==> k + 1 < |s| && s[k] == '`' && s[k + 1] == ' ')
    ensures forall j :: i <= j < k && j + 1 < |s| ==> !(s[j] == '`' && s[j + 1] == ' ')
    decreases |s| - i
  {
    if i + 1 >= |s| then |s|
    else if s[i] == '`' && s[i + 1] == ' ' then i
    else QuoteEnd(s, i + 1)
  }

  // The first blank, or |s|.
  function BlankFrom(s: string, i: nat): (k: nat)
    requires i <= |s|
    ensures i <= k <= |s| && (forall j :: i <= j < k ==> s[j] != ' ') && (k < |s| ==> s[k] == ' ')
    decreases |s| - i
  {
    if i == |s| || s[i] == ' ' then i else BlankFrom(s, i + 1)
  }

  const ALTER_TABLE := "ALTER TABLE "

  // Past the quoted or unquoted table name, or the end of the statement.
  function TableNameEnd(ddl: string): (k: nat)
    ensures k <= |ddl|
  {
    var quote := QuoteEnd(ddl, 0);
    if 12 < quote < |ddl| then quote + 2
    else if |ddl| > 12 && StartsWithFolded(ddl, ALTER_TABLE) && BlankFrom(ddl, 12) < |ddl| then BlankFrom(ddl, 12) + 1
    else |ddl|
  }

  // The clauses of a statement, the first with the table part in front.
  function AlterClauses(ddl: string): seq<string> {
    var tableEnd := TableNameEnd(ddl);
    if tableEnd == |ddl| then [ddl]
    else
      var clauses := Clauses(IsClauseKeyword, ddl[tableEnd..], 0, "");
      if |clauses| == 0 then [ddl] else [ddl[..tableEnd] + clauses[0]] + clauses[1..]
  }

  /** The splitter on a statement: its clauses rejoin to it up to white space
      exactly when every comma it cuts at is followed by a blank. */
  method SplitAlterTable(ddl: string) returns (r: seq<string>)
    ensures |r| > 0 && r == AlterClauses(ddl)
    ensures Visible(Glue(r, ',')) == Visible(ddl) <==> BlankAfterCuts(IsClauseKeyword, ddl[TableNameEnd(ddl)..], 0)
  {
    ClauseKeywordsStartWithTwoLetters();
    var tableEnd := TableNameEnd(ddl);
    r := SplitAlterClauses(IsClauseKeyword, ddl, tableEnd);
    if tableEnd < |ddl| {
      ClausesRejoinIff(IsClauseKeyword, ddl, tableEnd, r);
    } else {
      OneClause(ddl);
      assert ddl[tableEnd..] == "";
    }
  }

  lemma OneClause(clause: string)
    ensures Glue([clause], ',') == clause
  {
    assert [clause][..0] == [];
    EmptyIsNeutral(clause);
  }
}
