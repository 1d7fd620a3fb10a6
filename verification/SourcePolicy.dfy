/**
 Which schema directories a pull request may plan from (pkg/api/source_policy.go),
 and the directory hints derived from the same settings (pkg/api/config.go).

 Paths are compared as strings after cleaning. `Segments` gives a cleaned path
 its meaning, and the string test is shown to be the prefix test on segments.
 */
module SourcePolicy {
  import opened Wrappers
  import opened Text
  import opened Sorting

  // --- segments ------------------------------------------------------------

  function SplitSlash(s: string): (parts: seq<string>)
    ensures |parts| > 0
  {
    if |s| == 0 then [""] else ExtendSplit(SplitSlash(s[..|s| - 1]), s[|s| - 1])
  }

  function JoinSlash(parts: seq<string>): string {
    if |parts| == 0 then ""
    else if |parts| == 1 then parts[0]
    else JoinSlash(parts[..|parts| - 1]) + ['/'] + parts[|parts| - 1]
  }

  lemma {:induction false} SplitAppends(a: string, b: string)
    ensures SplitSlash(a + ['/'] + b) == SplitSlash(a) + SplitSlash(b)
  {
    var whole := a + ['/'] + b;
    if |b| == 0 {
      assert whole[..|whole| - 1] == a;
    } else {
      var init, c := b[..|b| - 1], b[|b| - 1];
      SplitAppends(a, init);
      assert whole[..|whole| - 1] == a + ['/'] + init && whole[|whole| - 1] == c;
      assert SplitSlash(whole) == ExtendSplit(SplitSlash(a) + SplitSlash(init), c);
      LastOfAppend(SplitSlash(a), SplitSlash(init), c);
    }
  }

  function ExtendSplit(parts: seq<string>, c: char): seq<string>
    requires |parts| > 0
  {
    if c == '/' then parts + [""] else parts[..|parts| - 1] + [parts[|parts| - 1] + [c]]
  }

  // Extending the last part of a + b extends the last part of b.
  lemma LastOfAppend(a: seq<string>, b: seq<string>, c: char)
    requires |b| > 0
    ensures ExtendSplit(a + b, c) == a + ExtendSplit(b, c)
  {
  }

  lemma {:induction false} SplitOfPlain(s: string)
    requires NoSlash(s)
    ensures SplitSlash(s) == [s]
  {
    if |s| == 0 {
    } else {
      SplitOfPlain(s[..|s| - 1]);
      assert s == s[..|s| - 1] + [s[|s| - 1]];
    }
  }

  lemma {:induction false} SplitUndoesJoin(parts: seq<string>)
    requires |parts| > 0 && forall i :: 0 <= i < |parts| ==> NoSlash(parts[i])
    ensures SplitSlash(JoinSlash(parts)) == parts
  {
    var init, last := parts[..|parts| - 1], parts[|parts| - 1];
    assert parts == init + [last] && NoSlash(last);
    if |parts| == 1 {
      SplitOfPlain(last);
      OnePart(last);
      assert parts == [last];
    } else {
      assert forall i :: 0 <= i < |init| ==> NoSlash(init[i]);
      SplitUndoesJoin(init);
      SplitOfSnoc(init, last);
    }
  }

  lemma OnePart(part: string)
    ensures JoinSlash([part]) == part
  {
  }

  lemma SplitOfSnoc(parts: seq<string>, last: string)
    requires |parts| > 0 && NoSlash(last) && SplitSlash(JoinSlash(parts)) == parts
    ensures SplitSlash(JoinSlash(parts + [last])) == parts + [last]
  {
    SplitOfPlain(last);
    SplitAppends(JoinSlash(parts), last);
    assert (parts + [last])[..|parts|] == parts;
  }

  lemma {:induction false} SplitHasNoSlash(s: string)
    ensures forall i :: 0 <= i < |SplitSlash(s)| ==> NoSlash(SplitSlash(s)[i])
  {
    if |s| == 0 {
    } else {
      SplitHasNoSlash(s[..|s| - 1]);
    }
  }

  lemma {:induction false} JoinAppends(a: seq<string>, b: seq<string>)
    requires |a| > 0 && |b| > 0
    ensures JoinSlash(a + b) == JoinSlash(a) + ['/'] + JoinSlash(b)
  {
    assert (a + b)[..|a + b| - 1] == a + b[..|b| - 1];
    if |b| == 1 {
      assert a + b[..|b| - 1] == a;
    } else {
      JoinAppends(a, b[..|b| - 1]);
      Regroup(JoinSlash(a), JoinSlash(b[..|b| - 1]), b[|b| - 1]);
    }
  }

  lemma Regroup(a: string, b: string, c: string)
    ensures (a + ['/'] + b) + ['/'] + c == a + ['/'] + (b + ['/'] + c)
  {
  }

  // --- cleaning ------------------------------------------------------------

  function Push(stack: seq<string>, part: string): seq<string> {
    if part == "" || part == "." then stack
    else if part == ".." && |stack| > 0 && stack[|stack| - 1] != ".." then stack[..|stack| - 1]
    else stack + [part]
  }

  function PushAll(parts: seq<string>): seq<string> {
    if |parts| == 0 then [] else Push(PushAll(parts[..|parts| - 1]), parts[|parts| - 1])
  }

  // path.Clean for a path that is not rooted.
  function Clean(s: string): string {
    var stack := PushAll(SplitSlash(s));
    if |stack| == 0 then "." else JoinSlash(stack)
  }

  datatype PathError = EmptyPath | Rooted | Escapes

  predicate StartsWith(s: string, prefix: string) {
    |prefix| <= |s| && s[..|prefix|] == prefix
  }

  function Normalize(value: string): Result<string, PathError> {
    var v := Trim(value);
    if v == "" then Err(EmptyPath)
    else if v == "*" then Ok("*")
    else if StartsWith(v, "/") then Err(Rooted)
    else
      var cleaned := Clean(v);
      if cleaned == ".." || StartsWith(cleaned, "../") then Err(Escapes) else Ok(cleaned)
  }

  predicate PlainSegment(part: string) {
    part != "" && part != "." && part != ".." && NoSlash(part)
  }

  predicate Plain(segments: seq<string>) {
    forall i :: 0 <= i < |segments| ==> PlainSegment(segments[i])
  }

  // A cleaned path as the directories it names from the repository root.
  function Segments(path: string): seq<string> {
    if path == "." then [] else SplitSlash(path)
  }

  // The stack holds plain parts above a run of "..".
  predicate Stacked(stack: seq<string>) {
    forall i :: 0 <= i < |stack| ==>
      PlainSegment(stack[i]) || (stack[i] == ".." && forall j :: 0 <= j < i ==> stack[j] == "..")
  }

  lemma {:induction false} PushAllStacks(parts: seq<string>)
    requires forall i :: 0 <= i < |parts| ==> NoSlash(parts[i])
    ensures Stacked(PushAll(parts))
  {
    if |parts| == 0 {
    } else {
      PushAllStacks(parts[..|parts| - 1]);
      PushStacks(PushAll(parts[..|parts| - 1]), parts[|parts| - 1]);
    }
  }

  lemma PushStacks(stack: seq<string>, part: string)
    requires Stacked(stack) && NoSlash(part)
    ensures Stacked(Push(stack, part))
  {
    if part == ".." && |stack| > 0 && stack[|stack| - 1] == ".." {
      var i := |stack| - 1;
      assert stack[i] == "..";
      assert !PlainSegment(stack[i]);
      assert forall j :: 0 <= j < i ==> stack[j] == "..";
    }
  }

  // A cleaned path that does not escape is "." or plain segments.
  lemma CleanIsPlain(v: string)
    requires !(Clean(v) == ".." || StartsWith(Clean(v), "../"))
    ensures Plain(Segments(Clean(v))) && Segments(Clean(v)) == PushAll(SplitSlash(v))
    ensures Clean(v) != "." ==> |Segments(Clean(v))| > 0 && JoinSlash(Segments(Clean(v))) == Clean(v)
  {
    var stack := PushAll(SplitSlash(v));
    SplitHasNoSlash(v);
    PushAllStacks(SplitSlash(v));
    if |stack| > 0 {
      FirstDecidesEscape(stack);
      assert PlainSegment(stack[0]);
      PlainAboveFirst(stack);
      JoinIsNotDot(stack);
      SplitUndoesJoin(stack);
    }
  }

  lemma PlainAboveFirst(stack: seq<string>)
    requires Stacked(stack) && |stack| > 0 && stack[0] != ".."
    ensures Plain(stack)
  {
    var first := stack[0];
    forall i | 0 <= i < |stack|
      ensures PlainSegment(stack[i])
    {
      assert PlainSegment(stack[i]) || i == 0 || first == "..";
      assert !PlainSegment("..");
    }
  }

  lemma FirstDecidesEscape(stack: seq<string>)
    requires |stack| > 0
    ensures stack[0] == ".." ==> JoinSlash(stack) == ".." || StartsWith(JoinSlash(stack), "../")
  {
    if |stack| > 1 && stack[0] == ".." {
      JoinAppends([stack[0]], stack[1..]);
      assert [stack[0]] + stack[1..] == stack;
      assert JoinSlash([stack[0]]) + ['/'] == "../";
      assert JoinSlash(stack)[..3] == "../";
    }
  }

  lemma JoinIsNotDot(stack: seq<string>)
    requires |stack| > 0 && Plain(stack)
    ensures JoinSlash(stack) != "."
  {
    SplitUndoesJoin(stack);
    SplitOfPlain(".");
    assert PlainSegment(stack[0]);
    assert SplitSlash(JoinSlash(stack))[0] != SplitSlash(".")[0];
  }

  // --- the prefix test -----------------------------------------------------

  predicate PathCovers(dir: string, path: string) {
    path == dir || (dir != "." && StartsWith(path, dir + ['/']))
  }

  lemma SegmentsBelow(dir: string, path: string)
    requires StartsWith(path, dir + ['/'])
    ensures path == dir + ['/'] + path[|dir| + 1..]
  {
  }

  lemma PrefixSplits<T>(a: seq<T>, b: seq<T>)
    requires a <= b
    ensures a + b[|a|..] == b
  {
  }

  /** On normalized paths the string test is the segment test: a directory below
      the root covers exactly the paths its segments are a prefix of. */
  lemma StringPrefixIsSegmentPrefix(d: string, p: string)
    requires d != "." && Plain(Segments(d)) && JoinSlash(Segments(d)) == d
    requires Plain(Segments(p)) && (p != "." ==> JoinSlash(Segments(p)) == p)
    ensures PathCovers(d, p) <==> Segments(d) <= Segments(p)
  {
    var ds, ps := Segments(d), Segments(p);
    if StartsWith(p, d + ['/']) {
      SegmentsBelow(d, p);
      SplitAppends(d, p[|d| + 1..]);
    }
    if ds <= ps {
      PrefixSplits(ds, ps);
      if |ds| < |ps| {
        JoinAppends(ds, ps[|ds|..]);
        assert JoinSlash(ps)[..|d| + 1] == d + ['/'];
      } else {
        assert ds == ps;
      }
    }
  }

  // Every accepted path is "." or joins back from its plain segments.
  lemma NormalizedIsPlain(value: string)
    requires Normalize(value).Ok?
    ensures var p := Normalize(value).value;
            Plain(Segments(p)) && (p != "." ==> |Segments(p)| > 0 && JoinSlash(Segments(p)) == p)
  {
    if Trim(value) == "*" {
      SplitOfPlain("*");
      assert PlainSegment("*");
      assert JoinSlash(["*"]) == "*";
    } else {
      CleanIsPlain(Trim(value));
    }
  }

  // --- normalizing twice ---------------------------------------------------

  function Size(parts: seq<string>): nat {
    if |parts| == 0 then 0 else Size(parts[..|parts| - 1]) + |parts[|parts| - 1]| + 1
  }

  lemma {:induction false} SplitSize(s: string)
    ensures Size(SplitSlash(s)) == |s| + 1
  {
    if |s| == 0 {
    } else {
      SplitSize(s[..|s| - 1]);
      ExtendSize(SplitSlash(s[..|s| - 1]), s[|s| - 1]);
    }
  }

  lemma ExtendSize(parts: seq<string>, c: char)
    requires |parts| > 0
    ensures Size(ExtendSplit(parts, c)) == Size(parts) + 1
  {
    assert (parts + [""])[..|parts|] == parts;
    var init, last := parts[..|parts| - 1], parts[|parts| - 1];
    assert (init + [last + [c]])[..|init|] == init;
  }

  lemma {:induction false} PushAllShrinks(parts: seq<string>)
    ensures Size(PushAll(parts)) <= Size(parts)
  {
    if |parts| == 0 {
    } else {
      PushAllShrinks(parts[..|parts| - 1]);
      var stack := PushAll(parts[..|parts| - 1]);
      assert (stack + [parts[|parts| - 1]])[..|stack|] == stack;
    }
  }

  lemma {:induction false} JoinSize(parts: seq<string>)
    requires |parts| > 0
    ensures |JoinSlash(parts)| + 1 == Size(parts)
  {
    if |parts| > 1 {
      JoinSize(parts[..|parts| - 1]);
    } else {
      assert Size(parts[..0]) == 0;
    }
  }

  lemma CleanIsNoLonger(v: string)
    requires v != ""
    ensures |Clean(v)| <= |v|
  {
    var stack := PushAll(SplitSlash(v));
    SplitSize(v);
    PushAllShrinks(SplitSlash(v));
    if |stack| > 0 {
      JoinSize(stack);
    }
  }

  lemma {:induction false} PushAllKeepsPlain(parts: seq<string>)
    requires Plain(parts)
    ensures PushAll(parts) == parts
  {
    if |parts| == 0 {
    } else {
      PushAllKeepsPlain(parts[..|parts| - 1]);
      assert PlainSegment(parts[|parts| - 1]);
      assert parts == parts[..|parts| - 1] + [parts[|parts| - 1]];
    }
  }

  lemma CleanKeepsClean(p: string)
    requires Plain(Segments(p)) && (p != "." ==> |Segments(p)| > 0 && JoinSlash(Segments(p)) == p)
    ensures Clean(p) == p
  {
    if p == "." {
      SplitOfPlain(".");
      assert PushAll([]) == [] && ["."][..0] == [];
    } else {
      PushAllKeepsPlain(SplitSlash(p));
    }
  }

  lemma {:induction false} TrimIsNoLonger(s: string)
    ensures |TrimLeft(s)| <= |s| && |TrimRight(s)| <= |s|
    decreases |s|
  {
    if |s| == 0 {
    } else {
      TrimIsNoLonger(s[1..]);
      TrimIsNoLonger(s[..|s| - 1]);
    }
  }

  predicate SpaceAtEdge(s: string) {
    |s| > 0 && (IsSpace(s[0]) || IsSpace(s[|s| - 1]))
  }

  lemma TrimIff(s: string)
    ensures SpaceAtEdge(s) <==> |Trim(s)| < |s|
    ensures !SpaceAtEdge(s) ==> Trim(s) == s
  {
    TrimIsNoLonger(s);
    TrimIsNoLonger(TrimLeft(s));
    if |s| > 0 && IsSpace(s[0]) {
      TrimIsNoLonger(s[1..]);
    } else if |s| > 0 && IsSpace(s[|s| - 1]) {
      TrimIsNoLonger(s[..|s| - 1]);
    }
  }

  // A plain path neither starts with a slash nor escapes.
  lemma PlainDoesNotEscape(p: string)
    requires p != "." && |Segments(p)| > 0 && Plain(Segments(p)) && JoinSlash(Segments(p)) == p
    ensures p != "" && p != ".." && !StartsWith(p, "/") && !StartsWith(p, "../")
  {
    SplitOfPlain("");
    SplitOfPlain("..");
    var first := Segments(p)[0];
    assert PlainSegment(first);
    if StartsWith(p, "/") {
      FirstSegment("", p);
    }
    if StartsWith(p, "../") {
      FirstSegment("..", p);
    }
  }

  lemma FirstSegment(first: string, p: string)
    requires NoSlash(first) && StartsWith(p, first + ['/'])
    ensures SplitSlash(p)[0] == first
  {
    assert p == first + ['/'] + p[|first| + 1..];
    SplitAppends(first, p[|first| + 1..]);
    SplitOfPlain(first);
  }

  // Normalizing a normalized path changes nothing unless it starts or ends in
  // white space.
  lemma NormalizeTwice(value: string)
    requires Normalize(value).Ok?
    ensures var p := Normalize(value).value;
            Normalize(p) == Ok(p) <==> !SpaceAtEdge(p)
  {
    var p := Normalize(value).value;
    NormalizedIsPlain(value);
    TrimIff(p);
    if SpaceAtEdge(p) {
      if Trim(p) != "" {
        CleanIsNoLonger(Trim(p));
      }
    } else if p != "*" {
      CleanKeepsClean(p);
      if p != "." {
        PlainDoesNotEscape(p);
      }
    }
  }

  // The segments of a path that cleaning keeps, read from the right: each ".."
  // takes away the nearest name to its left that is not yet taken.
  function Surviving(parts: seq<string>, ups: nat): seq<string> {
    if |parts| == 0 then []
    else
      var init, last := parts[..|parts| - 1], parts[|parts| - 1];
      if last == "" || last == "." then Surviving(init, ups)
      else if last == ".." then Surviving(init, ups + 1)
      else if ups > 0 then Surviving(init, ups - 1)
      else Surviving(init, 0) + [last]
  }

  // Reading from the right keeps what the stack holds below its top `ups` names.
  lemma {:induction false} SurvivingIsTheStack(parts: seq<string>, ups: nat)
    requires ".." !in PushAll(parts)
    ensures var stack := PushAll(parts);
            Surviving(parts, ups) == if ups <= |stack| then stack[..|stack| - ups] else []
  {
    if |parts| == 0 {
    } else {
      var init, last := parts[..|parts| - 1], parts[|parts| - 1];
      var below := PushAll(init);
      EscapesStay(below, last);
      if last == ".." {
        SurvivingIsTheStack(init, ups + 1);
      } else if last == "" || last == "." {
        SurvivingIsTheStack(init, ups);
      } else if ups > 0 {
        SurvivingIsTheStack(init, ups - 1);
        assert (below + [last])[..|below|] == below;
      } else {
        SurvivingIsTheStack(init, 0);
      }
    }
  }

  // A ".." on the stack is never taken off again.
  lemma EscapesStay(stack: seq<string>, part: string)
    ensures ".." in stack ==> ".." in Push(stack, part)
    ensures part == ".." && |stack| == 0 ==> ".." in Push(stack, part)
  {
    if k :| 0 <= k < |stack| && stack[k] == ".." {
      if part == ".." && stack[|stack| - 1] != ".." {
        assert stack[..|stack| - 1][k] == "..";
      } else {
        assert Push(stack, part)[k] == "..";
      }
    }
  }

  lemma {:induction false} SurvivorsAreSegments(parts: seq<string>, ups: nat)
    ensures forall s :: s in Surviving(parts, ups) ==> s in parts && s != ""
  {
    if |parts| == 0 {
    } else {
      var init, last := parts[..|parts| - 1], parts[|parts| - 1];
      assert parts == init + [last];
      SurvivorsAreSegments(init, ups + 1);
      SurvivorsAreSegments(init, ups);
      SurvivorsAreSegments(init, 0);
      if ups > 0 {
        SurvivorsAreSegments(init, ups - 1);
      }
    }
  }

  /** An accepted path is its surviving segments, joined. */
  lemma NormalizeKeepsSurvivors(value: string)
    requires Normalize(value).Ok?
    ensures Segments(Normalize(value).value) == Surviving(SplitSlash(Trim(value)), 0)
  {
    var v := Trim(value);
    if v == "*" {
      SplitOfPlain("*");
      assert PlainSegment("*");
      PushAllKeepsPlain(["*"]);
      SurvivingIsTheStack(["*"], 0);
    } else {
      CleanIsPlain(v);
      assert forall s :: s in PushAll(SplitSlash(v)) ==> PlainSegment(s);
      SurvivingIsTheStack(SplitSlash(v), 0);
    }
  }

  // How far below the root the first n parts lead; above it when negative.
  function Level(parts: seq<string>, n: nat): int
    requires n <= |parts|
  {
    if n == 0 then 0
    else
      var part := parts[n - 1];
      Level(parts, n - 1) + if part == "" || part == "." then 0 else if part == ".." then -1 else 1
  }

  // At some point the parts lead above the root.
  predicate Climbs(parts: seq<string>) {
    exists n :: 0 <= n <= |parts| && Level(parts, n) < 0
  }

  lemma {:induction false} LevelOfPrefix(parts: seq<string>, k: nat, n: nat)
    requires n <= k <= |parts|
    ensures Level(parts[..k], n) == Level(parts, n)
  {
    if n == 0 {
    } else {
      LevelOfPrefix(parts, k, n - 1);
    }
  }

  lemma ClimbsOfInit(parts: seq<string>)
    requires |parts| > 0
    ensures Climbs(parts) <==> Climbs(parts[..|parts| - 1]) || Level(parts, |parts|) < 0
  {
    var init := parts[..|parts| - 1];
    forall n: nat | n <= |init|
      ensures Level(init, n) == Level(parts, n)
    {
      LevelOfPrefix(parts, |init|, n);
    }
  }

  // The stack holds a ".." exactly if the parts climb, and else as many names as
  // they lead down.
  lemma {:induction false} StackClimbs(parts: seq<string>)
    ensures ".." in PushAll(parts) <==> Climbs(parts)
    ensures !Climbs(parts) ==> |PushAll(parts)| == Level(parts, |parts|)
  {
    if |parts| == 0 {
    } else {
      var init, last := parts[..|parts| - 1], parts[|parts| - 1];
      StackClimbs(init);
      ClimbsOfInit(parts);
      LevelOfPrefix(parts, |init|, |init|);
      EscapesStay(PushAll(init), last);
    }
  }

  lemma CleanEscapesIff(v: string)
    ensures Clean(v) == ".." || StartsWith(Clean(v), "../") <==> ".." in PushAll(SplitSlash(v))
  {
    var stack := PushAll(SplitSlash(v));
    SplitHasNoSlash(v);
    PushAllStacks(SplitSlash(v));
    if k :| 0 <= k < |stack| && stack[k] == ".." {
      assert !PlainSegment(stack[k]);
      assert stack[0] == "..";
      FirstDecidesEscape(stack);
    } else if |stack| > 0 {
      assert stack[0] != "..";
      PlainAboveFirst(stack);
      JoinIsNotDot(stack);
      SplitUndoesJoin(stack);
      PlainDoesNotEscape(JoinSlash(stack));
    }
  }

  /** A path is accepted exactly if something is left of it without the white space
      around it, it does not start with a slash, and it never leads above the root. */
  lemma AcceptedIff(value: string)
    ensures var v := Trim(value);
            Normalize(value).Ok? <==> v != "" && v[0] != '/' && !Climbs(SplitSlash(v))
  {
    var v := Trim(value);
    if v == "*" {
      StarDoesNotClimb();
      assert v[0] == '*';
    } else if v != "" {
      RootedIff(v);
      CleanEscapesIff(v);
      StackClimbs(SplitSlash(v));
    }
  }

  lemma RootedIff(v: string)
    requires v != ""
    ensures StartsWith(v, "/") <==> v[0] == '/'
  {
  }

  lemma StarDoesNotClimb()
    ensures !Climbs(SplitSlash("*"))
  {
    SplitOfPlain("*");
    assert PlainSegment("*");
    PushAllKeepsPlain(["*"]);
    StackClimbs(["*"]);
  }

  predicate SpaceAround(segments: seq<string>) {
    && |segments| > 0 && |segments[0]| > 0 && |segments[|segments| - 1]| > 0
    && var last := segments[|segments| - 1];
       (IsSpace(segments[0][0]) || IsSpace(last[|last| - 1]))
  }

  // The edges of a joined path are those of its first and last segments.
  lemma JoinEdges(segments: seq<string>)
    requires |segments| > 0 && segments[0] != "" && segments[|segments| - 1] != ""
    ensures SpaceAtEdge(JoinSlash(segments)) <==> SpaceAround(segments)
  {
    if |segments| == 1 {
    } else {
      JoinStarts(segments);
      var joined, last := JoinSlash(segments), segments[|segments| - 1];
      assert joined == JoinSlash(segments[..|segments| - 1]) + ['/'] + last;
      assert joined[|joined| - 1] == last[|last| - 1];
    }
  }

  lemma JoinStarts(segments: seq<string>)
    requires |segments| > 1 && segments[0] != ""
    ensures JoinSlash(segments) != "" && JoinSlash(segments)[0] == segments[0][0]
  {
    var first, rest := segments[0], segments[1..];
    assert [first] + rest == segments;
    JoinAppends([first], rest);
    assert JoinSlash(segments) == first + ['/'] + JoinSlash(rest);
  }

  /** Normalizing an accepted path again changes nothing exactly when the first
      surviving segment of the given path does not start, and the last does not
      end, in white space. */
  lemma NormalizeTwiceIff(value: string)
    requires Normalize(value).Ok?
    ensures var p := Normalize(value).value;
            Normalize(p) == Ok(p) <==> !SpaceAround(Surviving(SplitSlash(Trim(value)), 0))
  {
    var p := Normalize(value).value;
    NormalizeTwice(value);
    NormalizedIsPlain(value);
    NormalizeKeepsSurvivors(value);
    if p == "." {
      assert !SpaceAtEdge(p);
    } else {
      var segments := Segments(p);
      assert PlainSegment(segments[0]) && PlainSegment(segments[|segments| - 1]);
      JoinEdges(segments);
    }
  }

  /** In particular a path none of whose segments starts or ends in white space is
      normalized once and for all. */
  lemma NormalizeIsIdempotent(value: string)
    requires Normalize(value).Ok?
    requires forall s :: s in SplitSlash(Trim(value)) ==> !SpaceAtEdge(s)
    ensures Normalize(Normalize(value).value) == Normalize(value)
  {
    var parts := SplitSlash(Trim(value));
    var kept := Surviving(parts, 0);
    SurvivorsAreSegments(parts, 0);
    NormalizeTwiceIff(value);
    if |kept| > 0 {
      assert kept[0] in kept && kept[|kept| - 1] in kept;
    }
  }

  function UpAndDown(a: string, b: string): string {
    a + ['/'] + (".." + ['/'] + b)
  }

  lemma UpAndDownCleans(a: string, b: string)
    requires PlainSegment(a) && PlainSegment(b)
    ensures Clean(UpAndDown(a, b)) == b
  {
    SplitAppends(a, ".." + ['/'] + b);
    SplitAppends("..", b);
    SplitOfPlain(a);
    SplitOfPlain("..");
    SplitOfPlain(b);
    var parts := [a, "..", b];
    assert SplitSlash(UpAndDown(a, b)) == parts;
    assert parts[..2][..1] == [a] && parts[..1][..0] == [];
    assert PushAll([a]) == [a] by {
      PushAllKeepsPlain([a]);
    }
    assert PushAll(parts[..2]) == [] && PushAll(parts) == [b];
  }

  // Trimming comes before cleaning, so a/../b is accepted as b even when b then
  // starts with white space, and b itself is not.
  lemma NormalizeIsNotIdempotent(a: string, b: string)
    requires PlainSegment(a) && PlainSegment(b) && !IsSpace(a[0]) && IsSpace(b[0]) && !IsSpace(b[|b| - 1])
    ensures Normalize(UpAndDown(a, b)) == Ok(b) && Normalize(b) != Ok(b)
  {
    var v := UpAndDown(a, b);
    TrimIff(v);
    assert v[0] == a[0] && v[|v| - 1] == b[|b| - 1];
    UpAndDownCleans(a, b);
    assert !StartsWith(b, "../") by {
      assert "../"[2] == '/';
    }
    NormalizeTwice(v);
  }

  // --- the policy ----------------------------------------------------------

  datatype Policy = Policy(allowedRepos: seq<string>, allowedDirs: seq<string>)

  type Config = map<string, Policy>

  predicate RepoAllowed(allowedRepos: seq<string>, repo: string) {
    exists i :: 0 <= i < |allowedRepos| && (Trim(allowedRepos[i]) == "*" || Trim(allowedRepos[i]) == Trim(repo))
  }

  predicate AcceptsRepo(db: Policy, repo: string) {
    |db.allowedRepos| == 0 || RepoAllowed(db.allowedRepos, repo)
  }

  // The search through the allowed directories gives up at an invalid entry.
  predicate DirAllowed(allowedDirs: seq<string>, path: string) {
    |allowedDirs| > 0
    && match Normalize(allowedDirs[0])
       case Err(_) => false
       case Ok(dir) => dir == "*" || PathCovers(dir, path) || DirAllowed(allowedDirs[1..], path)
  }

  predicate SchemaPathAllowed(allowedDirs: seq<string>, schemaPath: string) {
    Normalize(schemaPath).Ok? && DirAllowed(allowedDirs, Normalize(schemaPath).value)
  }

  datatype Verdict = Authorized | MissingDatabaseConfig | MissingRepository | MissingPullRequest | MissingSchemaPath
                   | UnauthorizedRepo | UnauthorizedSchemaDir

  function AuthorizePlanSource(c: Config, database: string, repo: string, pullRequest: int,
                               schemaPath: string): Verdict {
    if database !in c then MissingDatabaseConfig
    else
      var db := c[database];
      if |db.allowedRepos| == 0 && |db.allowedDirs| == 0 then Authorized
      else if Trim(repo) == "" then MissingRepository
      else if pullRequest <= 0 then MissingPullRequest
      else if Trim(schemaPath) == "" then MissingSchemaPath
      else if !AcceptsRepo(db, repo) then UnauthorizedRepo
      else if |db.allowedDirs| > 0 && !SchemaPathAllowed(db.allowedDirs, schemaPath) then UnauthorizedSchemaDir
      else Authorized
  }

  // What an allowed entry admits, by segments. The repository root admits
  // itself only.
  ghost predicate Admits(entry: string, path: string) {
    && Normalize(entry).Ok?
    && var dir := Normalize(entry).value;
       if dir == "*" then true else if dir == "." then path == "." else Segments(dir) <= Segments(path)
  }

  /** The policy by segments: a path is admitted exactly when some entry admits it
      and no entry before that one is malformed. */
  lemma {:induction false} DirAllowedIff(allowedDirs: seq<string>, schemaPath: string)
    requires Normalize(schemaPath).Ok?
    ensures DirAllowed(allowedDirs, Normalize(schemaPath).value)
            <==> exists k :: 0 <= k < |allowedDirs| && Admits(allowedDirs[k], Normalize(schemaPath).value)
                             && forall j :: 0 <= j < k ==> Normalize(allowedDirs[j]).Ok?
  {
    var path := Normalize(schemaPath).value;
    if |allowedDirs| == 0 {
    } else {
      var rest := allowedDirs[1..];
      DirAllowedIff(rest, schemaPath);
      FirstEntry(allowedDirs[0], schemaPath);
      if DirAllowed(rest, path) && Normalize(allowedDirs[0]).Ok? {
        var k :| 0 <= k < |rest| && Admits(rest[k], path) && forall j :: 0 <= j < k ==> Normalize(rest[j]).Ok?;
        assert Admits(allowedDirs[k + 1], path);
        assert forall j :: 0 < j < k + 1 ==> allowedDirs[j] == rest[j - 1];
      }
      if k :| && 0 < k < |allowedDirs| && Admits(allowedDirs[k], path)
              && forall j :: 0 <= j < k ==> Normalize(allowedDirs[j]).Ok? {
        assert Admits(rest[k - 1], path);
        assert forall j :: 0 <= j < k - 1 ==> rest[j] == allowedDirs[j + 1];
        assert Normalize(allowedDirs[0]).Ok?;
      }
    }
  }

  lemma FirstEntry(entry: string, schemaPath: string)
    requires Normalize(schemaPath).Ok?
    ensures var path := Normalize(schemaPath).value;
            Admits(entry, path)
            <==> Normalize(entry).Ok? && (Normalize(entry).value == "*" || PathCovers(Normalize(entry).value, path))
  {
    NormalizedIsPlain(schemaPath);
    if Normalize(entry).Ok? && Normalize(entry).value != "." {
      NormalizedIsPlain(entry);
      StringPrefixIsSegmentPrefix(Normalize(entry).value, Normalize(schemaPath).value);
    }
  }

  // The repository is listed, with white space around it or not, or all are.
  predicate ListsRepo(allowedRepos: seq<string>, repo: string) {
    exists i :: 0 <= i < |allowedRepos| && Trim(allowedRepos[i]) in {"*", Trim(repo)}
  }

  // Some entry admits the path, and every entry before it is well formed.
  ghost predicate ListsPath(allowedDirs: seq<string>, schemaPath: string) {
    && Normalize(schemaPath).Ok?
    && exists k :: && 0 <= k < |allowedDirs| && Admits(allowedDirs[k], Normalize(schemaPath).value)
                   && forall j :: 0 <= j < k ==> Normalize(allowedDirs[j]).Ok?
  }

  /** A plan is authorized exactly for a configured database that restricts nothing, or
      from a pull request of a listed repository with a listed path; an empty list
      lists all. */
  lemma AuthorizedIff(c: Config, database: string, repo: string, pullRequest: int, schemaPath: string)
    ensures AuthorizePlanSource(c, database, repo, pullRequest, schemaPath) == Authorized
            <==> && database in c
                 && var db := c[database];
                    || (db.allowedRepos == [] && db.allowedDirs == [])
                    || (&& Trim(repo) != "" && pullRequest > 0 && Trim(schemaPath) != ""
                        && (db.allowedRepos == [] || ListsRepo(db.allowedRepos, repo))
                        && (db.allowedDirs == [] || ListsPath(db.allowedDirs, schemaPath)))
  {
    if database in c {
      var db := c[database];
      assert RepoAllowed(db.allowedRepos, repo) <==> ListsRepo(db.allowedRepos, repo);
      if Normalize(schemaPath).Ok? {
        DirAllowedIff(db.allowedDirs, schemaPath);
      }
    }
  }

  // --- directory hints -----------------------------------------------------

  // An entry that a probe of one directory can cover.
  predicate Hintable(entry: string) {
    Normalize(entry).Ok? && Normalize(entry).value != "*" && Normalize(entry).value != "."
  }

  // The normalized forms of the hintable entries.
  ghost function HintedDirs(entries: seq<string>): set<string> {
    if |entries| == 0 then {}
    else
      var last := entries[|entries| - 1];
      HintedDirs(entries[..|entries| - 1]) + if Hintable(last) then {Normalize(last).value} else {}
  }

  ghost predicate HintedBy(db: Policy, dir: string) {
    dir in HintedDirs(db.allowedDirs)
  }

  /** The hinted directories are exactly the accepted entries below the root. */
  lemma {:induction false} HintedIff(entries: seq<string>, dir: string)
    ensures dir in HintedDirs(entries)
            <==> dir != "*" && dir != "." && exists k :: 0 <= k < |entries| && Normalize(entries[k]) == Ok(dir)
  {
    if |entries| == 0 {
    } else {
      var init, last := entries[..|entries| - 1], entries[|entries| - 1];
      HintedIff(init, dir);
      if k :| 0 <= k < |entries| && Normalize(entries[k]) == Ok(dir) {
        assert k == |entries| - 1 || init[k] == entries[k];
      }
      if k :| 0 <= k < |init| && Normalize(init[k]) == Ok(dir) {
        assert entries[k] == init[k];
      }
    }
  }

  lemma {:induction false} EveryHintableIsHinted(entries: seq<string>, k: nat)
    requires k < |entries| && Hintable(entries[k])
    ensures Normalize(entries[k]).value in HintedDirs(entries)
  {
    if k == |entries| - 1 {
    } else {
      EveryHintableIsHinted(entries[..|entries| - 1], k);
    }
  }

  predicate AllHintable(entries: seq<string>) {
    |entries| == 0 || (AllHintable(entries[..|entries| - 1]) && Hintable(entries[|entries| - 1]))
  }

  lemma {:induction false} AllHintableMeansEach(entries: seq<string>, k: nat)
    requires k < |entries| && AllHintable(entries)
    ensures Hintable(entries[k])
  {
    if k == |entries| - 1 {
    } else {
      AllHintableMeansEach(entries[..|entries| - 1], k);
    }
  }

  ghost predicate Probeable(db: Policy) {
    |db.allowedDirs| > 0 && AllHintable(db.allowedDirs)
  }

  // The hints of these databases: each hintable directory once, and whether
  // they are all there is.
  ghost predicate Hints(dbs: set<Policy>, dirs: seq<string>, exhaustive: bool) {
    && (exhaustive <==> forall db :: db in dbs ==> Probeable(db))
    && (forall dir :: dir in dirs <==> exists db :: db in dbs && HintedBy(db, dir))
    && Distinct(dirs)
  }

  ghost function Elements(s: seq<string>): set<string> {
    set x | x in s
  }

  // One database's entries, in order, each directory once.
  method AddDirs(db: Policy, dirs: seq<string>, seen: set<string>)
    returns (dirs': seq<string>, seen': set<string>, hintable: bool)
    requires Distinct(dirs) && seen == Elements(dirs)
    ensures hintable == AllHintable(db.allowedDirs)
    ensures seen' == seen + HintedDirs(db.allowedDirs)
    ensures Distinct(dirs') && seen' == Elements(dirs')
  {
    dirs', seen', hintable := dirs, seen, true;
    for n := 0 to |db.allowedDirs|
      invariant hintable == AllHintable(db.allowedDirs[..n])
      invariant seen' == seen + HintedDirs(db.allowedDirs[..n])
      invariant Distinct(dirs') && seen' == Elements(dirs')
    {
      HintsSnoc(db.allowedDirs, n);
      var ok;
      dirs', seen', ok := AddEntry(db.allowedDirs[n], dirs', seen');
      hintable := hintable && ok;
    }
    assert db.allowedDirs[..|db.allowedDirs|] == db.allowedDirs;
  }

  method AddEntry(entry: string, dirs: seq<string>, seen: set<string>)
    returns (dirs': seq<string>, seen': set<string>, ok: bool)
    requires Distinct(dirs) && seen == Elements(dirs)
    ensures ok == Hintable(entry)
    ensures seen' == seen + if Hintable(entry) then {Normalize(entry).value} else {}
    ensures Distinct(dirs') && seen' == Elements(dirs')
  {
    dirs', seen', ok := dirs, seen, Hintable(entry);
    if ok {
      var dir := Normalize(entry).value;
      if dir !in seen {
        AddedElement(dirs, dir);
        seen' := seen + {dir};
        dirs' := dirs + [dir];
      }
    }
  }

  lemma HintsSnoc(entries: seq<string>, n: nat)
    requires n < |entries|
    ensures AllHintable(entries[..n + 1]) <==> AllHintable(entries[..n]) && Hintable(entries[n])
    ensures HintedDirs(entries[..n + 1])
            == HintedDirs(entries[..n]) + if Hintable(entries[n]) then {Normalize(entries[n]).value} else {}
  {
    assert entries[..n + 1][..n] == entries[..n];
  }

  lemma AddedElement(dirs: seq<string>, dir: string)
    requires Distinct(dirs) && dir !in Elements(dirs)
    ensures Distinct(dirs + [dir]) && Elements(dirs + [dir]) == Elements(dirs) + {dir}
  {
  }

  method HintsForDatabase(c: Config, repo: string, database: string) returns (dirs: seq<string>, exhaustive: bool)
    ensures Hints(if database in c && AcceptsRepo(c[database], repo) then {c[database]} else {}, dirs, exhaustive)
    ensures Sorted(dirs)
  {
    if database !in c || !AcceptsRepo(c[database], repo) {
      return [], true;
    }
    var db := c[database];
    if |db.allowedDirs| == 0 {
      return [], false;
    }
    var found, seen, hintable := AddDirs(db, [], {});
    SortSorts(found);
    PermutationKeeps(found, Sort(found));
    dirs, exhaustive := Sort(found), hintable;
    assert forall dir :: dir in found <==> dir in seen;
    assert forall dir :: dir in dirs <==> HintedBy(db, dir);
  }

  // The databases among `names` that accept the repository.
  ghost function Accepting(c: Config, names: set<string>, repo: string): set<Policy>
    requires names <= c.Keys
  {
    set name | name in names && AcceptsRepo(c[name], repo) :: c[name]
  }

  method HintsForRepo(c: Config, repo: string) returns (dirs: seq<string>, exhaustive: bool)
    ensures Hints(Accepting(c, c.Keys, repo), dirs, exhaustive)
    ensures Sorted(dirs)
  {
    var found: seq<string>, seen: set<string> := [], {};
    exhaustive := true;
    var rest := c.Keys;
    while rest != {}
      invariant rest <= c.Keys
      invariant Hints(Accepting(c, c.Keys - rest, repo), found, exhaustive)
      invariant seen == Elements(found)
      decreases |rest|
    {
      var name :| name in rest;
      ghost var done := c.Keys - rest;
      rest := rest - {name};
      assert c.Keys - rest == done + {name};
      AcceptingNext(c, done, name, repo);
      if AcceptsRepo(c[name], repo) {
        if |c[name].allowedDirs| == 0 {
          HintsNext(Accepting(c, done, repo), c[name], found, found, exhaustive);
          exhaustive := false;
        } else {
          var found', seen', hintable := AddDirs(c[name], found, seen);
          forall dir
            ensures dir in found' <==> dir in found || HintedBy(c[name], dir)
          {
            assert dir in found' <==> dir in seen';
          }
          HintsNext(Accepting(c, done, repo), c[name], found, found', exhaustive);
          found, seen, exhaustive := found', seen', exhaustive && hintable;
        }
      }
    }
    assert c.Keys - rest == c.Keys;
    SortSorts(found);
    PermutationKeeps(found, Sort(found));
    dirs := Sort(found);
  }

  lemma HintsNext(dbs: set<Policy>, db: Policy, dirs: seq<string>, dirs': seq<string>, exhaustive: bool)
    requires Hints(dbs, dirs, exhaustive) && Distinct(dirs')
    requires forall dir :: dir in dirs' <==> dir in dirs || HintedBy(db, dir)
    ensures Hints(dbs + {db}, dirs', exhaustive && Probeable(db))
  {
    forall dir
      ensures dir in dirs' <==> exists x :: x in dbs + {db} && HintedBy(x, dir)
    {
      if HintedBy(db, dir) {
        assert db in dbs + {db};
      }
      if dir in dirs {
        var x :| x in dbs && HintedBy(x, dir);
        assert x in dbs + {db};
      }
    }
  }

  lemma AcceptingNext(c: Config, done: set<string>, name: string, repo: string)
    requires done <= c.Keys && name in c
    ensures Accepting(c, done + {name}, repo)
            == Accepting(c, done, repo) + if AcceptsRepo(c[name], repo) then {c[name]} else {}
  {
  }

  /** Where the hints are exhaustive, every path the policy accepts for one of the
      databases they were drawn from lies at or below a hinted directory. */
  lemma ExhaustiveHintsCover(c: Config, dbs: set<Policy>, dirs: seq<string>, database: string, repo: string,
                             pullRequest: int, schemaPath: string)
    requires Hints(dbs, dirs, true)
    requires database in c && (AcceptsRepo(c[database], repo) ==> c[database] in dbs)
    requires AuthorizePlanSource(c, database, repo, pullRequest, schemaPath) == Authorized
    ensures Normalize(schemaPath).Ok?
    ensures exists d :: d in dirs && Segments(d) <= Segments(Normalize(schemaPath).value)
  {
    var db := c[database];
    DirAllowedIff(db.allowedDirs, schemaPath);
    var path := Normalize(schemaPath).value;
    var k :| && 0 <= k < |db.allowedDirs| && Admits(db.allowedDirs[k], path)
             && forall j :: 0 <= j < k ==> Normalize(db.allowedDirs[j]).Ok?;
    assert db in dbs && Probeable(db);
    AllHintableMeansEach(db.allowedDirs, k);
    EveryHintableIsHinted(db.allowedDirs, k);
    assert HintedBy(db, Normalize(db.allowedDirs[k]).value);
  }
}
