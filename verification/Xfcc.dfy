/**
 Reading SPIFFE URIs out of an X-Forwarded-Client-Cert header
 (pkg/auth/forward_auth.go). Commas separate certificates and semicolons their
 key=value pairs, except inside double quotes. The parser is shown to undo the
 printing of any list of pairs, quoted or not.
 */
module Xfcc {
  import opened Wrappers
  import opened Text

  // --- tokens --------------------------------------------------------------

  datatype Scanner = Scanner(tokens: seq<string>, current: string, inQuote: bool)

  const START := Scanner([], "", false)

  predicate IsSeparator(c: char) {
    c == ',' || c == ';'
  }

  function Next(st: Scanner, c: char): Scanner {
    if c == '"' then Scanner(st.tokens, st.current + [c], !st.inQuote)
    else if IsSeparator(c) && !st.inQuote then Scanner(st.tokens + [st.current], "", false)
    else Scanner(st.tokens, st.current + [c], st.inQuote)
  }

  function Scan(st: Scanner, s: string): Scanner {
    if |s| == 0 then st else Next(Scan(st, s[..|s| - 1]), s[|s| - 1])
  }

  function Tokens(header: string): seq<string> {
    var st := Scan(START, header);
    if |st.current| > 0 then st.tokens + [st.current] else st.tokens
  }

  method SplitXfcc(header: string) returns (tokens: seq<string>)
    ensures tokens == Tokens(header)
  {
    tokens := [];
    var current := "";
    var inQuote := false;
    for i := 0 to |header|
      invariant Scanner(tokens, current, inQuote) == Scan(START, header[..i])
    {
      var c := header[i];
      assert header[..i + 1][..i] == header[..i];
      if c == '"' {
        inQuote := !inQuote;
        current := current + [c];
      } else if IsSeparator(c) && !inQuote {
        tokens := tokens + [current];
        current := "";
      } else {
        current := current + [c];
      }
    }
    assert header[..|header|] == header;
    if |current| > 0 {
      tokens := tokens + [current];
    }
  }

  // --- values --------------------------------------------------------------

  // The position of the first c, or |s|.
  function IndexOf(s: string, c: char): (k: nat)
    ensures k <= |s| && (forall j :: 0 <= j < k ==> s[j] != c) && (k < |s| ==> s[k] == c)
  {
    if |s| == 0 || s[0] == c then 0 else 1 + IndexOf(s[1..], c)
  }

  function TrimLeftQuotes(s: string): string {
    if |s| > 0 && s[0] == '"' then TrimLeftQuotes(s[1..]) else s
  }

  function TrimRightQuotes(s: string): string {
    if |s| > 0 && s[|s| - 1] == '"' then TrimRightQuotes(s[..|s| - 1]) else s
  }

  function TrimQuotes(s: string): string {
    TrimRightQuotes(TrimLeftQuotes(s))
  }

  // These three letters fold only to themselves in either case.
  predicate IsUriKey(key: string) {
    && |key| == 3 && (key[0] == 'U' || key[0] == 'u')
    && (key[1] == 'R' || key[1] == 'r') && (key[2] == 'I' || key[2] == 'i')
  }

  function UriOf(token: string): Option<string> {
    var k := IndexOf(token, '=');
    if k == |token| then None
    else
      var value := TrimQuotes(Trim(token[k + 1..]));
      if value != "" && IsUriKey(Trim(token[..k])) then Some(value) else None
  }

  function Uris(tokens: seq<string>): seq<string> {
    if |tokens| == 0 then []
    else
      Uris(tokens[..|tokens| - 1])
      + match UriOf(tokens[|tokens| - 1]) case None => [] case Some(uri) => [uri]
  }

  method ParseUris(header: string) returns (uris: seq<string>)
    ensures uris == Uris(Tokens(header))
  {
    uris := [];
    if header == "" {
      return;
    }
    var tokens := SplitXfcc(header);
    for i := 0 to |tokens|
      invariant uris == Uris(tokens[..i])
    {
      assert tokens[..i + 1][..i] == tokens[..i];
      var uri := UriOf(tokens[i]);
      if uri.Some? {
        uris := uris + [uri.value];
      }
    }
    assert tokens[..|tokens|] == tokens;
  }

  // --- printing ------------------------------------------------------------

  // A pair and the separator printed after it, if another pair follows.
  datatype Pair = Pair(key: string, value: string, quoted: bool, separator: char)

  predicate Printable(p: Pair) {
    && (forall i :: 0 <= i < |p.key| ==> p.key[i] != '"' && p.key[i] != '=' && !IsSeparator(p.key[i]))
    && (forall i :: 0 <= i < |p.value| ==> p.value[i] != '"' && (!p.quoted ==> !IsSeparator(p.value[i])))
    && IsSeparator(p.separator)
  }

  function Quoted(value: string): string {
    ['"'] + value + ['"']
  }

  function Item(p: Pair): string {
    p.key + ['='] + if p.quoted then Quoted(p.value) else p.value
  }

  // White space around a value that is not quoted is not part of it.
  function ReadBack(p: Pair): string {
    if p.quoted then p.value else Trim(p.value)
  }

  // The key is "uri" in capitals, small letters or a mixture, with white space
  // around it or not.
  predicate KeyIsUri(p: Pair) {
    Trim(p.key) in {"uri", "urI", "uRi", "uRI", "Uri", "UrI", "URi", "URI"}
  }

  function Closed(pairs: seq<Pair>): string {
    if |pairs| == 0 then ""
    else
      var init, last := pairs[..|pairs| - 1], pairs[|pairs| - 1];
      Closed(init) + Item(last) + [last.separator]
  }

  function Print(pairs: seq<Pair>): string {
    if |pairs| == 0 then "" else Closed(pairs[..|pairs| - 1]) + Item(pairs[|pairs| - 1])
  }

  function Items(pairs: seq<Pair>): seq<string> {
    if |pairs| == 0 then [] else Items(pairs[..|pairs| - 1]) + [Item(pairs[|pairs| - 1])]
  }

  // The values the header is read for.
  function UriValues(pairs: seq<Pair>): seq<string> {
    if |pairs| == 0 then []
    else
      var last := pairs[|pairs| - 1];
      UriValues(pairs[..|pairs| - 1]) + if KeyIsUri(last) && ReadBack(last) != "" then [ReadBack(last)] else []
  }

  // --- the scanner reads back the items ------------------------------------

  lemma {:induction false} ScanDistributes(st: Scanner, a: string, b: string)
    ensures Scan(st, a + b) == Scan(Scan(st, a), b)
  {
    if |b| == 0 {
      assert a + b == a;
    } else {
      ScanDistributes(st, a, b[..|b| - 1]);
      assert (a + b)[..|a + b| - 1] == a + b[..|b| - 1];
    }
  }

  lemma ScanOne(st: Scanner, c: char)
    ensures Scan(st, [c]) == Next(st, c)
  {
    assert [c][..0] == "";
  }

  // Text without quotes is collected, separators too when inside quotes.
  lemma {:induction false} ScanCollects(st: Scanner, s: string)
    requires forall i :: 0 <= i < |s| ==> s[i] != '"' && (IsSeparator(s[i]) ==> st.inQuote)
    ensures Scan(st, s) == Scanner(st.tokens, st.current + s, st.inQuote)
  {
    if |s| == 0 {
      assert st.current + s == st.current;
    } else {
      ScanCollects(st, s[..|s| - 1]);
      assert s == s[..|s| - 1] + [s[|s| - 1]];
      assert st.current + s == st.current + s[..|s| - 1] + [s[|s| - 1]];
    }
  }

  lemma ScanQuoted(tokens: seq<string>, current: string, value: string)
    requires forall i :: 0 <= i < |value| ==> value[i] != '"'
    ensures Scan(Scanner(tokens, current, false), Quoted(value))
            == Scanner(tokens, current + ['"'] + value + ['"'], false)
  {
    var st := Scanner(tokens, current, false);
    ScanDistributes(st, ['"'] + value, ['"']);
    ScanDistributes(st, ['"'], value);
    ScanOne(st, '"');
    ScanCollects(Scanner(tokens, current + ['"'], true), value);
    ScanOne(Scanner(tokens, current + ['"'] + value, true), '"');
  }

  lemma ScanKey(tokens: seq<string>, key: string)
    requires forall i :: 0 <= i < |key| ==> key[i] != '"' && !IsSeparator(key[i])
    ensures Scan(Scanner(tokens, "", false), key + ['=']) == Scanner(tokens, key + ['='], false)
  {
    ScanCollects(Scanner(tokens, "", false), key + ['=']);
    EmptyIsNeutral(key + ['=']);
  }

  lemma ScanValue(tokens: seq<string>, key: string, p: Pair)
    requires Printable(p)
    ensures var printed := if p.quoted then Quoted(p.value) else p.value;
            Scan(Scanner(tokens, key, false), printed) == Scanner(tokens, key + printed, false)
  {
    if p.quoted {
      ScanQuoted(tokens, key, p.value);
      assert key + ['"'] + p.value + ['"'] == key + Quoted(p.value);
    } else {
      ScanCollects(Scanner(tokens, key, false), p.value);
    }
  }

  lemma ScanItem(tokens: seq<string>, p: Pair)
    requires Printable(p)
    ensures Scan(Scanner(tokens, "", false), Item(p)) == Scanner(tokens, Item(p), false)
  {
    ScanDistributes(Scanner(tokens, "", false), p.key + ['='], if p.quoted then Quoted(p.value) else p.value);
    ScanKey(tokens, p.key);
    ScanValue(tokens, p.key + ['='], p);
  }

  lemma {:induction false} ScanClosed(pairs: seq<Pair>)
    requires forall i :: 0 <= i < |pairs| ==> Printable(pairs[i])
    ensures Scan(START, Closed(pairs)) == Scanner(Items(pairs), "", false)
  {
    if |pairs| == 0 {
    } else {
      var init, last := pairs[..|pairs| - 1], pairs[|pairs| - 1];
      ScanClosed(init);
      ScanDistributes(START, Closed(init) + Item(last), [last.separator]);
      ScanDistributes(START, Closed(init), Item(last));
      ScanItem(Items(init), last);
      ScanOne(Scanner(Items(init), Item(last), false), last.separator);
    }
  }

  lemma TokensOfPrint(pairs: seq<Pair>)
    requires forall i :: 0 <= i < |pairs| ==> Printable(pairs[i])
    ensures Tokens(Print(pairs)) == Items(pairs)
  {
    if |pairs| > 0 {
      var init, last := pairs[..|pairs| - 1], pairs[|pairs| - 1];
      ScanClosed(init);
      ScanDistributes(START, Closed(init), Item(last));
      ScanItem(Items(init), last);
    }
  }

  // --- each item reads back as its pair ------------------------------------

  lemma TrimLeavesQuoted(value: string)
    ensures Trim(Quoted(value)) == Quoted(value)
  {
  }

  lemma TrimQuotesUndoesQuoted(value: string)
    requires forall i :: 0 <= i < |value| ==> value[i] != '"'
    ensures TrimQuotes(Quoted(value)) == value
  {
    var q := Quoted(value);
    assert q[1..] == value + ['"'];
    if value == "" {
      assert q[1..][1..] == "";
      assert TrimLeftQuotes(q) == TrimLeftQuotes(q[1..]) == TrimLeftQuotes("");
    } else {
      assert TrimLeftQuotes(q) == TrimLeftQuotes(q[1..]) == value + ['"'];
      assert (value + ['"'])[..|value|] == value;
      assert TrimRightQuotes(value + ['"']) == TrimRightQuotes(value);
    }
  }

  lemma UriOfItem(p: Pair)
    requires Printable(p)
    ensures UriOf(Item(p)) == if KeyIsUri(p) && ReadBack(p) != "" then Some(ReadBack(p)) else None
  {
    var item := Item(p);
    assert item[|p.key|] == '=';
    assert forall j :: 0 <= j < |p.key| ==> item[j] == p.key[j];
    assert IndexOf(item, '=') == |p.key|;
    assert item[..|p.key|] == p.key;
    assert item[|p.key| + 1..] == if p.quoted then Quoted(p.value) else p.value;
    UriKeyIff(Trim(p.key));
    if p.quoted {
      TrimLeavesQuoted(p.value);
      TrimQuotesUndoesQuoted(p.value);
    } else {
      TrimLeftTakes(p.value);
      TrimRightTakes(TrimLeft(p.value));
      NoQuotesToTrim(Trim(p.value));
    }
  }

  lemma UriKeyIff(key: string)
    ensures IsUriKey(key) <==> key in {"uri", "urI", "uRi", "uRI", "Uri", "UrI", "URi", "URI"}
  {
    if IsUriKey(key) {
      assert key == [key[0], key[1], key[2]];
    }
  }

  lemma {:induction false} TrimLeftTakes(s: string)
    ensures forall c :: c in TrimLeft(s) ==> c in s
  {
    if |s| == 0 || !IsSpace(s[0]) {
    } else {
      TrimLeftTakes(s[1..]);
    }
  }

  lemma {:induction false} TrimRightTakes(s: string)
    ensures forall c :: c in TrimRight(s) ==> c in s
  {
    if |s| == 0 || !IsSpace(s[|s| - 1]) {
    } else {
      TrimRightTakes(s[..|s| - 1]);
    }
  }

  lemma NoQuotesToTrim(s: string)
    requires '"' !in s
    ensures TrimQuotes(s) == s
  {
    assert |s| > 0 ==> s[0] in s && s[|s| - 1] in s;
  }

  lemma {:induction false} UrisOfItems(pairs: seq<Pair>)
    requires forall i :: 0 <= i < |pairs| ==> Printable(pairs[i])
    ensures Uris(Items(pairs)) == UriValues(pairs)
  {
    if |pairs| == 0 {
    } else {
      var init, last := pairs[..|pairs| - 1], pairs[|pairs| - 1];
      UrisOfItems(init);
      UriOfItem(last);
      assert Items(pairs)[..|Items(pairs)| - 1] == Items(init);
    }
  }

  /** Parsing undoes printing: the non-empty URI values, in order; the quoted ones may
      contain commas and semicolons, and all may contain equals signs. */
  lemma ParseUndoesPrint(pairs: seq<Pair>)
    requires forall i :: 0 <= i < |pairs| ==> Printable(pairs[i])
    ensures Uris(Tokens(Print(pairs))) == UriValues(pairs)
  {
    TokensOfPrint(pairs);
    UrisOfItems(pairs);
  }
}
