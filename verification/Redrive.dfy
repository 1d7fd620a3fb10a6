/**
 The paged crawl behind a webhook redrive (pkg/api/webhook_ops_handlers.go):
 walk the delivery history newest first, remember which GUIDs have a successful
 attempt, and select the failed deliveries in the window that still need one.

 The history is a function from cursor to page, since records never change.
 `Picks` says which delivery of a listing is selected by looking at the listing
 alone; the crawl, its continuation across requests and its repetition are
 compared with it.
 */
module Redrive {
  import opened Wrappers

  // What the repo and pull request filter finds in a delivery's payload; None
  // when the payload cannot be fetched or parsed.
  datatype Payload = Payload(repo: string, prs: seq<int>)

  datatype Delivery = Delivery(id: int, guid: string, deliveredAt: Option<int>, statusCode: int,
                               event: string, action: string, payload: Option<Payload>)

  datatype Listing = ListError | Listing(deliveries: seq<Delivery>, next: string)

  type History = string -> Listing

  // `fold` is the case folding repository names are compared under.
  datatype Query = Query(windowStart: int, windowEnd: int, repo: string, pr: int, fold: string -> string)

  predicate Succeeded(d: Delivery) {
    d.statusCode / 100 == 2
  }

  predicate Eligible(d: Delivery) {
    && d.id != 0
    && if d.event == "pull_request" then
         d.action == "opened" || d.action == "synchronize" || d.action == "reopened" || d.action == "ready_for_review"
       else if d.event == "check_suite" then d.action == "requested"
       else d.event == "merge_group" && d.action == "checks_requested"
  }

  datatype Resolution = Unresolved | FilteredOut | Kept

  function Resolve(q: Query, d: Delivery): Resolution {
    if q.repo == "" && q.pr == 0 then Kept
    else match d.payload
      case None => Unresolved
      case Some(p) =>
        if q.repo != "" && q.fold(p.repo) != q.fold(q.repo) then FilteredOut
        else if q.pr != 0 && q.pr !in p.prs then FilteredOut
        else Kept
  }

  predicate Candidate(q: Query, d: Delivery) {
    && d.deliveredAt.Some? && !Succeeded(d)
    && q.windowStart <= d.deliveredAt.value <= q.windowEnd
    && Eligible(d)
  }

  // --- what a listing's selection is ---------------------------------------

  // A success without a delivery time is passed over like any such record.
  predicate HasSuccess(ds: seq<Delivery>, guid: string) {
    guid != "" && exists j :: 0 <= j < |ds| && ds[j].deliveredAt.Some? && Succeeded(ds[j]) && ds[j].guid == guid
  }

  predicate PickedAfter(q: Query, seen: seq<Delivery>, d: Delivery) {
    Candidate(q, d) && Resolve(q, d) == Kept && !HasSuccess(seen, d.guid)
  }

  predicate Picks(q: Query, ds: seq<Delivery>, i: nat)
    requires i < |ds|
  {
    PickedAfter(q, ds[..i], ds[i])
  }

  function Chosen(q: Query, ds: seq<Delivery>): seq<Delivery> {
    if |ds| == 0 then []
    else
      var last := |ds| - 1;
      Chosen(q, ds[..last]) + if Picks(q, ds, last) then [ds[last]] else []
  }

  predicate Skips(q: Query, seen: seq<Delivery>, d: Delivery) {
    Candidate(q, d) && !HasSuccess(seen, d.guid) && Resolve(q, d) == Unresolved
  }

  function SkippedIn(q: Query, ds: seq<Delivery>): nat {
    if |ds| == 0 then 0
    else
      var last := |ds| - 1;
      SkippedIn(q, ds[..last])
      + if Skips(q, ds[..last], ds[last]) then 1 else 0
  }

  function Flatten(pages: seq<seq<Delivery>>): seq<Delivery> {
    if |pages| == 0 then [] else Flatten(pages[..|pages| - 1]) + pages[|pages| - 1]
  }

  // --- which pages a request visits, and how it ends -----------------------

  datatype End = ReachedWindowStart | HistoryExhausted | More(cursor: string) | ListingFailed

  predicate PassesWindow(q: Query, page: seq<Delivery>) {
    |page| > 0 && page[|page| - 1].deliveredAt.Some? && page[|page| - 1].deliveredAt.value < q.windowStart
  }

  // None: go on at the listing's next cursor.
  function PageEnd(q: Query, l: Listing): Option<End> {
    if l.ListError? then Some(ListingFailed)
    else if |l.deliveries| == 0 then Some(HistoryExhausted)
    else if PassesWindow(q, l.deliveries) then Some(ReachedWindowStart)
    else if l.next == "" then Some(HistoryExhausted)
    else None
  }

  function PageOf(l: Listing): seq<Delivery> {
    if l.ListError? then [] else l.deliveries
  }

  function Visited(h: History, q: Query, cursor: string, maxPages: nat): seq<seq<Delivery>>
    decreases maxPages
  {
    if maxPages == 0 then []
    else
      [PageOf(h(cursor))] + if PageEnd(q, h(cursor)).Some? then [] else Visited(h, q, h(cursor).next, maxPages - 1)
  }

  function EndOf(h: History, q: Query, cursor: string, maxPages: nat): End
    decreases maxPages
  {
    if maxPages == 0 then More(cursor)
    else match PageEnd(q, h(cursor))
      case Some(end) => end
      case None => EndOf(h, q, h(cursor).next, maxPages - 1)
  }

  // --- the crawl -----------------------------------------------------------

  datatype Report = Report(pages: nat, fetched: nat, selected: seq<Delivery>, skipped: nat,
                           reachedWindowStart: bool, historyExhausted: bool, nextCursor: string, failed: bool)

  // What the crawl carries from page to page, after the deliveries `seen`.
  ghost predicate Scanned(q: Query, seen: seq<Delivery>, succeeded: set<string>, selected: seq<Delivery>,
                          skipped: nat) {
    && (forall g :: g in succeeded <==> HasSuccess(seen, g))
    && selected == Chosen(q, seen)
    && skipped == SkippedIn(q, seen)
  }

  // One delivery of the inner loop.
  method ScanDelivery(q: Query, d: Delivery, ghost seen: seq<Delivery>, succeeded: set<string>,
                      selected: seq<Delivery>, skipped: nat)
    returns (succeeded': set<string>, selected': seq<Delivery>, skipped': nat)
    requires Scanned(q, seen, succeeded, selected, skipped)
    ensures Scanned(q, seen + [d], succeeded', selected', skipped')
  {
    succeeded', selected', skipped' := succeeded, selected, skipped;
    ExtendByOne(q, seen, d);
    if d.deliveredAt.None? {
      return;
    }
    if Succeeded(d) {
      if d.guid != "" {
        succeeded' := succeeded' + {d.guid};
      }
      return;
    }
    if !Candidate(q, d) || d.guid in succeeded {
      return;
    }
    var r := Resolve(q, d);
    if r == Unresolved {
      skipped' := skipped' + 1;
    } else if r == Kept {
      selected' := selected' + [d];
    }
  }

  method ScanPage(q: Query, page: seq<Delivery>, ghost seen: seq<Delivery>, succeeded: set<string>,
                  selected: seq<Delivery>, skipped: nat)
    returns (succeeded': set<string>, selected': seq<Delivery>, skipped': nat)
    requires Scanned(q, seen, succeeded, selected, skipped)
    ensures Scanned(q, seen + page, succeeded', selected', skipped')
  {
    succeeded', selected', skipped' := succeeded, selected, skipped;
    assert seen + page[..0] == seen;
    for i := 0 to |page|
      invariant Scanned(q, seen + page[..i], succeeded', selected', skipped')
    {
      succeeded', selected', skipped' := ScanDelivery(q, page[i], seen + page[..i], succeeded', selected', skipped');
      assert seen + page[..i + 1] == (seen + page[..i]) + [page[i]];
    }
    assert page[..|page|] == page;
  }

  lemma ExtendByOne(q: Query, ds: seq<Delivery>, d: Delivery)
    ensures forall g ::
              HasSuccess(ds + [d], g)
              <==> HasSuccess(ds, g) || (g != "" && g == d.guid && d.deliveredAt.Some? && Succeeded(d))
    ensures Chosen(q, ds + [d])
            == Chosen(q, ds) + if PickedAfter(q, ds, d) then [d] else []
    ensures SkippedIn(q, ds + [d])
            == SkippedIn(q, ds) + if Skips(q, ds, d) then 1 else 0
  {
    SuccessDistributes(ds, [d]);
    forall g
      ensures HasSuccess([d], g) <==> g != "" && g == d.guid && d.deliveredAt.Some? && Succeeded(d)
    {
      assert [d][0] == d;
    }
    assert (ds + [d])[..|ds|] == ds;
  }

  lemma SuccessDistributes(a: seq<Delivery>, b: seq<Delivery>)
    ensures forall g :: HasSuccess(a + b, g) <==> HasSuccess(a, g) || HasSuccess(b, g)
  {
    forall g | HasSuccess(b, g)
      ensures HasSuccess(a + b, g)
    {
      var j :| 0 <= j < |b| && b[j].deliveredAt.Some? && Succeeded(b[j]) && b[j].guid == g;
      assert (a + b)[|a| + j] == b[j];
    }
    forall g | HasSuccess(a, g)
      ensures HasSuccess(a + b, g)
    {
      var j :| 0 <= j < |a| && a[j].deliveredAt.Some? && Succeeded(a[j]) && a[j].guid == g;
      assert (a + b)[j] == a[j];
    }
  }

  predicate Reports(r: Report, q: Query, pages: seq<seq<Delivery>>, end: End) {
    && r.pages == |pages| && r.fetched == |Flatten(pages)|
    && r.selected == Chosen(q, Flatten(pages)) && r.skipped == SkippedIn(q, Flatten(pages))
    && r.failed == end.ListingFailed?
    && r.reachedWindowStart == end.ReachedWindowStart?
    && r.historyExhausted == end.HistoryExhausted?
    && r.nextCursor == if end.More? then end.cursor else ""
  }

  // The crawl has visited `visited`, and either goes on at `cursor` or has ended.
  ghost predicate OnTrack(h: History, q: Query, start: string, maxPages: nat, visited: seq<seq<Delivery>>,
                          cursor: string, end: Option<End>) {
    && |visited| <= maxPages
    && match end
       case None =>
         && Visited(h, q, start, maxPages) == visited + Visited(h, q, cursor, maxPages - |visited|)
         && EndOf(h, q, start, maxPages) == EndOf(h, q, cursor, maxPages - |visited|)
       case Some(e) => Visited(h, q, start, maxPages) == visited && EndOf(h, q, start, maxPages) == e
  }

  lemma NextPageStaysOnTrack(h: History, q: Query, start: string, maxPages: nat, visited: seq<seq<Delivery>>,
                             cursor: string)
    requires OnTrack(h, q, start, maxPages, visited, cursor, None) && |visited| < maxPages
    ensures var l := h(cursor);
            var end := PageEnd(q, l);
            OnTrack(h, q, start, maxPages, visited + [PageOf(l)], if end == None then l.next else cursor, end)
  {
    var l := h(cursor);
    var rest := Visited(h, q, cursor, maxPages - |visited|);
    if PageEnd(q, l) == None {
      var tail := Visited(h, q, l.next, maxPages - |visited| - 1);
      assert visited + rest == (visited + [PageOf(l)]) + tail;
    } else {
      assert rest == [PageOf(l)];
    }
  }

  lemma FlattenSnoc(pages: seq<seq<Delivery>>, page: seq<Delivery>)
    ensures Flatten(pages + [page]) == Flatten(pages) + page
  {
    assert (pages + [page])[..|pages|] == pages;
  }

  /** The crawl loop: it visits exactly the pages `Visited` names, ends as `EndOf`
      says, and selects exactly what `Picks` picks out of what it saw. */
  method Crawl(h: History, q: Query, startCursor: string, maxPages: nat) returns (r: Report)
    ensures Reports(r, q, Visited(h, q, startCursor, maxPages), EndOf(h, q, startCursor, maxPages))
    ensures var ds := Flatten(Visited(h, q, startCursor, maxPages));
            r.selected == RedrivenOf(q, ds, |ds|) && r.skipped == SkippedOf(q, ds, |ds|)
  {
    var pages, fetched := 0, 0;
    var cursor := startCursor;
    var succeeded: set<string>, selected: seq<Delivery>, skipped: nat := {}, [], 0;
    var end: Option<End> := None;
    ghost var visited: seq<seq<Delivery>> := [];
    while pages < maxPages && end.None?
      invariant OnTrack(h, q, startCursor, maxPages, visited, cursor, end)
      invariant pages == |visited| && fetched == |Flatten(visited)|
      invariant Scanned(q, Flatten(visited), succeeded, selected, skipped)
      decreases maxPages - pages
    {
      var l := h(cursor);
      var page := PageOf(l);
      NextPageStaysOnTrack(h, q, startCursor, maxPages, visited, cursor);
      FlattenSnoc(visited, page);
      pages := pages + 1;
      succeeded, selected, skipped := ScanPage(q, page, Flatten(visited), succeeded, selected, skipped);
      fetched := fetched + |page|;
      visited := visited + [page];
      end := PageEnd(q, l);
      if end.None? {
        cursor := l.next;
      }
    }
    var how := if end.None? then More(cursor) else end.value;
    assert Visited(h, q, startCursor, maxPages) == visited && how == EndOf(h, q, startCursor, maxPages);
    r := MakeReport(pages, fetched, selected, skipped, how);
    ReportMeans(r, q, visited, how);
  }

  function MakeReport(pages: nat, fetched: nat, selected: seq<Delivery>, skipped: nat, end: End): Report {
    Report(pages, fetched, selected, skipped, end.ReachedWindowStart?, end.HistoryExhausted?,
           if end.More? then end.cursor else "", end.ListingFailed?)
  }

  // --- what the report means, delivery by delivery -------------------------

  const REDRIVEN := {
    ("pull_request", "opened"), ("pull_request", "synchronize"), ("pull_request", "reopened"),
    ("pull_request", "ready_for_review"), ("check_suite", "requested"), ("merge_group", "checks_requested")
  }

  predicate Accepted(d: Delivery) {
    200 <= d.statusCode <= 299
  }

  // A failed delivery of the window that asks for checks.
  predicate Missed(q: Query, d: Delivery) {
    && d.deliveredAt.Some? && q.windowStart <= d.deliveredAt.value <= q.windowEnd
    && !Accepted(d) && d.id != 0 && (d.event, d.action) in REDRIVEN
  }

  // The filter, if any, needs the payload and finds the repository and the pull
  // request it asks for.
  predicate PassesFilter(q: Query, d: Delivery) {
    (q.repo != "" || q.pr != 0) ==>
      && d.payload.Some?
      && (q.repo != "" ==> q.fold(d.payload.value.repo) == q.fold(q.repo))
      && (q.pr != 0 ==> q.pr in d.payload.value.prs)
  }

  predicate CannotFilter(q: Query, d: Delivery) {
    (q.repo != "" || q.pr != 0) && d.payload.None?
  }

  // A delivery of the same GUID listed before it, hence newer, was accepted.
  predicate MadeUp(ds: seq<Delivery>, i: nat)
    requires i < |ds|
  {
    ds[i].guid != "" && exists j :: 0 <= j < i && ds[j].guid == ds[i].guid && ds[j].deliveredAt.Some? && Accepted(ds[j])
  }

  predicate ToRedrive(q: Query, ds: seq<Delivery>, i: nat)
    requires i < |ds|
  {
    Missed(q, ds[i]) && PassesFilter(q, ds[i]) && !MadeUp(ds, i)
  }

  predicate ToSkip(q: Query, ds: seq<Delivery>, i: nat)
    requires i < |ds|
  {
    Missed(q, ds[i]) && CannotFilter(q, ds[i]) && !MadeUp(ds, i)
  }

  // The deliveries among the first n that are to be redriven, and how many cannot
  // be decided.
  function RedrivenOf(q: Query, ds: seq<Delivery>, n: nat): seq<Delivery>
    requires n <= |ds|
  {
    if n == 0 then [] else RedrivenOf(q, ds, n - 1) + if ToRedrive(q, ds, n - 1) then [ds[n - 1]] else []
  }

  function SkippedOf(q: Query, ds: seq<Delivery>, n: nat): nat
    requires n <= |ds|
  {
    if n == 0 then 0 else SkippedOf(q, ds, n - 1) + if ToSkip(q, ds, n - 1) then 1 else 0
  }

  lemma OneDeliveryMeans(q: Query, d: Delivery)
    ensures Succeeded(d) <==> Accepted(d)
    ensures Candidate(q, d) <==> Missed(q, d)
    ensures Resolve(q, d) == Kept <==> PassesFilter(q, d)
    ensures Resolve(q, d) == Unresolved <==> CannotFilter(q, d)
  {
  }

  lemma HasSuccessIff(ds: seq<Delivery>, i: nat)
    requires i < |ds|
    ensures HasSuccess(ds[..i], ds[i].guid) <==> MadeUp(ds, i)
  {
    if MadeUp(ds, i) {
      var j :| 0 <= j < i && ds[j].guid == ds[i].guid && ds[j].deliveredAt.Some? && Accepted(ds[j]);
      assert ds[..i][j] == ds[j];
    }
  }

  lemma {:induction false} ChosenMeans(q: Query, ds: seq<Delivery>, n: nat)
    requires n <= |ds|
    ensures Chosen(q, ds[..n]) == RedrivenOf(q, ds, n) && SkippedIn(q, ds[..n]) == SkippedOf(q, ds, n)
  {
    if n == 0 {
    } else {
      ChosenMeans(q, ds, n - 1);
      OneDeliveryMeans(q, ds[n - 1]);
      HasSuccessIff(ds, n - 1);
      assert ds[..n][..n - 1] == ds[..n - 1];
    }
  }

  lemma {:induction false} RedrivenIff(q: Query, ds: seq<Delivery>, n: nat, d: Delivery)
    requires n <= |ds|
    ensures d in RedrivenOf(q, ds, n) <==> exists i :: 0 <= i < n && ds[i] == d && ToRedrive(q, ds, i)
  {
    if n == 0 {
    } else {
      RedrivenIff(q, ds, n - 1, d);
    }
  }

  /** What a report says of the deliveries its pages hold: exactly the missed ones that
      pass the filter and were not made up for since are selected, in order; those
      that cannot be filtered are skipped. */
  lemma ReportMeans(r: Report, q: Query, pages: seq<seq<Delivery>>, end: End)
    requires Reports(r, q, pages, end)
    ensures var ds := Flatten(pages);
            && r.selected == RedrivenOf(q, ds, |ds|) && r.skipped == SkippedOf(q, ds, |ds|)
            && forall d :: d in r.selected <==> exists i :: 0 <= i < |ds| && ds[i] == d && ToRedrive(q, ds, i)
  {
    var ds := Flatten(pages);
    assert ds[..|ds|] == ds;
    ChosenMeans(q, ds, |ds|);
    forall d
      ensures d in r.selected <==> exists i :: 0 <= i < |ds| && ds[i] == d && ToRedrive(q, ds, i)
    {
      RedrivenIff(q, ds, |ds|, d);
    }
  }

  // --- where the crawl goes and why it ends --------------------------------

  function NextOf(l: Listing): string {
    if l.ListError? then "" else l.next
  }

  // The cursor of page k when each page is followed by its listing's next.
  function CursorAt(h: History, cursor: string, k: nat): string
    decreases k
  {
    if k == 0 then cursor else CursorAt(h, NextOf(h(cursor)), k - 1)
  }

  // The page's oldest delivery is from before the window.
  predicate Passed(q: Query, l: Listing) {
    && l.Listing? && |l.deliveries| > 0
    && var oldest := l.deliveries[|l.deliveries| - 1].deliveredAt;
       oldest.Some? && oldest.value < q.windowStart
  }

  predicate Exhausted(q: Query, l: Listing) {
    l.Listing? && (l.deliveries == [] || (!Passed(q, l) && l.next == ""))
  }

  // The crawl goes on behind this page.
  predicate GoesOn(q: Query, l: Listing) {
    l.Listing? && !Passed(q, l) && !Exhausted(q, l)
  }

  /** The crawl follows the listing's cursors, over pages it goes on behind. */
  lemma {:induction false} CrawlFollowsTheListing(h: History, q: Query, cursor: string, maxPages: nat, k: nat)
    requires k < |Visited(h, q, cursor, maxPages)|
    ensures var pages, l := Visited(h, q, cursor, maxPages), h(CursorAt(h, cursor, k));
            && pages[k] == (if l.Listing? then l.deliveries else [])
            && (k < |pages| - 1 ==> GoesOn(q, l))
    decreases k
  {
    var l := h(cursor);
    if k == 0 {
      assert PageEnd(q, l).None? ==> GoesOn(q, l);
    } else {
      CrawlFollowsTheListing(h, q, l.next, maxPages - 1, k - 1);
    }
  }

  /** It ends when a page fails, is empty, passes the window's start or has no next,
      or the budget is spent; and says which, and where to go on. */
  lemma {:induction false} CrawlEndsBecause(h: History, q: Query, cursor: string, maxPages: nat)
    ensures var pages, end := Visited(h, q, cursor, maxPages), EndOf(h, q, cursor, maxPages);
            && |pages| <= maxPages && (pages == [] <==> maxPages == 0)
            && (end.More? ==> |pages| == maxPages && end.cursor == CursorAt(h, cursor, maxPages))
            && (pages != [] ==>
                  var l := h(CursorAt(h, cursor, |pages| - 1));
                  && (end.ListingFailed? <==> l.ListError?)
                  && (end.ReachedWindowStart? <==> Passed(q, l))
                  && (end.HistoryExhausted? <==> Exhausted(q, l)))
    decreases maxPages
  {
    if maxPages == 0 {
    } else if PageEnd(q, h(cursor)).None? {
      CrawlEndsBecause(h, q, h(cursor).next, maxPages - 1);
    }
  }

  // --- what the selection means --------------------------------------------

  // Exactly the picked deliveries are selected, in listing order.
  lemma {:induction false} SelectedIffPicked(q: Query, ds: seq<Delivery>, d: Delivery)
    ensures d in Chosen(q, ds) <==> exists i :: 0 <= i < |ds| && ds[i] == d && Picks(q, ds, i)
  {
    if |ds| == 0 {
    } else {
      var last := |ds| - 1;
      var init := ds[..last];
      SelectedIffPicked(q, init, d);
      forall i | 0 <= i < last
        ensures Picks(q, ds, i) <==> Picks(q, init, i)
      {
        assert init[..i] == ds[..i];
      }
      if i :| 0 <= i < last && init[i] == d && Picks(q, init, i) {
        assert ds[i] == d && Picks(q, ds, i);
      }
    }
  }

  // What a listing contributes after the deliveries `before`.
  function Late(q: Query, before: seq<Delivery>, ds: seq<Delivery>): seq<Delivery> {
    if |ds| == 0 then []
    else
      var last := |ds| - 1;
      Late(q, before, ds[..last]) + if PickedAfter(q, before + ds[..last], ds[last]) then [ds[last]] else []
  }

  lemma {:induction false} ChosenSplits(q: Query, a: seq<Delivery>, b: seq<Delivery>)
    ensures Chosen(q, a + b) == Chosen(q, a) + Late(q, a, b)
  {
    if |b| == 0 {
      assert a + b == a;
    } else {
      var last := |b| - 1;
      ChosenSplits(q, a, b[..last]);
      assert (a + b)[..|a| + last] == a + b[..last];
    }
  }

  // The pickings of ds that succeeded in `before` are all that is dropped.
  predicate Repeats(q: Query, before: seq<Delivery>, ds: seq<Delivery>) {
    exists i :: 0 <= i < |ds| && Picks(q, ds, i) && HasSuccess(before, ds[i].guid)
  }

  lemma {:induction false} LateDropsExactlyRepeats(q: Query, before: seq<Delivery>, ds: seq<Delivery>)
    ensures multiset(Late(q, before, ds)) <= multiset(Chosen(q, ds))
    ensures |Late(q, before, ds)| <= |Chosen(q, ds)|
    ensures |Late(q, before, ds)| == |Chosen(q, ds)| <==> !Repeats(q, before, ds)
    ensures !Repeats(q, before, ds) ==> Late(q, before, ds) == Chosen(q, ds)
  {
    if |ds| == 0 {
    } else {
      var last := |ds| - 1;
      LateDropsExactlyRepeats(q, before, ds[..last]);
      RepeatsSplits(q, before, ds);
      SuccessDistributes(before, ds[..last]);
    }
  }

  lemma RepeatsSplits(q: Query, before: seq<Delivery>, ds: seq<Delivery>)
    requires |ds| > 0
    ensures var last := |ds| - 1;
            Repeats(q, before, ds)
            <==> Repeats(q, before, ds[..last]) || (Picks(q, ds, last) && HasSuccess(before, ds[last].guid))
  {
    var last := |ds| - 1;
    forall i | 0 <= i < last
      ensures Picks(q, ds, i) <==> Picks(q, ds[..last], i)
    {
      assert ds[..last][..i] == ds[..i];
    }
    if Repeats(q, before, ds[..last]) {
      var i :| 0 <= i < last && Picks(q, ds[..last], i) && HasSuccess(before, ds[..last][i].guid);
      assert Picks(q, ds, i) && HasSuccess(before, ds[i].guid);
    }
  }

  // --- exits ---------------------------------------------------------------

  lemma {:induction false} ContinuesAtARealCursor(h: History, q: Query, cursor: string, maxPages: nat)
    requires EndOf(h, q, cursor, maxPages).More?
    ensures EndOf(h, q, cursor, maxPages).cursor == "" <==> maxPages == 0 && cursor == ""
    decreases maxPages
  {
    if maxPages == 0 {
    } else {
      ContinuesAtARealCursor(h, q, h(cursor).next, maxPages - 1);
    }
  }

  /** Exactly one of the three coverage facts is reported, unless no page at all
      was asked for from the start of the history. */
  lemma ExitIsOneOfThree(h: History, q: Query, cursor: string, maxPages: nat, r: Report)
    requires Reports(r, q, Visited(h, q, cursor, maxPages), EndOf(h, q, cursor, maxPages)) && !r.failed
    ensures !(r.reachedWindowStart && r.historyExhausted)
    ensures r.reachedWindowStart || r.historyExhausted ==> r.nextCursor == ""
    ensures r.reachedWindowStart || r.historyExhausted || r.nextCursor != "" <==> maxPages > 0 || cursor != ""
  {
    var end := EndOf(h, q, cursor, maxPages);
    if end.More? {
      ContinuesAtARealCursor(h, q, cursor, maxPages);
    }
  }

  // --- chains of continued requests ----------------------------------------

  // One request per budget, each started at the cursor the last one returned.
  function Segments(h: History, q: Query, cursor: string, budgets: seq<nat>): seq<seq<seq<Delivery>>>
    decreases |budgets|
  {
    if |budgets| == 0 then []
    else
      var end := EndOf(h, q, cursor, budgets[0]);
      [Visited(h, q, cursor, budgets[0])] + if end.More? then Segments(h, q, end.cursor, budgets[1..]) else []
  }

  function Total(budgets: seq<nat>): nat {
    if |budgets| == 0 then 0 else budgets[0] + Total(budgets[1..])
  }

  function Concat<T>(parts: seq<seq<T>>): seq<T> {
    if |parts| == 0 then [] else parts[0] + Concat(parts[1..])
  }

  lemma {:induction false} BudgetSplits(h: History, q: Query, cursor: string, m: nat, n: nat)
    ensures var end := EndOf(h, q, cursor, m);
            Visited(h, q, cursor, m + n)
            == Visited(h, q, cursor, m) + if end.More? then Visited(h, q, end.cursor, n) else []
    decreases m
  {
    if m == 0 {
    } else {
      var l := h(cursor);
      if PageEnd(q, l).None? {
        BudgetSplits(h, q, l.next, m - 1, n);
        assert m - 1 + n == m + n - 1;
        var end := EndOf(h, q, cursor, m);
        Regroup([PageOf(l)], Visited(h, q, l.next, m - 1), if end.More? then Visited(h, q, end.cursor, n) else []);
      }
    }
  }

  lemma Regroup<T>(a: seq<T>, b: seq<T>, c: seq<T>)
    ensures a + (b + c) == (a + b) + c
  {
  }

  /** However the page budget is cut into continued requests, they visit the same
      pages in the same order as one long request. */
  lemma {:induction false} ChainVisitsTheSamePages(h: History, q: Query, cursor: string, budgets: seq<nat>)
    ensures Concat(Segments(h, q, cursor, budgets)) == Visited(h, q, cursor, Total(budgets))
    decreases |budgets|
  {
    if |budgets| == 0 {
    } else {
      var end := EndOf(h, q, cursor, budgets[0]);
      BudgetSplits(h, q, cursor, budgets[0], Total(budgets[1..]));
      var rest := if end.More? then Segments(h, q, end.cursor, budgets[1..]) else [];
      ConcatCons(Visited(h, q, cursor, budgets[0]), rest);
      if end.More? {
        ChainVisitsTheSamePages(h, q, end.cursor, budgets[1..]);
      }
    }
  }

  lemma ConcatCons<T>(part: seq<T>, rest: seq<seq<T>>)
    ensures Concat([part] + rest) == part + Concat(rest)
  {
    assert ([part] + rest)[1..] == rest;
  }

  function ChainChosen(q: Query, parts: seq<seq<Delivery>>): seq<Delivery> {
    if |parts| == 0 then [] else ChainChosen(q, parts[..|parts| - 1]) + Chosen(q, parts[|parts| - 1])
  }

  predicate ChainRepeats(q: Query, parts: seq<seq<Delivery>>) {
    exists k :: 0 <= k < |parts| && Repeats(q, Flatten(parts[..k]), parts[k])
  }

  /** Each request starts with no memory of earlier successes, so a chain selects
      at least what one long request would, and strictly more exactly when some
      request picks a delivery that succeeded on an earlier request's pages. */
  lemma ChainSelectsASuperset(q: Query, parts: seq<seq<Delivery>>)
    ensures multiset(Chosen(q, Flatten(parts))) <= multiset(ChainChosen(q, parts))
    ensures Chosen(q, Flatten(parts)) == ChainChosen(q, parts) <==> !ChainRepeats(q, parts)
  {
    ChainIncludes(q, parts);
    ChainCounts(q, parts);
  }

  lemma {:induction false} ChainIncludes(q: Query, parts: seq<seq<Delivery>>)
    ensures multiset(Chosen(q, Flatten(parts))) <= multiset(ChainChosen(q, parts))
  {
    if |parts| == 0 {
    } else {
      var last := |parts| - 1;
      var before := Flatten(parts[..last]);
      ChainIncludes(q, parts[..last]);
      ChosenSplits(q, before, parts[last]);
      LateDropsExactlyRepeats(q, before, parts[last]);
    }
  }

  lemma {:induction false} ChainCounts(q: Query, parts: seq<seq<Delivery>>)
    ensures |Chosen(q, Flatten(parts))| <= |ChainChosen(q, parts)|
    ensures |Chosen(q, Flatten(parts))| == |ChainChosen(q, parts)| ==> !ChainRepeats(q, parts)
    ensures !ChainRepeats(q, parts) ==> Chosen(q, Flatten(parts)) == ChainChosen(q, parts)
  {
    if |parts| == 0 {
    } else {
      var last := |parts| - 1;
      var before := Flatten(parts[..last]);
      ChainCounts(q, parts[..last]);
      ChosenSplits(q, before, parts[last]);
      LateDropsExactlyRepeats(q, before, parts[last]);
      ChainRepeatsSplits(q, parts);
    }
  }

  lemma ChainRepeatsSplits(q: Query, parts: seq<seq<Delivery>>)
    requires |parts| > 0
    ensures var last := |parts| - 1;
            ChainRepeats(q, parts)
            <==> ChainRepeats(q, parts[..last]) || Repeats(q, Flatten(parts[..last]), parts[last])
  {
    var last := |parts| - 1;
    forall k | 0 <= k < last
      ensures parts[..last][..k] == parts[..k] && parts[..last][k] == parts[k]
    {
    }
  }

  lemma {:induction false} FlattenOfConcat(segments: seq<seq<seq<Delivery>>>, parts: seq<seq<Delivery>>)
    requires |parts| == |segments| && forall k :: 0 <= k < |parts| ==> parts[k] == Flatten(segments[k])
    ensures Flatten(Concat(segments)) == Flatten(parts)
  {
    if |parts| == 0 {
    } else {
      FlattenOfConcat(segments[1..], parts[1..]);
      FlattenDistributes(segments[0], Concat(segments[1..]));
      FlattenFirst(parts);
    }
  }

  lemma {:induction false} FlattenDistributes(a: seq<seq<Delivery>>, b: seq<seq<Delivery>>)
    ensures Flatten(a + b) == Flatten(a) + Flatten(b)
  {
    if |b| == 0 {
      assert a + b == a;
    } else {
      FlattenDistributes(a, b[..|b| - 1]);
      assert (a + b)[..|a + b| - 1] == a + b[..|b| - 1];
    }
  }

  lemma FlattenFirst(parts: seq<seq<Delivery>>)
    requires |parts| > 0
    ensures Flatten(parts) == parts[0] + Flatten(parts[1..])
  {
    FlattenDistributes([parts[0]], parts[1..]);
    assert [parts[0]] + parts[1..] == parts;
    FlattenOne(parts[0]);
  }

  lemma FlattenOne(part: seq<Delivery>)
    ensures Flatten([part]) == part
  {
    assert [part][..0] == [];
  }

  /** The two together: what a chain of requests selects, against one request
      over the same total number of pages. */
  lemma ChainAgainstOneRequest(h: History, q: Query, cursor: string, budgets: seq<nat>, parts: seq<seq<Delivery>>)
    requires var segments := Segments(h, q, cursor, budgets);
             |parts| == |segments| && forall k :: 0 <= k < |parts| ==> parts[k] == Flatten(segments[k])
    ensures var once := Chosen(q, Flatten(Visited(h, q, cursor, Total(budgets))));
            && multiset(once) <= multiset(ChainChosen(q, parts))
            && (once == ChainChosen(q, parts) <==> !ChainRepeats(q, parts))
  {
    ChainVisitsTheSamePages(h, q, cursor, budgets);
    FlattenOfConcat(Segments(h, q, cursor, budgets), parts);
    ChainSelectsASuperset(q, parts);
  }

  // A history of two pages of one delivery each.
  function TwoPages(newer: Delivery, older: Delivery): History {
    cursor => if cursor == "" then Listing([newer], "more") else Listing([older], "")
  }

  lemma TwoRequestsVisitBoth(q: Query, newer: Delivery, older: Delivery)
    requires newer.deliveredAt.Some? && q.windowStart <= newer.deliveredAt.value
    ensures Segments(TwoPages(newer, older), q, "", [1, 1]) == [[[newer]], [[older]]]
  {
    var h := TwoPages(newer, older);
    assert [1, 1][1..] == [1] && [1][1..] == [];
    assert Visited(h, q, "more", 1) == [[older]];
    assert Visited(h, q, "", 1) == [[newer]] && EndOf(h, q, "", 1) == More("more");
    assert Segments(h, q, "more", [1]) == [[[older]]];
  }

  lemma OneRequestVisitsBoth(q: Query, newer: Delivery, older: Delivery)
    requires newer.deliveredAt.Some? && q.windowStart <= newer.deliveredAt.value
    ensures Visited(TwoPages(newer, older), q, "", 2) == [[newer], [older]]
    ensures Flatten([[newer], [older]]) == [newer, older]
  {
    assert Visited(TwoPages(newer, older), q, "more", 1) == [[older]];
    assert [[newer], [older]][..1] == [[newer]] && [[newer]][..0] == [];
    assert Flatten([[newer]]) == Flatten([]) + [newer];
  }

  /** Such a chain exists over every such history: the retry that succeeded is on
      the first request's page, its failed original on the second's. One request for
      both pages selects nothing; two requests for one page each select the
      original. */
  lemma ChainCanReselect(q: Query, retry: Delivery, original: Delivery)
    requires Succeeded(retry) && retry.deliveredAt.Some? && q.windowStart <= retry.deliveredAt.value
    requires Candidate(q, original) && Resolve(q, original) == Kept && original.guid == retry.guid != ""
    ensures var h := TwoPages(retry, original);
            && Segments(h, q, "", [1, 1]) == [[[retry]], [[original]]]
            && Chosen(q, Flatten(Visited(h, q, "", 2))) == []
            && ChainChosen(q, [[retry], [original]]) == [original]
  {
    TwoRequestsVisitBoth(q, retry, original);
    OneRequestVisitsBoth(q, retry, original);
    assert [retry, original][..1] == [retry] && [retry][..0] == [] && [original][..0] == [];
    assert [[retry], [original]][..1] == [[retry]] && [[retry]][..0] == [];
    assert HasSuccess([retry], retry.guid) by {
      assert [retry][0].guid == retry.guid;
    }
    assert Chosen(q, [original]) == Chosen(q, []) + [original];
    assert ChainChosen(q, [[retry]]) == ChainChosen(q, []) + Chosen(q, [retry]);
  }

  /** Repeating a redrive converges: once every delivery it selected has a newer
      successful attempt, a crawl over the longer history selects none of them. */
  lemma RepeatedRedriveSelectsNothingOld(q: Query, newer: seq<Delivery>, old_: seq<Delivery>)
    requires forall i :: 0 <= i < |old_| && Picks(q, old_, i) ==> HasSuccess(newer, old_[i].guid)
    ensures Chosen(q, newer + old_) == Chosen(q, newer)
  {
    ChosenSplits(q, newer, old_);
    LateIsEmpty(q, newer, old_);
  }

  lemma {:induction false} LateIsEmpty(q: Query, before: seq<Delivery>, ds: seq<Delivery>)
    requires forall i :: 0 <= i < |ds| && Picks(q, ds, i) ==> HasSuccess(before, ds[i].guid)
    ensures Late(q, before, ds) == []
  {
    if |ds| == 0 {
    } else {
      var last := |ds| - 1;
      forall i | 0 <= i < last && Picks(q, ds[..last], i)
        ensures HasSuccess(before, ds[..last][i].guid)
      {
        assert ds[..last][..i] == ds[..i];
        assert Picks(q, ds, i);
      }
      LateIsEmpty(q, before, ds[..last]);
      SuccessDistributes(before, ds[..last]);
    }
  }
}
