/** The page-capture loop of the clerk's document viewer, whatever the viewer sends and when. */
module Captures {
  import opened Catalog

  type Image = seq<bv8>

  datatype Shot = Shot(page: int, image: Image)

  /** One document response: a readable page count, a readable page image, both or neither. */
  datatype Response = Response(pages: Option<int>, shot: Option<Shot>)

  function ShotsIn(rs: seq<Response>): seq<Shot> {
    if rs == [] then []
    else ShotsIn(rs[..|rs| - 1]) + (if rs[|rs| - 1].shot.Some? then [rs[|rs| - 1].shot.value] else [])
  }

  function PageCount(before: int, rs: seq<Response>): int {
    if rs == [] then before
    else if rs[|rs| - 1].pages.Some? then rs[|rs| - 1].pages.value
    else PageCount(before, rs[..|rs| - 1])
  }

  /** at[k] is where the k-th shot arrived: the places ascend, and no readable image is passed over. */
  predicate ShotPlaces(rs: seq<Response>, shots: seq<Shot>, at: seq<nat>) {
    && |at| == |shots|
    && (forall k :: 0 <= k < |at| ==> at[k] < |rs| && rs[at[k]].shot == Some(shots[k]))
    && (forall k, l :: 0 <= k < l < |at| ==> at[k] < at[l])
    && (forall i :: 0 <= i < |rs| && rs[i].shot.Some? ==> exists k :: 0 <= k < |at| && at[k] == i)
  }

  lemma PlacesGoOn(rs: seq<Response>, shots: seq<Shot>, at: seq<nat>, r: Response)
    requires ShotPlaces(rs, shots, at)
    ensures r.shot.None? ==> ShotPlaces(rs + [r], shots, at)
    ensures r.shot.Some? ==> ShotPlaces(rs + [r], shots + [r.shot.value], at + [|rs|])
  {
    var at' := if r.shot.Some? then at + [|rs|] else at;
    forall i | 0 <= i < |rs + [r]| && (rs + [r])[i].shot.Some? ensures exists k :: 0 <= k < |at'| && at'[k] == i {
      if i < |rs| {
        assert rs[i].shot.Some?;
        var k :| 0 <= k < |at| && at[k] == i;
        assert at'[k] == i;
      } else {
        assert at'[|at|] == i;
      }
    }
  }

  /** What the listener keeps of any number of responses: every readable image, in the order they came. */
  lemma {:induction false} ShotsByPlace(rs: seq<Response>) returns (at: seq<nat>)
    ensures ShotPlaces(rs, ShotsIn(rs), at)
  {
    if rs == [] {
      at := [];
    } else {
      var front, r := rs[..|rs| - 1], rs[|rs| - 1];
      at := ShotsByPlace(front);
      PlacesGoOn(front, ShotsIn(front), at, r);
      hide ShotPlaces;
      assert rs == front + [r];
      if r.shot.Some? { at := at + [|front|]; } else { assert ShotsIn(front) + [] == ShotsIn(front); }
    }
  }

  /** And the last readable page count, or what it had before. */
  lemma {:induction false} LastPageCount(before: int, rs: seq<Response>)
    ensures (forall i :: 0 <= i < |rs| ==> rs[i].pages.None?) ==> PageCount(before, rs) == before
    ensures forall i :: 0 <= i < |rs| && rs[i].pages.Some? && (forall j :: i < j < |rs| ==> rs[j].pages.None?) ==>
      PageCount(before, rs) == rs[i].pages.value
  {
    if rs != [] { LastPageCount(before, rs[..|rs| - 1]); }
  }

  lemma {:induction false} ShotsInSum(a: seq<Response>, b: seq<Response>)
    ensures ShotsIn(a + b) == ShotsIn(a) + ShotsIn(b)
  {
    if b == [] {
      assert a + b == a;
    } else {
      assert (a + b)[..|a + b| - 1] == a + b[..|b| - 1];
      ShotsInSum(a, b[..|b| - 1]);
    }
  }

  lemma {:induction false} PageCountSum(before: int, a: seq<Response>, b: seq<Response>)
    ensures PageCount(before, a + b) == PageCount(PageCount(before, a), b)
  {
    if b == [] {
      assert a + b == a;
    } else {
      assert (a + b)[..|a + b| - 1] == a + b[..|b| - 1];
      PageCountSum(before, a, b[..|b| - 1]);
    }
  }

  /** The image first captured under a page number. */
  function FirstOn(shots: seq<Shot>, p: int): Option<Image> {
    if shots == [] then None
    else
      var f := FirstOn(shots[..|shots| - 1], p);
      var last := shots[|shots| - 1];
      if f.Some? then f else if last.page == p then Some(last.image) else None
  }

  /** That is the image of the first shot of the page, by index. */
  lemma {:induction false} FirstOnIsFirst(shots: seq<Shot>, p: int)
    ensures FirstOn(shots, p).None? <==> forall i :: 0 <= i < |shots| ==> shots[i].page != p
    ensures forall i :: 0 <= i < |shots| && shots[i].page == p && (forall j :: 0 <= j < i ==> shots[j].page != p) ==>
      FirstOn(shots, p) == Some(shots[i].image)
  {
    if shots != [] {
      var front := shots[..|shots| - 1];
      FirstOnIsFirst(front, p);
      assert forall i :: 0 <= i < |front| ==> shots[i] == front[i];
    }
  }

  function Numbers(shots: seq<Shot>): set<int> {
    set i | 0 <= i < |shots| :: shots[i].page
  }

  predicate Ascending(ps: seq<int>) {
    forall i, j :: 0 <= i < j < |ps| ==> ps[i] < ps[j]
  }

  /** The album of a capture: one image a page number, the first captured, in ascending page order. */
  ghost predicate Album(shots: seq<Shot>, images: seq<Image>) {
    exists pages :: Paged(shots, pages, images)
  }

  ghost predicate Paged(shots: seq<Shot>, pages: seq<int>, images: seq<Image>) {
    && Ascending(pages) && |images| == |pages|
    && (forall p :: p in pages <==> FirstOn(shots, p).Some?)
    && (forall i :: 0 <= i < |pages| ==> FirstOn(shots, pages[i]) == Some(images[i]))
  }

  // ------------------------------------------------------------ sorted by page number

  /** After every shot of the same or a lower page: what makes the sort stable. */
  function Insert(shots: seq<Shot>, x: Shot): seq<Shot> {
    if shots == [] || shots[|shots| - 1].page <= x.page then shots + [x]
    else Insert(shots[..|shots| - 1], x) + [shots[|shots| - 1]]
  }

  function ByPage(shots: seq<Shot>): seq<Shot> {
    if shots == [] then [] else Insert(ByPage(shots[..|shots| - 1]), shots[|shots| - 1])
  }

  predicate InOrder(shots: seq<Shot>) {
    forall i, j :: 0 <= i < j < |shots| ==> shots[i].page <= shots[j].page
  }

  lemma {:induction false} InsertKeepsFirsts(shots: seq<Shot>, x: Shot, p: int)
    ensures FirstOn(Insert(shots, x), p) == FirstOn(shots + [x], p)
  {
    assert (shots + [x])[..|shots|] == shots;
    if shots != [] && shots[|shots| - 1].page > x.page {
      var front, y := shots[..|shots| - 1], shots[|shots| - 1];
      InsertKeepsFirsts(front, x, p);
      assert Insert(shots, x)[..|Insert(front, x)|] == Insert(front, x);
      assert (front + [x])[..|front|] == front;
    }
  }

  lemma {:induction false} InsertKeepsOrder(shots: seq<Shot>, x: Shot)
    requires InOrder(shots)
    ensures InOrder(Insert(shots, x))
    ensures forall y :: y in Insert(shots, x) <==> y in shots || y == x
  {
    if shots != [] && shots[|shots| - 1].page > x.page {
      var front, y := shots[..|shots| - 1], shots[|shots| - 1];
      assert shots == front + [y];
      InsertKeepsOrder(front, x);
      forall i | 0 <= i < |Insert(front, x)| ensures Insert(front, x)[i].page <= y.page {
        assert Insert(front, x)[i] in Insert(front, x);
      }
    }
  }

  lemma {:induction false} ByPageSorts(shots: seq<Shot>)
    ensures InOrder(ByPage(shots))
    ensures forall p :: FirstOn(ByPage(shots), p) == FirstOn(shots, p)
  {
    if shots != [] {
      var front, x := shots[..|shots| - 1], shots[|shots| - 1];
      ByPageSorts(front);
      InsertKeepsOrder(ByPage(front), x);
      forall p ensures FirstOn(ByPage(shots), p) == FirstOn(shots, p) {
        InsertKeepsFirsts(ByPage(front), x, p);
        assert (ByPage(front) + [x])[..|ByPage(front)|] == ByPage(front);
      }
    }
  }

  lemma {:induction false} FirstOnNumbers(shots: seq<Shot>)
    ensures forall p :: FirstOn(shots, p).Some? <==> p in Numbers(shots)
  {
    if shots != [] {
      var front, x := shots[..|shots| - 1], shots[|shots| - 1];
      FirstOnNumbers(front);
      forall p ensures p in Numbers(shots) <==> p in Numbers(front) || p == x.page {
        if p in Numbers(front) {
          var i :| 0 <= i < |front| && front[i].page == p;
          assert shots[i].page == p;
        }
        if p == x.page { assert shots[|shots| - 1].page == p; }
      }
    }
  }

  // ------------------------------------------------------------ the album is determined

  lemma {:induction false} AscendingDetermined(a: seq<int>, b: seq<int>)
    requires Ascending(a) && Ascending(b) && forall p :: p in a <==> p in b
    ensures a == b
  {
    assert a != [] ==> a[0] in a && a[0] in b;
    assert b != [] ==> b[0] in b && b[0] in a;
    if a != [] && b != [] {
      assert a == [a[0]] + a[1..] && b == [b[0]] + b[1..];
      forall p ensures p in a[1..] <==> p in b[1..] {
        assert p in a[1..] ==> p in a && p > a[0];
        assert p in b[1..] ==> p in b && p > b[0];
      }
      AscendingDetermined(a[1..], b[1..]);
    }
  }

  /** A capture has one album only, so the images returned are a function of the shots. */
  lemma AlbumDetermined(shots: seq<Shot>, images: seq<Image>, images': seq<Image>)
    requires Album(shots, images) && Album(shots, images')
    ensures images == images'
  {
    var pages :| Paged(shots, pages, images);
    var pages' :| Paged(shots, pages', images');
    AscendingDetermined(pages, pages');
    forall i | 0 <= i < |images| ensures images[i] == images'[i] {
      assert FirstOn(shots, pages[i]) == Some(images[i]) && FirstOn(shots, pages'[i]) == Some(images'[i]);
    }
  }

  lemma {:induction false} AscendingSize(ps: seq<int>, s: set<int>)
    requires Ascending(ps) && forall p :: p in ps <==> p in s
    ensures |s| == |ps|
  {
    if ps == [] {
      assert forall p :: p in s ==> p in ps;
      assert s == {};
    } else {
      var front, x := ps[..|ps| - 1], ps[|ps| - 1];
      assert ps == front + [x];
      AscendingSize(front, s - {x});
    }
  }

  /** One image for each distinct page number. */
  lemma AlbumSize(shots: seq<Shot>, images: seq<Image>)
    requires Album(shots, images)
    ensures |images| == |Numbers(shots)|
  {
    var pages :| Paged(shots, pages, images);
    FirstOnNumbers(shots);
    AscendingSize(pages, Numbers(shots));
  }

  /** What a viewer does: the responses that arrive during the t-th browser call, and whether the
      next-page control is there, and clickable, at that call. */
  datatype Viewer = Viewer(arrivals: nat -> seq<Response>, hasNext: nat -> bool, clickable: nat -> bool)

  /** A browsing session: what was captured, the last page count, and the browser calls made so far. */
  datatype Session = Session(captured: seq<Shot>, docPages: int, calls: nat)

  // ------------------------------------------------------------ what a viewer makes of a session

  /** One browser call: the listener takes in what arrives during it. */
  function Browsed(v: Viewer, s: Session): Session {
    var rs := v.arrivals(s.calls);
    Session(s.captured + ShotsIn(rs), PageCount(s.docPages, rs), s.calls + 1)
  }

  /** Waits, at most `ticks`, until more than the first `seen` shots are there. */
  function Awaited(v: Viewer, s: Session, seen: nat, ticks: nat): Session
    decreases ticks
  {
    if |s.captured| != seen || ticks == 0 then s else Awaited(v, Browsed(v, s), seen, ticks - 1)
  }

  datatype Stop =
    | AllPages        // as many page numbers as the target
    | ClicksSpent     // target + 3 rounds
    | NoControl       // the next-page control is not there
    | NotClickable    // clicking it raises
    | NoNewImage      // ten seconds after the click nothing was captured

  /** How the stepping through the pages ends. */
  datatype Ending = Ending(session: Session, clicks: nat, why: Stop)

  /** The stepping, with `rounds` rounds left. */
  function Stepped(v: Viewer, s: Session, target: int, rounds: nat, clicks: nat): Ending
    decreases rounds
  {
    if |Numbers(s.captured)| >= target then Ending(s, clicks, AllPages)
    else if rounds == 0 then Ending(s, clicks, ClicksSpent)
    else
      var looked := Browsed(v, s);
      if !v.hasNext(s.calls) then Ending(looked, clicks, NoControl)
      else
        var clicked := Browsed(v, looked);
        if !v.clickable(looked.calls) then Ending(clicked, clicks + 1, NotClickable)
        else
          var waited := Awaited(v, clicked, |looked.captured|, 25);
          if |waited.captured| == |looked.captured| then Ending(waited, clicks + 1, NoNewImage)
          else Stepped(v, waited, target, rounds - 1, clicks + 1)
  }

  function Opened(v: Viewer, s: Session): Session {
    Awaited(v, s, 0, 40)
  }

  /** The page count known once the first page landed, or the wait for it ran out; none counts as one. */
  function Target(s: Session): int {
    if s.docPages == 0 then 1 else s.docPages
  }

  function Rounds(target: int): nat {
    if target + 3 < 0 then 0 else target + 3
  }

  /** clerk_scraper._NewVision.capture_pages, up to the sorting of what was captured. */
  function Capture(v: Viewer, s: Session): Ending {
    var start := Opened(v, s);
    Stepped(v, start, Target(start), Rounds(Target(start)), 0)
  }

  class NewVision {
    const viewer: Viewer
    var captured: seq<Shot>
    var docPages: int
    var calls: nat

    constructor (viewer: Viewer)
      ensures this.viewer == viewer && State() == Session([], 0, 0)
    {
      this.viewer, captured, docPages, calls := viewer, [], 0, 0;
    }

    function State(): Session
      reads this
    {
      Session(captured, docPages, calls)
    }

    /** _on_response, for each response that arrives during one browser call. */
    method Browse()
      modifies this
      ensures State() == Browsed(viewer, old(State()))
    {
      var rs := viewer.arrivals(calls);
      for i := 0 to |rs|
        invariant calls == old(calls)
        invariant captured == old(captured) + ShotsIn(rs[..i])
        invariant docPages == PageCount(old(docPages), rs[..i])
      {
        assert rs[..i + 1][..i] == rs[..i];
        var r := rs[i];
        if r.pages.Some? { docPages := r.pages.value; }
        if r.shot.Some? { captured := captured + [r.shot.value]; }
      }
      assert rs[..|rs|] == rs;
      calls := calls + 1;
    }

    /** Wait until something beyond the first `seen` shots was captured, for at most `ticks` waits. */
    method AwaitShot(seen: nat, ticks: nat)
      modifies this
      ensures State() == Awaited(viewer, old(State()), seen, ticks)
    {
      hide Browsed;
      var w := 0;
      while |captured| == seen && w < ticks
        invariant w <= ticks && Awaited(viewer, State(), seen, ticks - w) == Awaited(viewer, old(State()), seen, ticks)
      {
        Browse();
        w := w + 1;
      }
    }

    /** capture_pages: the session ends as the viewer determines, and the images are the album of what
        was captured. */
    method CapturePages() returns (images: seq<Image>, clicks: nat, why: Stop)
      modifies this
      ensures Ending(State(), clicks, why) == Capture(viewer, old(State()))
      ensures Album(captured, images)
    {
      hide Browsed, Awaited, Numbers, Album;
      AwaitShot(0, 40);
      var target := Target(State());
      clicks, why := 0, ClicksSpent;
      var guard := 0;
      while |Numbers(captured)| < target && guard < target + 3
        invariant guard <= Rounds(target)
        invariant Stepped(viewer, State(), target, Rounds(target) - guard, clicks) == Capture(viewer, old(State()))
        invariant why == ClicksSpent
        decreases target + 3 - guard
      {
        guard := guard + 1;
        var present := viewer.hasNext(calls);
        Browse();
        if !present { why := NoControl; break; }
        var before := |captured|;
        var clickable := viewer.clickable(calls);
        Browse();
        clicks := clicks + 1;
        if !clickable { why := NotClickable; break; }
        AwaitShot(before, 25);
        if |captured| == before { why := NoNewImage; break; }
      }
      if why == ClicksSpent && |Numbers(captured)| >= target { why := AllPages; }
      images := Compile(captured);
    }
  }

  // ------------------------------------------------------------ what holds for every viewer

  /** Everything that arrived during a stretch of browser calls. */
  function Arrived(v: Viewer, from: nat, until: nat): seq<Shot>
    requires from <= until
    decreases until
  {
    if from == until then [] else Arrived(v, from, until - 1) + ShotsIn(v.arrivals(until - 1))
  }

  /** The responses of a stretch of browser calls. */
  function Responses(v: Viewer, from: nat, until: nat): seq<Response>
    requires from <= until
    decreases until
  {
    if from == until then [] else Responses(v, from, until - 1) + v.arrivals(until - 1)
  }

  /** s' is s after some browser calls, with exactly what arrived during them. */
  predicate Later(v: Viewer, s: Session, s': Session) {
    && s.calls <= s'.calls && s'.captured == s.captured + Arrived(v, s.calls, s'.calls)
    && s'.docPages == PageCount(s.docPages, Responses(v, s.calls, s'.calls))
  }

  lemma {:induction false} ArrivedInResponses(v: Viewer, from: nat, until: nat)
    requires from <= until
    ensures Arrived(v, from, until) == ShotsIn(Responses(v, from, until))
    decreases until
  {
    if from < until {
      ArrivedInResponses(v, from, until - 1);
      ShotsInSum(Responses(v, from, until - 1), v.arrivals(until - 1));
    }
  }

  lemma {:induction false} ArrivedSum(v: Viewer, from: nat, mid: nat, until: nat)
    requires from <= mid <= until
    ensures Arrived(v, from, until) == Arrived(v, from, mid) + Arrived(v, mid, until)
    ensures Responses(v, from, until) == Responses(v, from, mid) + Responses(v, mid, until)
    decreases until
  {
    if mid == until {
      assert Arrived(v, from, mid) + [] == Arrived(v, from, mid);
      assert Responses(v, from, mid) + [] == Responses(v, from, mid);
    } else {
      ArrivedSum(v, from, mid, until - 1);
    }
  }

  lemma LaterThen(v: Viewer, a: Session, b: Session, c: Session)
    requires Later(v, a, b) && Later(v, b, c)
    ensures Later(v, a, c)
  {
    ArrivedSum(v, a.calls, b.calls, c.calls);
    PageCountSum(a.docPages, Responses(v, a.calls, b.calls), Responses(v, b.calls, c.calls));
  }

  lemma BrowsedLater(v: Viewer, s: Session)
    ensures Later(v, s, Browsed(v, s)) && Browsed(v, s).calls == s.calls + 1
  {
    var rs := ShotsIn(v.arrivals(s.calls));
    assert Arrived(v, s.calls, s.calls) == [] && Responses(v, s.calls, s.calls) == [];
    assert [] + rs == rs && [] + v.arrivals(s.calls) == v.arrivals(s.calls);
  }

  /** A wait ends with the first call that brings a shot, or after all its ticks without any. */
  lemma {:induction false} AwaitedFacts(v: Viewer, s: Session, seen: nat, ticks: nat)
    ensures var s' := Awaited(v, s, seen, ticks);
      && Later(v, s, s') && s'.calls <= s.calls + ticks
      && (|s'.captured| == seen ==> s'.calls == s.calls + ticks && Arrived(v, s.calls, s'.calls) == [])
      && (s'.calls > s.calls ==> Arrived(v, s.calls, s'.calls - 1) == [])
    decreases ticks
  {
    hide Browsed, Arrived;
    SameSession(v, s);
    ArrivedNothing(v, s.calls);
    if |s.captured| == seen && ticks > 0 {
      var next, s' := Browsed(v, s), Awaited(v, s, seen, ticks);
      assert s' == Awaited(v, next, seen, ticks - 1);
      BrowsedLater(v, s);
      AwaitedFacts(v, next, seen, ticks - 1);
      LaterThen(v, s, next, s');
      if s'.calls > next.calls {
        assert |next.captured| == seen;
        assert Arrived(v, s.calls, next.calls) == [];
        ArrivedSum(v, s.calls, next.calls, s'.calls - 1);
      }
    }
  }

  lemma ArrivedNothing(v: Viewer, t: nat)
    ensures Arrived(v, t, t) == []
  {}

  /** Why the stepping stopped, in terms of the viewer at the calls it had made. */
  predicate Justified(v: Viewer, e: Ending, target: int, rounds: nat) {
    var pages, t := |Numbers(e.session.captured)|, e.session.calls;
    match e.why
    case AllPages => pages >= target
    case ClicksSpent => pages < target && e.clicks == rounds
    case NoControl => t >= 1 && !v.hasNext(t - 1)
    case NotClickable => t >= 1 && !v.clickable(t - 1)
    case NoNewImage => t >= 26 && v.clickable(t - 26) && Arrived(v, t - 26, t) == []
  }

  lemma RoundFacts(v: Viewer, s: Session)
    ensures var looked := Browsed(v, s);
      var clicked := Browsed(v, looked);
      var waited := Awaited(v, clicked, |looked.captured|, 25);
      && Later(v, s, looked) && Later(v, s, clicked) && Later(v, s, waited)
      && looked.calls == s.calls + 1 && clicked.calls == s.calls + 2 && waited.calls <= s.calls + 27
      && |s.captured| <= |looked.captured| <= |clicked.captured| && |looked.captured| <= |waited.captured|
      && (|waited.captured| == |looked.captured| ==>
            waited.calls == s.calls + 27 && Arrived(v, s.calls + 1, s.calls + 27) == [])
  {
    hide Browsed, Awaited, Arrived;
    var looked := Browsed(v, s);
    var clicked := Browsed(v, looked);
    var waited := Awaited(v, clicked, |looked.captured|, 25);
    BrowsedLater(v, s);
    BrowsedLater(v, looked);
    LaterThen(v, s, looked, clicked);
    AwaitedFacts(v, clicked, |looked.captured|, 25);
    LaterThen(v, looked, clicked, waited);
    LaterThen(v, s, looked, waited);
  }

  /** The last click brought no image. */
  predicate Idle(why: Stop) {
    why == NotClickable || why == NoNewImage
  }

  lemma {:induction false} SteppedFacts(v: Viewer, s: Session, target: int, rounds: nat, clicks: nat)
    ensures var e := Stepped(v, s, target, rounds, clicks);
      && Later(v, s, e.session)
      && clicks <= e.clicks <= clicks + rounds && e.session.calls <= s.calls + 27 * (e.clicks - clicks) + 1
      && |e.session.captured| >= |s.captured| + (e.clicks - clicks) - (if Idle(e.why) then 1 else 0)
      && Justified(v, e, target, clicks + rounds)
    decreases rounds
  {
    hide Numbers, Browsed, Awaited, Arrived;
    assert Later(v, s, s) by { SameSession(v, s); }
    RoundFacts(v, s);
    hide Later;
    var looked := Browsed(v, s);
    var waited := Awaited(v, Browsed(v, looked), |looked.captured|, 25);
    if |Numbers(s.captured)| < target && rounds > 0 && v.hasNext(s.calls) && v.clickable(looked.calls)
       && |waited.captured| != |looked.captured| {
      SteppedFacts(v, waited, target, rounds - 1, clicks + 1);
      LaterThen(v, s, waited, Stepped(v, s, target, rounds, clicks).session);
    }
  }

  lemma SameSession(v: Viewer, s: Session)
    ensures Later(v, s, s)
  {
    assert s.captured + [] == s.captured;
  }

  /** For every viewer and any session it starts from: at most target + 3 clicks, none if the declared
      count is negative; at most 40 browser calls to open the document, 27 for each click and one to see
      that the control is gone; what is captured is exactly what arrived, an image for every click but an
      idle last one; and the run stopped early only because the viewer had no control, or no working one,
      or sent no image during the click and 25 waits. */
  lemma CaptureIsBounded(v: Viewer, s: Session)
    ensures var e, target := Capture(v, s), Target(Opened(v, s));
      && Later(v, s, e.session)
      && target != 0 && (target > 0 ==> e.clicks <= target + 3) && (target < 0 ==> e.clicks == 0)
      && (e.why == ClicksSpent ==> e.clicks == target + 3)
      && e.session.calls <= s.calls + 40 + 27 * e.clicks + 1
      && |e.session.captured| >= |s.captured| + e.clicks - (if Idle(e.why) then 1 else 0)
      && Justified(v, e, target, Rounds(target))
  {
    hide Browsed, Numbers;
    var start := Opened(v, s);
    AwaitedFacts(v, s, 0, 40);
    SteppedFacts(v, start, Target(start), Rounds(Target(start)), 0);
    LaterThen(v, s, start, Capture(v, s).session);
  }

  /** The target of a capture from a fresh session is the last readable page count before the stepping
      began, and one if there was none or it was zero; without an image it has waited all its ticks. */
  lemma TargetTells(v: Viewer)
    ensures var start := Opened(v, Session([], 0, 0));
      var early := Responses(v, 0, start.calls);
      && (forall i :: 0 <= i < |early| && early[i].pages.Some? && (forall j :: i < j < |early| ==> early[j].pages.None?) ==>
            Target(start) == if early[i].pages.value == 0 then 1 else early[i].pages.value)
      && ((forall i :: 0 <= i < |early| ==> early[i].pages.None?) ==> Target(start) == 1)
      && (start.captured == [] ==> start.calls == 40)
  {
    var s := Session([], 0, 0);
    AwaitedFacts(v, s, 0, 40);
    LastPageCount(0, Responses(v, 0, Opened(v, s).calls));
    hide Arrived, Responses, PageCount, Awaited;
  }

  /** What it holds: the readable images of the responses to all its calls, in the order they came. With
      a target of one, an image that is there already ends the capture. */
  lemma CaptureTells(v: Viewer) returns (at: seq<nat>)
    ensures var s := Session([], 0, 0);
      var e, start := Capture(v, s), Opened(v, s);
      && ShotPlaces(Responses(v, 0, e.session.calls), e.session.captured, at)
      && (Target(start) == 1 && start.captured != [] ==> e == Ending(start, 0, AllPages))
  {
    var s := Session([], 0, 0);
    var e, start := Capture(v, s), Opened(v, s);
    CaptureIsBounded(v, s);
    ArrivedInResponses(v, 0, e.session.calls);
    at := ShotsByPlace(Responses(v, 0, e.session.calls));
    hide Arrived, Responses, PageCount, ShotsIn, ShotPlaces, Awaited, Browsed, Justified;
    assert [] + Arrived(v, 0, e.session.calls) == Arrived(v, 0, e.session.calls);
    if start.captured != [] {
      assert start.captured[0].page in Numbers(start.captured);
      assert |Numbers(start.captured)| >= 1;
    }
  }

  // ------------------------------------------------------------ when the capture is complete

  /** The session after one round: look for the control, click it, wait. */
  function Round(v: Viewer, s: Session): Session {
    var looked := Browsed(v, s);
    Awaited(v, Browsed(v, looked), |looked.captured|, 25)
  }

  /** How many page numbers the session has captured. */
  function Captured(s: Session): nat {
    |Numbers(s.captured)|
  }

  /** In this round the control is there and works, and the click or its waits bring an image. */
  predicate Advances(v: Viewer, s: Session) {
    v.hasNext(s.calls) && v.clickable(s.calls + 1) && |Round(v, s).captured| != |Browsed(v, s).captured|
  }

  /** The session at the start of round r. */
  function AtRound(v: Viewer, s: Session, r: nat): Session
    decreases r
  {
    if r == 0 then s else AtRound(v, Round(v, s), r - 1)
  }

  /** After r rounds that all advance, the target is reached. */
  predicate ReachedAfter(v: Viewer, s: Session, target: int, r: nat) {
    Captured(AtRound(v, s, r)) >= target && forall i :: 0 <= i < r ==> Advances(v, AtRound(v, s, i))
  }

  lemma ReachedNext(v: Viewer, s: Session, target: int, r: nat)
    requires r > 0
    ensures ReachedAfter(v, s, target, r) <==> Advances(v, s) && ReachedAfter(v, Round(v, s), target, r - 1)
  {
    hide Captured, Advances, Round;
    assert AtRound(v, s, 0) == s;
    assert forall i :: 0 <= i < r ==> AtRound(v, s, i + 1) == AtRound(v, Round(v, s), i);
    if ReachedAfter(v, s, target, r) {
      forall i | 0 <= i < r - 1 ensures Advances(v, AtRound(v, Round(v, s), i)) {
        assert Advances(v, AtRound(v, s, i + 1));
      }
    }
    if Advances(v, s) && ReachedAfter(v, Round(v, s), target, r - 1) {
      forall i | 0 <= i < r ensures Advances(v, AtRound(v, s, i)) {
        if i > 0 { assert Advances(v, AtRound(v, Round(v, s), i - 1)); }
      }
    }
  }

  lemma SteppedStops(v: Viewer, s: Session, target: int, rounds: nat, clicks: nat)
    ensures Captured(s) >= target ==> Stepped(v, s, target, rounds, clicks).why == AllPages
    ensures Captured(s) < target && (rounds == 0 || !Advances(v, s)) ==>
      Stepped(v, s, target, rounds, clicks).why != AllPages
    ensures Captured(s) < target && rounds > 0 && Advances(v, s) ==>
      Stepped(v, s, target, rounds, clicks) == Stepped(v, Round(v, s), target, rounds - 1, clicks + 1)
  {
    hide Numbers, Awaited;
  }

  /** The target is reached within so many rounds, all of which advance. */
  predicate Reaches(v: Viewer, s: Session, target: int, rounds: nat) {
    exists r: nat :: r <= rounds && ReachedAfter(v, s, target, r)
  }

  lemma ReachedAtOnce(v: Viewer, s: Session, target: int)
    ensures ReachedAfter(v, s, target, 0) <==> Captured(s) >= target
  {
    hide Captured, Advances, Round;
  }

  lemma ReachesNext(v: Viewer, s: Session, target: int, rounds: nat)
    ensures Captured(s) >= target ==> Reaches(v, s, target, rounds)
    ensures Captured(s) < target ==>
      (Reaches(v, s, target, rounds) <==> rounds > 0 && Advances(v, s) && Reaches(v, Round(v, s), target, rounds - 1))
  {
    hide Captured, Advances, Round, ReachedAfter;
    ReachedAtOnce(v, s, target);
    if Captured(s) < target && Reaches(v, s, target, rounds) {
      var r: nat :| r <= rounds && ReachedAfter(v, s, target, r);
      ReachedNext(v, s, target, r);
    }
    if rounds > 0 && Advances(v, s) && Reaches(v, Round(v, s), target, rounds - 1) {
      var r: nat :| r <= rounds - 1 && ReachedAfter(v, Round(v, s), target, r);
      ReachedNext(v, s, target, r + 1);
    }
  }

  lemma {:induction false} SteppedCompletesIff(v: Viewer, s: Session, target: int, rounds: nat, clicks: nat)
    ensures Stepped(v, s, target, rounds, clicks).why == AllPages <==> Reaches(v, s, target, rounds)
    decreases rounds
  {
    SteppedStops(v, s, target, rounds, clicks);
    ReachesNext(v, s, target, rounds);
    hide Captured, Stepped, Advances, Round, Reaches;
    if rounds > 0 { SteppedCompletesIff(v, Round(v, s), target, rounds - 1, clicks + 1); }
  }

  /** The capture collects as many page numbers as the target exactly if, within target + 3 rounds
      that all advance, that many have come. */
  lemma CompleteIff(v: Viewer, s: Session)
    ensures var start := Opened(v, s);
      Capture(v, s).why == AllPages <==> Reaches(v, start, Target(start), Rounds(Target(start)))
  {
    var start := Opened(v, s);
    SteppedCompletesIff(v, start, Target(start), Rounds(Target(start)), 0);
  }

  lemma NumbersGrow(a: seq<Shot>, b: seq<Shot>)
    ensures Numbers(a) <= Numbers(a + b)
    ensures |Numbers(a)| <= |Numbers(a + b)|
    ensures (exists shot :: shot in b && shot.page !in Numbers(a)) ==> |Numbers(a)| < |Numbers(a + b)|
  {
    forall p | p in Numbers(a) ensures p in Numbers(a + b) {
      var i :| 0 <= i < |a| && a[i].page == p;
      assert (a + b)[i].page == p;
    }
    SubsetSize(Numbers(a), Numbers(a + b));
    if shot :| shot in b && shot.page !in Numbers(a) {
      var i :| 0 <= i < |b| && b[i] == shot;
      assert (a + b)[|a| + i].page == shot.page;
      SubsetSize(Numbers(a), Numbers(a + b) - {shot.page});
    }
  }

  lemma SubsetSize(x: set<int>, y: set<int>)
    requires x <= y
    ensures |x| <= |y|
  {
    assert y == x + (y - x) && x * (y - x) == {};
  }

  /** As long as the target is not reached, every round advances and brings a page number not captured
      before. */
  predicate Cooperative(v: Viewer, s: Session, target: int, rounds: nat) {
    forall r :: 0 <= r < rounds && Captured(AtRound(v, s, r)) < target ==>
      Advances(v, AtRound(v, s, r))
      && Captured(AtRound(v, s, r + 1)) > Captured(AtRound(v, s, r))
  }

  lemma {:induction false} SteppedCompletes(v: Viewer, s: Session, target: int, rounds: nat, clicks: nat)
    requires Cooperative(v, s, target, rounds) && target - Captured(s) <= rounds
    ensures Stepped(v, s, target, rounds, clicks).why == AllPages
    decreases rounds
  {
    SteppedStops(v, s, target, rounds, clicks);
    hide Captured, Stepped, Advances, Round;
    if Captured(s) < target {
      var next := Round(v, s);
      assert AtRound(v, s, 0) == s && AtRound(v, s, 0 + 1) == AtRound(v, next, 0) == next;
      forall r | 0 <= r < rounds - 1 && Captured(AtRound(v, next, r)) < target
        ensures Advances(v, AtRound(v, next, r))
        ensures Captured(AtRound(v, next, r + 1)) > Captured(AtRound(v, next, r))
      {
        assert AtRound(v, s, r + 1) == AtRound(v, next, r) && AtRound(v, s, (r + 1) + 1) == AtRound(v, next, r + 1);
      }
      SteppedCompletes(v, next, target, rounds - 1, clicks + 1);
    }
  }

  /** With a cooperative viewer the album has at least as many images as the document declares pages. */
  lemma CooperationCompletes(v: Viewer, s: Session, images: seq<Image>)
    requires Cooperative(v, Opened(v, s), Target(Opened(v, s)), Rounds(Target(Opened(v, s))))
    requires Album(Capture(v, s).session.captured, images)
    ensures Capture(v, s).why == AllPages && |images| >= Target(Opened(v, s))
  {
    var start := Opened(v, s);
    SteppedCompletes(v, start, Target(start), Rounds(Target(start)), 0);
    CaptureIsBounded(v, s);
    AlbumSize(Capture(v, s).session.captured, images);
  }

  // ------------------------------------------------------------ a viewer of a finite document

  /** A document of n pages: opening it sends the page count and page 1, each click the next page. */
  function PageByPage(n: nat, image: nat -> Image): Viewer {
    Viewer((t: nat) => if t == 0 then [Response(Some(n), Some(Shot(1, image(1))))]
                else if t % 2 == 0 && t / 2 + 1 <= n then [Response(None, Some(Shot(t / 2 + 1, image(t / 2 + 1))))]
                else [],
           (t: nat) => true, (t: nat) => true)
  }

  function Pages(k: nat, image: nat -> Image): (r: seq<Shot>)
    ensures |r| == k
  {
    seq(k, (i: nat) => Shot(i + 1, image(i + 1)))
  }

  lemma NumbersOfMore(front: seq<Shot>, x: Shot)
    requires x.page !in Numbers(front)
    ensures |Numbers(front + [x])| == |Numbers(front)| + 1
  {
    var all := front + [x];
    forall p ensures p in Numbers(all) <==> p in Numbers(front) || p == x.page {
      if p in Numbers(front) {
        var i :| 0 <= i < |front| && front[i].page == p;
        assert all[i].page == p;
      }
      if p == x.page { assert all[|front|].page == p; }
    }
    assert Numbers(all) == Numbers(front) + {x.page};
  }

  lemma {:induction false} PagesNumbers(k: nat, image: nat -> Image)
    ensures |Numbers(Pages(k, image))| == k
  {
    if k == 0 {
      assert Numbers(Pages(0, image)) == {};
    } else {
      var front := Pages(k - 1, image);
      assert Pages(k, image) == front + [Shot(k, image(k))];
      assert k !in Numbers(front);
      hide Pages, Numbers;
      PagesNumbers(k - 1, image);
      NumbersOfMore(front, Shot(k, image(k)));
    }
  }

  /** The session with the first k pages, about to start a round. */
  function Seen(n: nat, k: nat, image: nat -> Image): Session
    requires k >= 1
  {
    Session(Pages(k, image), n, 2 * k - 1)
  }

  lemma ShotsOfOne(r: Response)
    ensures ShotsIn([r]) == if r.shot.Some? then [r.shot.value] else []
    ensures PageCount(0, [r]) == if r.pages.Some? then r.pages.value else 0
    ensures forall m :: r.pages.None? ==> PageCount(m, [r]) == m
  {
    assert [r][..0] == [];
  }

  lemma OpensOnPageOne(n: nat, image: nat -> Image)
    ensures Opened(PageByPage(n, image), Session([], 0, 0)) == Seen(n, 1, image)
  {
    var v, s := PageByPage(n, image), Session([], 0, 0);
    ShotsOfOne(Response(Some(n), Some(Shot(1, image(1)))));
    assert Browsed(v, s).captured == Pages(1, image);
    assert Browsed(v, s) == Seen(n, 1, image);
    assert Awaited(v, s, 0, 40) == Awaited(v, Browsed(v, s), 0, 39) == Browsed(v, s);
  }

  lemma NextLook(n: nat, k: nat, image: nat -> Image)
    requires 1 <= k
    ensures Browsed(PageByPage(n, image), Seen(n, k, image)) == Seen(n, k, image).(calls := 2 * k)
  {
    var v, s := PageByPage(n, image), Seen(n, k, image);
    assert v.arrivals(2 * k - 1) == [];
    hide PageByPage, Pages;
    assert s.captured + [] == s.captured;
  }

  lemma NextClick(n: nat, k: nat, image: nat -> Image)
    requires 1 <= k < n
    ensures Browsed(PageByPage(n, image), Seen(n, k, image).(calls := 2 * k)) == Seen(n, k + 1, image)
  {
    var v := PageByPage(n, image);
    var r := Response(None, Some(Shot(k + 1, image(k + 1))));
    assert v.arrivals(2 * k) == [r];
    assert Pages(k, image) + [r.shot.value] == Pages(k + 1, image);
    hide PageByPage, Pages, ShotsIn, PageCount;
    ShotsOfOne(r);
  }

  lemma AlwaysWorks(n: nat, image: nat -> Image, t: nat)
    ensures PageByPage(n, image).hasNext(t) && PageByPage(n, image).clickable(t)
  {}

  lemma NextPage(n: nat, k: nat, image: nat -> Image)
    requires 1 <= k < n
    ensures Round(PageByPage(n, image), Seen(n, k, image)) == Seen(n, k + 1, image)
    ensures Advances(PageByPage(n, image), Seen(n, k, image))
  {
    hide PageByPage, Browsed;
    NextLook(n, k, image);
    NextClick(n, k, image);
    AlwaysWorks(n, image, 2 * k - 1);
    AlwaysWorks(n, image, 2 * k);
    assert |Seen(n, k + 1, image).captured| == k + 1 && |Seen(n, k, image).captured| == k;
  }

  lemma {:induction false} RoundsOfPages(n: nat, k: nat, r: nat, image: nat -> Image)
    requires 1 <= k && k + r <= n
    ensures AtRound(PageByPage(n, image), Seen(n, k, image), r) == Seen(n, k + r, image)
    decreases r
  {
    hide Round, Seen, PageByPage;
    if r > 0 {
      NextPage(n, k, image);
      RoundsOfPages(n, k + 1, r - 1, image);
    }
  }

  /** Any later round still has the pages: what is captured is never lost. */
  lemma {:induction false} RoundsKeepNumbers(v: Viewer, s: Session, r: nat)
    ensures Captured(AtRound(v, s, r)) >= Captured(s)
    decreases r
  {
    if r > 0 {
      RoundFacts(v, s);
      NumbersGrow(s.captured, Arrived(v, s.calls, Round(v, s).calls));
      hide Captured, Browsed, Awaited, Arrived;
      RoundsKeepNumbers(v, Round(v, s), r - 1);
    }
  }

  lemma {:induction false} AtRoundSum(v: Viewer, s: Session, a: nat, b: nat)
    ensures AtRound(v, s, a + b) == AtRound(v, AtRound(v, s, a), b)
    decreases a
  {
    hide Round;
    if a > 0 {
      assert a + b - 1 == (a - 1) + b;
      AtRoundSum(v, Round(v, s), a - 1, b);
    }
  }

  /** Such a viewer cooperates, so its album has the n pages. */
  lemma PageByPageIsCaptured(n: nat, image: nat -> Image, images: seq<Image>)
    requires n >= 1 && Album(Capture(PageByPage(n, image), Session([], 0, 0)).session.captured, images)
    ensures var v, s := PageByPage(n, image), Session([], 0, 0);
      Cooperative(v, Opened(v, s), Target(Opened(v, s)), Rounds(Target(Opened(v, s)))) && |images| >= n
  {
    var v, s := PageByPage(n, image), Session([], 0, 0);
    var start := Seen(n, 1, image);
    OpensOnPageOne(n, image);
    assert Target(start) == n;
    forall r | 0 <= r < Rounds(n) && Captured(AtRound(v, start, r)) < n
      ensures Advances(v, AtRound(v, start, r))
      ensures Captured(AtRound(v, start, r + 1)) > Captured(AtRound(v, start, r))
    {
      PageByPageProgress(n, r, image);
    }
    hide Captured, Advances, PageByPage, Seen, Opened, Album, Capture, AtRound;
    CooperationCompletes(v, s, images);
  }

  lemma SeenPages(n: nat, k: nat, image: nat -> Image)
    requires k >= 1
    ensures Captured(Seen(n, k, image)) == k
  {
    PagesNumbers(k, image);
    hide Numbers, Pages;
  }

  lemma PageByPageProgress(n: nat, r: nat, image: nat -> Image)
    requires n >= 1 && Captured(AtRound(PageByPage(n, image), Seen(n, 1, image), r)) < n
    ensures var v, start := PageByPage(n, image), Seen(n, 1, image);
      && Advances(v, AtRound(v, start, r))
      && Captured(AtRound(v, start, r + 1)) > Captured(AtRound(v, start, r))
  {
    hide *;
    if r >= n - 1 {
      AllPagesStay(n, r, image);
    } else {
      RoundsOfPages(n, 1, r, image);
      RoundsOfPages(n, 1, r + 1, image);
      NextPage(n, r + 1, image);
      SeenPages(n, r + 1, image);
      SeenPages(n, r + 2, image);
    }
  }

  lemma AllPagesStay(n: nat, r: nat, image: nat -> Image)
    requires n >= 1 && r >= n - 1
    ensures Captured(AtRound(PageByPage(n, image), Seen(n, 1, image), r)) >= n
  {
    hide *;
    var v := PageByPage(n, image);
    SeenPages(n, n, image);
    RoundsOfPages(n, 1, n - 1, image);
    AtRoundSum(v, Seen(n, 1, image), n - 1, r - (n - 1));
    RoundsKeepNumbers(v, Seen(n, n, image), r - (n - 1));
  }

  lemma PrefixInOrder(shots: seq<Shot>, n: nat)
    requires InOrder(shots) && n <= |shots|
    ensures InOrder(shots[..n])
  {}

  lemma AlbumGrows(front: seq<Shot>, x: Shot, pages: seq<int>, images: seq<Image>)
    requires Paged(front, pages, images) && InOrder(front + [x])
    ensures if x.page in pages then Paged(front + [x], pages, images)
            else Paged(front + [x], pages + [x.page], images + [x.image])
  {
    var shots := front + [x];
    assert shots[..|front|] == front;
    FirstOnNumbers(front);
    forall i | 0 <= i < |pages| ensures pages[i] <= x.page {
      assert pages[i] in pages && pages[i] in Numbers(front);
      var j :| 0 <= j < |front| && front[j].page == pages[i];
      assert shots[j] == front[j] && shots[|front|] == x;
    }
  }

  /** De-duplication by page number over the shots sorted by page. */
  method Compile(shots: seq<Shot>) returns (images: seq<Image>)
    ensures Album(shots, images)
  {
    var sorted := ByPage(shots);
    ByPageSorts(shots);
    var seen: set<int> := {};
    images := [];
    ghost var pages: seq<int> := [];
    for i := 0 to |sorted|
      invariant Paged(sorted[..i], pages, images)
      invariant forall p :: p in seen <==> p in pages
    {
      hide Paged, InOrder, FirstOn;
      var shot := sorted[i];
      assert sorted[..i + 1] == sorted[..i] + [shot];
      PrefixInOrder(sorted, i + 1);
      AlbumGrows(sorted[..i], shot, pages, images);
      if shot.page !in seen {
        seen := seen + {shot.page};
        images := images + [shot.image];
        pages := pages + [shot.page];
      }
    }
    assert sorted[..|sorted|] == sorted;
    assert Paged(shots, pages, images);
  }
}
