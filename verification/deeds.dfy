/** Choice of the vesting deed, and of the plat page, among the rows of a clerk's search. */
module Deeds {
  import opened Catalog
  import opened Text

  /** One search row: str() of the values it carries. */
  datatype Row = Row(docType: string, legal: string, recDate: string, party: string, page: string)

  predicate IsDeedType(t: string) {
    t == "DEED" || t == "D" || t == "WD" || t == "WARRANTY DEED" || t == "QCD" || t == "QUIT CLAIM DEED" ||
    t == "SPECIAL WARRANTY DEED" || t == "SWD" || t == "TD" || t == "PR DEED" || t == "GD"
  }

  predicate IsStopWord(t: string) {
    t == "HTS" || t == "HEIGHTS" || t == "UNIT" || t == "NO" || t == "PB" || t == "PG" || t == "BLK" ||
    t == "BLOCK" || t == "LOT" || t == "LT" || t == "LTS" || t == "PLAT" || t == "SUB" || t == "SUBD" ||
    t == "SUBDIV" || t == "SUBDIVISION" || t == "OF" || t == "THE" || t == "ADD" || t == "ADDITION" ||
    t == "PH" || t == "PHASE" || t == "SEC" || t == "REP" || t == "REPLAT"
  }

  // ------------------------------------------------------------ clerk_scraper._subdiv_name

  /** Anything but A-Z, 0-9 and the blank becomes a blank. */
  function Blanked(s: string): string {
    seq(|s|, i requires 0 <= i < |s| => if 'A' <= s[i] <= 'Z' || IsDigit(s[i]) then s[i] else ' ')
  }

  function Tokens(s: string): seq<string> {
    Words(Blanked(Upper(s)))
  }

  function Telling(ts: seq<string>): seq<string> {
    if ts == [] then []
    else (if IsStopWord(ts[0]) || AllDigits(ts[0]) then [] else [ts[0]]) + Telling(ts[1..])
  }

  function SubdivName(s: string): seq<string> {
    var ts := Telling(Tokens(s));
    if |ts| <= 2 then ts else ts[..2]
  }

  // ------------------------------------------------------------ UNIT\s*(?:NO\.?\s*)?(\d+)

  function AfterNo(s: string): string {
    if |s| >= 3 && s[..3] == "NO." then StripLeft(s[3..])
    else if |s| >= 2 && s[..2] == "NO" then StripLeft(s[2..])
    else s
  }

  /** The number the pattern captures when it is tried at the start of s; "" if it fails there. */
  function UnitHere(s: string): string {
    if |s| >= 4 && s[..4] == "UNIT" then LeadRun(AfterNo(StripLeft(s[4..]))) else ""
  }

  /** The leftmost match. */
  function UnitNumber(s: string): string {
    if s == "" then "" else if UnitHere(s) != "" then UnitHere(s) else UnitNumber(s[1..])
  }

  /** The pattern, declaratively: t is UNIT, spaces, optionally NO with or without its point and spaces,
      then all the digits there are. */
  predicate Spelled(t: string, w1: string, no: string, w2: string, digits: string, rest: string) {
    && t == "UNIT" + w1 + no + w2 + digits + rest
    && AllSpaces(w1) && AllSpaces(w2) && (no == "NO" || no == "NO." || (no == "" && w2 == ""))
    && AllDigits(digits) && (rest == "" || !IsDigit(rest[0]))
  }

  lemma {:induction false} StripLeftSplits(s: string) returns (w: string)
    ensures s == w + StripLeft(s) && AllSpaces(w)
    ensures StripLeft(s) == "" || !IsSpace(StripLeft(s)[0])
  {
    if s == "" || !IsSpace(s[0]) {
      w := "";
    } else {
      w := StripLeftSplits(s[1..]);
      assert s == [s[0]] + s[1..];
      w := [s[0]] + w;
    }
  }

  lemma {:induction false} StripLeftOf(w: string, r: string)
    requires AllSpaces(w) && (r == "" || !IsSpace(r[0]))
    ensures StripLeft(w + r) == r
  {
    if w == "" {
      assert w + r == r;
    } else {
      assert (w + r)[1..] == w[1..] + r;
      StripLeftOf(w[1..], r);
    }
  }

  lemma {:induction false} LeadRunSplits(s: string) returns (rest: string)
    ensures s == LeadRun(s) + rest && (rest == "" || !IsDigit(rest[0]))
    ensures forall i :: 0 <= i < |LeadRun(s)| ==> IsDigit(LeadRun(s)[i])
  {
    if s == "" || !IsDigit(s[0]) {
      rest := s;
    } else {
      rest := LeadRunSplits(s[1..]);
      assert s == [s[0]] + s[1..];
    }
  }

  lemma {:induction false} LeadRunOf(d: string, rest: string)
    requires forall i :: 0 <= i < |d| ==> IsDigit(d[i])
    requires rest == "" || !IsDigit(rest[0])
    ensures LeadRun(d + rest) == d
  {
    if d == "" {
      assert d + rest == rest;
    } else {
      assert (d + rest)[1..] == d[1..] + rest;
      LeadRunOf(d[1..], rest);
    }
  }

  lemma AfterNoOf(no: string, w2: string, more: string)
    requires AllSpaces(w2) && more != "" && IsDigit(more[0])
    requires no == "NO" || no == "NO." || (no == "" && w2 == "")
    ensures AfterNo(no + w2 + more) == more
  {
    var s := no + w2 + more;
    StripLeftOf(w2, more);
    if no == "NO." {
      assert s[..3] == "NO." && s[3..] == w2 + more;
    } else if no == "NO" {
      assert s[..2] == "NO" && s[2..] == w2 + more;
      assert s[2] == if w2 == "" then more[0] else w2[0];
    } else {
      assert s == more;
      assert s[0] == more[0] != 'N';
    }
  }

  lemma UnitThen(t: string, x: string)
    requires t == "UNIT" + x
    ensures UnitHere(t) == LeadRun(AfterNo(StripLeft(x)))
  {
    assert t[..4] == "UNIT" && t[4..] == x;
    hide LeadRun, AfterNo, StripLeft;
  }

  /** Reading the number off greedily decides the pattern: what it reads is a match, and no other
      way of matching at the same place captures anything else. */
  lemma UnitHereMatches(t: string, w1: string, no: string, w2: string, digits: string, rest: string)
    requires Spelled(t, w1, no, w2, digits, rest)
    ensures UnitHere(t) == digits
  {
    hide AfterNo, StripLeft, LeadRun, UnitHere;
    var more := digits + rest;
    assert more[0] == digits[0];
    AfterNoOf(no, w2, more);
    var tail := no + w2 + more;
    assert t == "UNIT" + (w1 + tail);
    UnitThen(t, w1 + tail);
    assert !IsSpace(tail[0]) by { assert tail[0] == if no != "" then no[0] else more[0]; }
    StripLeftOf(w1, tail);
    LeadRunOf(digits, rest);
  }

  lemma AfterNoSplits(s: string) returns (no: string, w2: string)
    ensures s == no + w2 + AfterNo(s) && AllSpaces(w2)
    ensures no == "NO" || no == "NO." || (no == "" && w2 == "")
  {
    if |s| >= 3 && s[..3] == "NO." {
      no := "NO.";
      w2 := StripLeftSplits(s[3..]);
      assert s == no + s[3..];
    } else if |s| >= 2 && s[..2] == "NO" {
      no := "NO";
      w2 := StripLeftSplits(s[2..]);
      assert s == no + s[2..];
    } else {
      no, w2 := "", "";
    }
  }

  lemma UnitHereFound(t: string) returns (w1: string, no: string, w2: string, rest: string)
    requires UnitHere(t) != ""
    ensures Spelled(t, w1, no, w2, UnitHere(t), rest)
  {
    hide AfterNo, StripLeft, LeadRun;
    var s := StripLeft(t[4..]);
    w1 := StripLeftSplits(t[4..]);
    no, w2 := AfterNoSplits(s);
    rest := LeadRunSplits(AfterNo(s));
    Assemble(t, w1, no, w2, UnitHere(t), rest, s, AfterNo(s));
  }

  lemma Assemble(t: string, w1: string, no: string, w2: string, digits: string, rest: string, s: string, more: string)
    requires |t| >= 4 && t[..4] == "UNIT" && t[4..] == w1 + s && s == no + w2 + more && more == digits + rest
    ensures t == "UNIT" + w1 + no + w2 + digits + rest
  {
    assert t == "UNIT" + t[4..];
  }

  /** The captured number is that of the leftmost place where the pattern matches at all. */
  lemma {:induction false} UnitIsLeftmost(s: string) returns (i: nat)
    ensures UnitNumber(s) != "" ==> i < |s| && UnitHere(s[i..]) == UnitNumber(s)
    ensures UnitNumber(s) == "" ==> i == |s|
    ensures i <= |s| && forall j :: 0 <= j < i ==> UnitHere(s[j..]) == ""
  {
    hide UnitHere;
    if s == "" {
      i := 0;
    } else if UnitHere(s) != "" {
      i := 0;
      assert s[0..] == s;
    } else {
      i := UnitIsLeftmost(s[1..]);
      forall j | 0 <= j < i + 1 ensures UnitHere(s[j..]) == "" {
        if j == 0 { assert s[0..] == s; } else { assert s[j..] == s[1..][j - 1..]; }
      }
      i := i + 1;
      assert i < |s| ==> s[i..] == s[1..][i - 1..];
    }
  }

  // ------------------------------------------------------------ clerk_scraper._pick_deed

  /** A row's legal description names the subdivision and, if it has one, the unit. */
  predicate Describes(r: Row, subdivision: string) {
    var toks, name, unit := Tokens(r.legal), SubdivName(subdivision), UnitNumber(Upper(subdivision));
    && (forall i :: 0 <= i < |name| ==> name[i] in toks)
    && (unit == "" || unit in toks)
  }

  predicate IsDeed(r: Row) {
    IsDeedType(Upper(r.docType))
  }

  predicate Eligible(r: Row, subdivision: string) {
    IsDeed(r) && Describes(r, subdivision)
  }

  predicate IsGrantee(r: Row) {
    Upper(r.party) == "R"
  }

  function Filter<T>(rows: seq<T>, p: T -> bool): seq<T> {
    if rows == [] then [] else (if p(rows[0]) then [rows[0]] else []) + Filter(rows[1..], p)
  }

  /** Python's order on str. */
  predicate Before(s: string, t: string) {
    t != "" && (s == "" || s[0] < t[0] || (s[0] == t[0] && Before(s[1..], t[1..])))
  }

  /** max by record date: the first of the greatest. */
  function Recent(rows: seq<Row>): Row
    requires rows != []
  {
    var last := rows[|rows| - 1];
    if |rows| == 1 then last
    else
      var best := Recent(rows[..|rows| - 1]);
      if Before(best.recDate, last.recDate) then last else best
  }

  function PickDeed(rows: seq<Row>, subdivision: string): Option<Row> {
    var deeds := Filter(rows, IsDeed);
    if deeds == [] || SubdivName(subdivision) == [] then None
    else
      var cand := Filter(deeds, (r: Row) => Describes(r, subdivision));
      var grantee := Filter(cand, IsGrantee);
      if cand == [] then None
      else Some(if grantee != [] then Recent(grantee) else Recent(cand))
  }

  /** clerk_scraper._pick_plat_page */
  function PickPlatPage(rows: seq<Row>, subdivision: string): Option<string> {
    if SubdivName(subdivision) == [] || rows == [] then None
    else if Describes(rows[0], subdivision) then Some(rows[0].page)
    else PickPlatPage(rows[1..], subdivision)
  }

  lemma {:induction false} FilterKeeps<T>(rows: seq<T>, p: T -> bool)
    ensures forall r :: r in Filter(rows, p) <==> r in rows && p(r)
  {
    if rows != [] {
      FilterKeeps(rows[1..], p);
      assert rows == [rows[0]] + rows[1..];
    }
  }

  lemma {:induction false} BeforeIsOrder(s: string, t: string, u: string)
    ensures !Before(s, s)
    ensures !Before(s, t) && !Before(t, s) ==> s == t
    ensures Before(s, t) && Before(t, u) ==> Before(s, u)
    ensures !Before(s, t) && Before(u, t) ==> Before(u, s) || u == s
    decreases |s| + |t| + |u|
  {
    if s != "" && t != "" && u != "" {
      BeforeIsOrder(s[1..], t[1..], u[1..]);
      assert s == [s[0]] + s[1..] && t == [t[0]] + t[1..] && u == [u[0]] + u[1..];
    } else if s != "" && t != "" {
      BeforeIsOrder(s[1..], t[1..], u);
      assert s == [s[0]] + s[1..] && t == [t[0]] + t[1..];
    } else if s != "" {
      BeforeIsOrder(s[1..], t, if u == "" then u else u[1..]);
    }
  }

  lemma {:induction false} RecentIsLatest(rows: seq<Row>)
    requires rows != []
    ensures Recent(rows) in rows && forall r :: r in rows ==> !Before(Recent(rows).recDate, r.recDate)
  {
    var last := rows[|rows| - 1];
    BeforeIsOrder(last.recDate, last.recDate, last.recDate);
    if |rows| > 1 {
      var front := rows[..|rows| - 1];
      assert rows == front + [last];
      RecentIsLatest(front);
      var best := Recent(front);
      forall r | r in rows ensures !Before(Recent(rows).recDate, r.recDate) {
        if r in front { BeforeIsOrder(best.recDate, last.recDate, r.recDate); }
      }
    }
  }

  /** Among equal dates the first row wins. */
  lemma {:induction false} RecentIsFirst(rows: seq<Row>) returns (i: nat)
    requires rows != []
    ensures i < |rows| && Recent(rows) == rows[i]
    ensures forall j :: 0 <= j < i ==> Before(rows[j].recDate, rows[i].recDate)
  {
    i := 0;
    if |rows| > 1 {
      var front, last := rows[..|rows| - 1], rows[|rows| - 1];
      i := RecentIsFirst(front);
      var best := Recent(front);
      RecentIsLatest(front);
      if Before(best.recDate, last.recDate) {
        i := |front|;
        forall j | 0 <= j < i ensures Before(rows[j].recDate, last.recDate) {
          assert front[j] in front;
          BeforeIsOrder(rows[j].recDate, best.recDate, last.recDate);
          BeforeIsOrder(best.recDate, rows[j].recDate, last.recDate);
        }
      }
    }
  }

  /** Up to i the two agree; there s ends, or has the lower character. */
  predicate LowerAt(s: string, t: string, i: nat) {
    i <= |s| && i < |t| && (forall j :: 0 <= j < i ==> s[j] == t[j]) && (i == |s| || s[i] < t[i])
  }

  /** s stands before t in a dictionary: it is a proper beginning of t, or has the lower character
      where the two first differ. */
  ghost predicate Precedes(s: string, t: string) {
    exists i: nat :: LowerAt(s, t, i)
  }

  /** The order of the dates is dictionary order. */
  lemma {:induction false} BeforeIsPrecedes(s: string, t: string)
    ensures Before(s, t) <==> Precedes(s, t)
  {
    assert LowerAt(s, t, 0) <==> t != "" && (s == "" || s[0] < t[0]);
    if s != "" && t != "" && s[0] == t[0] {
      var s', t' := s[1..], t[1..];
      BeforeIsPrecedes(s', t');
      forall i: nat ensures LowerAt(s', t', i) <==> LowerAt(s, t, i + 1) { LowerNext(s, t, i); }
      hide LowerAt;
      if i: nat :| LowerAt(s, t, i) { assert LowerAt(s', t', i - 1); }
      if i: nat :| LowerAt(s', t', i) { assert LowerAt(s, t, i + 1); }
    } else if i: nat :| LowerAt(s, t, i) {
      assert LowerAt(s, t, 0);
    }
  }

  lemma LowerNext(s: string, t: string, i: nat)
    requires s != "" && t != "" && s[0] == t[0]
    ensures LowerAt(s[1..], t[1..], i) <==> LowerAt(s, t, i + 1)
  {
    var s', t' := s[1..], t[1..];
    assert forall j :: 0 <= j < |s'| ==> s'[j] == s[j + 1];
    assert forall j :: 0 <= j < |t'| ==> t'[j] == t[j + 1];
    if LowerAt(s', t', i) {
      forall j | 0 <= j < i + 1 ensures s[j] == t[j] {
        if j > 0 { assert s'[j - 1] == t'[j - 1]; }
      }
    }
    if LowerAt(s, t, i + 1) {
      forall j | 0 <= j < i ensures s'[j] == t'[j] { assert s[j + 1] == t[j + 1]; }
    }
  }

  // ------------------------------------------------------------ what a legal description says

  predicate KeptChar(c: char) {
    'A' <= c <= 'Z' || IsDigit(c)
  }

  /** t is a token of s: a run of capitals and digits in its upper-case form, with none of them next to it. */
  ghost predicate Says(s: string, t: string) {
    exists i: nat, j: nat :: RunAt(Upper(s), t, i, j)
  }

  predicate RunAt(u: string, t: string, i: nat, j: nat) {
    && i < j <= |u| && u[i..j] == t && (forall k :: 0 <= k < |t| ==> KeptChar(t[k]))
    && (i == 0 || !KeptChar(u[i - 1])) && (j == |u| || !KeptChar(u[j]))
  }

  lemma RunIsWord(u: string, t: string, i: nat, j: nat)
    ensures RunAt(u, t, i, j) <==> WordAt(Blanked(u), t, i, j)
  {
    var b := Blanked(u);
    assert forall k :: 0 <= k < |u| ==> b[k] == if KeptChar(u[k]) then u[k] else ' ';
    if i < j <= |u| {
      if RunAt(u, t, i, j) {
        forall k | i <= k < j ensures b[k] == u[k] { assert t[k - i] == u[k]; }
        assert b[i..j] == t;
      }
      if WordAt(b, t, i, j) {
        forall k | i <= k < j ensures KeptChar(u[k]) { assert t[k - i] == b[k]; }
        assert u[i..j] == t;
      }
    }
  }

  /** The tokens are exactly these runs. */
  lemma TokensAreSaid(s: string, t: string)
    ensures t in Tokens(s) <==> Says(s, t)
  {
    var u := Upper(s);
    WordsMeaning(Blanked(u), t);
    forall i: nat, j: nat ensures RunAt(u, t, i, j) <==> WordAt(Blanked(u), t, i, j) { RunIsWord(u, t, i, j); }
    hide RunAt, WordAt, Words, Blanked;
  }

  /** A telling word is neither a stop word nor a number. */
  predicate IsTelling(t: string) {
    !IsStopWord(t) && !AllDigits(t)
  }

  /** The name of a subdivision is made of its first two telling tokens, or of the one there is. */
  lemma NameIsFirstTelling(s: string) returns (at: seq<nat>)
    ensures var ts, name := Tokens(s), SubdivName(s);
      && |at| == |name| <= 2
      && (forall k :: 0 <= k < |at| ==> at[k] < |ts| && ts[at[k]] == name[k] && IsTelling(name[k]))
      && (|at| == 2 ==> at[0] < at[1])
      && forall j :: 0 <= j < |ts| && IsTelling(ts[j]) && j !in at ==> |at| == 2 && j > at[1]
  {
    var ts := Tokens(s);
    at := TellingPlaces(ts, 0);
    assert ts[0..] == ts;
    hide Tokens, IsTelling, Telling;
    at := if |at| <= 2 then at else at[..2];
  }

  /** The telling tokens from place k on are those of Telling, in order. */
  lemma {:induction false} TellingPlaces(ts: seq<string>, k: nat) returns (at: seq<nat>)
    requires k <= |ts|
    ensures |at| == |Telling(ts[k..])|
    ensures forall l :: 0 <= l < |at| ==> k <= at[l] < |ts| && ts[at[l]] == Telling(ts[k..])[l] && IsTelling(ts[at[l]])
    ensures forall l, m :: 0 <= l < m < |at| ==> at[l] < at[m]
    ensures forall j :: k <= j < |ts| && IsTelling(ts[j]) ==> j in at
    decreases |ts| - k
  {
    if k == |ts| {
      at := [];
    } else {
      TellingNext(ts, k);
      hide Telling, IsTelling;
      at := TellingPlaces(ts, k + 1);
      if IsTelling(ts[k]) { at := [k] + at; }
    }
  }

  lemma TellingNext(ts: seq<string>, k: nat)
    requires k < |ts|
    ensures Telling(ts[k..]) == (if IsTelling(ts[k]) then [ts[k]] else []) + Telling(ts[k + 1..])
  {
    hide IsStopWord, AllDigits;
    assert ts[k..][1..] == ts[k + 1..];
  }

  /** A legal description of the subdivision: it says every word of its name and, if it has one, its
      unit number. */
  ghost predicate SpeaksOf(legal: string, subdivision: string) {
    && (forall i :: 0 <= i < |SubdivName(subdivision)| ==> Says(legal, SubdivName(subdivision)[i]))
    && (UnitNumber(Upper(subdivision)) == "" || Says(legal, UnitNumber(Upper(subdivision))))
  }

  lemma DescribesMeaning(r: Row, subdivision: string)
    ensures Describes(r, subdivision) <==> SpeaksOf(r.legal, subdivision)
  {
    var name, unit := SubdivName(subdivision), UnitNumber(Upper(subdivision));
    forall i | 0 <= i < |name| ensures name[i] in Tokens(r.legal) <==> Says(r.legal, name[i]) {
      TokensAreSaid(r.legal, name[i]);
    }
    TokensAreSaid(r.legal, unit);
    hide Tokens, Says, SubdivName, UnitNumber;
  }

  /** A row that may be the deed: its type is a deed type in any case, and it is for the subdivision. */
  ghost predicate MayBe(r: Row, subdivision: string) {
    IsDeedType(Upper(r.docType)) && SpeaksOf(r.legal, subdivision)
  }

  lemma EligibleMeaning(r: Row, subdivision: string)
    ensures Eligible(r, subdivision) <==> MayBe(r, subdivision)
  {
    hide Describes, SpeaksOf, IsDeedType;
    DescribesMeaning(r, subdivision);
  }

  /** The searched owner received this deed. */
  predicate Received(r: Row) {
    r.party == "R" || r.party == "r"
  }

  lemma GranteeMeaning(r: Row)
    ensures IsGrantee(r) <==> Received(r)
  {
    if IsGrantee(r) {
      assert |r.party| == |Upper(r.party)| == 1 && UpperChar(r.party[0]) == Upper(r.party)[0] == 'R';
      assert r.party == [r.party[0]];
    }
    if Received(r) { assert Upper(r.party) == "R"; }
  }

  /** What a deed must be to be the one picked, without reference to how it is searched. */
  ghost predicate Vesting(d: Row, rows: seq<Row>, subdivision: string) {
    && d in rows && MayBe(d, subdivision)
    && (forall r :: r in rows && MayBe(r, subdivision) && Received(r) ==> Received(d))
    && (forall r :: r in rows && MayBe(r, subdivision) && Received(r) == Received(d) ==> !Precedes(d.recDate, r.recDate))
  }

  /** Nothing is picked exactly when the subdivision has no telling word or no deed row describes it;
      otherwise the pick is a described deed of the latest date, among the grantee's rows if any. */
  lemma PickIsVesting(rows: seq<Row>, subdivision: string)
    ensures PickDeed(rows, subdivision).None?
      <==> SubdivName(subdivision) == [] || forall r :: r in rows ==> !MayBe(r, subdivision)
    ensures PickDeed(rows, subdivision).Some? ==> Vesting(PickDeed(rows, subdivision).value, rows, subdivision)
  {
    PickIsLatest(rows, subdivision);
    hide PickDeed, Eligible, MayBe, IsGrantee, SubdivName, Before;
    forall r: Row ensures (Eligible(r, subdivision) <==> MayBe(r, subdivision)) && (IsGrantee(r) <==> Received(r)) {
      EligibleMeaning(r, subdivision);
      GranteeMeaning(r);
    }
    if PickDeed(rows, subdivision).Some? {
      var d := PickDeed(rows, subdivision).value;
      forall r: Row ensures Before(d.recDate, r.recDate) <==> Precedes(d.recDate, r.recDate) {
        BeforeIsPrecedes(d.recDate, r.recDate);
      }
    }
  }

  lemma PickIsLatest(rows: seq<Row>, subdivision: string)
    ensures PickDeed(rows, subdivision).None?
      <==> SubdivName(subdivision) == [] || forall r :: r in rows ==> !Eligible(r, subdivision)
    ensures PickDeed(rows, subdivision).Some? ==>
      var d := PickDeed(rows, subdivision).value;
      && d in rows && Eligible(d, subdivision)
      && (forall r :: r in rows && Eligible(r, subdivision) && IsGrantee(r) ==> IsGrantee(d))
      && (forall r :: r in rows && Eligible(r, subdivision) && IsGrantee(r) == IsGrantee(d) ==> !Before(d.recDate, r.recDate))
  {
    hide Describes, IsDeed, IsGrantee, SubdivName, Recent;
    var deeds := Filter(rows, IsDeed);
    var cand := Filter(deeds, (r: Row) => Describes(r, subdivision));
    var grantee := Filter(cand, IsGrantee);
    FilterKeeps(rows, IsDeed);
    FilterKeeps(deeds, (r: Row) => Describes(r, subdivision));
    FilterKeeps(cand, IsGrantee);
    assert forall r :: r in cand <==> r in rows && Eligible(r, subdivision);
    if cand == [] {
      assert deeds == [] || PickDeed(rows, subdivision).None?;
    } else {
      assert cand[0] in cand;
      RecentIsLatest(cand);
    }
    if grantee != [] { RecentIsLatest(grantee); }
  }

  /** The date and the party side of the pick do not depend on the order of the rows, nor on
      repetitions among them. */
  lemma PickIgnoresOrder(rows: seq<Row>, other: seq<Row>, subdivision: string)
    requires forall r :: r in rows <==> r in other
    ensures var a, b := PickDeed(rows, subdivision), PickDeed(other, subdivision);
      (a.Some? <==> b.Some?)
      && (a.Some? ==> a.value.recDate == b.value.recDate && IsGrantee(a.value) == IsGrantee(b.value))
  {
    PickIsLatest(rows, subdivision);
    PickIsLatest(other, subdivision);
    hide PickDeed, Eligible, IsGrantee, SubdivName;
    var a, b := PickDeed(rows, subdivision), PickDeed(other, subdivision);
    if a.Some? && b.Some? { BeforeIsOrder(a.value.recDate, b.value.recDate, ""); }
  }

  /** The plat page comes from the first row whose legal description is of the subdivision, if any is. */
  lemma {:induction false} PlatPageIsFirst(rows: seq<Row>, subdivision: string) returns (i: nat)
    ensures PickPlatPage(rows, subdivision).None?
      <==> SubdivName(subdivision) == [] || forall r :: r in rows ==> !SpeaksOf(r.legal, subdivision)
    ensures PickPlatPage(rows, subdivision).Some? ==>
      && i < |rows| && SpeaksOf(rows[i].legal, subdivision) && PickPlatPage(rows, subdivision).value == rows[i].page
      && forall j :: 0 <= j < i ==> !SpeaksOf(rows[j].legal, subdivision)
  {
    hide Describes, SpeaksOf, SubdivName;
    i := 0;
    if rows != [] {
      assert rows == [rows[0]] + rows[1..];
      DescribesMeaning(rows[0], subdivision);
      i := PlatPageIsFirst(rows[1..], subdivision);
      i := if SpeaksOf(rows[0].legal, subdivision) then 0 else i + 1;
    }
  }

  // ------------------------------------------------------------ literal rows

  lemma DeedTypes()
    ensures IsDeedType("DEED") && IsDeedType("D") && IsDeedType("WD") && IsDeedType("WARRANTY DEED")
    ensures IsDeedType("QCD") && IsDeedType("QUIT CLAIM DEED") && IsDeedType("SPECIAL WARRANTY DEED")
    ensures IsDeedType("SWD") && IsDeedType("TD") && IsDeedType("PR DEED") && IsDeedType("GD")
    ensures !IsDeedType("MTG") && !IsDeedType("MORTGAGE") && !IsDeedType("PLAT") && !IsDeedType("")
  {}

  lemma StopWords()
    ensures IsStopWord("HTS") && IsStopWord("HEIGHTS") && IsStopWord("UNIT") && IsStopWord("NO") && IsStopWord("PB")
    ensures IsStopWord("PG") && IsStopWord("BLK") && IsStopWord("BLOCK") && IsStopWord("LOT") && IsStopWord("LT")
    ensures IsStopWord("LTS") && IsStopWord("PLAT") && IsStopWord("SUB") && IsStopWord("SUBD") && IsStopWord("SUBDIV")
    ensures IsStopWord("SUBDIVISION") && IsStopWord("OF") && IsStopWord("THE") && IsStopWord("ADD") && IsStopWord("ADDITION")
    ensures IsStopWord("PH") && IsStopWord("PHASE") && IsStopWord("SEC") && IsStopWord("REP") && IsStopWord("REPLAT")
    ensures !IsStopWord("IDLEWILD") && !IsStopWord("LAKESIDE") && !IsStopWord("")
  {}

  const IDLEWILD := "IDLEWILD"

  function Deed(date: string): Row {
    Row("DEED", IDLEWILD, date, "R", "")
  }

  lemma {:induction false} NoUnit(s: string)
    requires 'U' !in s
    ensures UnitNumber(s) == ""
  {
    if s != "" {
      assert s[0] in s && s == [s[0]] + s[1..];
      assert UnitHere(s) == "" by { if |s| >= 4 { assert s[..4][0] == s[0]; } }
      NoUnit(s[1..]);
    }
  }

  lemma IdlewildIsItself()
    ensures Upper(IDLEWILD) == IDLEWILD == Blanked(IDLEWILD) && IsWord(IDLEWILD) && 'U' !in IDLEWILD
    ensures IsTelling(IDLEWILD)
    ensures Upper("DEED") == "DEED"
  {
    assert !IsDigit(IDLEWILD[0]);
  }

  lemma IdlewildTokens()
    ensures Tokens(IDLEWILD) == [IDLEWILD]
  {
    IdlewildIsItself();
    hide Upper, Blanked, IsWord;
    WordsOfJoin([IDLEWILD]);
    assert Join([IDLEWILD]) == IDLEWILD;
  }

  lemma TellingOne(t: string)
    requires IsTelling(t)
    ensures Telling([t]) == [t]
  {
    hide IsStopWord, AllDigits;
    assert [t][1..] == [];
  }

  lemma IdlewildDescribed(date: string)
    ensures SubdivName(IDLEWILD) == [IDLEWILD] && Eligible(Deed(date), IDLEWILD)
  {
    hide *;
    IdlewildIsItself();
    DeedTypes();
    NoUnit(IDLEWILD);
    IdlewildTokens();
    TellingOne(IDLEWILD);
    NamedByItself(date);
  }

  /** The word it consists of names the subdivision, and its legal description says it. */
  lemma NamedByItself(date: string)
    ensures Tokens(IDLEWILD) == [IDLEWILD] && Telling([IDLEWILD]) == [IDLEWILD] && Upper(IDLEWILD) == IDLEWILD
            && UnitNumber(IDLEWILD) == "" && Upper("DEED") == "DEED" && IsDeedType("DEED") ==>
      SubdivName(IDLEWILD) == [IDLEWILD] && Eligible(Deed(date), IDLEWILD)
  {
    hide Upper, Telling, Tokens, IsDeedType, UnitNumber;
  }

  lemma Years()
    ensures Precedes("2001-05-02", "2020-07-09") && Upper("R") == "R"
  {
    assert LowerAt("2001-05-02", "2020-07-09", 2);
  }

  lemma SameSide(s: string, t: string)
    ensures IsGrantee(Deed(s)) == IsGrantee(Deed(t))
  {}

  lemma DeedsDiffer(s: string, t: string)
    ensures Deed(s).recDate == s && (Deed(s) == Deed(t) <==> s == t)
  {}

  /** Of two deeds to the owner the later one is picked, whichever comes first among the rows. */
  lemma LaterDeedIsPicked(s: string, t: string)
    requires Precedes(s, t)
    ensures PickDeed([Deed(s), Deed(t)], IDLEWILD) == PickDeed([Deed(t), Deed(s)], IDLEWILD) == Some(Deed(t))
  {
    IdlewildDescribed(s);
    IdlewildDescribed(t);
    DeedsDiffer(s, t);
    DeedsDiffer(t, s);
    SameSide(s, t);
    hide PickDeed, Eligible, IsGrantee, SubdivName, Deed, Precedes, Before;
    BeforeIsPrecedes(s, t);
    BeforeIsOrder(s, t, s);
    var rows, swapped := [Deed(s), Deed(t)], [Deed(t), Deed(s)];
    PickIsLatest(rows, IDLEWILD);
    PickIsLatest(swapped, IDLEWILD);
    assert forall r :: r in rows <==> r == Deed(s) || r == Deed(t);
    assert forall r :: r in swapped <==> r == Deed(s) || r == Deed(t);
    assert Deed(s) in rows && Deed(t) in rows && Deed(s) in swapped && Deed(t) in swapped;
  }

  lemma TwentyTwentyIsPicked()
    ensures PickDeed([Deed("2001-05-02"), Deed("2020-07-09")], IDLEWILD) == Some(Deed("2020-07-09"))
  {
    Years();
    hide PickDeed, Deed, Precedes;
    LaterDeedIsPicked("2001-05-02", "2020-07-09");
  }
}
