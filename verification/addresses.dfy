/** Three-valued comparison of a searched address with a parcel's situs. */
module Addresses {
  import opened Text

  datatype Match = Yes | No | Unknown

  predicate IsSuffix(c: string) {
    c == "AVE" || c == "AVENUE" || c == "ST" || c == "STREET" || c == "RD" || c == "ROAD" || c == "DR" ||
    c == "DRIVE" || c == "LN" || c == "LANE" || c == "BLVD" || c == "BOULEVARD" || c == "CT" || c == "COURT" ||
    c == "CIR" || c == "CIRCLE" || c == "PL" || c == "PLACE" || c == "WAY" || c == "TER" || c == "TERRACE" ||
    c == "HWY" || c == "HIGHWAY" || c == "PKWY" || c == "PARKWAY" || c == "TRL" || c == "TRAIL" ||
    c == "LOOP" || c == "RUN" || c == "PASS" || c == "PT" || c == "POINT" || c == "SQ" || c == "SQUARE" ||
    c == "PATH" || c == "XING" || c == "CV" || c == "COVE" || c == "BND" || c == "BEND" || c == "ROW" ||
    c == "WALK" || c == "PLZ" || c == "PLAZA"
  }

  predicate IsDirection(c: string) {
    c == "N" || c == "S" || c == "E" || c == "W" || c == "NE" || c == "NW" || c == "SE" || c == "SW" ||
    c == "NORTH" || c == "SOUTH" || c == "EAST" || c == "WEST"
  }

  // ------------------------------------------------------------ parcel._house, _street_tokens

  /** A leading number, else a trailing one, of the text before the first comma. */
  function House(addr: string): string {
    var a := Strip(BeforeComma(addr));
    if LeadRun(a) != "" then LeadRun(a) else TailRun(a)
  }

  /** ^\d+[A-Za-z]?$ */
  predicate HouseToken(t: string) {
    AllDigits(t) || (|t| > 1 && AllDigits(t[..|t| - 1]) && IsAlpha(t[|t| - 1]))
  }

  /** Letters and digits only, in upper case. */
  function Clean(t: string): string {
    if t == "" then ""
    else (if IsAlpha(t[0]) || IsDigit(t[0]) then [UpperChar(t[0])] else "") + Clean(t[1..])
  }

  predicate Noise(t: string) {
    var c := Clean(t);
    c == "" || IsSuffix(c) || IsDirection(c)
  }

  function Names(ws: seq<string>): seq<string> {
    if ws == [] then [] else (if Noise(ws[0]) then [] else [Clean(ws[0])]) + Names(ws[1..])
  }

  function DropHouse(ws: seq<string>): seq<string> {
    if ws != [] && HouseToken(ws[0]) then ws[1..] else ws
  }

  function DropTail(ws: seq<string>): seq<string> {
    if ws != [] && AllDigits(ws[|ws| - 1]) then ws[..|ws| - 1] else ws
  }

  function StreetTokens(addr: string): seq<string> {
    Names(DropTail(DropHouse(Words(Strip(BeforeComma(addr))))))
  }

  /** parcel._addr_match */
  function AddrMatch(search: string, situs: string): Match {
    var sh, ch := House(search), House(situs);
    if sh == "" || ch == "" then Unknown
    else if sh != ch then No
    else
      var st, ct := StreetTokens(search), StreetTokens(situs);
      if st != [] && ct != [] then (if exists t :: t in st && t in ct then Yes else No)
      else Yes
  }

  // ------------------------------------------------------------ what the comparison sees

  lemma MatchSymmetric(a: string, b: string)
    ensures AddrMatch(a, b) == AddrMatch(b, a)
  {
    hide House, StreetTokens;
    var st, ct := StreetTokens(a), StreetTokens(b);
    assert (exists t :: t in st && t in ct) <==> (exists t :: t in ct && t in st);
  }

  /** An address with a house number matches itself, and whatever it matches has that house number;
      without one on either side nothing can be said. */
  lemma MatchReadsHouse(a: string, b: string)
    ensures AddrMatch(a, b) == Unknown <==> House(a) == "" || House(b) == ""
    ensures AddrMatch(a, b) == Yes ==> House(a) == House(b) != ""
    ensures House(a) != "" ==> AddrMatch(a, a) == Yes
  {
    hide House, StreetTokens;
    var st := StreetTokens(a);
    assert st != [] ==> st[0] in st;
  }

  lemma MatchIgnoresAfterComma(a: string, rest: string, b: string)
    ensures AddrMatch(a + "," + rest, b) == AddrMatch(a, b)
  {
    CommaEnds(a, rest);
  }

  function HouseOf(ws: seq<string>): string {
    if ws == [] then "" else if LeadRun(ws[0]) != "" then LeadRun(ws[0]) else TailRun(ws[|ws| - 1])
  }

  /** House and street are functions of the words before the first comma: spacing is invisible. */
  lemma SeesOnlyWords(addr: string)
    ensures House(addr) == HouseOf(Words(BeforeComma(addr)))
    ensures StreetTokens(addr) == Names(DropTail(DropHouse(Words(BeforeComma(addr)))))
  {
    StripSeenByWords(BeforeComma(addr));
  }

  lemma {:induction false} NamesOfSum(a: seq<string>, b: seq<string>)
    ensures Names(a + b) == Names(a) + Names(b)
  {
    hide Clean, Noise;
    if a == [] {
      assert a + b == b;
    } else {
      assert (a + b)[1..] == a[1..] + b;
      NamesOfSum(a[1..], b);
    }
  }

  predicate AllNoise(xs: seq<string>) {
    forall i :: 0 <= i < |xs| ==> Noise(xs[i])
  }

  lemma {:induction false} NoiseHasNoNames(xs: seq<string>)
    requires AllNoise(xs)
    ensures Names(xs) == []
  {
    if xs != [] { NoiseHasNoNames(xs[1..]); }
  }

  lemma {:induction false} CleanOfNumber(t: string)
    requires forall i :: 0 <= i < |t| ==> IsDigit(t[i])
    ensures Clean(t) == t
  {
    if t != "" { CleanOfNumber(t[1..]); }
  }

  lemma SuffixStartsWithLetter(c: string)
    requires IsSuffix(c) || IsDirection(c)
    ensures c != "" && !IsDigit(c[0])
  {}

  lemma NoiseIsNoNumber(t: string)
    requires AllDigits(t)
    ensures !Noise(t)
  {
    CleanOfNumber(t);
    if IsSuffix(t) { SuffixStartsWithLetter(t); }
    if IsDirection(t) { SuffixStartsWithLetter(t); }
  }

  /** Where words may be put without being taken for an end of the address: between two words, or
      after a leading house number unless the address would then stop ending in a number. */
  predicate InnerPlace(us: seq<string>, vs: seq<string>) {
    us != [] && (vs != [] || (LeadRun(us[0]) != "" && (|us| == 1 || !AllDigits(us[|us| - 1]))))
  }

  lemma HouseKeepsNoise(us: seq<string>, xs: seq<string>, vs: seq<string>)
    requires InnerPlace(us, vs)
    ensures HouseOf(us + xs + vs) == HouseOf(us + vs)
  {}

  lemma NamesSkipNoise(a: seq<string>, xs: seq<string>, b: seq<string>)
    requires AllNoise(xs)
    ensures Names(a + xs + b) == Names(a + b)
  {
    NamesOfSum(a + xs, b);
    NamesOfSum(a, xs);
    NamesOfSum(a, b);
    NoiseHasNoNames(xs);
  }

  lemma DropTailOfSum(a: seq<string>, b: seq<string>)
    requires b != []
    ensures DropTail(a + b) == a + DropTail(b)
  {
    if AllDigits(b[|b| - 1]) { assert (a + b)[..|a + b| - 1] == a + b[..|b| - 1]; }
  }

  lemma NamesKeepNoise(us: seq<string>, xs: seq<string>, vs: seq<string>)
    requires InnerPlace(us, vs) && AllNoise(xs) && xs != []
    ensures Names(DropTail(DropHouse(us + xs + vs))) == Names(DropTail(DropHouse(us + vs)))
  {
    hide Noise, AllDigits, LeadRun;
    var head := DropHouse(us);
    assert DropHouse(us + xs + vs) == head + xs + vs;
    assert DropHouse(us + vs) == head + vs;
    if vs != [] {
      DropTailOfSum(head + xs, vs);
      DropTailOfSum(head, vs);
      NamesSkipNoise(head, xs, DropTail(vs));
    } else {
      assert Noise(xs[|xs| - 1]);
      if AllDigits(xs[|xs| - 1]) { NoiseIsNoNumber(xs[|xs| - 1]); }
      DropTailOfSum(head, xs);
      assert DropTail(xs) == xs && DropTail(head) == head;
      assert head + xs + vs == head + xs + [] && head + vs == head + [];
      NamesSkipNoise(head, xs, []);
      assert head + [] == head && head + xs + [] == head + xs;
    }
  }

  lemma NoiseView(us: seq<string>, xs: seq<string>, vs: seq<string>)
    requires InnerPlace(us, vs) && AllNoise(xs)
    ensures HouseOf(us + xs + vs) == HouseOf(us + vs)
    ensures Names(DropTail(DropHouse(us + xs + vs))) == Names(DropTail(DropHouse(us + vs)))
  {
    HouseKeepsNoise(us, xs, vs);
    hide *;
    if xs == [] {
      assert us + xs + vs == us + vs;
    } else {
      NamesKeepNoise(us, xs, vs);
    }
  }

  lemma SameView(a: string, a': string, other: string)
    requires House(a) == House(a') && StreetTokens(a) == StreetTokens(a')
    ensures AddrMatch(a, other) == AddrMatch(a', other) && AddrMatch(other, a) == AddrMatch(other, a')
  {
    hide House, StreetTokens;
  }

  /** Suffix, directional and punctuation words at an inner place never change a comparison, for any
      spacing of either address and any text after its first comma. */
  lemma NoiseInvisible(plain: string, noisy: string, us: seq<string>, xs: seq<string>, vs: seq<string>, other: string)
    requires Words(BeforeComma(plain)) == us + vs && Words(BeforeComma(noisy)) == us + xs + vs
    requires InnerPlace(us, vs) && AllNoise(xs)
    ensures AddrMatch(noisy, other) == AddrMatch(plain, other)
    ensures AddrMatch(other, noisy) == AddrMatch(other, plain)
  {
    hide *;
    SeesOnlyWords(plain);
    SeesOnlyWords(noisy);
    NoiseView(us, xs, vs);
    SameView(noisy, plain, other);
  }

  // ------------------------------------------------------------ house number first or last

  lemma {:induction false} NamesOfPrefix(ws: seq<string>, n: nat)
    requires n <= |ws|
    ensures forall t :: t in Names(ws[..n]) ==> t in Names(ws)
  {
    assert ws == ws[..n] + ws[n..];
    NamesOfSum(ws[..n], ws[n..]);
  }

  lemma LastHouse(ts: seq<string>, d: string)
    requires AllDigits(d) && (ts != [] ==> LeadRun(ts[0]) == "")
    ensures HouseOf(ts + [d]) == d
    ensures DropTail(DropHouse(ts + [d])) == ts
  {
    RunsOfNumber(d);
    if ts != [] {
      assert (ts + [d])[..|ts|] == ts;
    }
  }

  lemma SameNamesMeet(ts: seq<string>)
    ensures var st, ct := Names(DropTail(ts)), Names(ts);
      st == [] || ct == [] || exists t :: t in st && t in ct
  {
    hide Noise, Clean, AllDigits;
    var st := Names(DropTail(ts));
    if ts != [] { NamesOfPrefix(ts, |ts| - 1); }
    if st != [] {
      assert DropTail(ts) == ts || DropTail(ts) == ts[..|ts| - 1];
      assert st[0] in st && st[0] in Names(ts);
    }
  }

  /** "d words" and "words d" are the same address for every number d, when the first word does not
      start with a digit. */
  lemma NumberFirstOrLast(first: string, last: string, d: string, ts: seq<string>)
    requires AllDigits(d) && (ts != [] ==> LeadRun(ts[0]) == "")
    requires Words(BeforeComma(first)) == [d] + ts && Words(BeforeComma(last)) == ts + [d]
    ensures AddrMatch(first, last) == Yes && AddrMatch(last, first) == Yes
  {
    SeesOnlyWords(first);
    SeesOnlyWords(last);
    LastHouse(ts, d);
    RunsOfNumber(d);
    assert DropHouse([d] + ts) == ts;
    hide House, StreetTokens, LeadRun, TailRun, Names, DropTail, DropHouse;
    SameNamesMeet(ts);
    MatchSymmetric(first, last);
  }

  // ------------------------------------------------------------ when streets differ

  /** Word i is neither a house number in front nor a number at the end. */
  predicate Inner(ws: seq<string>, i: nat)
    requires i < |ws|
  {
    !(i == 0 && HouseToken(ws[i])) && !(i == |ws| - 1 && AllDigits(ws[i]))
  }

  /** t names the street of an address: one of its inner words before the comma, in capitals and without
      punctuation, that is neither a suffix nor a direction. */
  predicate Tells(addr: string, t: string) {
    var ws := Words(BeforeComma(addr));
    exists i :: 0 <= i < |ws| && Inner(ws, i) && Clean(ws[i]) == t && t != "" && !IsSuffix(t) && !IsDirection(t)
  }

  lemma {:induction false} NamesMeaning(ws: seq<string>, t: string)
    ensures t in Names(ws) <==> exists i :: 0 <= i < |ws| && Clean(ws[i]) == t && t != "" && !IsSuffix(t) && !IsDirection(t)
  {
    hide Clean, IsSuffix, IsDirection;
    if ws != [] {
      NamesMeaning(ws[1..], t);
      assert forall i :: 0 < i < |ws| ==> ws[i] == ws[1..][i - 1];
      if i :| 0 <= i < |ws[1..]| && Clean(ws[1..][i]) == t && t != "" && !IsSuffix(t) && !IsDirection(t) {
        assert ws[i + 1] == ws[1..][i];
      }
    }
  }

  /** The words kept are the inner ones. */
  lemma InnerWords(ws: seq<string>) returns (at: nat)
    ensures var kept := DropTail(DropHouse(ws));
      && at + |kept| <= |ws| && kept == ws[at..at + |kept|]
      && forall i :: 0 <= i < |ws| ==> (Inner(ws, i) <==> at <= i < at + |kept|)
  {
    at := if ws != [] && HouseToken(ws[0]) then 1 else 0;
    hide AllDigits, HouseToken;
    if |ws| == 1 && AllDigits(ws[0]) { NumberIsHouse(ws[0]); }
  }

  lemma NumberIsHouse(t: string)
    requires AllDigits(t)
    ensures HouseToken(t)
  {}

  lemma TokensTell(addr: string, t: string)
    ensures t in StreetTokens(addr) <==> Tells(addr, t)
  {
    var ws := Words(BeforeComma(addr));
    SeesOnlyWords(addr);
    var at := InnerWords(ws);
    var kept := DropTail(DropHouse(ws));
    NamesMeaning(kept, t);
    hide Words, BeforeComma, StreetTokens, DropTail, DropHouse, Inner, Clean, IsSuffix, IsDirection;
    if i :| 0 <= i < |kept| && Clean(kept[i]) == t && t != "" && !IsSuffix(t) && !IsDirection(t) {
      assert kept[i] == ws[at + i] && Inner(ws, at + i);
    }
    if i :| 0 <= i < |ws| && Inner(ws, i) && Clean(ws[i]) == t && t != "" && !IsSuffix(t) && !IsDirection(t) {
      assert kept[i - at] == ws[i];
    }
  }

  /** Different house numbers never match. With one house number the answer is No exactly if both
      addresses name a street and they name none in common; otherwise it is Yes. */
  lemma StreetsDecide(a: string, b: string)
    requires House(a) != "" && House(b) != ""
    ensures House(a) != House(b) ==> AddrMatch(a, b) == No
    ensures House(a) == House(b) ==>
      && (AddrMatch(a, b) == No <==>
            (exists t :: Tells(a, t)) && (exists t :: Tells(b, t)) && forall t :: !(Tells(a, t) && Tells(b, t)))
      && (AddrMatch(a, b) != No ==> AddrMatch(a, b) == Yes)
  {
    forall t ensures (t in StreetTokens(a) <==> Tells(a, t)) && (t in StreetTokens(b) <==> Tells(b, t)) {
      TokensTell(a, t);
      TokensTell(b, t);
    }
    var st, ct := StreetTokens(a), StreetTokens(b);
    hide House, StreetTokens, Tells;
    if st != [] { assert st[0] in st; }
    if ct != [] { assert ct[0] in ct; }
  }

  /** Cleaning keeps letters and digits, in upper case and in place, and drops every other character. */
  lemma {:induction false} CleanSum(t: string, u: string)
    ensures Clean(t + u) == Clean(t) + Clean(u)
    ensures |t| == 1 ==> Clean(t) == if IsAlpha(t[0]) || IsDigit(t[0]) then [UpperChar(t[0])] else ""
  {
    if t == "" {
      assert t + u == u;
    } else {
      assert (t + u)[1..] == t[1..] + u;
      CleanSum(t[1..], u);
    }
  }

  /** A house token is a number with at most one letter behind it. */
  lemma HouseTokenMeaning(d: string, c: char)
    requires AllDigits(d)
    ensures HouseToken(d) && (HouseToken([c] + d) <==> IsDigit(c))
    ensures HouseToken(d + [c]) <==> IsDigit(c) || IsAlpha(c)
    ensures !HouseToken("")
  {
    assert (d + [c])[..|d|] == d && (d + [c])[|d|] == c;
    assert ([c] + d)[0] == c && ([c] + d)[1..] == d;
    if IsDigit(c) { assert AllDigits([c] + d); }
    assert ([c] + d)[..|d|][0] == c;
  }

  // ------------------------------------------------------------ literal addresses

  predicate Capitals(w: string) {
    w != "" && forall i :: 0 <= i < |w| ==> 'A' <= w[i] <= 'Z'
  }

  lemma {:induction false} CleanOfCapitals(w: string)
    requires forall i :: 0 <= i < |w| ==> 'A' <= w[i] <= 'Z'
    ensures Clean(w) == w
  {
    if w != "" { CleanOfCapitals(w[1..]); }
  }

  lemma {:induction false} NoComma(s: string)
    requires ',' !in s
    ensures BeforeComma(s) == s
  {
    if s != "" {
      assert s == [s[0]] + s[1..];
      NoComma(s[1..]);
    }
  }

  /** "d a b", for a number d and two capitalised words. */
  function Plain(d: string, a: string, b: string): string {
    d + " " + a + " " + b
  }

  lemma PlainWords(d: string, a: string, b: string)
    requires AllDigits(d) && Capitals(a) && Capitals(b)
    ensures Words(BeforeComma(Plain(d, a, b))) == [d, a, b] && House(Plain(d, a, b)) == d
  {
    var ws := [d, a, b];
    assert IsWord(d) && IsWord(a) && IsWord(b);
    WordsOfJoin(ws);
    assert ws[1..] == [a, b] && [a, b][1..] == [b];
    assert Join([b]) == b && Join([a, b]) == a + " " + b && Join(ws) == d + " " + (a + " " + b);
    assert Join(ws) == Plain(d, a, b);
    NoComma(Plain(d, a, b));
    SeesOnlyWords(Plain(d, a, b));
    RunsOfNumber(d);
    hide Words, Join, House, BeforeComma;
  }

  /** What such an address tells: each of its words that is no suffix and no direction. */
  lemma PlainTells(d: string, a: string, b: string, t: string)
    requires AllDigits(d) && Capitals(a) && Capitals(b)
    ensures Tells(Plain(d, a, b), t) <==> (t == a || t == b) && !IsSuffix(t) && !IsDirection(t)
  {
    PlainWords(d, a, b);
    CleanOfCapitals(a);
    CleanOfCapitals(b);
    NumberIsHouse(d);
    var ws := [d, a, b];
    assert !AllDigits(b) && !AllDigits(a);
    assert !Inner(ws, 0) && Inner(ws, 1) && Inner(ws, 2);
    hide Words, BeforeComma, Plain, Clean, Inner, IsSuffix, IsDirection, AllDigits, Capitals;
    assert ws[1] == a && ws[2] == b;
  }

  /** Two street names with a suffix or direction match exactly if number and name are the same. */
  lemma TwoStreets(d: string, a: string, s: string, d': string, a': string, s': string)
    requires AllDigits(d) && AllDigits(d') && Capitals(a) && Capitals(a') && Capitals(s) && Capitals(s')
    requires (IsSuffix(s) || IsDirection(s)) && (IsSuffix(s') || IsDirection(s'))
    requires !IsSuffix(a) && !IsDirection(a) && !IsSuffix(a') && !IsDirection(a')
    ensures AddrMatch(Plain(d, a, s), Plain(d', a', s')) == if d == d' && a == a' then Yes else No
  {
    hide IsSuffix, IsDirection, Capitals, Plain, AddrMatch, House, Tells;
    var x, y := Plain(d, a, s), Plain(d', a', s');
    NumbersExist(d);
    NumbersExist(d');
    hide AllDigits;
    PlainWords(d, a, s);
    PlainWords(d', a', s');
    forall t
      ensures Tells(x, t) <==> (t == a || t == s) && !IsSuffix(t) && !IsDirection(t)
      ensures Tells(y, t) <==> (t == a' || t == s') && !IsSuffix(t) && !IsDirection(t)
    {
      PlainTells(d, a, s, t);
      PlainTells(d', a', s', t);
    }
    assert Tells(x, a) && Tells(y, a');
    StreetsDecide(x, y);
  }

  lemma NumbersExist(d: string)
    requires AllDigits(d)
    ensures d != ""
  {}

  lemma OakAndPine()
    ensures Capitals("OAK") && Capitals("PINE") && AllDigits("12") && AllDigits("14")
    ensures !IsSuffix("OAK") && !IsDirection("OAK") && !IsSuffix("PINE") && !IsDirection("PINE")
  {
    OakIsName();
    PineIsName();
    hide IsSuffix, IsDirection;
  }

  lemma OakIsName()
    ensures !IsSuffix("OAK") && !IsDirection("OAK")
  {}

  lemma PineIsName()
    ensures !IsSuffix("PINE") && !IsDirection("PINE")
  {}

  /** w does not tell a street: with it in common, two different streets do not match. */
  predicate NotTelling(w: string) {
    AddrMatch(Plain("12", "OAK", w), Plain("12", "PINE", w)) == No
  }

  lemma ListedIsNotTelling(w: string)
    requires Capitals(w) && (IsSuffix(w) || IsDirection(w))
    ensures NotTelling(w)
  {
    hide IsSuffix, IsDirection, Capitals, Plain, AddrMatch, AllDigits;
    OakAndPine();
    assert "OAK" != "PINE";
    TwoStreets("12", "OAK", w, "12", "PINE", w);
  }

  /** Any other word in common makes the two a match, as in "12 OAK PARK" and "12 PINE PARK". */
  lemma OtherWordTells(w: string)
    requires Capitals(w) && !IsSuffix(w) && !IsDirection(w)
    ensures AddrMatch(Plain("12", "OAK", w), Plain("12", "PINE", w)) == Yes
  {
    hide IsSuffix, IsDirection, AllDigits, Capitals, Plain, AddrMatch, House, Tells;
    OakAndPine();
    PlainWords("12", "OAK", w);
    PlainWords("12", "PINE", w);
    PlainTells("12", "OAK", w, w);
    PlainTells("12", "PINE", w, w);
    StreetsDecide(Plain("12", "OAK", w), Plain("12", "PINE", w));
  }

  lemma PlainLiterals()
    ensures Plain("12", "OAK", "ST") == "12 OAK ST" && Plain("12", "PINE", "AVE") == "12 PINE AVE"
    ensures Plain("12", "OAK", "AVE") == "12 OAK AVE" && Plain("14", "OAK", "ST") == "14 OAK ST"
    ensures Capitals("ST") && IsSuffix("ST") && Capitals("AVE") && IsSuffix("AVE")
    ensures "12" != "14" && "OAK" != "PINE"
  {}

  lemma OakIsNotPine()
    ensures AddrMatch("12 OAK ST", "12 PINE AVE") == No && AddrMatch("12 OAK ST", "12 OAK AVE") == Yes
    ensures AddrMatch("12 OAK ST", "14 OAK ST") == No
  {
    hide *;
    OakAndPine();
    PlainLiterals();
    TwoStreets("12", "OAK", "ST", "12", "PINE", "AVE");
    TwoStreets("12", "OAK", "ST", "12", "OAK", "AVE");
    TwoStreets("12", "OAK", "ST", "14", "OAK", "ST");
  }

  /** Each listed suffix and direction, by an address pair that has it in common. */
  lemma CommonSuffixes()
    ensures NotTelling("AVE") && NotTelling("AVENUE") && NotTelling("ST") && NotTelling("STREET")
    ensures NotTelling("RD") && NotTelling("ROAD") && NotTelling("DR") && NotTelling("DRIVE")
    ensures NotTelling("LN") && NotTelling("LANE") && NotTelling("BLVD")
  {
    hide NotTelling;
    ListedIsNotTelling("AVE");
    ListedIsNotTelling("AVENUE");
    ListedIsNotTelling("ST");
    ListedIsNotTelling("STREET");
    ListedIsNotTelling("RD");
    ListedIsNotTelling("ROAD");
    ListedIsNotTelling("DR");
    ListedIsNotTelling("DRIVE");
    ListedIsNotTelling("LN");
    ListedIsNotTelling("LANE");
    ListedIsNotTelling("BLVD");
  }

  lemma MoreSuffixes()
    ensures NotTelling("BOULEVARD") && NotTelling("CT") && NotTelling("COURT") && NotTelling("CIR")
    ensures NotTelling("CIRCLE") && NotTelling("PL") && NotTelling("PLACE") && NotTelling("WAY")
    ensures NotTelling("TER") && NotTelling("TERRACE") && NotTelling("HWY")
  {
    hide NotTelling;
    ListedIsNotTelling("BOULEVARD");
    ListedIsNotTelling("CT");
    ListedIsNotTelling("COURT");
    ListedIsNotTelling("CIR");
    ListedIsNotTelling("CIRCLE");
    ListedIsNotTelling("PL");
    ListedIsNotTelling("PLACE");
    ListedIsNotTelling("WAY");
    ListedIsNotTelling("TER");
    ListedIsNotTelling("TERRACE");
    ListedIsNotTelling("HWY");
  }

  lemma RoadSuffixes()
    ensures NotTelling("HIGHWAY") && NotTelling("PKWY") && NotTelling("PARKWAY") && NotTelling("TRL")
    ensures NotTelling("TRAIL") && NotTelling("LOOP") && NotTelling("RUN") && NotTelling("PASS")
    ensures NotTelling("PT") && NotTelling("POINT") && NotTelling("SQ")
  {
    hide NotTelling;
    ListedIsNotTelling("HIGHWAY");
    ListedIsNotTelling("PKWY");
    ListedIsNotTelling("PARKWAY");
    ListedIsNotTelling("TRL");
    ListedIsNotTelling("TRAIL");
    ListedIsNotTelling("LOOP");
    ListedIsNotTelling("RUN");
    ListedIsNotTelling("PASS");
    ListedIsNotTelling("PT");
    ListedIsNotTelling("POINT");
    ListedIsNotTelling("SQ");
  }

  lemma RareSuffixes()
    ensures NotTelling("SQUARE") && NotTelling("PATH") && NotTelling("XING") && NotTelling("CV")
    ensures NotTelling("COVE") && NotTelling("BND") && NotTelling("BEND") && NotTelling("ROW")
    ensures NotTelling("WALK") && NotTelling("PLZ") && NotTelling("PLAZA")
  {
    hide NotTelling;
    ListedIsNotTelling("SQUARE");
    ListedIsNotTelling("PATH");
    ListedIsNotTelling("XING");
    ListedIsNotTelling("CV");
    ListedIsNotTelling("COVE");
    ListedIsNotTelling("BND");
    ListedIsNotTelling("BEND");
    ListedIsNotTelling("ROW");
    ListedIsNotTelling("WALK");
    ListedIsNotTelling("PLZ");
    ListedIsNotTelling("PLAZA");
  }

  lemma Directions()
    ensures NotTelling("N") && NotTelling("S") && NotTelling("E")
    ensures NotTelling("W") && NotTelling("NORTH") && NotTelling("SOUTH")
  {
    hide NotTelling, IsSuffix;
    ListedIsNotTelling("N");
    ListedIsNotTelling("S");
    ListedIsNotTelling("E");
    ListedIsNotTelling("W");
    ListedIsNotTelling("NORTH");
    ListedIsNotTelling("SOUTH");
  }

  lemma MoreDirections()
    ensures NotTelling("NE") && NotTelling("NW") && NotTelling("SE")
    ensures NotTelling("SW") && NotTelling("EAST") && NotTelling("WEST")
  {
    hide NotTelling, IsSuffix;
    ListedIsNotTelling("NE");
    ListedIsNotTelling("NW");
    ListedIsNotTelling("SE");
    ListedIsNotTelling("SW");
    ListedIsNotTelling("EAST");
    ListedIsNotTelling("WEST");
  }
}
