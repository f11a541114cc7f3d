/** Resolution of the parcel at a geocoded point, and the gate that decides whether to trust it. The
    layer queries are oracles: each may return any records or fail. */
module Parcels {
  import opened Text
  import opened Addresses
  import opened Situs
  import Joins

  datatype Answer = Records(rs: seq<Attrs>) | Unreachable

  datatype Discovery = LayerFound | NoParcelLayer | DiscoveryFailed

  /** The related tables of a layer; what they answer is arbitrary. */
  datatype Related = NoJoin | Joined(tables: seq<Joins.Table>)

  /** One layer: whether it was found, its answers at the point and at 75, 150 and 300 metres, its
      county's situs settings and its join. */
  datatype Layer = Layer(discovery: Discovery, answers: seq<Answer>, exclude: seq<string>, compose: bool, related: Related)

  type QueriedLayer = l: Layer | |l.answers| == 4
    witness Layer(NoParcelLayer, [Records([]), Records([]), Records([]), Records([])], [], false, NoJoin)

  function SitusIn(l: QueriedLayer, r: Attrs): string {
    SitusOf(r, l.exclude, l.compose)
  }

  predicate MatchesIn(l: QueriedLayer, address: string, r: Attrs) {
    AddrMatch(address, SitusIn(l, r)) == Yes
  }

  predicate HasMatch(l: QueriedLayer, address: string, rs: seq<Attrs>) {
    address != "" && exists i :: 0 <= i < |rs| && MatchesIn(l, address, rs[i])
  }

  // ------------------------------------------------------------ the house of a composed situs

  lemma {:induction false} BeforeCommaPast(a: string, b: string)
    requires ',' !in a
    ensures BeforeComma(a + b) == a + BeforeComma(b)
  {
    if a == "" {
      assert a + b == b;
    } else {
      assert a == [a[0]] + a[1..] && (a + b)[1..] == a[1..] + b;
      BeforeCommaPast(a[1..], b);
    }
  }

  lemma HouseFirst(d: string, rest: string)
    requires AllDigits(d)
    ensures House(d + " " + rest) == d
  {
    var s, r := d + " " + rest, " " + BeforeComma(rest);
    assert s == d + (" " + rest);
    BeforeCommaPast(d, " " + rest);
    assert BeforeComma(s) == d + r;
    WordEndOf(d, r);
    RunsOfNumber(d);
    assert (d + r)[..|d|] == d;
    SeesOnlyWords(s);
    assert Words(d + r) == [d] + Words((d + r)[|d|..]);
  }

  /** A situs composed around a numeric house-number field compares by exactly that number, read as
      "2407" also where the layer stores 2407.0. */
  lemma ComposedHouse(attrs: Attrs, exclude: seq<string>)
    ensures var situs := SitusOf(attrs, exclude, true);
      var num := DropPointZero(PartText(ChooseParts(attrs, ExcludeSet(exclude)).num));
      situs != "" && AllDigits(num) ==> House(situs) == num
  {
    var p := ChooseParts(attrs, ExcludeSet(exclude));
    if SitusOf(attrs, exclude, true) == "" || !AllDigits(DropPointZero(PartText(p.num))) { return; }
    hide ChooseParts, House, ExcludeSet, DropPointZero, PartText;
    var num, name := DropPointZero(PartText(p.num)), PartText(p.name);
    var tail := [PartText(p.predir), name, PartText(p.suftype), PartText(p.sufdir)];
    var words := [num] + tail;
    assert words[1..] == tail;
    NonEmptyHasName(PartText(p.predir), name, [PartText(p.suftype), PartText(p.sufdir)]);
    assert tail == [PartText(p.predir), name] + [PartText(p.suftype), PartText(p.sufdir)];
    hide NonEmpty;
    HouseFirst(num, Join(NonEmpty(tail)));
    HeadJoins(num, tail);
    assert words == [num, PartText(p.predir), name, PartText(p.suftype), PartText(p.sufdir)];
  }

  lemma NonEmptyHasName(predir: string, name: string, rest: seq<string>)
    requires name != ""
    ensures NonEmpty([predir, name] + rest) != []
  {
    assert ([predir, name] + rest)[1..] == [name] + rest;
  }

  lemma HeadJoins(head: string, tail: seq<string>)
    requires head != "" && NonEmpty(tail) != []
    ensures Join(NonEmpty([head] + tail)) == head + " " + Join(NonEmpty(tail))
  {
    assert ([head] + tail)[1..] == tail;
    var kept := [head] + NonEmpty(tail);
    assert NonEmpty([head] + tail) == kept && kept[1..] == NonEmpty(tail);
  }

  // ------------------------------------------------------------ parcel._candidates

  datatype Candidates = SearchFailed | Among(rs: seq<Attrs>, buffered: bool)

  /** The widening search from radius index k on, with the widest records so far. */
  function Widen(l: QueriedLayer, address: string, k: nat, widest: seq<Attrs>): Candidates
    requires 1 <= k <= 4
    decreases 4 - k
  {
    if k == 4 then Among(widest, widest != [])
    else match l.answers[k]
      case Unreachable => SearchFailed
      case Records(rs) =>
        if rs == [] then Widen(l, address, k + 1, widest)
        else if HasMatch(l, address, rs) then Among(rs, true)
        else Widen(l, address, k + 1, rs)
  }

  function Search(l: QueriedLayer, address: string): Candidates {
    match l.answers[0]
    case Unreachable => SearchFailed
    case Records(direct) =>
      if direct != [] && (address == "" || HasMatch(l, address, direct)) then Among(direct, false)
      else Widen(l, address, 1, direct)
  }

  method FindCandidates(l: QueriedLayer, address: string) returns (c: Candidates)
    ensures c == Search(l, address)
  {
    if l.answers[0].Unreachable? { return SearchFailed; }
    var direct := l.answers[0].rs;
    if direct != [] && (address == "" || HasMatch(l, address, direct)) { return Among(direct, false); }
    var widest := direct;
    for k := 1 to 4
      invariant Widen(l, address, k, widest) == Search(l, address)
    {
      if l.answers[k].Unreachable? { return SearchFailed; }
      var rs := l.answers[k].rs;
      if rs != [] {
        widest := rs;
        if HasMatch(l, address, rs) { return Among(rs, true); }
      }
    }
    return Among(widest, widest != []);
  }

  // ------------------------------------------------------------ parcel._choose

  /** The three tiers of the choice. */
  datatype Tier = AddressMatches | HouseMatches | CarriesSitus

  predicate Meets(t: Tier, l: QueriedLayer, address: string, r: Attrs) {
    match t
    case AddressMatches => MatchesIn(l, address, r)
    case HouseMatches => House(address) != "" && House(SitusIn(l, r)) == House(address)
    case CarriesSitus => SitusIn(l, r) != ""
  }

  function FirstTrue(bs: seq<bool>, i: nat): (r: nat)
    requires i <= |bs|
    ensures i <= r <= |bs| && (r < |bs| ==> bs[r])
    ensures forall j :: i <= j < r ==> !bs[j]
    decreases |bs| - i
  {
    if i == |bs| || bs[i] then i else FirstTrue(bs, i + 1)
  }

  /** The first candidate of a tier, or |rs|. */
  function FirstOf(t: Tier, l: QueriedLayer, address: string, rs: seq<Attrs>): nat {
    FirstTrue(seq(|rs|, i requires 0 <= i < |rs| => Meets(t, l, address, rs[i])), 0)
  }

  datatype Choice = Choice(index: nat, matched: bool)

  function Choose(l: QueriedLayer, address: string, rs: seq<Attrs>): (c: Choice)
    requires rs != []
    ensures c.index < |rs|
  {
    var m, h, s :=
      FirstOf(AddressMatches, l, address, rs), FirstOf(HouseMatches, l, address, rs), FirstOf(CarriesSitus, l, address, rs);
    if m < |rs| then Choice(m, true)
    else if h < |rs| then Choice(h, false)
    else if s < |rs| then Choice(s, false)
    else Choice(0, false)
  }

  lemma FirstOfMeets(t: Tier, l: QueriedLayer, address: string, rs: seq<Attrs>)
    ensures var i := FirstOf(t, l, address, rs);
      && i <= |rs| && (i < |rs| ==> Meets(t, l, address, rs[i]))
      && (forall j :: 0 <= j < i ==> !Meets(t, l, address, rs[j]))
  {
    hide Meets;
    var bs := seq(|rs|, i requires 0 <= i < |rs| => Meets(t, l, address, rs[i]));
    assert forall j :: 0 <= j < |rs| ==> bs[j] == Meets(t, l, address, rs[j]);
  }

  predicate SameHouse(l: QueriedLayer, address: string, r: Attrs) {
    House(address) != "" && House(SitusIn(l, r)) == House(address)
  }

  /** The choice is confident exactly when some candidate matches, and then it is the first that does.
      Otherwise the first with the address's house number is taken, else the first with a situs, else
      the first. */
  lemma ChooseMeaning(l: QueriedLayer, address: string, rs: seq<Attrs>)
    requires rs != []
    ensures var c := Choose(l, address, rs);
      && (c.matched <==> exists i :: 0 <= i < |rs| && MatchesIn(l, address, rs[i]))
      && (c.matched ==> MatchesIn(l, address, rs[c.index]) && forall i :: 0 <= i < c.index ==> !MatchesIn(l, address, rs[i]))
    ensures var c := Choose(l, address, rs);
      !c.matched && (exists i :: 0 <= i < |rs| && SameHouse(l, address, rs[i])) ==>
        SameHouse(l, address, rs[c.index]) && forall i :: 0 <= i < c.index ==> !SameHouse(l, address, rs[i])
    ensures var c := Choose(l, address, rs);
      !c.matched && (forall i :: 0 <= i < |rs| ==> !SameHouse(l, address, rs[i])) ==>
        && ((exists i :: 0 <= i < |rs| && SitusIn(l, rs[i]) != "") ==> SitusIn(l, rs[c.index]) != "")
        && ((forall i :: 0 <= i < |rs| ==> SitusIn(l, rs[i]) == "") ==> c.index == 0)
        && (forall i :: 0 <= i < c.index ==> SitusIn(l, rs[i]) == "")
  {
    hide MatchesIn, SitusIn, House, FirstOf;
    FirstOfMeets(AddressMatches, l, address, rs);
    FirstOfMeets(HouseMatches, l, address, rs);
    FirstOfMeets(CarriesSitus, l, address, rs);
    assert forall i :: 0 <= i < |rs| ==> Meets(AddressMatches, l, address, rs[i]) == MatchesIn(l, address, rs[i]);
    assert forall i :: 0 <= i < |rs| ==> Meets(HouseMatches, l, address, rs[i]) == SameHouse(l, address, rs[i]);
    assert forall i :: 0 <= i < |rs| ==> Meets(CarriesSitus, l, address, rs[i]) == (SitusIn(l, rs[i]) != "");
  }

  // ------------------------------------------------------------ parcel.resolve, _finish

  /** layer is the index of the layer that answered; Directory: no parcel service had a record. */
  datatype Parcel =
    | Directory
    | Resolved(layer: nat, record: Attrs, count: nat, situs: string, bufferedMatch: bool, addressMatch: Match)

  /** What one layer yields: nothing (not found, failed, or empty) or a finished result. */
  function FromLayer(l: QueriedLayer, index: nat, address: string): Parcel {
    if l.discovery != LayerFound then Directory
    else match Search(l, address)
      case SearchFailed => Directory
      case Among(rs, buffered) =>
        if rs == [] then Directory
        else
          var c := Choose(l, address, rs);
          match l.related
          case NoJoin => Finish(l, index, address, rs[c.index], rs, buffered, c.matched)
          case Joined(tables) =>
            var r := Joins.Enrich(rs[c.index], tables);
            Finish(l, index, address, r, rs, buffered, MatchesIn(l, address, r))
  }

  function Finish(l: QueriedLayer, index: nat, address: string, r: Attrs, rs: seq<Attrs>, buffered: bool, matched: bool): Parcel {
    Resolved(index, r, |rs|, SitusIn(l, r), buffered && !matched, AddrMatch(address, SitusIn(l, r)))
  }

  function ResolveFrom(ls: seq<QueriedLayer>, i: nat, address: string): Parcel
    requires i <= |ls|
    decreases |ls| - i
  {
    if i == |ls| then Directory
    else
      var p := FromLayer(ls[i], i, address);
      if p.Resolved? then p else ResolveFrom(ls, i + 1, address)
  }

  method TryLayer(l: QueriedLayer, index: nat, address: string) returns (p: Parcel)
    ensures p == FromLayer(l, index, address)
  {
    hide Search, Choose, Finish, SitusIn, AddrMatch;
    if l.discovery != LayerFound { return Directory; }
    var c := FindCandidates(l, address);
    if c.SearchFailed? || c.rs == [] { return Directory; }
    var chosen := Choose(l, address, c.rs);
    var record, matched := c.rs[chosen.index], chosen.matched;
    if l.related.Joined? {
      record := Joins.EnrichRelated(record, l.related.tables);
      matched := MatchesIn(l, address, record);
    }
    return Finish(l, index, address, record, c.rs, c.buffered, matched);
  }

  /** The county layers then the statewide ones, in order: the first with a record decides. */
  method ResolveParcel(ls: seq<QueriedLayer>, address: string) returns (p: Parcel)
    ensures p == ResolveFrom(ls, 0, address)
    ensures p.Resolved? ==> p.layer < |ls| && p == FromLayer(ls[p.layer], p.layer, address)
    ensures p.Resolved? ==> forall i :: 0 <= i < p.layer ==> FromLayer(ls[i], i, address) == Directory
    ensures p.Directory? ==> forall i :: 0 <= i < |ls| ==> FromLayer(ls[i], i, address) == Directory
  {
    hide FromLayer;
    for i := 0 to |ls|
      invariant ResolveFrom(ls, i, address) == ResolveFrom(ls, 0, address)
      invariant forall j :: 0 <= j < i ==> FromLayer(ls[j], j, address) == Directory
    {
      p := TryLayer(ls[i], i, address);
      ResolvedAt(ls[i], i, address);
      if p.Resolved? { return; }
    }
    return Directory;
  }

  lemma ResolvedAt(l: QueriedLayer, index: nat, address: string)
    ensures FromLayer(l, index, address).Resolved? ==> FromLayer(l, index, address).layer == index
  {
    hide Search, Choose, SitusIn, AddrMatch;
  }

  /** context.resolve_property_context: whether the parcel is trusted. */
  predicate ParcelOk(p: Parcel) {
    p.Resolved? && p.addressMatch != No && !p.bufferedMatch
  }

  // ------------------------------------------------------------ the trust gate

  /** Radius index k holds the first match, every narrower query having answered. */
  predicate FirstMatchAt(l: QueriedLayer, address: string, k: nat) {
    && k < 4 && l.answers[k].Records? && HasMatch(l, address, l.answers[k].rs)
    && forall j :: 0 <= j < k ==> l.answers[j].Records? && !HasMatch(l, address, l.answers[j].rs)
  }

  lemma {:induction false} WidenMeaning(l: QueriedLayer, address: string, k: nat, widest: seq<Attrs>)
    requires 1 <= k <= 4 && address != "" && !HasMatch(l, address, widest)
    requires forall j :: 0 <= j < k ==> l.answers[j].Records? && !HasMatch(l, address, l.answers[j].rs)
    ensures match Widen(l, address, k, widest)
      case SearchFailed => forall m :: 0 <= m < 4 ==> !FirstMatchAt(l, address, m)
      case Among(rs, buffered) =>
        && (HasMatch(l, address, rs) ==> buffered && exists m :: k <= m < 4 && FirstMatchAt(l, address, m) && rs == l.answers[m].rs)
        && (!HasMatch(l, address, rs) ==> buffered == (rs != []) && forall m :: 0 <= m < 4 ==> !FirstMatchAt(l, address, m))
    decreases 4 - k
  {
    hide MatchesIn, HasMatch;
    if k < 4 {
      match l.answers[k]
      case Unreachable =>
        forall m | 0 <= m < 4 ensures !FirstMatchAt(l, address, m) {
          if m > k { assert l.answers[k].Unreachable?; }
        }
      case Records(rs) =>
        if rs == [] {
          EmptyHasNoMatch(l, address);
          WidenMeaning(l, address, k + 1, widest);
        } else if HasMatch(l, address, rs) {
          assert FirstMatchAt(l, address, k);
        } else {
          WidenMeaning(l, address, k + 1, rs);
        }
    }
  }

  lemma EmptyHasNoMatch(l: QueriedLayer, address: string)
    ensures !HasMatch(l, address, [])
  {}

  /** The candidates contain a match exactly when some query does, and then they are the records of
      the smallest such radius; without a match any candidates are marked as buffered. */
  lemma SearchMeaning(l: QueriedLayer, address: string)
    requires address != ""
    ensures var c := Search(l, address); c.Among? ==>
      && (HasMatch(l, address, c.rs) <==> exists k :: 0 <= k < 4 && FirstMatchAt(l, address, k))
      && (forall k :: 0 <= k < 4 && FirstMatchAt(l, address, k) ==> c.rs == l.answers[k].rs && c.buffered == (k > 0))
      && (!HasMatch(l, address, c.rs) ==> c.buffered == (c.rs != []))
  {
    if Search(l, address).SearchFailed? { return; }
    hide MatchesIn, HasMatch;
    var direct := l.answers[0].rs;
    EmptyHasNoMatch(l, address);
    if HasMatch(l, address, direct) {
      assert FirstMatchAt(l, address, 0);
    } else {
      WidenMeaning(l, address, 1, direct);
    }
    forall k, m | 0 <= k < 4 && 0 <= m < 4 && FirstMatchAt(l, address, k) && FirstMatchAt(l, address, m) ensures k == m {}
  }

  // ------------------------------------------------------------ the whole search

  /** Query k answered with what the search looks for: a match, or anything at the point if there is no
      address to compare. */
  predicate Stops(l: QueriedLayer, address: string, k: nat)
    requires k < 4
  {
    l.answers[k].Records? && (HasMatch(l, address, l.answers[k].rs) || (k == 0 && address == "" && l.answers[k].rs != []))
  }

  predicate GoesOn(l: QueriedLayer, address: string, k: nat)
    requires k < 4
  {
    l.answers[k].Records? && !Stops(l, address, k)
  }

  /** Query k is the widest that held records. */
  predicate Widest(l: QueriedLayer, k: nat)
    requires k < 4
  {
    && l.answers[k].Records? && l.answers[k].rs != []
    && forall m :: k < m < 4 ==> l.answers[m] == Records([])
  }

  /** Query m is the first that fails or stops the search. */
  predicate Decides(l: QueriedLayer, address: string, m: nat)
    requires m < 4
  {
    !GoesOn(l, address, m) && forall j :: 0 <= j < m ==> GoesOn(l, address, j)
  }

  lemma StopsAtMatch(l: QueriedLayer, address: string, k: nat)
    requires k < 4
    ensures GoesOn(l, address, k) ==> l.answers[k].Records? && !HasMatch(l, address, l.answers[k].rs)
    ensures GoesOn(l, address, k) && k == 0 ==> address != "" || l.answers[k].rs == []
    ensures !GoesOn(l, address, k) && k > 0 && l.answers[k].Records? ==> HasMatch(l, address, l.answers[k].rs) && l.answers[k].rs != []
    ensures !GoesOn(l, address, k) && k == 0 && l.answers[k].Records? ==>
      l.answers[k].rs != [] && (address == "" || HasMatch(l, address, l.answers[k].rs))
  {
    hide MatchesIn;
  }

  lemma {:induction false} WidenDecided(l: QueriedLayer, address: string, k: nat, m: nat, widest: seq<Attrs>)
    requires 1 <= k <= m < 4 && Decides(l, address, m)
    ensures Widen(l, address, k, widest) == if l.answers[m].Unreachable? then SearchFailed else Among(l.answers[m].rs, true)
    decreases m - k
  {
    hide HasMatch, GoesOn;
    StopsAtMatch(l, address, k);
    if k < m {
      assert GoesOn(l, address, k);
      WidenDecided(l, address, k + 1, m, if l.answers[k].rs == [] then widest else l.answers[k].rs);
    }
  }

  lemma {:induction false} WidenUndecided(l: QueriedLayer, address: string, k: nat, widest: seq<Attrs>)
    requires 1 <= k <= 4 && forall j :: 0 <= j < 4 ==> GoesOn(l, address, j)
    ensures forall m :: k <= m < 4 && Widest(l, m) ==> Widen(l, address, k, widest) == Among(l.answers[m].rs, true)
    ensures (forall m :: k <= m < 4 ==> l.answers[m] == Records([])) ==> Widen(l, address, k, widest) == Among(widest, widest != [])
    decreases 4 - k
  {
    hide HasMatch, GoesOn;
    if k < 4 {
      assert GoesOn(l, address, k);
      StopsAtMatch(l, address, k);
      WidenUndecided(l, address, k + 1, if l.answers[k].rs == [] then widest else l.answers[k].rs);
    }
  }

  /** The first query that fails or finds what is wanted decides the search. If there is none, the
      widest non-empty records are returned, as buffered ones. */
  lemma SearchExactly(l: QueriedLayer, address: string)
    ensures forall m :: 0 <= m < 4 && Decides(l, address, m) ==>
      Search(l, address) == if l.answers[m].Unreachable? then SearchFailed else Among(l.answers[m].rs, m > 0)
    ensures (forall j :: 0 <= j < 4 ==> GoesOn(l, address, j)) ==>
      && (forall m :: 0 <= m < 4 && Widest(l, m) ==> Search(l, address) == Among(l.answers[m].rs, true))
      && ((forall m :: 0 <= m < 4 ==> l.answers[m] == Records([])) ==> Search(l, address) == Among([], false))
  {
    hide MatchesIn, HasMatch, GoesOn;
    StopsAtMatch(l, address, 0);
    forall m | 0 <= m < 4 && Decides(l, address, m)
      ensures Search(l, address) == if l.answers[m].Unreachable? then SearchFailed else Among(l.answers[m].rs, m > 0)
    {
      if m > 0 {
        assert GoesOn(l, address, 0);
        WidenDecided(l, address, 1, m, l.answers[0].rs);
      }
    }
    if forall j :: 0 <= j < 4 ==> GoesOn(l, address, j) {
      assert GoesOn(l, address, 0);
      WidenUndecided(l, address, 1, l.answers[0].rs);
    }
  }

  /** One layer gives a parcel exactly if it was found, its search did not fail and some query held
      records; and the parcel's situs, match and count are those of its record and its candidates. */
  lemma ResolvedShows(l: QueriedLayer, index: nat, address: string)
    ensures var p, c := FromLayer(l, index, address), Search(l, address);
      && (p.Resolved? <==> l.discovery == LayerFound && c.Among? && c.rs != [])
      && (c.Among? ==> exists m :: 0 <= m < 4 && l.answers[m] == Records(c.rs))
      && (p.Resolved? ==>
            && p.layer == index && p.situs == SitusIn(l, p.record) && p.addressMatch == AddrMatch(address, p.situs)
            && p.count == |c.rs| && exists r :: r in c.rs && Joins.Extends(p.record, r) && (l.related.NoJoin? ==> p.record == r))
  {
    var p, c := FromLayer(l, index, address), Search(l, address);
    SearchIsAnswer(l, address);
    if p.Resolved? {
      var r := c.rs[Choose(l, address, c.rs).index];
      if l.related.Joined? { Joins.EnrichExtends(r, l.related.tables); }
      hide SitusIn, AddrMatch, Choose, Search, Joins.Enrich;
      assert r in c.rs && Joins.Extends(p.record, r) && (l.related.NoJoin? ==> p.record == r);
    }
  }

  lemma {:induction false} WidenIsAnswer(l: QueriedLayer, address: string, k: nat, widest: seq<Attrs>)
    requires 1 <= k <= 4
    ensures var c := Widen(l, address, k, widest);
      c.Among? ==> c.rs == widest || exists m :: k <= m < 4 && l.answers[m] == Records(c.rs)
    decreases 4 - k
  {
    hide HasMatch;
    if k < 4 && l.answers[k].Records? {
      WidenIsAnswer(l, address, k + 1, if l.answers[k].rs == [] then widest else l.answers[k].rs);
    }
  }

  lemma SearchIsAnswer(l: QueriedLayer, address: string)
    ensures var c := Search(l, address);
      c.Among? ==> exists m :: 0 <= m < 4 && l.answers[m] == Records(c.rs)
  {
    hide HasMatch;
    if l.answers[0].Records? { WidenIsAnswer(l, address, 1, l.answers[0].rs); }
  }

  /** For a non-empty address on a layer without a join these coincide: the gate trusts the parcel,
      the chosen record matched, the result is not flagged as buffered, the reported address match
      is positive, and some query held a match. */
  lemma TrustGate(l: QueriedLayer, index: nat, address: string)
    requires address != "" && l.related.NoJoin?
    ensures var p := FromLayer(l, index, address); p.Resolved? ==>
      && (ParcelOk(p) <==> p.addressMatch == Yes)
      && (ParcelOk(p) <==> !p.bufferedMatch)
      && (ParcelOk(p) <==> exists k :: 0 <= k < 4 && FirstMatchAt(l, address, k))
      && (forall k :: 0 <= k < 4 && FirstMatchAt(l, address, k) ==>
            p.record in l.answers[k].rs && MatchesIn(l, address, p.record) && p.count == |l.answers[k].rs|)
  {
    if !FromLayer(l, index, address).Resolved? { return; }
    var c := Search(l, address);
    SearchMeaning(l, address);
    var chosen := Choose(l, address, c.rs);
    ChooseMeaning(l, address, c.rs);
    hide Search, Choose, AddrMatch, SitusIn, FirstMatchAt;
    assert chosen.matched <==> HasMatch(l, address, c.rs);
    assert MatchesIn(l, address, c.rs[chosen.index]) ==> HasMatch(l, address, c.rs);
  }

  /** The whole resolution: if the layer that answered does not join, the parcel is trusted exactly if
      it matches the non-empty address, so reporting address_match as true for it is sound. */
  lemma TrustedParcelMatches(ls: seq<QueriedLayer>, address: string)
    requires address != ""
    ensures var p := ResolveFrom(ls, 0, address); p.Resolved? ==>
      p.layer < |ls| && (ls[p.layer].related.NoJoin? ==> (ParcelOk(p) <==> p.addressMatch == Yes))
  {
    TrustedFrom(ls, 0, address);
  }

  lemma {:induction false} TrustedFrom(ls: seq<QueriedLayer>, i: nat, address: string)
    requires i <= |ls| && address != ""
    ensures var p := ResolveFrom(ls, i, address); p.Resolved? ==>
      p.layer < |ls| && (ls[p.layer].related.NoJoin? ==> (ParcelOk(p) <==> p.addressMatch == Yes))
    decreases |ls| - i
  {
    hide FromLayer;
    if i < |ls| {
      ResolvedAt(ls[i], i, address);
      if ls[i].related.NoJoin? { TrustGate(ls[i], i, address); }
      TrustedFrom(ls, i + 1, address);
    }
  }

  /** Without an address the gate trusts exactly a hit of the point query, though nothing matched. */
  lemma EmptyAddressGate(l: QueriedLayer, index: nat)
    ensures var p := FromLayer(l, index, ""); p.Resolved? ==>
      p.addressMatch == Unknown && (ParcelOk(p) <==> l.answers[0].rs != [])
  {
    if !FromLayer(l, index, "").Resolved? { return; }
    EmptyHouse();
    hide SitusIn, AddrMatch;
    EmptyMatchesNothing(l);
    WidenIsBuffered(l, "", 1, l.answers[0].rs);
  }

  lemma EmptyHouse()
    ensures House("") == ""
  {}

  lemma EmptyMatchesNothing(l: QueriedLayer)
    ensures forall r :: AddrMatch("", SitusIn(l, r)) == Unknown
  {
    EmptyHouse();
    hide House, SitusIn;
  }

  lemma {:induction false} WidenIsBuffered(l: QueriedLayer, address: string, k: nat, widest: seq<Attrs>)
    requires 1 <= k <= 4
    ensures var c := Widen(l, address, k, widest); c.Among? && c.rs != [] ==> c.buffered
    decreases 4 - k
  {
    hide HasMatch;
    if k < 4 && l.answers[k].Records? {
      WidenIsBuffered(l, address, k + 1, if l.answers[k].rs == [] then widest else l.answers[k].rs);
    }
  }

  /** The record that the point query would choose, as joined. */
  function JoinedAtPoint(l: QueriedLayer, address: string): Attrs
    requires l.related.Joined?
  {
    var rs := if l.answers[0].Records? then l.answers[0].rs else [];
    var i := FirstOf(AddressMatches, l, address, rs);
    if i < |rs| then Joins.Enrich(rs[i], l.related.tables) else []
  }

  /** On a layer with a join the situs can change after the choice. A parcel is then trusted without
      matching exactly if the point query held a match and the join left its first match a situs
      without a house number. */
  lemma JoinedGate(l: QueriedLayer, index: nat, address: string)
    requires l.related.Joined? && address != ""
    ensures var p := FromLayer(l, index, address); p.Resolved? ==>
      && (p.addressMatch == Yes ==> ParcelOk(p))
      && (ParcelOk(p) && p.addressMatch != Yes <==>
            FirstMatchAt(l, address, 0) && House(SitusIn(l, JoinedAtPoint(l, address))) == "")
  {
    var p := FromLayer(l, index, address);
    if !p.Resolved? { return; }
    var c := Search(l, address);
    SearchMeaning(l, address);
    var chosen := Choose(l, address, c.rs);
    MatchReadsHouse(address, SitusIn(l, p.record));
    if FirstMatchAt(l, address, 0) {
      FirstOfMeets(AddressMatches, l, address, c.rs);
      var i := FirstOf(AddressMatches, l, address, c.rs);
      HasFirst(l, address, c.rs);
      MatchReadsHouse(address, SitusIn(l, c.rs[i]));
      hide Search, AddrMatch, SitusIn, FirstOf, House, Joins.Enrich;
      assert p.record == JoinedAtPoint(l, address) && !c.buffered;
    } else {
      hide Search, Choose, AddrMatch, SitusIn, House, FirstMatchAt, Joins.Enrich;
      assert c.buffered;
    }
  }

  lemma HasFirst(l: QueriedLayer, address: string, rs: seq<Attrs>)
    ensures HasMatch(l, address, rs) ==> FirstOf(AddressMatches, l, address, rs) < |rs|
  {
    if !HasMatch(l, address, rs) { return; }
    FirstOfMeets(AddressMatches, l, address, rs);
    var i :| 0 <= i < |rs| && MatchesIn(l, address, rs[i]);
    hide MatchesIn, FirstOf;
    assert Meets(AddressMatches, l, address, rs[i]);
  }
}
