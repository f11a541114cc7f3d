/** A parcel layer whose related table makes the trust gate accept an address that nothing confirms. */
module JoinExample {
  import opened Catalog
  import opened Text
  import opened Addresses
  import opened Situs
  import opened SitusNames
  import opened Parcels
  import Joins

  const ADDRESS := "7 ELM ST"
  const LOT := "LOT 7 ELM"

  /** The polygon's own record: a blank situs field in front of one that holds the street address. */
  const RECORD: Attrs := [Field("situsaddr", Str("")), Field("situsaddr2", Str(ADDRESS))]

  /** The table fills the blank field with a description that has no house number. */
  const JOINED: Attrs := [Field("situsaddr", Str(LOT)), Field("situsaddr2", Str(ADDRESS))]

  const ROW: Attrs := [Field("situsaddr", Str(LOT))]

  const TABLE: Joins.Table := (attrs: Attrs) => Some(ROW)

  const LAYER: QueriedLayer :=
    Layer(LayerFound, [Records([RECORD]), Records([]), Records([]), Records([])], [], false, Joined([TABLE]))

  // ------------------------------------------------------------ its two situses

  lemma PlainName(end: string)
    requires end == "" || end == "2"
    ensures var k := "situsaddr" + end; forall i :: 0 <= i < |k| ==> 'a' <= k[i] <= 'z' || IsDigit(k[i])
  {}

  lemma UntoldName(end: string)
    requires end == "" || end == "2"
    ensures var k := "situsaddr" + end;
      'm' !in k && 'o' !in k && 'z' !in k && 'b' !in k && 'c' !in k && 'e' !in k && 'x' !in k && 'p' !in k
  {}

  lemma SiteName(pre: string, mid: string, end: string, v: Value)
    requires pre == "situs" && mid == "addr" && Norm(pre + mid + end) == pre + mid + end && !HasAny(pre + mid + end, SKIP)
    ensures Wanted(FullAddress, Field(pre + mid + end, v), {}) <==> HasStreet(v)
  {
    SubAt(pre, mid, end);
    SubAt("", pre, mid + end);
    assert "" + pre + (mid + end) == pre + mid + end;
    hide HasSub, HasAny, HasStreet, Norm;
  }

  /** A field named like a complete site address. */
  lemma FullName(end: string, v: Value)
    requires end == "" || end == "2"
    ensures Wanted(FullAddress, Field("situsaddr" + end, v), {}) <==> HasStreet(v)
  {
    PlainName(end);
    UntoldName(end);
    assert "situs" + "addr" + end == "situsaddr" + end;
    hide Wanted, HasStreet, HasAny, Norm;
    NormOfPlain("situsaddr" + end);
    NothingToSkipEither("situsaddr" + end);
    SiteName("situs", "addr", end, v);
  }

  lemma HouseOfThree(a: string, b: string, c: string)
    requires IsWord(a) && IsWord(b) && IsWord(c) && ',' !in a && ',' !in b && ',' !in c
    ensures House(a + " " + b + " " + c) == HouseOf([a, b, c])
  {
    var t := a + " " + b + " " + c;
    ThreeWords(a, b, c);
    assert BeforeComma("") == "" && t + "" == t;
    BeforeCommaPast(t, "");
    SeesOnlyWords(t);
  }

  lemma AddressFacts()
    ensures Join(Words(ADDRESS)) == ADDRESS && HasStreet(Str(ADDRESS)) && House(ADDRESS) == "7"
  {
    assert ADDRESS == "7" + " " + "ELM" + " " + "ST" && ADDRESS == "7" + " " + "ELM ST";
    assert IsWord("7") && IsWord("ELM") && IsWord("ST") && AllDigits("7");
    assert IsDigit(ADDRESS[0]) && IsAlpha(ADDRESS[2]);
    hide *;
    ThreeWords("7", "ELM", "ST");
    StreetLike(ADDRESS, 2, 0);
    HouseFirst("7", "ELM ST");
  }

  lemma LotFacts()
    ensures Join(Words(LOT)) == LOT && HasStreet(Str(LOT)) && House(LOT) == ""
  {
    assert LOT == "LOT" + " " + "7" + " " + "ELM";
    assert IsWord("LOT") && IsWord("7") && IsWord("ELM") && ',' !in "LOT" && ',' !in "7" && ',' !in "ELM";
    assert IsAlpha(LOT[0]) && IsDigit(LOT[4]);
    assert LeadRun("LOT") == "" && TailRun("ELM") == "";
    assert HouseOf(["LOT", "7", "ELM"]) == "";
    hide *;
    ThreeWords("LOT", "7", "ELM");
    StreetLike(LOT, 0, 4);
    HouseOfThree("LOT", "7", "ELM");
  }

  lemma FullNames(v: Value)
    ensures Wanted(FullAddress, Field("situsaddr", v), {}) <==> HasStreet(v)
    ensures Wanted(FullAddress, Field("situsaddr2", v), {}) <==> HasStreet(v)
  {
    assert "situsaddr" + "" == "situsaddr" && "situsaddr" + "2" == "situsaddr2";
    hide Wanted, HasStreet;
    FullName("", v);
    FullName("2", v);
  }

  function Site(first: string, second: string): Attrs {
    [Field("situsaddr", Str(first)), Field("situsaddr2", Str(second))]
  }

  lemma SitusAt(attrs: Attrs, i: nat, t: string)
    requires i < |attrs| <= 2
    ensures attrs[i].value == Str(t) && Join(Words(t)) == t && Wanted(FullAddress, attrs[i], {})
            && (i == 1 ==> !Wanted(FullAddress, attrs[0], {})) ==>
      SitusOf(attrs, [], false) == t
  {
    NothingExcluded();
    hide Wanted, Words, Join, ExcludeSet, SitusOf;
    if Wanted(FullAddress, attrs[i], {}) && (i == 1 ==> !Wanted(FullAddress, attrs[0], {})) { SitusFromFull(attrs, [], i); }
  }

  lemma SiteSitus(first: string, second: string)
    requires HasStreet(Str(second)) && Join(Words(second)) == second
    requires first == "" || (HasStreet(Str(first)) && Join(Words(first)) == first)
    ensures SitusOf(Site(first, second), [], false) == if first == "" then second else first
  {
    assert !HasStreet(Str(""));
    hide Wanted, HasStreet, Words, Join, SitusOf;
    FullNames(Str(first));
    FullNames(Str(second));
    var attrs := Site(first, second);
    if first == "" { SitusAt(attrs, 1, second); } else { SitusAt(attrs, 0, first); }
  }

  lemma Situses()
    ensures SitusIn(LAYER, RECORD) == ADDRESS && SitusIn(LAYER, JOINED) == LOT
  {
    AddressFacts();
    LotFacts();
    hide HasStreet, Words, Join, SitusOf, House;
    SiteSitus("", ADDRESS);
    SiteSitus(LOT, ADDRESS);
  }

  lemma JoinOfRecord()
    ensures Joins.Enrich(RECORD, [TABLE]) == JOINED
  {
    assert Joins.FillOne(RECORD, ROW[0]) == JOINED;
    assert ROW[1..] == [] && Joins.Fill(JOINED, []) == JOINED;
    assert Joins.Fill(RECORD, ROW) == JOINED;
    assert [TABLE][1..] == [] && Joins.Enrich(JOINED, []) == JOINED;
  }

  /** The polygon matched the address at the point; the join then renamed its site to a lot without a
      house number. The gate trusts the parcel although its reported situs confirms nothing. */
  lemma TrustedWithoutMatch()
    ensures var p := FromLayer(LAYER, 0, ADDRESS);
      p.Resolved? && ParcelOk(p) && p.addressMatch == Unknown && p.situs == LOT
  {
    Situses();
    AddressFacts();
    LotFacts();
    JoinOfRecord();
    MatchReadsHouse(ADDRESS, ADDRESS);
    MatchReadsHouse(ADDRESS, LOT);
    var rs := [RECORD];
    hide SitusIn, House, AddrMatch, Joins.Enrich, HasStreet, Words, Join;
    assert rs[0] == RECORD && MatchesIn(LAYER, ADDRESS, rs[0]);
    assert HasMatch(LAYER, ADDRESS, rs);
    HasFirst(LAYER, ADDRESS, rs);
    FirstOfMeets(AddressMatches, LAYER, ADDRESS, rs);
    hide FirstOf, MatchesIn;
    assert Search(LAYER, ADDRESS) == Among(rs, false);
    assert Choose(LAYER, ADDRESS, rs) == Choice(0, true);
  }
}
