/** Extraction of a parcel's site address from a layer's attribute record. */
module Situs {
  import opened Catalog
  import opened Text

  /** An attribute value with its str() rendering. */
  datatype Value = Null | Str(text: string) | Num(repr: string, zero: bool)

  datatype Field = Field(name: string, value: Value)

  /** A record: the keys and values of a Python dict, in insertion order. */
  type Attrs = seq<Field>

  function Render(v: Value): string {
    match v
    case Null => "None"
    case Str(t) => t
    case Num(r, _) => r
  }

  function Norm(k: string): string {
    if k == "" then ""
    else (if k[0] == ' ' || k[0] == '-' || k[0] == '_' then "" else [LowerChar(k[0])]) + Norm(k[1..])
  }

  predicate IsBlank(v: Value) {
    v.Null? || var t := Upper(Strip(Render(v))); t == "" || t == "NULL" || t == "NONE" || t == "N/A" || t == "<NULL>"
  }

  predicate HasStreet(v: Value) {
    && !v.Null? && !(v.Str? && (v.text == "" || v.text == " " || v.text == "0")) && !(v.Num? && v.zero)
    && (exists c :: c in Render(v) && IsAlpha(c)) && (exists c :: c in Render(v) && IsDigit(c))
  }

  predicate HasAny(s: string, subs: seq<string>) {
    exists i :: 0 <= i < |subs| && HasSub(s, subs[i])
  }

  // ------------------------------------------------------------ the field searches

  const SKIP: seq<string> := [
    "mail", "owner", "zip", "billing", "city", "state", "pstl", "postal", "taxpayer", "type", "desc"]

  const ALIASES: seq<string> := [
    "situsaddress", "situsaddr", "siteaddress", "siteaddr", "siteadd", "phyaddr", "physaddr", "physicala",
    "propaddr", "propadd", "propertya", "proploc", "locaddr", "e911", "fulladdr", "fuladd", "parceladd",
    "paradd", "boaaddr", "location", "address", "adress", "situs", "site"]

  const NUMBER: seq<string> := [
    "housenumb", "houseno", "housenum", "stnumber", "stnum", "strnum", "addrnum", "addressnu", "situsnum",
    "addno", "propnum", "propertynum", "bldgnum", "locations", "streetnum"]

  const PREDIR: seq<string> := ["predir", "prefixdir", "streetdir", "stdir", "direction1", "situsdir"]

  const NAME: seq<string> := [
    "streetname", "strname", "stname", "streetnam", "locate", "location1", "situsstr", "road", "addr", "street"]

  const NOT_NAME: seq<string> := ["type", "dir", "num", "city", "zip"]

  const SUFTYPE: seq<string> := ["suffixtype", "streettype", "sttype", "posttype", "strtype", "situstype", "rdtype"]

  const SUFDIR: seq<string> := ["suffixdir", "postdir", "direction2"]

  /** What a search looks for; taken holds the names a composition has already used. */
  datatype Want =
    | FullAddress
    | Alias(a: string)
    | Part(frags: seq<string>, taken: set<string>)
    | StreetName(taken: set<string>)

  predicate Mailing(kl: string) {
    HasSub(kl, "owner") || HasSub(kl, "mail")
  }

  predicate Wanted(w: Want, f: Field, excl: set<string>) {
    var kl := Norm(f.name);
    kl !in excl &&
    match w
    case FullAddress =>
      HasSub(kl, "addr") && (HasSub(kl, "full") || HasSub(kl, "complete") || HasSub(kl, "situs"))
      && !HasAny(kl, SKIP) && HasStreet(f.value)
    case Alias(a) => HasSub(kl, a) && !HasAny(kl, SKIP) && HasStreet(f.value)
    case Part(frags, taken) => kl !in taken && !Mailing(kl) && HasAny(kl, frags) && !IsBlank(f.value)
    case StreetName(taken) =>
      kl !in taken && !Mailing(kl)
      && (HasAny(kl, NAME) || (HasSub(kl, "str") && HasSub(kl, "name")))
      && !HasAny(kl, NOT_NAME) && !IsBlank(f.value)
  }

  /** The first wanted field of the record. */
  function First(attrs: Attrs, w: Want, excl: set<string>): (r: Option<Field>)
    ensures r.Some? ==> r.value in attrs && Wanted(w, r.value, excl)
    ensures r.None? ==> forall f :: f in attrs ==> !Wanted(w, f, excl)
  {
    if attrs == [] then None
    else if Wanted(w, attrs[0], excl) then Some(attrs[0])
    else First(attrs[1..], w, excl)
  }

  // ------------------------------------------------------------ parcel._compose_situs

  datatype Parts = Parts(num: Option<Field>, predir: Option<Field>, name: Option<Field>, suftype: Option<Field>, sufdir: Option<Field>)

  function Key(f: Option<Field>): set<string> {
    if f.Some? then {Norm(f.value.name)} else {}
  }

  function PartText(f: Option<Field>): string {
    if f.Some? then Strip(Render(f.value.value)) else ""
  }

  function DropPointZero(s: string): string {
    if |s| >= 2 && s[|s| - 2..] == ".0" then s[..|s| - 2] else s
  }

  function ChooseParts(attrs: Attrs, excl: set<string>): Parts {
    var num := First(attrs, Part(NUMBER, {}), excl);
    var t1 := Key(num);
    var predir := First(attrs, Part(PREDIR, t1), excl);
    var t2 := t1 + Key(predir);
    var name := First(attrs, StreetName(t2), excl);
    var t3 := t2 + Key(name);
    var suftype := First(attrs, Part(SUFTYPE, t3), excl);
    var t4 := t3 + Key(suftype);
    Parts(num, predir, name, suftype, First(attrs, Part(SUFDIR, t4), excl))
  }

  function NonEmpty(ws: seq<string>): seq<string> {
    if ws == [] then [] else (if ws[0] == "" then [] else [ws[0]]) + NonEmpty(ws[1..])
  }

  function Assemble(p: Parts): string {
    var num, name := DropPointZero(PartText(p.num)), PartText(p.name);
    if num == "" || name == "" then ""
    else Join(NonEmpty([num, PartText(p.predir), name, PartText(p.suftype), PartText(p.sufdir)]))
  }

  function ExcludeSet(exclude: seq<string>): set<string> {
    set i | 0 <= i < |exclude| :: Norm(exclude[i])
  }

  // ------------------------------------------------------------ parcel.situs_of

  function FirstAlias(attrs: Attrs, aliases: seq<string>, excl: set<string>): Option<Field> {
    if aliases == [] then None
    else
      var f := First(attrs, Alias(aliases[0]), excl);
      if f.Some? then f else FirstAlias(attrs, aliases[1..], excl)
  }

  function SitusOf(attrs: Attrs, exclude: seq<string>, compose: bool): string {
    var excl := ExcludeSet(exclude);
    if compose then Assemble(ChooseParts(attrs, excl))
    else
      var full := First(attrs, FullAddress, excl);
      var alias := FirstAlias(attrs, ALIASES, excl);
      if full.Some? then Join(Words(Render(full.value.value)))
      else if alias.Some? then Join(Words(Render(alias.value.value)))
      else Assemble(ChooseParts(attrs, excl))
  }

  /** The composition as the loop it is: each search scans the record and marks the name it used. */
  method ComposeSitus(attrs: Attrs, exclude: seq<string>) returns (situs: string)
    ensures situs == SitusOf(attrs, exclude, true)
  {
    hide First, PartText, Key, DropPointZero, NonEmpty, Join, ExcludeSet;
    var excl := ExcludeSet(exclude);
    var taken: set<string> := {};
    var num, predir, name, suftype, sufdir;
    num, taken := Find(attrs, Part(NUMBER, taken), excl, taken);
    assert taken == Key(First(attrs, Part(NUMBER, {}), excl));
    predir, taken := Find(attrs, Part(PREDIR, taken), excl, taken);
    name, taken := Find(attrs, StreetName(taken), excl, taken);
    suftype, taken := Find(attrs, Part(SUFTYPE, taken), excl, taken);
    sufdir, taken := Find(attrs, Part(SUFDIR, taken), excl, taken);
    var houseNumber := DropPointZero(num);
    if houseNumber == "" || name == "" { return ""; }
    return Join(NonEmpty([houseNumber, predir, name, suftype, sufdir]));
  }

  method Find(attrs: Attrs, w: Want, excl: set<string>, taken: set<string>) returns (text: string, taken': set<string>)
    ensures text == PartText(First(attrs, w, excl)) && taken' == taken + Key(First(attrs, w, excl))
  {
    hide Wanted;
    text, taken' := "", taken;
    for i := 0 to |attrs|
      invariant First(attrs, w, excl) == First(attrs[i..], w, excl)
      invariant text == "" && taken' == taken
    {
      if Wanted(w, attrs[i], excl) {
        text, taken' := Strip(Render(attrs[i].value)), taken + {Norm(attrs[i].name)};
        return;
      }
    }
  }

  // ------------------------------------------------------------ noninterference

  /** A field the extraction must not see: excluded by the county, or naming an owner or mail. */
  predicate Hidden(f: Field, excl: set<string>) {
    Norm(f.name) in excl || Mailing(Norm(f.name))
  }

  function Visible(attrs: Attrs, excl: set<string>): Attrs {
    if attrs == [] then []
    else (if Hidden(attrs[0], excl) then [] else [attrs[0]]) + Visible(attrs[1..], excl)
  }

  lemma WantedIsVisible(w: Want, f: Field, excl: set<string>)
    requires Wanted(w, f, excl)
    ensures !Hidden(f, excl)
  {
    assert SKIP[0] == "mail" && SKIP[1] == "owner";
  }

  lemma {:induction false} FirstIgnoresHidden(attrs: Attrs, w: Want, excl: set<string>)
    ensures First(Visible(attrs, excl), w, excl) == First(attrs, w, excl)
  {
    hide Wanted, Hidden;
    if attrs != [] {
      FirstIgnoresHidden(attrs[1..], w, excl);
      if Wanted(w, attrs[0], excl) { WantedIsVisible(w, attrs[0], excl); }
      if Hidden(attrs[0], excl) {
        assert Visible(attrs, excl) == Visible(attrs[1..], excl);
      } else {
        assert Visible(attrs, excl)[1..] == Visible(attrs[1..], excl);
      }
    }
  }

  lemma {:induction false} AliasIgnoresHidden(attrs: Attrs, aliases: seq<string>, excl: set<string>)
    ensures FirstAlias(Visible(attrs, excl), aliases, excl) == FirstAlias(attrs, aliases, excl)
  {
    hide First, Visible;
    if aliases != [] {
      FirstIgnoresHidden(attrs, Alias(aliases[0]), excl);
      AliasIgnoresHidden(attrs, aliases[1..], excl);
    }
  }

  lemma PartsIgnoreHidden(attrs: Attrs, excl: set<string>)
    ensures ChooseParts(Visible(attrs, excl), excl) == ChooseParts(attrs, excl)
  {
    hide First, Visible;
    var p := ChooseParts(attrs, excl);
    var t2 := Key(p.num) + Key(p.predir);
    FirstIgnoresHidden(attrs, Part(NUMBER, {}), excl);
    FirstIgnoresHidden(attrs, Part(PREDIR, Key(p.num)), excl);
    FirstIgnoresHidden(attrs, StreetName(t2), excl);
    FirstIgnoresHidden(attrs, Part(SUFTYPE, t2 + Key(p.name)), excl);
    FirstIgnoresHidden(attrs, Part(SUFDIR, t2 + Key(p.name) + Key(p.suftype)), excl);
  }

  /** Deleting every excluded, owner or mail field never changes the situs. */
  lemma SitusIgnoresHidden(attrs: Attrs, exclude: seq<string>, compose: bool)
    ensures SitusOf(Visible(attrs, ExcludeSet(exclude)), exclude, compose) == SitusOf(attrs, exclude, compose)
  {
    hide First, Visible, ChooseParts, FirstAlias;
    var excl := ExcludeSet(exclude);
    PartsIgnoreHidden(attrs, excl);
    FirstIgnoresHidden(attrs, FullAddress, excl);
    AliasIgnoresHidden(attrs, ALIASES, excl);
  }

  /** Two records that differ only in fields no situs may use have one situs: no owner's or mailing
      address can influence which address the parcel is compared by. */
  lemma SitusNoninterference(a: Attrs, b: Attrs, exclude: seq<string>, compose: bool)
    requires Visible(a, ExcludeSet(exclude)) == Visible(b, ExcludeSet(exclude))
    ensures SitusOf(a, exclude, compose) == SitusOf(b, exclude, compose)
  {
    SitusIgnoresHidden(a, exclude, compose);
    SitusIgnoresHidden(b, exclude, compose);
  }

  // ------------------------------------------------------------ what a composed situs is made of

  predicate Differ(f: Option<Field>, g: Option<Field>) {
    f.Some? && g.Some? ==> Norm(f.value.name) != Norm(g.value.name)
  }

  predicate Usable(f: Option<Field>, attrs: Attrs, excl: set<string>) {
    f.Some? ==> f.value in attrs && !Hidden(f.value, excl) && !IsBlank(f.value.value)
  }

  lemma FoundUsable(attrs: Attrs, w: Want, excl: set<string>)
    requires w.Part? || w.StreetName?
    ensures Usable(First(attrs, w, excl), attrs, excl)
    ensures First(attrs, w, excl).Some? ==> Norm(First(attrs, w, excl).value.name) !in w.taken
  {}

  /** The parts of a composition come from pairwise different visible fields with non-blank values,
      and a composed situs has both a house number and a street name. */
  lemma CompositionSound(attrs: Attrs, exclude: seq<string>)
    ensures var p := ChooseParts(attrs, ExcludeSet(exclude));
      && Differ(p.num, p.predir) && Differ(p.num, p.name) && Differ(p.num, p.suftype) && Differ(p.num, p.sufdir)
      && Differ(p.predir, p.name) && Differ(p.predir, p.suftype) && Differ(p.predir, p.sufdir)
      && Differ(p.name, p.suftype) && Differ(p.name, p.sufdir) && Differ(p.suftype, p.sufdir)
      && (forall f :: f in {p.num, p.predir, p.name, p.suftype, p.sufdir} ==> Usable(f, attrs, ExcludeSet(exclude)))
      && (SitusOf(attrs, exclude, true) != "" ==>
            p.num.Some? && p.name.Some? && PartText(p.num) != "" && PartText(p.name) != "")
  {
    hide First, Wanted, Hidden, IsBlank;
    var excl := ExcludeSet(exclude);
    var p := ChooseParts(attrs, excl);
    var t2 := Key(p.num) + Key(p.predir);
    FoundUsable(attrs, Part(NUMBER, {}), excl);
    FoundUsable(attrs, Part(PREDIR, Key(p.num)), excl);
    FoundUsable(attrs, StreetName(t2), excl);
    FoundUsable(attrs, Part(SUFTYPE, t2 + Key(p.name)), excl);
    FoundUsable(attrs, Part(SUFDIR, t2 + Key(p.name) + Key(p.suftype)), excl);
  }
}
