/** How field names are read: spelling variants of one name are one name, and which fields, in which
    order, the situs of a record comes from. */
module SitusNames {
  import opened Catalog
  import opened Text
  import opened Situs

  // ------------------------------------------------------------ spelling

  predicate Separator(c: char) {
    c == ' ' || c == '-' || c == '_'
  }

  /** The two names differ only in letter case, blanks, hyphens and underscores. */
  predicate Respelled(a: string, b: string)
    decreases |a| + |b|
  {
    if a != "" && Separator(a[0]) then Respelled(a[1..], b)
    else if b != "" && Separator(b[0]) then Respelled(a, b[1..])
    else if a == "" || b == "" then a == b
    else UpperChar(a[0]) == UpperChar(b[0]) && Respelled(a[1..], b[1..])
  }

  lemma SameLetter(c: char, d: char)
    ensures UpperChar(c) == UpperChar(d) <==> LowerChar(c) == LowerChar(d)
  {}

  /** Normalisation identifies exactly the spellings of one name. */
  lemma {:induction false} NormMeaning(a: string, b: string)
    ensures Norm(a) == Norm(b) <==> Respelled(a, b)
    decreases |a| + |b|
  {
    hide UpperChar, LowerChar;
    if a != "" && Separator(a[0]) {
      NormMeaning(a[1..], b);
    } else if b != "" && Separator(b[0]) {
      NormMeaning(a, b[1..]);
    } else if a != "" && b != "" {
      NormMeaning(a[1..], b[1..]);
      SameLetter(a[0], b[0]);
      assert Norm(a)[0] == LowerChar(a[0]) && Norm(a)[1..] == Norm(a[1..]);
      assert Norm(b)[0] == LowerChar(b[0]) && Norm(b)[1..] == Norm(b[1..]);
    }
  }

  predicate SameField(f: Field, g: Field) {
    Respelled(f.name, g.name) && f.value == g.value
  }

  /** Every search treats spellings of one name alike, and so does the owner-and-mail rule. */
  lemma WantedAlike(w: Want, f: Field, g: Field, excl: set<string>)
    requires SameField(f, g)
    ensures Wanted(w, f, excl) <==> Wanted(w, g, excl)
    ensures Hidden(f, excl) <==> Hidden(g, excl)
  {
    NormMeaning(f.name, g.name);
    hide Norm, HasAny, HasStreet, IsBlank, Respelled;
  }

  /** b is a with its fields respelled. */
  predicate Renamed(a: Attrs, b: Attrs) {
    |a| == |b| && forall i :: 0 <= i < |a| ==> SameField(a[i], b[i])
  }

  predicate Alike(f: Option<Field>, g: Option<Field>) {
    (f.Some? <==> g.Some?) && (f.Some? ==> Norm(f.value.name) == Norm(g.value.name) && f.value.value == g.value.value)
  }

  lemma {:induction false} FirstAlike(a: Attrs, b: Attrs, w: Want, excl: set<string>)
    requires Renamed(a, b)
    ensures Alike(First(a, w, excl), First(b, w, excl))
  {
    hide Wanted, Respelled, Norm;
    if a != [] {
      assert SameField(a[0], b[0]);
      WantedAlike(w, a[0], b[0], excl);
      NormMeaning(a[0].name, b[0].name);
      forall i | 0 <= i < |a| - 1 ensures SameField(a[1..][i], b[1..][i]) { assert SameField(a[i + 1], b[i + 1]); }
      FirstAlike(a[1..], b[1..], w, excl);
    }
  }

  lemma {:induction false} AliasAlike(a: Attrs, b: Attrs, aliases: seq<string>, excl: set<string>)
    requires Renamed(a, b)
    ensures Alike(FirstAlias(a, aliases, excl), FirstAlias(b, aliases, excl))
    decreases aliases
  {
    hide First, Renamed;
    if aliases != [] {
      FirstAlike(a, b, Alias(aliases[0]), excl);
      AliasAlike(a, b, aliases[1..], excl);
    }
  }

  lemma SameKey(f: Option<Field>, g: Option<Field>)
    requires Alike(f, g)
    ensures Key(f) == Key(g) && PartText(f) == PartText(g)
  {}

  lemma PartsAlike(a: Attrs, b: Attrs, excl: set<string>)
    requires Renamed(a, b)
    ensures Assemble(ChooseParts(a, excl)) == Assemble(ChooseParts(b, excl))
  {
    var p, q := ChooseParts(a, excl), ChooseParts(b, excl);
    hide First, Renamed, Key, PartText, Alike, Join, NonEmpty, DropPointZero;
    var t1 := Key(p.num);
    FirstAlike(a, b, Part(NUMBER, {}), excl);
    SameKey(p.num, q.num);
    FirstAlike(a, b, Part(PREDIR, t1), excl);
    SameKey(p.predir, q.predir);
    var t2 := t1 + Key(p.predir);
    FirstAlike(a, b, StreetName(t2), excl);
    SameKey(p.name, q.name);
    var t3 := t2 + Key(p.name);
    FirstAlike(a, b, Part(SUFTYPE, t3), excl);
    SameKey(p.suftype, q.suftype);
    FirstAlike(a, b, Part(SUFDIR, t3 + Key(p.suftype)), excl);
    SameKey(p.sufdir, q.sufdir);
  }

  lemma ExcludeAlike(ex: seq<string>, ex': seq<string>)
    requires |ex| == |ex'| && forall i :: 0 <= i < |ex| ==> Respelled(ex[i], ex'[i])
    ensures ExcludeSet(ex) == ExcludeSet(ex')
  {
    forall i | 0 <= i < |ex| ensures Norm(ex[i]) == Norm(ex'[i]) { NormMeaning(ex[i], ex'[i]); }
    hide Norm, Respelled;
    forall n ensures n in ExcludeSet(ex) <==> n in ExcludeSet(ex') {
      if n in ExcludeSet(ex) {
        var i :| 0 <= i < |ex| && Norm(ex[i]) == n;
        assert Norm(ex'[i]) == n;
      }
      if n in ExcludeSet(ex') {
        var i :| 0 <= i < |ex'| && Norm(ex'[i]) == n;
        assert Norm(ex[i]) == n;
      }
    }
  }

  /** Respelling the fields of a record, and the names a county excludes, changes no situs. */
  lemma SitusOfRenamed(a: Attrs, b: Attrs, ex: seq<string>, ex': seq<string>, compose: bool)
    requires Renamed(a, b) && |ex| == |ex'| && forall i :: 0 <= i < |ex| ==> Respelled(ex[i], ex'[i])
    ensures SitusOf(a, ex, compose) == SitusOf(b, ex', compose)
  {
    ExcludeAlike(ex, ex');
    hide First, FirstAlias, ChooseParts, Assemble, ExcludeSet, Renamed, Respelled, Words, Join, Render, Norm;
    var excl := ExcludeSet(ex);
    FirstAlike(a, b, FullAddress, excl);
    AliasAlike(a, b, ALIASES, excl);
    PartsAlike(a, b, excl);
  }

  // ------------------------------------------------------------ where the situs comes from

  /** A search finds the first field of the record that it wants. */
  lemma {:induction false} FirstIsFirst(attrs: Attrs, w: Want, excl: set<string>, i: nat)
    requires i < |attrs| && Wanted(w, attrs[i], excl) && forall j :: 0 <= j < i ==> !Wanted(w, attrs[j], excl)
    ensures First(attrs, w, excl) == Some(attrs[i])
  {
    hide Wanted;
    if i > 0 {
      assert !Wanted(w, attrs[0], excl);
      assert forall j :: 0 <= j < i - 1 ==> !Wanted(w, attrs[1..][j], excl) by {
        assert forall j :: 0 <= j < i - 1 ==> attrs[1..][j] == attrs[j + 1];
      }
      FirstIsFirst(attrs[1..], w, excl, i - 1);
    }
  }

  predicate NoneWanted(attrs: Attrs, w: Want, excl: set<string>) {
    forall i :: 0 <= i < |attrs| ==> !Wanted(w, attrs[i], excl)
  }

  lemma NoneFound(attrs: Attrs, w: Want, excl: set<string>)
    requires NoneWanted(attrs, w, excl)
    ensures First(attrs, w, excl) == None
  {
    hide Wanted;
  }

  /** The value of a field as one line: its words, single-spaced. */
  function Line(f: Field): string {
    Join(Words(Render(f.value)))
  }

  /** First choice: the first field named like a complete site address. */
  lemma SitusFromFull(attrs: Attrs, exclude: seq<string>, i: nat)
    requires i < |attrs| && Wanted(FullAddress, attrs[i], ExcludeSet(exclude))
    requires forall j :: 0 <= j < i ==> !Wanted(FullAddress, attrs[j], ExcludeSet(exclude))
    ensures SitusOf(attrs, exclude, false) == Line(attrs[i])
  {
    hide Wanted, Words, Join, Render, FirstAlias, ChooseParts;
    FirstIsFirst(attrs, FullAddress, ExcludeSet(exclude), i);
  }

  lemma {:induction false} AliasIsFirst(attrs: Attrs, aliases: seq<string>, excl: set<string>, a: nat, i: nat)
    requires a < |aliases| && i < |attrs| && Wanted(Alias(aliases[a]), attrs[i], excl)
    requires forall j :: 0 <= j < i ==> !Wanted(Alias(aliases[a]), attrs[j], excl)
    requires forall b :: 0 <= b < a ==> NoneWanted(attrs, Alias(aliases[b]), excl)
    ensures FirstAlias(attrs, aliases, excl) == Some(attrs[i])
    decreases a
  {
    hide Wanted, First, NoneWanted;
    if a == 0 {
      FirstIsFirst(attrs, Alias(aliases[0]), excl, i);
    } else {
      assert NoneWanted(attrs, Alias(aliases[0]), excl);
      NoneFound(attrs, Alias(aliases[0]), excl);
      var rest := aliases[1..];
      assert rest[a - 1] == aliases[a] && forall b :: 0 <= b < a - 1 ==> rest[b] == aliases[b + 1];
      AliasIsFirst(attrs, rest, excl, a - 1, i);
    }
  }

  /** Second choice: the first field of the first alias, in the order of the list, that has one. */
  lemma SitusFromAlias(attrs: Attrs, exclude: seq<string>, a: nat, i: nat)
    requires NoneWanted(attrs, FullAddress, ExcludeSet(exclude))
    requires a < |ALIASES| && i < |attrs| && Wanted(Alias(ALIASES[a]), attrs[i], ExcludeSet(exclude))
    requires forall j :: 0 <= j < i ==> !Wanted(Alias(ALIASES[a]), attrs[j], ExcludeSet(exclude))
    requires forall b :: 0 <= b < a ==> NoneWanted(attrs, Alias(ALIASES[b]), ExcludeSet(exclude))
    ensures SitusOf(attrs, exclude, false) == Line(attrs[i])
  {
    hide Wanted, Words, Join, Render, First, FirstAlias, ChooseParts, NoneWanted, ExcludeSet;
    NoneFound(attrs, FullAddress, ExcludeSet(exclude));
    AliasIsFirst(attrs, ALIASES, ExcludeSet(exclude), a, i);
  }

  function After(part: string): string {
    if part == "" then "" else " " + part
  }

  /** What follows the first part: each non-empty one after a blank. */
  function Tail(parts: seq<string>): string {
    if NonEmpty(parts) == [] then "" else " " + Join(NonEmpty(parts))
  }

  lemma JoinNonEmpty(head: string, rest: seq<string>)
    ensures head != "" ==> Join(NonEmpty([head] + rest)) == head + Tail(rest)
    ensures Tail([head] + rest) == After(head) + Tail(rest)
  {
    assert ([head] + rest)[1..] == rest;
    if head != "" {
      var kept := [head] + NonEmpty(rest);
      assert NonEmpty([head] + rest) == kept && kept[1..] == NonEmpty(rest);
      assert Join(kept) == head + Tail(rest);
      assert " " + (head + Tail(rest)) == (" " + head) + Tail(rest);
    } else {
      assert NonEmpty([head] + rest) == NonEmpty(rest);
    }
  }

  /** The parts in order: number, then direction, name, type and direction where there are any. */
  lemma AssembleOrder(p: Parts)
    ensures var num, name := DropPointZero(PartText(p.num)), PartText(p.name);
      Assemble(p) == if num == "" || name == "" then ""
        else num + After(PartText(p.predir)) + After(name) + After(PartText(p.suftype)) + After(PartText(p.sufdir))
  {
    hide DropPointZero, PartText;
    var num, name := DropPointZero(PartText(p.num)), PartText(p.name);
    if num != "" && name != "" {
      var predir, suftype, sufdir := PartText(p.predir), PartText(p.suftype), PartText(p.sufdir);
      OrderOfFive(num, predir, name, suftype, sufdir);
    }
  }

  lemma OrderOfFive(num: string, a: string, b: string, c: string, d: string)
    requires num != ""
    ensures Join(NonEmpty([num, a, b, c, d])) == num + After(a) + After(b) + After(c) + After(d)
  {
    assert Tail([]) == "";
    hide Join, NonEmpty, After, Tail;
    JoinNonEmpty(num, [a, b, c, d]);
    JoinNonEmpty(a, [b, c, d]);
    JoinNonEmpty(b, [c, d]);
    JoinNonEmpty(c, [d]);
    JoinNonEmpty(d, []);
    Displays(num, a, b, c, d);
    Associate(num, After(a), After(b), After(c), After(d));
  }

  lemma Displays(num: string, a: string, b: string, c: string, d: string)
    ensures [num, a, b, c, d] == [num] + [a, b, c, d] && [a, b, c, d] == [a] + [b, c, d]
    ensures [b, c, d] == [b] + [c, d] && [c, d] == [c] + [d] && [d] == [d] + []
  {}

  lemma Associate(num: string, a: string, b: string, c: string, d: string)
    ensures num + (a + (b + (c + (d + "")))) == num + a + b + c + d
  {
    assert d + "" == d;
  }

  /** Last choice, or the only one where a county asks for it: the parts. */
  lemma SitusFromParts(attrs: Attrs, exclude: seq<string>, compose: bool)
    requires compose || (NoneWanted(attrs, FullAddress, ExcludeSet(exclude))
                         && forall a :: 0 <= a < |ALIASES| ==> NoneWanted(attrs, Alias(ALIASES[a]), ExcludeSet(exclude)))
    ensures var p := ChooseParts(attrs, ExcludeSet(exclude));
      var num, name := DropPointZero(PartText(p.num)), PartText(p.name);
      SitusOf(attrs, exclude, compose) == if num == "" || name == "" then ""
        else num + After(PartText(p.predir)) + After(name) + After(PartText(p.suftype)) + After(PartText(p.sufdir))
  {
    var excl := ExcludeSet(exclude);
    hide Words, Join, Render, First, FirstAlias, ChooseParts, NoneWanted, Assemble, DropPointZero, PartText, ExcludeSet, After;
    AssembleOrder(ChooseParts(attrs, excl));
    if !compose {
      NoneFound(attrs, FullAddress, excl);
      NoAlias(attrs, ALIASES, excl);
    }
  }

  lemma {:induction false} NoAlias(attrs: Attrs, aliases: seq<string>, excl: set<string>)
    requires forall a :: 0 <= a < |aliases| ==> NoneWanted(attrs, Alias(aliases[a]), excl)
    ensures FirstAlias(attrs, aliases, excl) == None
    decreases aliases
  {
    hide First, NoneWanted;
    if aliases != [] {
      assert NoneWanted(attrs, Alias(aliases[0]), excl);
      NoneFound(attrs, Alias(aliases[0]), excl);
      forall a | 0 <= a < |aliases| - 1 ensures NoneWanted(attrs, Alias(aliases[1..][a]), excl) {
        assert NoneWanted(attrs, Alias(aliases[a + 1]), excl);
      }
      NoAlias(attrs, aliases[1..], excl);
    }
  }

  // ------------------------------------------------------------ the words of each search

  /** What disqualifies a name as an address. */
  lemma SkipWords(kl: string)
    ensures HasAny(kl, SKIP) <==> (
      HasSub(kl, "mail") || HasSub(kl, "owner") || HasSub(kl, "zip") || HasSub(kl, "billing") ||
      HasSub(kl, "city") || HasSub(kl, "state") || HasSub(kl, "pstl") || HasSub(kl, "postal") ||
      HasSub(kl, "taxpayer") || HasSub(kl, "type") || HasSub(kl, "desc"))
  {
    hide HasSub;
    assert SKIP[0] == "mail" && SKIP[1] == "owner" && SKIP[2] == "zip" && SKIP[3] == "billing" &&
        SKIP[4] == "city" && SKIP[5] == "state" && SKIP[6] == "pstl" && SKIP[7] == "postal" &&
        SKIP[8] == "taxpayer" && SKIP[9] == "type" && SKIP[10] == "desc";
  }

  /** What makes a name a house number. */
  lemma NumberWords(kl: string)
    ensures HasAny(kl, NUMBER) <==> (
      HasSub(kl, "housenumb") || HasSub(kl, "houseno") || HasSub(kl, "housenum") || HasSub(kl, "stnumber") ||
      HasSub(kl, "stnum") || HasSub(kl, "strnum") || HasSub(kl, "addrnum") || HasSub(kl, "addressnu") ||
      HasSub(kl, "situsnum") || HasSub(kl, "addno") || HasSub(kl, "propnum") || HasSub(kl, "propertynum") ||
      HasSub(kl, "bldgnum") || HasSub(kl, "locations") || HasSub(kl, "streetnum"))
  {
    hide HasSub;
    assert NUMBER[0] == "housenumb" && NUMBER[1] == "houseno" && NUMBER[2] == "housenum" &&
        NUMBER[3] == "stnumber" && NUMBER[4] == "stnum" && NUMBER[5] == "strnum" && NUMBER[6] == "addrnum" &&
        NUMBER[7] == "addressnu" && NUMBER[8] == "situsnum" && NUMBER[9] == "addno" &&
        NUMBER[10] == "propnum" && NUMBER[11] == "propertynum" && NUMBER[12] == "bldgnum" &&
        NUMBER[13] == "locations" && NUMBER[14] == "streetnum";
  }

  /** A direction in front. */
  lemma PredirWords(kl: string)
    ensures HasAny(kl, PREDIR) <==> (
      HasSub(kl, "predir") || HasSub(kl, "prefixdir") || HasSub(kl, "streetdir") || HasSub(kl, "stdir") ||
      HasSub(kl, "direction1") || HasSub(kl, "situsdir"))
  {
    hide HasSub;
    assert PREDIR[0] == "predir" && PREDIR[1] == "prefixdir" && PREDIR[2] == "streetdir" &&
        PREDIR[3] == "stdir" && PREDIR[4] == "direction1" && PREDIR[5] == "situsdir";
  }

  /** A street name. */
  lemma NameWords(kl: string)
    ensures HasAny(kl, NAME) <==> (
      HasSub(kl, "streetname") || HasSub(kl, "strname") || HasSub(kl, "stname") || HasSub(kl, "streetnam") ||
      HasSub(kl, "locate") || HasSub(kl, "location1") || HasSub(kl, "situsstr") || HasSub(kl, "road") ||
      HasSub(kl, "addr") || HasSub(kl, "street"))
  {
    hide HasSub;
    assert NAME[0] == "streetname" && NAME[1] == "strname" && NAME[2] == "stname" && NAME[3] == "streetnam" &&
        NAME[4] == "locate" && NAME[5] == "location1" && NAME[6] == "situsstr" && NAME[7] == "road" &&
        NAME[8] == "addr" && NAME[9] == "street";
  }

  /** What a street name may not say. */
  lemma NotNameWords(kl: string)
    ensures HasAny(kl, NOT_NAME) <==> (
      HasSub(kl, "type") || HasSub(kl, "dir") || HasSub(kl, "num") || HasSub(kl, "city") || HasSub(kl, "zip"))
  {
    hide HasSub;
    assert NOT_NAME[0] == "type" && NOT_NAME[1] == "dir" && NOT_NAME[2] == "num" && NOT_NAME[3] == "city" &&
        NOT_NAME[4] == "zip";
  }

  /** A street type. */
  lemma TypeWords(kl: string)
    ensures HasAny(kl, SUFTYPE) <==> (
      HasSub(kl, "suffixtype") || HasSub(kl, "streettype") || HasSub(kl, "sttype") || HasSub(kl, "posttype") ||
      HasSub(kl, "strtype") || HasSub(kl, "situstype") || HasSub(kl, "rdtype"))
  {
    hide HasSub;
    assert SUFTYPE[0] == "suffixtype" && SUFTYPE[1] == "streettype" && SUFTYPE[2] == "sttype" &&
        SUFTYPE[3] == "posttype" && SUFTYPE[4] == "strtype" && SUFTYPE[5] == "situstype" &&
        SUFTYPE[6] == "rdtype";
  }

  /** A direction behind. */
  lemma PostdirWords(kl: string)
    ensures HasAny(kl, SUFDIR) <==> (
      HasSub(kl, "suffixdir") || HasSub(kl, "postdir") || HasSub(kl, "direction2"))
  {
    hide HasSub;
    assert SUFDIR[0] == "suffixdir" && SUFDIR[1] == "postdir" && SUFDIR[2] == "direction2";
  }

  /** The aliases, the more specific in front. */
  lemma AliasOrder()
    ensures |ALIASES| == 24
    ensures ALIASES[0] == "situsaddress" && ALIASES[1] == "situsaddr" && ALIASES[2] == "siteaddress" && ALIASES[3] == "siteaddr"
    ensures ALIASES[4] == "siteadd" && ALIASES[5] == "phyaddr" && ALIASES[6] == "physaddr" && ALIASES[7] == "physicala"
    ensures ALIASES[8] == "propaddr" && ALIASES[9] == "propadd" && ALIASES[10] == "propertya" && ALIASES[11] == "proploc"
    ensures ALIASES[12] == "locaddr" && ALIASES[13] == "e911" && ALIASES[14] == "fulladdr" && ALIASES[15] == "fuladd"
    ensures ALIASES[16] == "parceladd" && ALIASES[17] == "paradd" && ALIASES[18] == "boaaddr" && ALIASES[19] == "location"
    ensures ALIASES[20] == "address" && ALIASES[21] == "adress" && ALIASES[22] == "situs" && ALIASES[23] == "site"
  {}

  // ------------------------------------------------------------ values

  /** A value is blank exactly if it is absent, only blanks, or one of four words in any case. */
  lemma BlankText(t: string)
    requires t != "" && !IsSpace(t[0]) && !IsSpace(t[|t| - 1])
    ensures IsBlank(Str(t)) <==> Upper(t) in {"NULL", "NONE", "N/A", "<NULL>"}
    ensures IsBlank(Null) && IsBlank(Str("")) && IsBlank(Str(" "))
  {
    assert Strip(t) == t;
    assert StripLeft(" ") == "" by { assert " "[1..] == ""; }
    assert Strip(" ") == "" && Strip("") == "";
    assert Upper("") == "";
  }

  /** A text can be a street address exactly if it has a letter and a digit; the placeholders "", " "
      and "0" have not. */
  lemma StreetHasBoth(t: string)
    ensures HasStreet(Str(t)) <==>
      (exists i :: 0 <= i < |t| && ('a' <= t[i] <= 'z' || 'A' <= t[i] <= 'Z')) && (exists i :: 0 <= i < |t| && '0' <= t[i] <= '9')
    ensures !HasStreet(Null)
  {
    if i, j :| 0 <= i < |t| && 0 <= j < |t| && IsAlpha(t[i]) && IsDigit(t[j]) {
      assert t[i] in t && t[j] in t;
      assert t != "" && t != " " && t != "0";
    }
  }

  /** A number stored as a decimal loses its ".0". */
  lemma PointZero(s: string)
    ensures DropPointZero(s + ".0") == s
  {
    assert (s + ".0")[|s|..] == ".0" && (s + ".0")[..|s|] == s;
  }

  // ------------------------------------------------------------ names in capitals

  lemma {:induction false} NormOfPlain(k: string)
    requires forall i :: 0 <= i < |k| ==> 'a' <= k[i] <= 'z' || IsDigit(k[i])
    ensures Norm(k) == k
  {
    if k != "" { NormOfPlain(k[1..]); }
  }

  /** A name in capitals, perhaps of several words joined by underscores, reads as in small letters. */
  lemma {:induction false} NormOfSum(a: string, b: string)
    ensures Norm(a + b) == Norm(a) + Norm(b)
  {
    hide LowerChar;
    if a == "" {
      assert a + b == b;
    } else {
      assert (a + b)[1..] == a[1..] + b;
      NormOfSum(a[1..], b);
    }
  }

  lemma {:induction false} NormOfUpper(k: string)
    requires forall i :: 0 <= i < |k| ==> 'a' <= k[i] <= 'z'
    ensures Norm(Upper(k)) == k
  {
    if k != "" {
      assert Upper(k)[1..] == Upper(k[1..]);
      NormOfUpper(k[1..]);
    }
  }

  lemma TwoWords(a: string, b: string, name: string)
    requires forall i :: 0 <= i < |a| ==> 'a' <= a[i] <= 'z'
    requires forall i :: 0 <= i < |b| ==> 'a' <= b[i] <= 'z'
    requires name == Upper(a) + "_" + Upper(b)
    ensures Norm(name) == a + b
  {
    NormOfSum(Upper(a) + "_", Upper(b));
    NormOfSum(Upper(a), "_");
    NormOfUpper(a);
    NormOfUpper(b);
    assert Norm("_") == "" by { assert "_"[1..] == ""; }
    hide Norm, Upper;
    assert a + "" == a;
  }

  lemma SitusAddrName()
    ensures Norm("SITUS_ADDR") == "situsaddr"
  {
    assert Upper("situs") == "SITUS" && Upper("addr") == "ADDR";
    assert "SITUS" + "_" + "ADDR" == "SITUS_ADDR" && "situs" + "addr" == "situsaddr";
    hide Norm, Upper;
    TwoWords("situs", "addr", "SITUS_ADDR");
  }

  lemma PhyAddrName()
    ensures Norm("PHY_ADDR") == "phyaddr"
  {
    assert Upper("phy") == "PHY" && Upper("addr") == "ADDR";
    assert "PHY" + "_" + "ADDR" == "PHY_ADDR" && "phy" + "addr" == "phyaddr";
    hide Norm, Upper;
    TwoWords("phy", "addr", "PHY_ADDR");
  }

  lemma HouseNoName()
    ensures Norm("HOUSE_NO") == "houseno"
  {
    assert Upper("house") == "HOUSE" && Upper("no") == "NO";
    assert "HOUSE" + "_" + "NO" == "HOUSE_NO" && "house" + "no" == "houseno";
    hide Norm, Upper;
    TwoWords("house", "no", "HOUSE_NO");
  }

  lemma StreetNameName()
    ensures Norm("STREET_NAME") == "streetname"
  {
    assert Upper("street") == "STREET" && Upper("name") == "NAME";
    assert "STREET" + "_" + "NAME" == "STREET_NAME" && "street" + "name" == "streetname";
    hide Norm, Upper;
    TwoWords("street", "name", "STREET_NAME");
  }

  lemma OwnerAddrName()
    ensures Norm("OWNER_ADDR") == "owneraddr"
  {
    assert Upper("owner") == "OWNER" && Upper("addr") == "ADDR";
    assert "OWNER" + "_" + "ADDR" == "OWNER_ADDR" && "owner" + "addr" == "owneraddr";
    hide Norm, Upper;
    TwoWords("owner", "addr", "OWNER_ADDR");
  }

  lemma MissingLetter(s: string, sub: string, i: nat)
    requires i < |sub| && sub[i] !in s
    ensures !HasSub(s, sub)
  {
    SubChars(s, sub);
  }

  lemma Inside(a: string, sub: string, b: string, s: string)
    requires a + sub + b == s
    ensures HasSub(s, sub)
  {
    SubAt(a, sub, b);
  }

  /** No word that disqualifies a name as an address fits into one without i, o, s and t. */
  lemma NothingToSkip(kl: string)
    requires 'i' !in kl && 'o' !in kl && 's' !in kl && 't' !in kl
    ensures !HasAny(kl, SKIP)
  {
    hide HasSub;
    MissingLetter(kl, "mail", 2);
    MissingLetter(kl, "owner", 0);
    MissingLetter(kl, "zip", 1);
    MissingLetter(kl, "billing", 1);
    MissingLetter(kl, "city", 1);
    MissingLetter(kl, "state", 0);
    MissingLetter(kl, "pstl", 1);
    MissingLetter(kl, "postal", 1);
    MissingLetter(kl, "taxpayer", 0);
    MissingLetter(kl, "type", 0);
    MissingLetter(kl, "desc", 2);
  }

  /** Nor into one without m, o, z, b, c, e, x and p. */
  lemma NothingToSkipEither(kl: string)
    requires 'm' !in kl && 'o' !in kl && 'z' !in kl && 'b' !in kl && 'c' !in kl && 'e' !in kl && 'x' !in kl && 'p' !in kl
    ensures !HasAny(kl, SKIP)
  {
    hide HasSub;
    MissingLetter(kl, "mail", 0);
    MissingLetter(kl, "owner", 0);
    MissingLetter(kl, "zip", 0);
    MissingLetter(kl, "billing", 0);
    MissingLetter(kl, "city", 0);
    MissingLetter(kl, "state", 4);
    MissingLetter(kl, "pstl", 0);
    MissingLetter(kl, "postal", 0);
    MissingLetter(kl, "taxpayer", 2);
    MissingLetter(kl, "type", 2);
    MissingLetter(kl, "desc", 1);
  }

  lemma SitusAddrParts()
    ensures HasSub("situsaddr", "addr") && HasSub("situsaddr", "situs") && !HasAny("situsaddr", SKIP)
  {
    LettersOfSites();
    Spelled();
    hide *;
    Inside("situs", "addr", "", "situsaddr");
    Inside("", "situs", "addr", "situsaddr");
    NothingToSkipEither("situsaddr");
  }

  lemma LettersOfSites()
    ensures var k := "situsaddr";
      'm' !in k && 'o' !in k && 'z' !in k && 'b' !in k && 'c' !in k && 'e' !in k && 'x' !in k && 'p' !in k
  {}

  lemma Spelled()
    ensures "situs" + "addr" + "" == "situsaddr" && "" + "situs" + "addr" == "situsaddr"
    ensures "" + "owner" + "addr" == "owneraddr" && "" + "phyaddr" + "" == "phyaddr"
    ensures "" + "houseno" + "" == "houseno" && "" + "streetname" + "" == "streetname"
  {}

  /** SITUS_ADDR is read as a complete site address. */
  lemma SitusAddrIsWanted(v: Value)
    ensures Wanted(FullAddress, Field("SITUS_ADDR", v), {}) <==> HasStreet(v)
  {
    hide HasSub, HasAny, HasStreet, Norm;
    SitusAddrName();
    SitusAddrParts();
  }

  lemma OwnerAddrPart()
    ensures HasSub("owneraddr", "owner")
  {
    Spelled();
    hide *;
    Inside("", "owner", "addr", "owneraddr");
  }

  /** OWNER_ADDR is hidden, so its value is never seen. */
  lemma OwnerAddrIsHidden(v: Value)
    ensures Hidden(Field("OWNER_ADDR", v), {})
  {
    hide HasSub, Norm;
    OwnerAddrName();
    OwnerAddrPart();
  }

  lemma MailAddrName()
    ensures Norm("MAIL_ADDR") == "mailaddr" && HasSub("mailaddr", "mail")
  {
    assert Upper("mail") == "MAIL" && Upper("addr") == "ADDR";
    assert "MAIL" + "_" + "ADDR" == "MAIL_ADDR" && "mail" + "addr" == "mailaddr" && "" + "mail" + "addr" == "mailaddr";
    hide Norm, Upper, HasSub;
    TwoWords("mail", "addr", "MAIL_ADDR");
    Inside("", "mail", "addr", "mailaddr");
  }

  /** And so is MAIL_ADDR. */
  lemma MailAddrIsHidden(v: Value)
    ensures Hidden(Field("MAIL_ADDR", v), {})
  {
    hide HasSub, Norm;
    MailAddrName();
  }

  lemma LettersOfPhyAddr()
    ensures var k := "phyaddr"; 'i' !in k && 'o' !in k && 's' !in k && 't' !in k && 'u' !in k && 'f' !in k && 'c' !in k
  {}

  lemma PhyAddrParts()
    ensures HasSub("phyaddr", "phyaddr") && !HasAny("phyaddr", SKIP)
    ensures !HasSub("phyaddr", "full") && !HasSub("phyaddr", "complete") && !HasSub("phyaddr", "situs")
    ensures forall a :: 0 <= a < 5 ==> !HasSub("phyaddr", ALIASES[a])
    ensures ALIASES[5] == "phyaddr"
  {
    LettersOfPhyAddr();
    Spelled();
    hide HasSub, HasAny;
    Inside("", "phyaddr", "", "phyaddr");
    NothingToSkip("phyaddr");
    MissingLetter("phyaddr", "full", 1);
    MissingLetter("phyaddr", "complete", 0);
    MissingLetter("phyaddr", "situs", 0);
    MissingLetter("phyaddr", "situsaddress", 0);
    MissingLetter("phyaddr", "situsaddr", 0);
    MissingLetter("phyaddr", "siteaddress", 0);
    MissingLetter("phyaddr", "siteaddr", 0);
    MissingLetter("phyaddr", "siteadd", 0);
  }

  /** PHY_ADDR is found by its alias, the sixth of the list, and by nothing before it. */
  lemma PhyAddrIsWanted(v: Value)
    ensures Wanted(Alias(ALIASES[5]), Field("PHY_ADDR", v), {}) <==> HasStreet(v)
    ensures !Wanted(FullAddress, Field("PHY_ADDR", v), {})
    ensures forall a :: 0 <= a < 5 ==> !Wanted(Alias(ALIASES[a]), Field("PHY_ADDR", v), {})
  {
    hide HasSub, HasAny, HasStreet, Norm;
    PhyAddrName();
    PhyAddrParts();
  }

  lemma HouseNoLetters()
    ensures 'w' !in "houseno" && 'm' !in "houseno"
  {}

  lemma HouseNoParts()
    ensures HasAny("houseno", NUMBER) && !Mailing("houseno")
  {
    Spelled();
    HouseNoLetters();
    hide HasSub;
    Inside("", "houseno", "", "houseno");
    MissingLetter("houseno", "owner", 1);
    MissingLetter("houseno", "mail", 0);
    assert NUMBER[1] == "houseno";
  }

  /** HOUSE_NO is a number field. */
  lemma HouseNoIsWanted(v: Value)
    ensures Wanted(Part(NUMBER, {}), Field("HOUSE_NO", v), {}) <==> !IsBlank(v)
  {
    hide HasAny, Mailing, IsBlank, Norm;
    HouseNoName();
    HouseNoParts();
  }

  /** A name that tells of a full or complete address, and has no letter that the disqualifying words
      need. */
  lemma FullIsWanted(kl: string, name: string, v: Value)
    requires Norm(name) == kl && HasSub(kl, "addr") && (HasSub(kl, "full") || HasSub(kl, "complete"))
    requires 'i' !in kl && 'w' !in kl && 's' !in kl && 'x' !in kl && 'y' !in kl
    ensures Wanted(FullAddress, Field(name, v), {}) <==> HasStreet(v)
  {
    hide HasSub, HasStreet, Norm;
    MissingLetter(kl, "mail", 2);
    MissingLetter(kl, "owner", 1);
    MissingLetter(kl, "zip", 1);
    MissingLetter(kl, "billing", 1);
    MissingLetter(kl, "city", 1);
    MissingLetter(kl, "state", 0);
    MissingLetter(kl, "pstl", 1);
    MissingLetter(kl, "postal", 2);
    MissingLetter(kl, "taxpayer", 2);
    MissingLetter(kl, "type", 1);
    MissingLetter(kl, "desc", 2);
    SkipWords(kl);
  }

  lemma FullLetters()
    ensures var k := "fulladdr"; 'i' !in k && 'w' !in k && 's' !in k && 'x' !in k && 'y' !in k
    ensures var k := "completeaddr"; 'i' !in k && 'w' !in k && 's' !in k && 'x' !in k && 'y' !in k
  {}

  lemma FullAddrName()
    ensures Norm("FULL_ADDR") == "fulladdr"
  {
    assert Upper("full") == "FULL" && Upper("addr") == "ADDR";
    assert "FULL" + "_" + "ADDR" == "FULL_ADDR" && "full" + "addr" == "fulladdr";
    hide Norm, Upper;
    TwoWords("full", "addr", "FULL_ADDR");
  }

  lemma CompleteAddrName()
    ensures Norm("COMPLETE_ADDR") == "completeaddr"
  {
    assert Upper("complete") == "COMPLETE" && Upper("addr") == "ADDR";
    assert "COMPLETE" + "_" + "ADDR" == "COMPLETE_ADDR" && "complete" + "addr" == "completeaddr";
    hide Norm, Upper;
    TwoWords("complete", "addr", "COMPLETE_ADDR");
  }

  lemma FullSpelled()
    ensures "" + "full" + "addr" == "fulladdr" && "" + "complete" + "addr" == "completeaddr"
    ensures "full" + "addr" + "" == "fulladdr" && "complete" + "addr" + "" == "completeaddr"
  {}

  /** FULL_ADDR and COMPLETE_ADDR are names of a complete address. */
  lemma FullAddrIsWanted(v: Value)
    ensures Wanted(FullAddress, Field("FULL_ADDR", v), {}) <==> HasStreet(v)
    ensures Wanted(FullAddress, Field("COMPLETE_ADDR", v), {}) <==> HasStreet(v)
  {
    FullAddrName();
    CompleteAddrName();
    FullSpelled();
    FullLetters();
    hide *;
    Inside("", "full", "addr", "fulladdr");
    Inside("full", "addr", "", "fulladdr");
    Inside("", "complete", "addr", "completeaddr");
    Inside("complete", "addr", "", "completeaddr");
    FullIsWanted("fulladdr", "FULL_ADDR", v);
    FullIsWanted("completeaddr", "COMPLETE_ADDR", v);
  }

  /** A name with "str" and "name" anywhere in it is a street name, unless it also tells of a type, a
      direction, a number, a city, a zip code, an owner or mail, or is used already. */
  lemma StreetAndName(f: Field, taken: set<string>)
    requires HasSub(Norm(f.name), "str") && HasSub(Norm(f.name), "name") && !HasSub(Norm(f.name), "type")
    requires !HasSub(Norm(f.name), "dir") && !HasSub(Norm(f.name), "num") && !HasSub(Norm(f.name), "city")
    requires !HasSub(Norm(f.name), "zip") && !HasSub(Norm(f.name), "owner") && !HasSub(Norm(f.name), "mail")
    ensures Wanted(StreetName(taken), f, {}) <==> Norm(f.name) !in taken && !IsBlank(f.value)
  {
    hide HasSub, IsBlank, Norm;
    NotNameWords(Norm(f.name));
  }

  lemma StreetNameLetters()
    ensures var k := "streetname"; 'w' !in k && 'i' !in k && 'y' !in k && 'd' !in k && 'u' !in k && 'c' !in k && 'z' !in k
  {}

  lemma StreetNameParts()
    ensures HasAny("streetname", NAME) && !HasAny("streetname", NOT_NAME) && !Mailing("streetname")
  {
    Spelled();
    StreetNameLetters();
    hide HasSub;
    Inside("", "streetname", "", "streetname");
    MissingLetter("streetname", "owner", 1);
    MissingLetter("streetname", "mail", 2);
    MissingLetter("streetname", "type", 1);
    MissingLetter("streetname", "dir", 0);
    MissingLetter("streetname", "num", 1);
    MissingLetter("streetname", "city", 0);
    MissingLetter("streetname", "zip", 0);
    assert NAME[0] == "streetname";
  }

  /** STREET_NAME is a street-name field. */
  lemma StreetNameIsWanted(v: Value, taken: set<string>)
    requires "streetname" !in taken
    ensures Wanted(StreetName(taken), Field("STREET_NAME", v), {}) <==> !IsBlank(v)
  {
    hide HasSub, HasAny, Mailing, IsBlank, Norm;
    StreetNameName();
    StreetNameParts();
  }

  lemma StreetLike(t: string, i: nat, j: nat)
    requires i < |t| && j < |t| && IsAlpha(t[i]) && IsDigit(t[j])
    ensures HasStreet(Str(t))
  {
    assert t[i] in t && t[j] in t;
  }

  // ------------------------------------------------------------ records in capitals

  lemma ThreeWords(a: string, b: string, c: string)
    requires IsWord(a) && IsWord(b) && IsWord(c)
    ensures var t := a + " " + b + " " + c; Words(t) == [a, b, c] && Join(Words(t)) == t
  {
    var ws := [a, b, c];
    WordsOfJoin(ws);
    hide Words, IsWord;
    assert ws[1..] == [b, c] && [b, c][1..] == [c];
    assert Join([c]) == c && Join([b, c]) == b + " " + Join([c]) && Join(ws) == a + " " + Join([b, c]);
    assert a + " " + (b + " " + c) == a + " " + b + " " + c;
  }

  lemma ElmLine()
    ensures HasStreet(Str("7 ELM ST")) && Join(Words("7 ELM ST")) == "7 ELM ST"
  {
    var t := "7 ELM ST";
    assert t == "7" + " " + "ELM" + " " + "ST" && IsWord("7") && IsWord("ELM") && IsWord("ST");
    assert IsAlpha(t[2]) && IsDigit(t[0]);
    hide *;
    ThreeWords("7", "ELM", "ST");
    StreetLike(t, 2, 0);
  }

  lemma NothingExcluded()
    ensures ExcludeSet([]) == {}
  {}

  lemma SitusAddrExample()
    ensures SitusOf([Field("SITUS_ADDR", Str("7 ELM ST"))], [], false) == "7 ELM ST"
  {
    var f := Field("SITUS_ADDR", Str("7 ELM ST"));
    NothingExcluded();
    hide HasStreet, Words, Join, SitusOf, Wanted, ExcludeSet;
    ElmLine();
    SitusAddrIsWanted(Str("7 ELM ST"));
    SitusFromFull([f], [], 0);
  }

  lemma PhyAddrExample()
    ensures SitusOf([Field("PHY_ADDR", Str("7 ELM ST"))], [], false) == "7 ELM ST"
  {
    var f := Field("PHY_ADDR", Str("7 ELM ST"));
    NothingExcluded();
    AliasOrder();
    hide HasStreet, Words, Join, SitusOf, Wanted, ExcludeSet, ALIASES;
    ElmLine();
    PhyAddrIsWanted(Str("7 ELM ST"));
    SitusFromAlias([f], [], 5, 0);
  }

  lemma OtherParts(f: Field, g: Field)
    requires Norm(f.name) == "houseno" && Norm(g.name) == "streetname"
    ensures NoneWanted([f, g], Part(PREDIR, {"houseno"}), {})
    ensures !Wanted(StreetName({"houseno"}), f, {})
    ensures NoneWanted([f, g], Part(SUFTYPE, {"houseno", "streetname"}), {})
    ensures NoneWanted([f, g], Part(SUFDIR, {"houseno", "streetname"}), {})
  {
    StreetNameLetters();
    hide HasSub, IsBlank, Norm, Mailing;
    MissingLetter("streetname", "predir", 3);
    MissingLetter("streetname", "prefixdir", 4);
    MissingLetter("streetname", "streetdir", 7);
    MissingLetter("streetname", "stdir", 3);
    MissingLetter("streetname", "direction1", 1);
    MissingLetter("streetname", "situsdir", 1);
    assert !HasAny("streetname", PREDIR);
  }

  /** What the searches find in a record of a number field and a name field. */
  lemma PartsFound(f: Field, g: Field)
    ensures Norm(f.name) == "houseno" && Norm(g.name) == "streetname"
            && Wanted(Part(NUMBER, {}), f, {}) && Wanted(StreetName({"houseno"}), g, {}) ==>
      ChooseParts([f, g], {}) == Parts(Some(f), None, Some(g), None, None)
  {
    if !(Norm(f.name) == "houseno" && Norm(g.name) == "streetname"
         && Wanted(Part(NUMBER, {}), f, {}) && Wanted(StreetName({"houseno"}), g, {})) {
      return;
    }
    OtherParts(f, g);
    hide Wanted, Norm, First, NoneWanted, NUMBER, PREDIR, SUFTYPE, SUFDIR;
    var attrs := [f, g];
    var number, both := {"houseno"}, {"houseno", "streetname"};
    FirstIsFirst(attrs, Part(NUMBER, {}), {}, 0);
    NoneFound(attrs, Part(PREDIR, number), {});
    FirstIsFirst(attrs, StreetName(number), {}, 1);
    NoneFound(attrs, Part(SUFTYPE, both), {});
    NoneFound(attrs, Part(SUFDIR, both), {});
    assert number + {} == number && number + {"streetname"} == both && both + {} == both;
  }

  lemma NumberAndName(num: string, name: string)
    ensures name != "" ==> num + After("") + After(name) + After("") + After("") == num + " " + name
  {
    assert num + "" == num;
    assert num + (" " + name) == num + " " + name;
  }

  lemma NoPart()
    ensures PartText(None) == ""
  {}

  lemma TwoParts(attrs: Attrs, f: Field, g: Field)
    ensures ChooseParts(attrs, ExcludeSet([])) == Parts(Some(f), None, Some(g), None, None)
            && DropPointZero(PartText(Some(f))) != "" && PartText(Some(g)) != "" ==>
      SitusOf(attrs, [], true) == DropPointZero(PartText(Some(f))) + " " + PartText(Some(g))
  {
    hide *;
    NoPart();
    NumberAndName(DropPointZero(PartText(Some(f))), PartText(Some(g)));
    SitusFromParts(attrs, [], true);
  }

  /** House and street in fields of their own, named in capitals: the number comes first, both without
      the blanks around them, and a decimal number without its ".0". */
  lemma PartsExample(v: Value, w: Value)
    requires !IsBlank(v) && !IsBlank(w) && DropPointZero(Strip(Render(v))) != ""
    ensures SitusOf([Field("HOUSE_NO", v), Field("STREET_NAME", w)], [], true) ==
      DropPointZero(Strip(Render(v))) + " " + Strip(Render(w))
  {
    var f, g := Field("HOUSE_NO", v), Field("STREET_NAME", w);
    NothingExcluded();
    NotBlank(w);
    assert PartText(Some(f)) == Strip(Render(v)) && PartText(Some(g)) == Strip(Render(w));
    hide *;
    HouseNoName();
    StreetNameName();
    HouseNoIsWanted(v);
    StreetNameIsWanted(w, {"houseno"});
    PartsFound(f, g);
    TwoParts([f, g], f, g);
  }

  lemma NotBlank(v: Value)
    requires !IsBlank(v)
    ensures Strip(Render(v)) != ""
  {
    hide Strip;
  }

  /** A layer that stores the house number as 2407.0. */
  lemma DecimalHouse(d: string, name: string)
    requires AllDigits(d) && IsWord(name) && Upper(name) !in {"NULL", "NONE", "N/A", "<NULL>"}
    ensures SitusOf([Field("HOUSE_NO", Num(d + ".0", false)), Field("STREET_NAME", Str(name))], [], true) == d + " " + name
  {
    var t := d + ".0";
    assert t[0] == d[0] && t[|t| - 1] == '0';
    assert Strip(t) == t && Strip(name) == name;
    PointZero(d);
    BlankText(name);
    assert Upper(t)[0] == d[0] && |Upper(t)| == |t|;
    assert !IsBlank(Num(t, false));
    hide IsBlank, Strip, DropPointZero, SitusOf, Upper;
    PartsExample(Num(t, false), Str(name));
  }
}
