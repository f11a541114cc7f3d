/** Storage keys: where an artifact's blob goes, and why no two documents share a place. */
module BlobKeys {
  import opened Catalog
  import opened Text

  // ------------------------------------------------------------ PurePath(filename).suffix

  function Slashed(s: string): string {
    seq(|s|, i requires 0 <= i < |s| => if s[i] == '\\' then '/' else s[i])
  }

  function Split(s: string): (parts: seq<string>)
    ensures parts != []
  {
    if s == "" then [""]
    else
      var rest := Split(s[1..]);
      if s[0] == '/' then [""] + rest else [[s[0]] + rest[0]] + rest[1..]
  }

  /** The name of a path: its last component that is neither empty nor a dot. */
  function LastPart(parts: seq<string>): string {
    if parts == [] then ""
    else
      var last := parts[|parts| - 1];
      if last == "" || last == "." then LastPart(parts[..|parts| - 1]) else last
  }

  /** From the last point on, if it is neither the first nor the last character. */
  function SuffixFrom(name: string, i: nat): string
    requires i <= |name|
  {
    if i == 0 then ""
    else if name[i - 1] == '.' then (if 0 < i - 1 && i < |name| then name[i - 1..] else "")
    else SuffixFrom(name, i - 1)
  }

  function Suffix(filename: string): string {
    var name := LastPart(Split(Slashed(filename)));
    SuffixFrom(name, |name|)
  }

  /** Letters, digits and points only. */
  function Safe(s: string): string {
    if s == "" then "" else (if IsAlpha(s[0]) || IsDigit(s[0]) || s[0] == '.' then [s[0]] else "") + Safe(s[1..])
  }

  function Extension(filename: string): string {
    var suffix := Suffix(filename);
    Safe(if |suffix| <= 12 then suffix else suffix[..12])
  }

  // ------------------------------------------------------------ storage.build_key

  /** None where the code raises: an unassigned document id. */
  function BuildKey(org: string, order: string, document: string, filename: string): Option<string> {
    if document == "" || document == "None" then None
    else Some(org + "/" + order + "/" + document + Extension(filename))
  }

  /** The directory of a tenant; artifacts without one go to a shared directory. */
  function OrgOf(tenant: Option<string>): string {
    if tenant.Some? then tenant.value else "research"
  }

  lemma {:induction false} SuffixStartsWithPoint(name: string, i: nat)
    requires i <= |name|
    ensures SuffixFrom(name, i) == "" || SuffixFrom(name, i)[0] == '.'
  {
    if i > 0 { SuffixStartsWithPoint(name, i - 1); }
  }

  lemma {:induction false} SafeFacts(s: string)
    ensures '/' !in Safe(s)
    ensures s != "" && s[0] == '.' ==> Safe(s) != "" && Safe(s)[0] == '.'
  {
    if s != "" { SafeFacts(s[1..]); }
  }

  lemma ExtensionShape(filename: string)
    ensures '/' !in Extension(filename)
    ensures Extension(filename) == "" || Extension(filename)[0] == '.'
  {
    var name := LastPart(Split(Slashed(filename)));
    var suffix := Suffix(filename);
    SuffixStartsWithPoint(name, |name|);
    SafeFacts(if |suffix| <= 12 then suffix else suffix[..12]);
    hide *;
    assert Safe("") == "" by { SafeOfNothing(); }
  }

  lemma SafeOfNothing()
    ensures Safe("") == ""
  {}

  function FirstAt(s: string, c: char): nat {
    if s == "" || s[0] == c then 0 else 1 + FirstAt(s[1..], c)
  }

  lemma {:induction false} FirstAfter(a: string, c: char, rest: string)
    requires c !in a && (rest == "" || rest[0] == c)
    ensures FirstAt(a + rest, c) == |a|
  {
    if a == "" {
      assert a + rest == rest;
    } else {
      assert a == [a[0]] + a[1..] && (a + rest)[1..] == a[1..] + rest;
      FirstAfter(a[1..], c, rest);
    }
  }

  lemma CutAt(a: string, x: string, b: string, y: string, c: char)
    requires a + x == b + y && c !in a && c !in b
    requires (x == "" || x[0] == c) && (y == "" || y[0] == c)
    ensures a == b && x == y
  {
    FirstAfter(a, c, x);
    FirstAfter(b, c, y);
    assert a == (a + x)[..|a|] && b == (b + y)[..|b|];
    assert x == (a + x)[|a|..] && y == (b + y)[|b|..];
  }

  /** Jobs without a tenant share the prefix "research"; two tenants have one prefix only if one of them
      is missing and the other is called just that. */
  lemma OrgTellsTenant(t: Option<string>, u: Option<string>)
    ensures OrgOf(t) == OrgOf(u) <==> t == u || {t, u} == {None, Some("research")}
    ensures OrgOf(None) == "research" && (t.Some? ==> OrgOf(t) == t.value)
  {
    if {t, u} == {None, Some("research")} {
      assert t in {None, Some("research")} && u in {None, Some("research")};
    }
    if t.None? && u == Some("research") { assert {t, u} == {None, Some("research")}; }
    if u.None? && t == Some("research") { assert {t, u} == {None, Some("research")}; }
  }

  /** A key tells which document it belongs to, whatever the file names: tenant and order are ids
      without a slash, and the document's name has neither a slash nor a point. */
  lemma KeyTellsDocument(org: string, order: string, document: string, filename: string,
                         org': string, order': string, document': string, filename': string)
    requires '/' !in org && '/' !in org' && '/' !in order && '/' !in order'
    requires '/' !in document && '/' !in document' && '.' !in document && '.' !in document'
    requires BuildKey(org, order, document, filename).Some?
    requires BuildKey(org, order, document, filename) == BuildKey(org', order', document', filename')
    ensures org == org' && order == order' && document == document'
  {
    hide Extension;
    var e, e' := Extension(filename), Extension(filename');
    ExtensionShape(filename);
    ExtensionShape(filename');
    var x, x' := "/" + (document + e), "/" + (document' + e');
    assert org + "/" + order + "/" + document + e == org + ("/" + (order + x));
    assert org' + "/" + order' + "/" + document' + e' == org' + ("/" + (order' + x'));
    var y, y' := "/" + (order + x), "/" + (order' + x');
    CutAt(org, y, org', y', '/');
    assert order + x == y[1..] && order' + x' == y'[1..];
    CutAt(order, x, order', x', '/');
    assert document + e == x[1..] && document' + e' == x'[1..];
    CutAt(document, e, document', e', '.');
  }

  lemma NamesHaveNoSlash(d: DocType)
    ensures '/' !in Name(d)
  {
    match d
    case ParcelRecord => assert '/' !in "PARCEL_RECORD";
    case TaxRecord => assert '/' !in "PROPERTY_APPRAISER_TAX_RECORD";
    case RecordedPlat => assert '/' !in "RECORDED_PLAT_SUBDIVISION_MAP";
    case SubjectDeed => assert '/' !in "DEED_SUBJECT_PARCEL";
    case FloodZone => assert '/' !in "FEMA_FLOOD_ZONE_FIRM";
    case NgsControl => assert '/' !in "NGS_CONTROL";
  }

  lemma NamesHaveNoPoint(d: DocType)
    ensures '.' !in Name(d)
  {
    match d
    case ParcelRecord => assert '.' !in "PARCEL_RECORD";
    case TaxRecord => assert '.' !in "PROPERTY_APPRAISER_TAX_RECORD";
    case RecordedPlat => assert '.' !in "RECORDED_PLAT_SUBDIVISION_MAP";
    case SubjectDeed => assert '.' !in "DEED_SUBJECT_PARCEL";
    case FloodZone => assert '.' !in "FEMA_FLOOD_ZONE_FIRM";
    case NgsControl => assert '.' !in "NGS_CONTROL";
  }

  /** Document type names fit the key scheme. */
  lemma NamesAreClean(d: DocType)
    ensures '/' !in Name(d) && '.' !in Name(d) && Name(d) != "" && Name(d) != "None"
  {
    assert Name(d) != "" && Name(d) != "None";
    hide Name;
    NamesHaveNoSlash(d);
    NamesHaveNoPoint(d);
  }

  // ------------------------------------------------------------ the content type survives

  predicate Alphanumeric(s: string) {
    forall i :: 0 <= i < |s| ==> IsAlpha(s[i]) || IsDigit(s[i])
  }

  lemma {:induction false} SplitWhole(s: string)
    requires '/' !in s
    ensures Split(s) == [s]
  {
    if s != "" {
      assert s == [s[0]] + s[1..];
      SplitWhole(s[1..]);
    }
  }

  lemma {:induction false} SuffixOf(stem: string, ext: string, i: nat)
    requires stem != "" && ext != "" && Alphanumeric(ext) && |stem| < i <= |stem + "." + ext|
    ensures SuffixFrom(stem + "." + ext, i) == "." + ext
  {
    var name := stem + "." + ext;
    if i == |stem| + 1 {
      assert name[i - 1] == '.' && name[i - 1..] == "." + ext;
    } else {
      assert name[i - 1] == ext[i - 2 - |stem|];
      SuffixOf(stem, ext, i - 1);
    }
  }

  lemma {:induction false} SafeKeeps(s: string)
    requires forall i :: 0 <= i < |s| ==> IsAlpha(s[i]) || IsDigit(s[i]) || s[i] == '.'
    ensures Safe(s) == s
  {
    if s != "" { SafeKeeps(s[1..]); }
  }

  function UpTo(s: string, n: nat): string {
    if |s| <= n then s else s[..n]
  }

  /** An ordinary file name keeps the first eleven characters of its extension in the key, after
      anything but a slash. */
  lemma ExtensionSurvives(stem: string, ext: string)
    requires stem != "" && '/' !in stem && '\\' !in stem
    requires ext != "" && Alphanumeric(ext)
    ensures Extension(stem + "." + ext) == "." + UpTo(ext, 11)
  {
    hide Split, LastPart, SuffixFrom, Safe, Slashed;
    var name := stem + "." + ext;
    NameIsWhole(stem, ext);
    SuffixOf(stem, ext, |name|);
    var suffix := "." + UpTo(ext, 11);
    var whole := "." + ext;
    assert suffix == if |whole| <= 12 then whole else whole[..12];
    forall i | 0 <= i < |suffix| ensures IsAlpha(suffix[i]) || IsDigit(suffix[i]) || suffix[i] == '.' {
      if i > 0 { assert suffix[i] == ext[i - 1]; }
    }
    SafeKeeps(suffix);
  }

  lemma NameIsWhole(stem: string, ext: string)
    requires stem != "" && '/' !in stem && '\\' !in stem && ext != "" && Alphanumeric(ext)
    ensures LastPart(Split(Slashed(stem + "." + ext))) == stem + "." + ext
  {
    hide Split;
    var name := stem + "." + ext;
    forall i | 0 <= i < |name| ensures name[i] != '/' && name[i] != '\\' {
      if i < |stem| { assert name[i] == stem[i] && stem[i] in stem; }
      if i > |stem| { assert name[i] == ext[i - |stem| - 1]; }
    }
    assert Slashed(name) == name;
    SplitWhole(name);
    assert |name| >= 3;
  }

  /** The key of an ordinary file, spelled out; only an unassigned document id has none. */
  lemma KeyOfPlainFile(org: string, order: string, document: string, stem: string, ext: string)
    requires stem != "" && '/' !in stem && '\\' !in stem && ext != "" && |ext| <= 11 && Alphanumeric(ext)
    ensures BuildKey(org, order, document, stem + "." + ext) ==
      if document == "" || document == "None" then None
      else Some(org + "/" + order + "/" + document + "." + ext)
  {
    ExtensionSurvives(stem, ext);
    hide Extension;
    assert org + "/" + order + "/" + document + ("." + ext) == org + "/" + order + "/" + document + "." + ext;
  }

  lemma {:induction false} NoPointNoSuffix(name: string, i: nat)
    requires '.' !in name && i <= |name|
    ensures SuffixFrom(name, i) == ""
  {
    if i > 0 {
      assert name[i - 1] in name;
      NoPointNoSuffix(name, i - 1);
    }
  }

  lemma {:induction false} SplitLast(a: string, name: string)
    requires '/' !in name
    ensures var parts := Split(a + "/" + name); |parts| >= 2 && parts[|parts| - 1] == name
  {
    var s := a + "/" + name;
    if a == "" {
      assert s[1..] == name;
      SplitWhole(name);
    } else {
      assert s[1..] == a[1..] + "/" + name;
      SplitLast(a[1..], name);
    }
  }

  /** Directories in front of a file name, with either slash, do not show in the key. */
  lemma DirectoryIsDropped(dir: string, sep: char, name: string, org: string, order: string, document: string)
    requires sep == '/' || sep == '\\'
    requires name != "" && name != "." && '/' !in name && '\\' !in name
    ensures BuildKey(org, order, document, dir + [sep] + name) == BuildKey(org, order, document, name)
  {
    hide Split, SuffixFrom, Safe;
    SlashedSum(dir, sep, name);
    SplitLast(Slashed(dir), name);
    SplitWhole(name);
    assert LastPart([name]) == name;
  }

  lemma SlashedSum(dir: string, sep: char, name: string)
    requires (sep == '/' || sep == '\\') && '\\' !in name
    ensures Slashed(dir + [sep] + name) == Slashed(dir) + "/" + name && Slashed(name) == name
  {
    assert forall i :: 0 <= i < |name| ==> name[i] in name;
  }
}
