/** The join of a parcel record with related tables, and what it can do to the situs. */
module Joins {
  import opened Catalog
  import opened Situs

  /** One related table: the row it answers for a record, if its key is set and the query finds one. */
  type Table = Attrs -> Option<Attrs>

  predicate Bare(v: Value) {
    v.Null? || (v.Str? && (v.text == "" || v.text == " "))
  }

  /** attrs[k] = v, unless the record already has something there. */
  function FillOne(attrs: Attrs, f: Field): Attrs {
    if attrs == [] then [f]
    else if attrs[0].name == f.name then (if Bare(attrs[0].value) then [f] + attrs[1..] else attrs)
    else [attrs[0]] + FillOne(attrs[1..], f)
  }

  function Fill(attrs: Attrs, row: Attrs): Attrs
    decreases row
  {
    if row == [] then attrs else Fill(FillOne(attrs, row[0]), row[1..])
  }

  /** parcel._enrich_one */
  function Join(attrs: Attrs, t: Table): Attrs {
    var row := t(attrs);
    if row.Some? then Fill(attrs, row.value) else attrs
  }

  /** parcel._enrich_related: each table in turn. */
  function Enrich(attrs: Attrs, tables: seq<Table>): Attrs
    decreases tables
  {
    if tables == [] then attrs else Enrich(Join(attrs, tables[0]), tables[1..])
  }

  method EnrichRelated(attrs: Attrs, tables: seq<Table>) returns (r: Attrs)
    ensures r == Enrich(attrs, tables)
  {
    r := attrs;
    for i := 0 to |tables|
      invariant Enrich(r, tables[i..]) == Enrich(attrs, tables)
    {
      assert tables[i..][1..] == tables[i + 1..];
      var row := tables[i](r);
      if row.Some? {
        ghost var before := r;
        for j := 0 to |row.value|
          invariant Fill(r, row.value[j..]) == Fill(before, row.value)
        {
          assert row.value[j..][1..] == row.value[j + 1..];
          r := FillOne(r, row.value[j]);
        }
      }
    }
  }

  /** b is a with blanks filled in and fields added behind. */
  predicate Extends(b: Attrs, a: Attrs) {
    && |a| <= |b|
    && forall i :: 0 <= i < |a| ==> b[i].name == a[i].name && (Bare(a[i].value) || b[i] == a[i])
  }

  lemma {:induction false} FillOneExtends(attrs: Attrs, f: Field)
    ensures Extends(FillOne(attrs, f), attrs)
  {
    if attrs != [] { FillOneExtends(attrs[1..], f); }
  }

  lemma {:induction false} FillExtends(attrs: Attrs, row: Attrs)
    ensures Extends(Fill(attrs, row), attrs)
    decreases row
  {
    if row != [] {
      FillOneExtends(attrs, row[0]);
      FillExtends(FillOne(attrs, row[0]), row[1..]);
    }
  }

  /** However many tables are joined, whatever they answer: no value the parcel layer gave is lost or
      moved; a join only fills blanks and adds fields. */
  lemma {:induction false} EnrichExtends(attrs: Attrs, tables: seq<Table>)
    ensures Extends(Enrich(attrs, tables), attrs)
    decreases tables
  {
    if tables != [] {
      var row := tables[0](attrs);
      if row.Some? { FillExtends(attrs, row.value); }
      EnrichExtends(Join(attrs, tables[0]), tables[1..]);
    }
  }

  // ------------------------------------------------------------ what one row adds

  predicate Named(attrs: Attrs, name: string) {
    exists i :: 0 <= i < |attrs| && attrs[i].name == name
  }

  /** Keys of a dict. */
  predicate DistinctNames(attrs: Attrs) {
    forall i, j :: 0 <= i < j < |attrs| ==> attrs[i].name != attrs[j].name
  }

  /** The fields of the row whose names the record lacks, in the row's order. */
  function Unnamed(attrs: Attrs, row: Attrs): Attrs {
    if row == [] then []
    else (if Named(attrs, row[0].name) then [] else [row[0]]) + Unnamed(attrs, row[1..])
  }

  lemma {:induction false} FillOneAt(attrs: Attrs, f: Field, at: nat)
    requires at < |attrs| && attrs[at].name == f.name && forall j :: 0 <= j < at ==> attrs[j].name != f.name
    ensures FillOne(attrs, f) == if Bare(attrs[at].value) then attrs[at := f] else attrs
    decreases at
  {
    hide Bare;
    if at == 0 {
      assert [f] + attrs[1..] == attrs[0 := f];
    } else {
      var x, rest := attrs[0], attrs[1..];
      assert x.name != f.name && forall j :: 0 <= j < at - 1 ==> rest[j] == attrs[j + 1];
      FillOneAt(rest, f, at - 1);
      assert attrs == [x] + rest && attrs[at := f] == [x] + rest[at - 1 := f];
    }
  }

  lemma {:induction false} FillOneBehind(attrs: Attrs, f: Field)
    requires !Named(attrs, f.name)
    ensures FillOne(attrs, f) == attrs + [f]
  {
    if attrs != [] {
      assert attrs[0].name != f.name && forall i :: 0 <= i < |attrs| - 1 ==> attrs[1..][i] == attrs[i + 1];
      FillOneBehind(attrs[1..], f);
    }
  }

  lemma FillOneExactly(attrs: Attrs, f: Field)
    requires DistinctNames(attrs)
    ensures !Named(attrs, f.name) ==> FillOne(attrs, f) == attrs + [f]
    ensures forall i :: 0 <= i < |attrs| && attrs[i].name == f.name ==>
      FillOne(attrs, f) == if Bare(attrs[i].value) then attrs[i := f] else attrs
  {
    hide Bare, FillOne;
    if !Named(attrs, f.name) { FillOneBehind(attrs, f); }
    forall i | 0 <= i < |attrs| && attrs[i].name == f.name
      ensures FillOne(attrs, f) == if Bare(attrs[i].value) then attrs[i := f] else attrs
    {
      FillOneAt(attrs, f, i);
    }
  }

  lemma {:induction false} UnnamedAlike(a: Attrs, b: Attrs, row: Attrs)
    requires forall k :: 0 <= k < |row| ==> Named(a, row[k].name) == Named(b, row[k].name)
    ensures Unnamed(a, row) == Unnamed(b, row)
    decreases row
  {
    hide Named;
    if row != [] {
      forall k | 0 <= k < |row| - 1 ensures Named(a, row[1..][k].name) == Named(b, row[1..][k].name) {
        assert row[1..][k] == row[k + 1];
      }
      UnnamedAlike(a, b, row[1..]);
    }
  }

  lemma NamesAfterOne(attrs: Attrs, f: Field, name: string)
    requires DistinctNames(attrs)
    ensures DistinctNames(FillOne(attrs, f))
    ensures Named(FillOne(attrs, f), name) <==> Named(attrs, name) || name == f.name
  {
    hide Bare, FillOne;
    FillOneExactly(attrs, f);
    var r := FillOne(attrs, f);
    if Named(attrs, f.name) {
      var i :| 0 <= i < |attrs| && attrs[i].name == f.name;
      assert |r| == |attrs| && forall j :: 0 <= j < |attrs| ==> r[j].name == attrs[j].name;
      if Named(attrs, name) { var j :| 0 <= j < |attrs| && attrs[j].name == name; assert r[j].name == name; }
      if Named(r, name) { var j :| 0 <= j < |r| && r[j].name == name; assert attrs[j].name == name; }
    } else {
      assert r == attrs + [f] && r[|attrs|] == f;
      forall j | 0 <= j < |attrs| ensures attrs[j].name != f.name && r[j] == attrs[j] {}
      if Named(attrs, name) { var j :| 0 <= j < |attrs| && attrs[j].name == name; assert r[j].name == name; }
      if Named(r, name) { var j :| 0 <= j < |r| && r[j].name == name; assert j < |attrs| ==> attrs[j].name == name; }
    }
  }

  /** A blank x takes the row's field of its name; anything else stays. */
  predicate FilledAt(x: Field, row: Attrs, y: Field) {
    && (forall k :: 0 <= k < |row| && row[k].name == x.name ==> y == if Bare(x.value) then row[k] else x)
    && (!Named(row, x.name) ==> y == x)
  }

  predicate Filled(attrs: Attrs, row: Attrs, r: Attrs) {
    && |attrs| <= |r|
    && (forall i :: 0 <= i < |attrs| ==> FilledAt(attrs[i], row, r[i]))
    && r[|attrs|..] == Unnamed(attrs, row)
  }

  lemma TakesFirst(x: Field, row: Attrs, y: Field)
    requires row != [] && DistinctNames(row) && x.name == row[0].name
    requires FilledAt(if Bare(x.value) then row[0] else x, row[1..], y)
    ensures FilledAt(x, row, y)
  {
    hide Bare;
    RowNames(row);
    NamedAt(row, 0);
    hide Named;
    forall k | 0 <= k < |row| && row[k].name == x.name ensures y == if Bare(x.value) then row[k] else x {
      assert k == 0;
    }
  }

  lemma PassesFirst(x: Field, row: Attrs, y: Field)
    requires row != [] && DistinctNames(row) && x.name != row[0].name && FilledAt(x, row[1..], y)
    ensures FilledAt(x, row, y)
  {
    hide Bare;
    RowNames(row);
    hide Named;
    forall k | 0 <= k < |row| && row[k].name == x.name ensures y == if Bare(x.value) then row[k] else x {
      assert row[1..][k - 1] == row[k];
    }
  }

  lemma NamedAt(attrs: Attrs, i: nat)
    requires i < |attrs|
    ensures Named(attrs, attrs[i].name)
  {}

  lemma FilledOver(attrs: Attrs, at: nat, row: Attrs, r: Attrs)
    requires row != [] && DistinctNames(row) && DistinctNames(attrs) && at < |attrs| && attrs[at].name == row[0].name
    requires Filled(if Bare(attrs[at].value) then attrs[at := row[0]] else attrs, row[1..], r)
    requires Unnamed(attrs, row[1..]) == Unnamed(if Bare(attrs[at].value) then attrs[at := row[0]] else attrs, row[1..])
    ensures Filled(attrs, row, r)
  {
    NamedAt(attrs, at);
    hide Bare, Named, FilledAt;
    var next := if Bare(attrs[at].value) then attrs[at := row[0]] else attrs;
    assert |next| == |attrs|;
    forall i | 0 <= i < |attrs| ensures FilledAt(attrs[i], row, r[i]) {
      assert FilledAt(next[i], row[1..], r[i]);
      if i == at {
        TakesFirst(attrs[i], row, r[i]);
      } else {
        assert next[i] == attrs[i];
        PassesFirst(attrs[i], row, r[i]);
      }
    }
  }

  lemma FilledBehind(attrs: Attrs, row: Attrs, r: Attrs)
    requires row != [] && DistinctNames(row) && !Named(attrs, row[0].name)
    requires Filled(attrs + [row[0]], row[1..], r)
    requires Unnamed(attrs, row[1..]) == Unnamed(attrs + [row[0]], row[1..])
    ensures Filled(attrs, row, r)
  {
    var f, next := row[0], attrs + [row[0]];
    RowNames(row);
    forall i | 0 <= i < |attrs| ensures attrs[i].name != f.name { NamedAt(attrs, i); }
    assert FilledAt(next[|attrs|], row[1..], r[|attrs|]);
    assert r[|attrs|] == f;
    hide Bare, Named, FilledAt;
    assert r[|attrs|..] == [f] + r[|next|..];
    forall i | 0 <= i < |attrs| ensures FilledAt(attrs[i], row, r[i]) {
      assert FilledAt(next[i], row[1..], r[i]) && next[i] == attrs[i];
      PassesFirst(attrs[i], row, r[i]);
    }
  }

  /** One answered row, exactly: a blank takes the row's value of that name, every other field stays
      what and where it is, and the row's new names follow in the row's order. */
  lemma {:induction false} FillExactly(attrs: Attrs, row: Attrs)
    requires DistinctNames(attrs) && DistinctNames(row)
    ensures Filled(attrs, row, Fill(attrs, row))
    ensures forall v :: Bare(v) <==> v == Null || v == Str("") || v == Str(" ")
    decreases row
  {
    if row == [] {
      FilledByNothing(attrs);
    } else {
      var f, rest := row[0], row[1..];
      var next := FillOne(attrs, f);
      FillStep(attrs, row);
      RowNames(row);
      hide Bare, Fill, FillOne, Filled;
      forall k | 0 <= k < |rest| ensures Named(attrs, rest[k].name) == Named(next, rest[k].name) {
        NamesAfterOne(attrs, f, rest[k].name);
        NamedAt(rest, k);
      }
      NamesAfterOne(attrs, f, f.name);
      UnnamedAlike(attrs, next, rest);
      FillExactly(next, rest);
      FillOneExactly(attrs, f);
      if Named(attrs, f.name) {
        var at :| 0 <= at < |attrs| && attrs[at].name == f.name;
        FilledOver(attrs, at, row, Fill(attrs, row));
      } else {
        FilledBehind(attrs, row, Fill(attrs, row));
      }
    }
  }

  lemma FilledByNothing(attrs: Attrs)
    ensures Filled(attrs, [], Fill(attrs, []))
  {}

  /** The result is a dict again, so the next row is filled in the same way. */
  lemma {:induction false} FillKeepsNames(attrs: Attrs, row: Attrs)
    requires DistinctNames(attrs)
    ensures DistinctNames(Fill(attrs, row))
    decreases row
  {
    hide FillOne, DistinctNames;
    if row != [] {
      NamesAfterOne(attrs, row[0], "");
      FillKeepsNames(FillOne(attrs, row[0]), row[1..]);
    }
  }

  lemma FillStep(attrs: Attrs, row: Attrs)
    requires row != []
    ensures Fill(attrs, row) == Fill(FillOne(attrs, row[0]), row[1..])
  {}

  lemma RowNames(row: Attrs)
    requires row != [] && DistinctNames(row)
    ensures DistinctNames(row[1..]) && !Named(row[1..], row[0].name)
    ensures forall n :: Named(row, n) <==> n == row[0].name || Named(row[1..], n)
  {
    assert forall k :: 0 <= k < |row| - 1 ==> row[1..][k] == row[k + 1];
    forall n ensures Named(row, n) <==> n == row[0].name || Named(row[1..], n) {
      if Named(row, n) { var i :| 0 <= i < |row| && row[i].name == n; assert i > 0 ==> row[1..][i - 1].name == n; }
      if Named(row[1..], n) { var i :| 0 <= i < |row| - 1 && row[1..][i].name == n; assert row[i + 1].name == n; }
    }
  }

  // ------------------------------------------------------------ noninterference through the join

  lemma VisibleCons(x: Field, rest: Attrs, excl: set<string>)
    ensures Visible([x] + rest, excl) == if Hidden(x, excl) then Visible(rest, excl) else [x] + Visible(rest, excl)
  {
    hide Hidden;
    assert ([x] + rest)[1..] == rest;
  }

  lemma {:induction false} VisibleFillOne(attrs: Attrs, f: Field, excl: set<string>)
    ensures Visible(FillOne(attrs, f), excl) ==
      if Hidden(f, excl) then Visible(attrs, excl) else FillOne(Visible(attrs, excl), f)
  {
    hide Norm, Mailing;
    if attrs == [] {
      VisibleCons(f, [], excl);
      assert [f] + [] == [f];
    } else {
      var x, rest := attrs[0], attrs[1..];
      assert attrs == [x] + rest;
      assert x.name == f.name ==> Hidden(x, excl) == Hidden(f, excl);
      hide Hidden, Visible;
      VisibleCons(x, rest, excl);
      VisibleCons(f, rest, excl);
      VisibleCons(x, FillOne(rest, f), excl);
      VisibleFillOne(rest, f, excl);
      if !Hidden(x, excl) {
        assert ([x] + Visible(rest, excl))[1..] == Visible(rest, excl);
      }
    }
  }

  lemma {:induction false} VisibleFill(attrs: Attrs, row: Attrs, excl: set<string>)
    ensures Visible(Fill(attrs, row), excl) == Fill(Visible(attrs, excl), Visible(row, excl))
    decreases row
  {
    hide Hidden;
    if row != [] {
      assert row == [row[0]] + row[1..];
      VisibleCons(row[0], row[1..], excl);
      VisibleFillOne(attrs, row[0], excl);
      VisibleFill(FillOne(attrs, row[0]), row[1..], excl);
      var shown := Visible(row[1..], excl);
      if !Hidden(row[0], excl) { assert ([row[0]] + shown)[1..] == shown; }
    }
  }

  /** Rows joined one after the other. */
  function FillAll(attrs: Attrs, rows: seq<Attrs>): Attrs
    decreases rows
  {
    if rows == [] then attrs else FillAll(Fill(attrs, rows[0]), rows[1..])
  }

  /** Two pairs of record and joined rows that show the same visible fields. */
  predicate SameRows(rows: seq<Attrs>, rows': seq<Attrs>, excl: set<string>) {
    |rows| == |rows'| && forall i :: 0 <= i < |rows| ==> Visible(rows[i], excl) == Visible(rows'[i], excl)
  }

  lemma {:induction false} VisibleFillAll(a: Attrs, a': Attrs, rows: seq<Attrs>, rows': seq<Attrs>, excl: set<string>)
    requires Visible(a, excl) == Visible(a', excl) && SameRows(rows, rows', excl)
    ensures Visible(FillAll(a, rows), excl) == Visible(FillAll(a', rows'), excl)
    decreases rows
  {
    hide Visible, Fill;
    if rows != [] {
      assert Visible(rows[0], excl) == Visible(rows'[0], excl);
      VisibleFill(a, rows[0], excl);
      VisibleFill(a', rows'[0], excl);
      VisibleFillAll(Fill(a, rows[0]), Fill(a', rows'[0]), rows[1..], rows'[1..], excl);
    }
  }

  /** The rows that the tables answer, each for the record as joined so far. */
  function Answered(attrs: Attrs, tables: seq<Table>): seq<Attrs>
    decreases tables
  {
    if tables == [] then []
    else
      var row := tables[0](attrs);
      (if row.Some? then [row.value] else []) + Answered(Join(attrs, tables[0]), tables[1..])
  }

  /** The join depends on the tables through their answered rows only. */
  lemma {:induction false} EnrichIsFillAll(attrs: Attrs, tables: seq<Table>)
    ensures Enrich(attrs, tables) == FillAll(attrs, Answered(attrs, tables))
    decreases tables
  {
    hide Fill;
    if tables != [] {
      var row := tables[0](attrs);
      var rest := Answered(Join(attrs, tables[0]), tables[1..]);
      EnrichIsFillAll(Join(attrs, tables[0]), tables[1..]);
      if row.Some? {
        assert ([row.value] + rest)[1..] == rest;
      } else {
        assert [] + rest == rest;
      }
    }
  }

  /** Owner, mailing and excluded fields, of the parcel layer or of any row its tables answer, cannot
      influence the situs: two parcels that differ only in such fields, and whose answered rows do,
      have one situs after their joins. */
  lemma JoinedNoninterference(a: Attrs, a': Attrs, tables: seq<Table>, tables': seq<Table>, exclude: seq<string>, compose: bool)
    requires Visible(a, ExcludeSet(exclude)) == Visible(a', ExcludeSet(exclude))
    requires SameRows(Answered(a, tables), Answered(a', tables'), ExcludeSet(exclude))
    ensures SitusOf(Enrich(a, tables), exclude, compose) == SitusOf(Enrich(a', tables'), exclude, compose)
  {
    VisibleFillAll(a, a', Answered(a, tables), Answered(a', tables'), ExcludeSet(exclude));
    hide *;
    EnrichIsFillAll(a, tables);
    EnrichIsFillAll(a', tables');
    SitusNoninterference(Enrich(a, tables), Enrich(a', tables'), exclude, compose);
  }
}
