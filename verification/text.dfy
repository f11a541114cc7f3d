/** The string operations the address code uses, on ASCII text. */
module Text {

  predicate IsDigit(c: char) { '0' <= c <= '9' }

  predicate IsAlpha(c: char) { 'a' <= c <= 'z' || 'A' <= c <= 'Z' }

  /** str.isspace on ASCII: tab to carriage return, the four separators, and the blank. */
  predicate IsSpace(c: char) { 9 <= c as int <= 13 || 28 <= c as int <= 32 }

  function UpperChar(c: char): char {
    if 'a' <= c <= 'z' then (c as int - 32) as char else c
  }

  function LowerChar(c: char): char {
    if 'A' <= c <= 'Z' then (c as int + 32) as char else c
  }

  function Upper(s: string): string {
    seq(|s|, i requires 0 <= i < |s| => UpperChar(s[i]))
  }

  /** sub in s */
  predicate HasSub(s: string, sub: string) {
    (|sub| <= |s| && s[..|sub|] == sub) || (s != "" && HasSub(s[1..], sub))
  }

  lemma {:induction false} SubChars(s: string, sub: string)
    ensures HasSub(s, sub) ==> forall c :: c in sub ==> c in s
  {
    if s != "" {
      assert s == [s[0]] + s[1..];
      SubChars(s[1..], sub);
    }
    assert |sub| <= |s| && s[..|sub|] == sub ==> s == sub + s[|sub|..];
  }

  lemma {:induction false} SubAt(a: string, sub: string, b: string)
    ensures HasSub(a + sub + b, sub)
  {
    var s := a + sub + b;
    if a == "" {
      assert s[..|sub|] == sub;
    } else {
      assert s[1..] == a[1..] + sub + b;
      SubAt(a[1..], sub, b);
    }
  }

  predicate SliceAt(s: string, sub: string, i: nat) {
    i + |sub| <= |s| && s[i..i + |sub|] == sub
  }

  /** One text is in another exactly if it is a slice of it. */
  lemma SubMeaning(s: string, sub: string)
    ensures HasSub(s, sub) <==> exists i: nat :: SliceAt(s, sub, i)
  {
    if HasSub(s, sub) { var i := SubPlace(s, sub); }
    if i: nat :| SliceAt(s, sub, i) {
      hide HasSub;
      SubAt(s[..i], sub, s[i + |sub|..]);
      assert s == s[..i] + sub + s[i + |sub|..];
    }
  }

  lemma {:induction false} SubPlace(s: string, sub: string) returns (i: nat)
    requires HasSub(s, sub)
    ensures SliceAt(s, sub, i)
  {
    i := 0;
    if !(|sub| <= |s| && s[..|sub|] == sub) {
      var j := SubPlace(s[1..], sub);
      i := j + 1;
      assert s[1..][j..j + |sub|] == s[i..i + |sub|];
    }
  }

  // ------------------------------------------------------------ strip and split

  function StripLeft(s: string): string {
    if s == "" || !IsSpace(s[0]) then s else StripLeft(s[1..])
  }

  function StripRight(s: string): (r: string)
    ensures |r| <= |s| && s[..|r|] == r
  {
    if s == "" || !IsSpace(s[|s| - 1]) then s else StripRight(s[..|s| - 1])
  }

  function Strip(s: string): string {
    StripRight(StripLeft(s))
  }

  function WordEnd(s: string): (k: nat)
    ensures k <= |s| && (forall i :: 0 <= i < k ==> !IsSpace(s[i]))
    ensures k < |s| ==> IsSpace(s[k])
  {
    if s == "" || IsSpace(s[0]) then 0 else 1 + WordEnd(s[1..])
  }

  predicate IsWord(w: string) {
    w != "" && forall i :: 0 <= i < |w| ==> !IsSpace(w[i])
  }

  /** str.split() */
  function Words(s: string): (ws: seq<string>)
    ensures forall w :: w in ws ==> IsWord(w)
  {
    if s == "" then []
    else if IsSpace(s[0]) then Words(s[1..])
    else
      var k := WordEnd(s);
      assert IsWord(s[..k]);
      [s[..k]] + Words(s[k..])
  }

  function Join(ws: seq<string>): string {
    if ws == [] then "" else if |ws| == 1 then ws[0] else ws[0] + " " + Join(ws[1..])
  }

  /** s.split(",")[0] */
  function BeforeComma(s: string): string {
    if s == "" || s[0] == ',' then "" else [s[0]] + BeforeComma(s[1..])
  }

  lemma {:induction false} CommaEnds(a: string, x: string)
    ensures BeforeComma(a + "," + x) == BeforeComma(a)
  {
    if a != "" && a[0] != ',' {
      assert (a + "," + x)[1..] == a[1..] + "," + x;
      CommaEnds(a[1..], x);
    }
  }

  // ------------------------------------------------------------ digit runs at the two ends

  function LeadRun(s: string): string {
    if s == "" || !IsDigit(s[0]) then "" else [s[0]] + LeadRun(s[1..])
  }

  function TailRun(s: string): string {
    if s == "" || !IsDigit(s[|s| - 1]) then "" else TailRun(s[..|s| - 1]) + [s[|s| - 1]]
  }

  predicate AllDigits(t: string) {
    t != "" && forall i :: 0 <= i < |t| ==> IsDigit(t[i])
  }

  lemma {:induction false} RunsOfNumber(d: string)
    requires forall i :: 0 <= i < |d| ==> IsDigit(d[i])
    ensures LeadRun(d) == d && TailRun(d) == d
  {
    if d != "" {
      RunsOfNumber(d[1..]);
      RunsOfNumber(d[..|d| - 1]);
    }
  }

  lemma {:induction false} TailAfter(p: string, t: string)
    requires p != "" && !IsDigit(p[|p| - 1])
    ensures TailRun(p + t) == TailRun(t)
  {
    if t == "" {
      assert p + t == p;
    } else {
      assert (p + t)[..|p + t| - 1] == p + t[..|t| - 1];
      TailAfter(p, t[..|t| - 1]);
    }
  }

  predicate AllSpaces(s: string) {
    forall i :: 0 <= i < |s| ==> IsSpace(s[i])
  }

  lemma {:induction false} StripRightOfSum(p: string, r: string)
    ensures StripRight(p + r) == if AllSpaces(r) then StripRight(p) else p + StripRight(r)
  {
    if r == "" {
      assert p + r == p;
    } else {
      assert (p + r)[..|p + r| - 1] == p + r[..|r| - 1];
      if IsSpace(r[|r| - 1]) { StripRightOfSum(p, r[..|r| - 1]); }
    }
  }

  lemma SpacesCons(s: string)
    requires s != ""
    ensures AllSpaces(s) <==> IsSpace(s[0]) && AllSpaces(s[1..])
  {
    hide IsSpace;
    if IsSpace(s[0]) && AllSpaces(s[1..]) {
      assert forall i :: 0 < i < |s| ==> s[i] == s[1..][i - 1];
    }
    if AllSpaces(s) {
      assert forall i :: 0 <= i < |s| - 1 ==> s[1..][i] == s[i + 1];
    }
  }

  lemma {:induction false} StripRightOfSpaces(s: string)
    requires AllSpaces(s)
    ensures StripRight(s) == ""
    decreases |s|
  {
    hide IsSpace;
    if s != "" { StripRightOfSpaces(s[..|s| - 1]); }
  }

  lemma {:induction false} NoWordsAllSpaces(s: string)
    ensures Words(s) == [] <==> AllSpaces(s)
    ensures AllSpaces(s) ==> StripLeft(s) == "" && StripRight(s) == ""
    decreases |s|
  {
    hide IsSpace, AllSpaces, StripRight;
    if AllSpaces(s) { StripRightOfSpaces(s); }
    if s == "" {
      NoSpaceAtAll();
    } else {
      SpacesCons(s);
      if IsSpace(s[0]) { NoWordsAllSpaces(s[1..]); }
    }
  }

  lemma NoSpaceAtAll()
    ensures AllSpaces("")
  {}

  /** Text in front of a word boundary does not show at the stripped end. */
  lemma TailPastBoundary(p: string, rest: string)
    requires rest != "" && IsSpace(rest[0]) && !AllSpaces(rest)
    ensures TailRun(StripRight(p + rest)) == TailRun(StripRight(rest))
  {
    var sp, more := [rest[0]], rest[1..];
    assert rest == sp + more;
    StripRightOfSum(sp, more);
    StripRightOfSum(p, rest);
    assert p + (sp + StripRight(more)) == (p + sp) + StripRight(more);
    TailAfter(p + sp, StripRight(more));
    TailAfter(sp, StripRight(more));
  }

  /** The digits that end the stripped text end its last word. */
  lemma {:induction false} TailByWords(s: string)
    ensures TailRun(StripRight(s)) == if Words(s) == [] then "" else TailRun(Words(s)[|Words(s)| - 1])
    decreases |s|
  {
    NoWordsAllSpaces(s);
    if s == "" {
    } else if IsSpace(s[0]) {
      TailByWords(s[1..]);
      NoWordsAllSpaces(s[1..]);
      TailSkipsSpace(s);
    } else {
      var k := WordEnd(s);
      var w, rest := s[..k], s[k..];
      assert s == w + rest && Words(s) == [w] + Words(rest);
      assert StripRight(w) == w;
      TailByWords(rest);
      NoWordsAllSpaces(rest);
      hide TailRun, StripRight, Words, AllSpaces;
      StripRightOfSum(w, rest);
      if !AllSpaces(rest) { TailPastBoundary(w, rest); }
    }
  }

  lemma TailSkipsSpace(s: string)
    requires s != "" && IsSpace(s[0])
    ensures TailRun(StripRight(s)) == TailRun(StripRight(s[1..]))
  {
    assert s == [s[0]] + s[1..];
    NoWordsAllSpaces(s[1..]);
    StripRightOfSum([s[0]], s[1..]);
    if !AllSpaces(s[1..]) { TailAfter([s[0]], StripRight(s[1..])); }
  }

  lemma {:induction false} LeadOfPrefix(s: string, n: nat)
    requires n <= |s| && (n < |s| ==> !IsDigit(s[n]))
    ensures LeadRun(s[..n]) == LeadRun(s)
  {
    if n > 0 && IsDigit(s[0]) {
      assert s[..n][1..] == s[1..][..n - 1];
      LeadOfPrefix(s[1..], n - 1);
    } else if n > 0 {
    } else {
      assert s[..0] == "";
    }
  }

  /** The digits that start the stripped text start its first word. */
  lemma {:induction false} LeadByWords(s: string)
    ensures LeadRun(StripLeft(s)) == if Words(s) == [] then "" else LeadRun(Words(s)[0])
  {
    if s != "" {
      if IsSpace(s[0]) { LeadByWords(s[1..]); } else { LeadOfPrefix(s, WordEnd(s)); }
    }
  }

  lemma {:induction false} StripLeftKeepsWords(s: string)
    ensures Words(StripLeft(s)) == Words(s)
  {
    if s != "" && IsSpace(s[0]) { StripLeftKeepsWords(s[1..]); }
  }

  lemma {:induction false} WordsDropTrailingSpace(s: string, c: char)
    requires IsSpace(c)
    ensures Words(s + [c]) == Words(s)
    decreases |s|
  {
    if s == "" {
      assert Words([c]) == Words([c][1..]);
    } else if IsSpace(s[0]) {
      assert (s + [c])[1..] == s[1..] + [c];
      WordsDropTrailingSpace(s[1..], c);
    } else {
      var k := WordEnd(s);
      WordEndStays(s, c);
      assert (s + [c])[..k] == s[..k];
      assert (s + [c])[k..] == s[k..] + [c];
      WordsDropTrailingSpace(s[k..], c);
    }
  }

  lemma {:induction false} WordEndStays(s: string, c: char)
    requires IsSpace(c)
    ensures WordEnd(s + [c]) == WordEnd(s)
  {
    if s != "" && !IsSpace(s[0]) {
      assert (s + [c])[1..] == s[1..] + [c];
      WordEndStays(s[1..], c);
    }
  }

  lemma {:induction false} StripRightKeepsWords(s: string)
    ensures Words(StripRight(s)) == Words(s)
  {
    if s != "" && IsSpace(s[|s| - 1]) {
      assert s == s[..|s| - 1] + [s[|s| - 1]];
      WordsDropTrailingSpace(s[..|s| - 1], s[|s| - 1]);
      StripRightKeepsWords(s[..|s| - 1]);
    }
  }

  /** Stripping loses no word, and the digit runs at its two ends are those of the end words. */
  lemma StripSeenByWords(s: string)
    ensures Words(Strip(s)) == Words(s)
    ensures var ws := Words(s);
      && LeadRun(Strip(s)) == (if ws == [] then "" else LeadRun(ws[0]))
      && TailRun(Strip(s)) == (if ws == [] then "" else TailRun(ws[|ws| - 1]))
  {
    var left := StripLeft(s);
    StripLeftKeepsWords(s);
    StripRightKeepsWords(left);
    LeadByWords(Strip(s));
    TailByWords(left);
    NoWordsAllSpaces(left);
    StripLeftNoSpace(left, s);
  }

  lemma {:induction false} StripLeftNoSpace(left: string, s: string)
    requires left == StripLeft(s)
    ensures StripLeft(StripRight(left)) == StripRight(left)
  {
    if s != "" && IsSpace(s[0]) {
      StripLeftNoSpace(left, s[1..]);
    } else if left != "" {
      assert left == [left[0]] + left[1..];
      StripRightOfSum([left[0]], left[1..]);
    }
  }

  lemma {:induction false} WordEndOf(w: string, r: string)
    requires forall i :: 0 <= i < |w| ==> !IsSpace(w[i])
    requires r == "" || IsSpace(r[0])
    ensures WordEnd(w + r) == |w|
  {
    if w == "" {
      assert w + r == r;
    } else {
      assert (w + r)[1..] == w[1..] + r;
      WordEndOf(w[1..], r);
    }
  }

  /** Words joined by single blanks split back into themselves. */
  lemma {:induction false} WordsOfJoin(ws: seq<string>)
    requires forall i :: 0 <= i < |ws| ==> IsWord(ws[i])
    ensures Words(Join(ws)) == ws
  {
    if ws != [] {
      var r := if |ws| == 1 then "" else " " + Join(ws[1..]);
      var s := ws[0] + r;
      assert s == Join(ws);
      WordEndOf(ws[0], r);
      assert s[..|ws[0]|] == ws[0] && s[|ws[0]|..] == r;
      assert Words(s) == [ws[0]] + Words(r);
      if |ws| > 1 {
        assert r[1..] == Join(ws[1..]);
        WordsOfJoin(ws[1..]);
      }
    }
  }

  // ------------------------------------------------------------ words, declaratively

  /** w stands in s from i to j, between blanks or the ends. */
  predicate WordAt(s: string, w: string, i: nat, j: nat) {
    && i < j <= |s| && s[i..j] == w && IsWord(w)
    && (i == 0 || IsSpace(s[i - 1])) && (j == |s| || IsSpace(s[j]))
  }

  /** Behind a blank, or behind a whole word, the same words stand, further on. */
  lemma WordBehind(s: string, k: nat, w: string, i: nat, j: nat)
    requires 0 < k <= |s| && (IsSpace(s[k - 1]) || k == |s| || IsSpace(s[k]))
    ensures WordAt(s[k..], w, i, j) ==> WordAt(s, w, i + k, j + k)
    ensures WordAt(s, w, i + k, j + k) ==> WordAt(s[k..], w, i, j)
  {
    var t := s[k..];
    if j <= |t| && i < j {
      assert t[i..j] == s[i + k..j + k];
      assert t[i] == t[i..j][0];
    }
  }

  lemma WordsOfHead(s: string)
    requires s != "" && !IsSpace(s[0])
    ensures var k := WordEnd(s);
      && k > 0 && WordAt(s, s[..k], 0, k) && Words(s) == [s[..k]] + Words(s[k..])
      && (k == |s| || IsSpace(s[k])) && forall i :: 0 <= i < k ==> !IsSpace(s[i])
  {
    assert s[0..WordEnd(s)] == s[..WordEnd(s)];
  }

  lemma WordsOfBlank(s: string)
    requires s != "" && IsSpace(s[0])
    ensures Words(s) == Words(s[1..])
  {}

  lemma NoWordsInNothing(s: string)
    requires Words(s) != []
    ensures s != ""
  {}

  /** Every word found stands there. */
  lemma {:induction false} WordsStand(s: string, n: nat) returns (i: nat, j: nat)
    requires n < |Words(s)|
    ensures WordAt(s, Words(s)[n], i, j)
    decreases |s|
  {
    hide *;
    NoWordsInNothing(s);
    if IsSpace(s[0]) {
      WordsOfBlank(s);
      i, j := WordsStand(s[1..], n);
      WordBehind(s, 1, Words(s)[n], i, j);
      i, j := i + 1, j + 1;
    } else {
      WordsOfHead(s);
      var k := WordEnd(s);
      if n == 0 {
        i, j := 0, k;
      } else {
        i, j := WordsStand(s[k..], n - 1);
        assert Words(s)[n] == Words(s[k..])[n - 1];
        WordBehind(s, k, Words(s)[n], i, j);
        i, j := i + k, j + k;
      }
    }
  }

  lemma StandsWhere(s: string, w: string, i: nat, j: nat)
    requires WordAt(s, w, i, j)
    ensures i < j && s != "" && (IsSpace(s[0]) ==> i > 0)
    ensures !IsSpace(s[0]) && i > 0 ==> i > WordEnd(s)
  {
    assert s[i] == s[i..j][0];
  }

  /** Every word that stands there is found. */
  lemma {:induction false} StandingIsFound(s: string, w: string, i: nat, j: nat)
    requires WordAt(s, w, i, j)
    ensures w in Words(s)
    decreases |s|
  {
    hide *;
    StandsWhere(s, w, i, j);
    if IsSpace(s[0]) {
      WordsOfBlank(s);
      WordBehind(s, 1, w, i - 1, j - 1);
      StandingIsFound(s[1..], w, i - 1, j - 1);
    } else {
      WordsOfHead(s);
      var k := WordEnd(s);
      if i == 0 {
        SameEnd(s, w, j);
        assert w == Words(s)[0];
      } else {
        WordBehind(s, k, w, i - k, j - k);
        StandingIsFound(s[k..], w, i - k, j - k);
      }
    }
  }

  lemma SameEnd(s: string, w: string, j: nat)
    requires WordAt(s, w, 0, j)
    ensures WordEnd(s) == j && w == s[..j]
  {
    assert s == w + s[j..] && |w| == j;
    WordEndOf(w, s[j..]);
  }

  /** str.split finds exactly the runs between blanks. */
  lemma WordsMeaning(s: string, w: string)
    ensures w in Words(s) <==> exists i: nat, j: nat :: WordAt(s, w, i, j)
  {
    if w in Words(s) {
      var n :| 0 <= n < |Words(s)| && Words(s)[n] == w;
      var i, j := WordsStand(s, n);
    }
    if i: nat, j: nat :| WordAt(s, w, i, j) { StandingIsFound(s, w, i, j); }
  }

  /** The blanks of str.isspace within ASCII, and the letters that upper and lower relate. */
  lemma AsciiFacts(c: char)
    ensures IsSpace(c) <==> c in {'\t', '\n', '\U{0b}', '\U{0c}', '\r', '\U{1c}', '\U{1d}', '\U{1e}', '\U{1f}', ' '}
    ensures UpperChar(c) != c <==> 'a' <= c <= 'z'
    ensures LowerChar(c) != c <==> 'A' <= c <= 'Z'
    ensures 'a' <= c <= 'z' ==> LowerChar(UpperChar(c)) == c && 'A' <= UpperChar(c) <= 'Z'
    ensures UpperChar('a') == 'A' && UpperChar('z') == 'Z' && LowerChar('A') == 'a' && LowerChar('Z') == 'z'
  {}
}
