/** When two rows that the reader accepts are taken for one another: the identity joins the
    lower-cased fields on a bar, and a bar inside a field may be read as a separator. */
module PostalIdentity {
  import opened Basics
  import Csv
  import opened PostalDirectory

  // ---------------------------------------------------------------------------
  // Rows as they are read
  // ---------------------------------------------------------------------------

  /** No space at the end, and none at the start. */
  predicate EndsWell(s: string) {
    s == "" || !Csv.IsSpace(s[|s| - 1])
  }

  predicate StartsWell(s: string) {
    s == "" || !Csv.IsSpace(s[0])
  }

  predicate Proper(s: string) {
    s != "" && StartsWell(s) && EndsWell(s)
  }

  /** A PIN code and four trimmed names. */
  predicate Accepted(l: Locality) {
    ValidPin(l.postalCode) && Proper(l.localityName) && Proper(l.districtName) && Proper(l.cityName) && Proper(l.regionName)
  }

  lemma {:induction false} TrimmedEndsWell(s: string)
    ensures EndsWell(TrimEnd(s)) && (StartsWell(s) ==> StartsWell(TrimEnd(s)))
  {
    if s != "" && Csv.IsSpace(s[|s| - 1]) {
      TrimmedEndsWell(s[..|s| - 1]);
    }
  }

  lemma {:induction false} TrimmedStartsWell(s: string)
    ensures StartsWell(TrimStart(s))
  {
    if s != "" && Csv.IsSpace(s[0]) {
      TrimmedStartsWell(s[1..]);
    }
  }

  lemma CellsAreTrimmed(values: seq<string>, column: nat)
    ensures StartsWell(Cell(values, column)) && EndsWell(Cell(values, column))
  {
    if column < |values| {
      TrimmedStartsWell(values[column]);
      TrimmedEndsWell(TrimStart(values[column]));
    }
  }

  /** Every row that a directory is read into is accepted in this sense. */
  lemma ReadRowsAreAccepted(text: string, casing: Casing, minimum: nat)
    requires ReadDirectory(text, casing, minimum).Ok?
    ensures forall l <- ReadDirectory(text, casing, minimum).value :: Accepted(l)
  {
    hide FindColumns, ValidPin, Cell, Csv.Parsed, StartsWell, EndsWell;
    ReadRowsAreValid(text, casing, minimum);
    var csv := Csv.Parsed(WithoutMark(text)).value;
    var columns := FindColumns(csv[0], casing).value;
    KeptComeFromFile(Localities(csv[1..], columns), casing);
    forall l | l in ReadDirectory(text, casing, minimum).value ensures Accepted(l) {
      var k :| 0 <= k < |csv[1..]| && Localities(csv[1..], columns)[k] == l;
      RowIsTrimmed(csv[1..][k], columns);
    }
  }

  lemma RowIsTrimmed(values: seq<string>, c: Columns)
    requires IsComplete(AsLocality(values, c))
    ensures Accepted(AsLocality(values, c))
  {
    hide Cell, ValidPin;
    CellsAreTrimmed(values, c.locality);
    CellsAreTrimmed(values, c.district);
    CellsAreTrimmed(values, c.region);
    if c.city.Some? { CellsAreTrimmed(values, c.city.value); }
  }

  // ---------------------------------------------------------------------------
  // What lower-casing leaves alone
  // ---------------------------------------------------------------------------

  predicate Settled(casing: Casing, s: string) {
    casing.localeLower(s) == s
  }

  /** Lower-casing ends in text that it leaves alone, piece by piece, and neither empties a
      text nor turns spaces into letters or letters into spaces. */
  ghost predicate Lowers(casing: Casing) {
    && (forall s :: Settled(casing, casing.localeLower(s)))
    && (forall a, b :: Settled(casing, a + b) <==> Settled(casing, a) && Settled(casing, b))
    && Settled(casing, "|")
    && (forall s :: ValidPin(s) ==> Settled(casing, s))
    && (forall s :: Proper(casing.localeLower(s)) <==> Proper(s))
  }

  function AsciiLower(s: string): string {
    seq(|s|, i requires 0 <= i < |s| => if 'A' <= s[i] <= 'Z' then s[i] - 'A' + 'a' else s[i])
  }

  /** Lower-casing letters one by one is such a casing. */
  lemma AsciiLowerLowers(casing: Casing)
    requires forall s :: casing.localeLower(s) == AsciiLower(s)
    ensures Lowers(casing)
  {
    forall s ensures Settled(casing, s) <==> forall c <- s :: !('A' <= c <= 'Z') { AsciiSettled(casing, s); }
    forall s ensures Settled(casing, casing.localeLower(s)) {
      var t := AsciiLower(s);
      assert forall i :: 0 <= i < |t| ==> !('A' <= t[i] <= 'Z');
    }
    forall a: string, b: string ensures Settled(casing, a + b) <==> Settled(casing, a) && Settled(casing, b) {
      assert forall c :: c in a + b <==> c in a || c in b;
    }
    assert forall c <- "|" :: c == '|';
  }

  lemma AsciiSettled(casing: Casing, s: string)
    requires forall s :: casing.localeLower(s) == AsciiLower(s)
    ensures Settled(casing, s) <==> forall c <- s :: !('A' <= c <= 'Z')
  {
    var t := AsciiLower(s);
    if forall c <- s :: !('A' <= c <= 'Z') {
      forall i | 0 <= i < |s| ensures t[i] == s[i] { assert s[i] in s; }
    }
    if Settled(casing, s) {
      forall c | c in s ensures !('A' <= c <= 'Z') {
        var i :| 0 <= i < |s| && s[i] == c;
        assert t[i] == s[i];
      }
    }
  }

  // ---------------------------------------------------------------------------
  // Bars that can move
  // ---------------------------------------------------------------------------

  /** The bar is free of spaces on both sides. */
  predicate FreeBar(s: string, k: nat) {
    k < |s| && s[k] == '|' && EndsWell(s[..k]) && StartsWell(s[k + 1..])
  }

  /** What follows the bar can go to the next field, if something stays. */
  predicate MovesRight(fields: seq<string>, i: nat, k: nat) {
    i + 1 < |fields| && FreeBar(fields[i], k) && k != 0
  }

  /** What precedes the bar can go to the previous field, if something stays. */
  predicate MovesLeft(fields: seq<string>, i: nat, k: nat) {
    0 < i < |fields| && FreeBar(fields[i], k) && k + 1 != |fields[i]|
  }

  ghost predicate SomeBarMoves(fields: seq<string>) {
    exists i: nat, k: nat :: MovesRight(fields, i, k) || MovesLeft(fields, i, k)
  }

  predicate AllProper(fields: seq<string>) {
    forall i :: 0 <= i < |fields| ==> Proper(fields[i])
  }

  lemma HeadAndRest(fields: seq<string>)
    requires |fields| > 1
    ensures Csv.Joined(fields, "|") == fields[0] + ("|" + Csv.Joined(fields[1..], "|"))
  {
  }

  lemma JoinedStart(fields: seq<string>)
    requires fields != [] && AllProper(fields)
    ensures Csv.Joined(fields, "|") != "" && Csv.Joined(fields, "|")[0] == fields[0][0]
  {
  }

  // ---------------------------------------------------------------------------
  // Another reading moves a bar
  // ---------------------------------------------------------------------------

  lemma PrefixSplits(a: string, r: string, b: string, t: string)
    requires a + ("|" + r) == b + ("|" + t)
    ensures |a| < |b| ==> b == a + ("|" + b[|a| + 1..]) && r == b[|a| + 1..] + ("|" + t)
    ensures |a| == |b| ==> a == b && r == t
  {
    var x, y := a + ("|" + r), b + ("|" + t);
    assert x[..|a|] == a && x[|a|] == '|' && x[|a| + 1..] == r;
    assert y[..|b|] == b && y[|b|] == '|' && y[|b| + 1..] == t;
    if |a| < |b| {
      assert b[..|a|] == a && b[|a|] == '|' && b == b[..|a|] + ([b[|a|]] + b[|a| + 1..]);
      assert r == y[|a| + 1..];
    }
  }

  /** The other list is ahead: its next separator lies inside some field of this one, with
      text of that field behind it. */
  lemma {:induction false} AheadMovesLeft(fs: seq<string>, s: string, gs: seq<string>) returns (i: nat, k: nat)
    requires |fs| == |gs| >= 1 && AllProper(fs) && AllProper(gs) && EndsWell(s)
    requires Csv.Joined(fs, "|") == s + ("|" + Csv.Joined(gs, "|"))
    ensures i < |fs| && FreeBar(fs[i], k) && k + 1 != |fs[i]|
    decreases |fs|
  {
    hide Csv.Joined;
    JoinedStart(gs);
    var g := Csv.Joined(gs, "|");
    if |fs| == 1 {
      JoinedAlone(fs);
      i, k := 0, |s|;
      assert fs[0][..|s|] == s && fs[0][|s| + 1..] == g;
    } else {
      HeadAndRest(fs);
      HeadAndRest(gs);
      var f, rest, after := fs[0], Csv.Joined(fs[1..], "|"), Csv.Joined(gs[1..], "|");
      PrefixSplits(s, g, f, rest);
      PrefixSplits(f, rest, s, g);
      if |s| + 1 < |f| {
        i, k := 0, |s|;
        assert f[..|s|] == s && f[|s| + 1..][0] == g[0];
      } else {
        var s' := Carried(f, s, gs[0]);
        CarriedJoins(f, rest, s, gs[0], after);
        i, k := AheadMovesLeft(fs[1..], s', gs[1..]);
        i := i + 1;
      }
    }
  }

  lemma JoinedAlone(fields: seq<string>)
    requires |fields| == 1
    ensures Csv.Joined(fields, "|") == fields[0]
  {
  }

  /** What of the other list's text, up to its next separator, lies past this field. */
  function Carried(f: string, s: string, g: string): string
    requires |s| + 1 >= |f| && g != ""
  {
    if |s| + 1 == |f| then g[1..] else if |s| == |f| then g else s[|f| + 1..] + ("|" + g)
  }

  lemma CarriedJoins(f: string, rest: string, s: string, g: string, after: string)
    requires |s| + 1 >= |f| && Proper(g) && f + ("|" + rest) == s + ("|" + (g + ("|" + after)))
    ensures rest == Carried(f, s, g) + ("|" + after) && EndsWell(Carried(f, s, g))
  {
    var t := g + ("|" + after);
    PrefixSplits(s, t, f, rest);
    PrefixSplits(f, rest, s, t);
    if |s| + 1 == |f| {
      assert f[|s| + 1..] == "" && t == "|" + rest;
      assert t[1..] == g[1..] + ("|" + after);
    } else if |s| > |f| {
      var s2 := s[|f| + 1..];
      assert s2 + ("|" + (g + ("|" + after))) == (s2 + ("|" + g)) + ("|" + after);
    }
  }

  /** Two lists of proper fields that join to the same text differ by a bar that moves. */
  lemma {:induction false} OtherReadingMovesBar(fs: seq<string>, gs: seq<string>) returns (i: nat, k: nat)
    requires |fs| == |gs| >= 1 && AllProper(fs) && AllProper(gs)
    requires Csv.Joined(fs, "|") == Csv.Joined(gs, "|")
    ensures fs != gs ==> MovesRight(fs, i, k) || MovesLeft(fs, i, k)
    decreases |fs|
  {
    hide Csv.Joined;
    i, k := 0, 0;
    if |fs| == 1 {
      JoinedAlone(fs);
      JoinedAlone(gs);
    } else {
      HeadAndRest(fs);
      HeadAndRest(gs);
      var f, g, rest, after := fs[0], gs[0], Csv.Joined(fs[1..], "|"), Csv.Joined(gs[1..], "|");
      PrefixSplits(f, rest, g, after);
      PrefixSplits(g, after, f, rest);
      if |g| < |f| {
        k := |g|;
        JoinedStart(gs[1..]);
        assert f[..k] == g && (f[k + 1..] == "" || f[k + 1..][0] == after[0]);
      } else if |g| > |f| {
        i, k := AheadMovesLeft(fs[1..], g[|f| + 1..], gs[1..]);
        i := i + 1;
      } else {
        i, k := OtherReadingMovesBar(fs[1..], gs[1..]);
        i := i + 1;
        assert fs == [f] + fs[1..] && gs == [g] + gs[1..];
      }
    }
  }

  // ---------------------------------------------------------------------------
  // A bar that moves gives another reading
  // ---------------------------------------------------------------------------

  ghost predicate AllSettled(casing: Casing, fields: seq<string>) {
    forall i :: 0 <= i < |fields| ==> Settled(casing, fields[i])
  }

  lemma PiecesAreSettled(casing: Casing, f: string, k: nat)
    requires Lowers(casing) && Settled(casing, f) && k < |f| && f[k] == '|'
    ensures f == f[..k] + "|" + f[k + 1..] && Settled(casing, f[..k]) && Settled(casing, f[k + 1..])
  {
    hide Settled;
    assert f == f[..k] + ("|" + f[k + 1..]) == f[..k] + "|" + f[k + 1..];
  }

  lemma BarJoinsWell(casing: Casing, a: string, b: string)
    requires Lowers(casing) && Settled(casing, a) && Settled(casing, b) && a + b != ""
    requires StartsWell(a) && EndsWell(b) && (a == "" || Proper(a) || Proper(b))
    ensures Settled(casing, a + "|" + b) && Proper(a + "|" + b)
  {
    hide Settled;
    assert a + "|" + b == a + ("|" + b);
    assert (a + "|" + b)[0] == if a == "" then '|' else a[0];
    assert (a + "|" + b)[|a + "|" + b| - 1] == if b == "" then '|' else b[|b| - 1];
  }

  lemma PairReads(fs: seq<string>, at: nat, left: string, right: string, casing: Casing) returns (gs: seq<string>)
    requires AllProper(fs) && AllSettled(casing, fs) && at + 1 < |fs|
    requires Proper(left) && Settled(casing, left) && Proper(right) && Settled(casing, right) && left != fs[at]
    requires Csv.Joined([left, right], "|") == Csv.Joined([fs[at], fs[at + 1]], "|")
    ensures |gs| == |fs| && gs != fs && AllProper(gs) && AllSettled(casing, gs)
    ensures Csv.Joined(gs, "|") == Csv.Joined(fs, "|")
  {
    hide Csv.Joined, Proper, Settled;
    gs := Exchanged(fs, at, [left, right]);
    assert gs[at] != fs[at];
  }

  lemma MovedBarReads(fs: seq<string>, i: nat, k: nat, casing: Casing) returns (gs: seq<string>)
    requires AllProper(fs) && AllSettled(casing, fs) && Lowers(casing) && (MovesRight(fs, i, k) || MovesLeft(fs, i, k))
    ensures |gs| == |fs| && gs != fs && AllProper(gs) && AllSettled(casing, gs)
    ensures Csv.Joined(gs, "|") == Csv.Joined(fs, "|")
  {
    hide Csv.Joined, Settled, Lowers;
    var x, y := fs[i][..k], fs[i][k + 1..];
    PiecesAreSettled(casing, fs[i], k);
    assert Proper(fs[i]);
    if MovesRight(fs, i, k) {
      var z := fs[i + 1];
      PairsJoin(x, y, z);
      BarJoinsWell(casing, y, z);
      gs := PairReads(fs, i, x, y + "|" + z, casing);
    } else {
      var z := fs[i - 1];
      PairsJoin(z, x, y);
      BarJoinsWell(casing, z, x);
      gs := PairReads(fs, i - 1, z + "|" + x, y, casing);
    }
  }

  // ---------------------------------------------------------------------------
  // Which rows can be taken for another
  // ---------------------------------------------------------------------------

  /** Another row that the reader accepts, with other fields, is dropped for this one. */
  ghost predicate Swallows(l: Locality, m: Locality, casing: Casing) {
    Accepted(m) && LoweredFields(m, casing) != LoweredFields(l, casing) && Deduplicated([l, m], casing) == [l]
  }

  lemma PairIsMergedIff(l: Locality, m: Locality, casing: Casing)
    ensures Deduplicated([l, m], casing) == [l] <==> Identity(m, casing) == Identity(l, casing)
  {
    hide Identity;
    assert [l, m][..1] == [l] && [l][..0] == [];
    assert Deduplicated([], casing) == [] && Deduplicated([l], casing) == [l];
    assert l in [l];
    assert Holds([l], Identity(m, casing), casing) <==> Identity(l, casing) == Identity(m, casing);
  }

  function Names(l: Locality): seq<string> {
    [l.localityName, l.districtName, l.cityName, l.regionName]
  }

  function LoweredNames(l: Locality, casing: Casing): seq<string> {
    LoweredFields(l, casing)[1..]
  }

  lemma IdentityIsPinAndNames(l: Locality, casing: Casing)
    requires Accepted(l) && Lowers(casing)
    ensures Identity(l, casing) == l.postalCode + ("|" + Csv.Joined(LoweredNames(l, casing), "|"))
    ensures LoweredFields(l, casing) == [l.postalCode] + LoweredNames(l, casing) && '|' !in l.postalCode
    ensures |LoweredNames(l, casing)| == 4 && AllProper(LoweredNames(l, casing)) && AllSettled(casing, LoweredNames(l, casing))
  {
    hide Proper;
    HeadAndRest(LoweredFields(l, casing));
    assert Settled(casing, l.postalCode);
    var names := LoweredNames(l, casing);
    forall i | 0 <= i < 4 ensures Proper(names[i]) && Settled(casing, names[i]) {
      assert names[i] == casing.localeLower(Names(l)[i]);
      assert Proper(Names(l)[i]);
    }
  }

  lemma SamePinAndNames(l: Locality, m: Locality, casing: Casing)
    requires Accepted(l) && Accepted(m) && Lowers(casing) && Identity(m, casing) == Identity(l, casing)
    ensures m.postalCode == l.postalCode
    ensures Csv.Joined(LoweredNames(m, casing), "|") == Csv.Joined(LoweredNames(l, casing), "|")
  {
    hide Identity, Lowers, Accepted, Csv.Joined;
    IdentityIsPinAndNames(l, casing);
    IdentityIsPinAndNames(m, casing);
    BarSplits(m.postalCode, l.postalCode, Csv.Joined(LoweredNames(m, casing), "|"), Csv.Joined(LoweredNames(l, casing), "|"));
  }

  /** A row that the reader accepts swallows a different one exactly when some bar in its
      lower-cased names can be moved across a field boundary. */
  lemma SwallowsIffSomeBarMoves(l: Locality, casing: Casing)
    requires Accepted(l) && Lowers(casing)
    ensures (exists m :: Swallows(l, m, casing)) <==> SomeBarMoves(LoweredNames(l, casing))
  {
    hide Identity, Lowers, Accepted, Csv.Joined, LoweredFields, Deduplicated, LoweredNames, MovesLeft, MovesRight, Proper;
    IdentityIsPinAndNames(l, casing);
    var names := LoweredNames(l, casing);
    if m :| Swallows(l, m, casing) {
      PairIsMergedIff(l, m, casing);
      SamePinAndNames(l, m, casing);
      IdentityIsPinAndNames(m, casing);
      var i, k := OtherReadingMovesBar(names, LoweredNames(m, casing));
    }
    if i: nat, k: nat :| MovesRight(names, i, k) || MovesLeft(names, i, k) {
      var gs := MovedBarReads(names, i, k, casing);
      var m := RowOf(l, gs, casing);
      assert Swallows(l, m, casing);
    }
  }

  /** The row with the same PIN code and the given names. */
  lemma RowOf(l: Locality, names: seq<string>, casing: Casing) returns (m: Locality)
    requires Accepted(l) && Lowers(casing) && |names| == 4 && AllProper(names) && AllSettled(casing, names)
    requires names != LoweredNames(l, casing) && Csv.Joined(names, "|") == Csv.Joined(LoweredNames(l, casing), "|")
    ensures m == Locality(l.postalCode, names[0], names[1], names[2], names[3]) && Swallows(l, m, casing)
  {
    hide Csv.Joined, Proper, Identity, Deduplicated;
    m := Locality(l.postalCode, names[0], names[1], names[2], names[3]);
    assert forall i :: 0 <= i < 4 ==> Proper(names[i]) && Settled(casing, names[i]);
    assert LoweredNames(m, casing) == names;
    IdentityIsPinAndNames(l, casing);
    IdentityIsPinAndNames(m, casing);
    PairIsMergedIff(l, m, casing);
  }

  /** Two rows of which one swallows the other: a word has moved over the boundary of two names,
      with its bar. */
  lemma ShiftedWordIsSwallowed(pin: string, a: string, b: string, c: string, d: string, e: string, casing: Casing)
    requires Lowers(casing) && ValidPin(pin) && AllProper([a, b, c, d, e]) && AllSettled(casing, [a, b, c, d, e])
    ensures Accepted(Locality(pin, a + "|" + b, c, d, e))
    ensures Swallows(Locality(pin, a + "|" + b, c, d, e), Locality(pin, a, b + "|" + c, d, e), casing)
  {
    hide Csv.Joined, Proper, Settled, Lowers, Swallows, Identity;
    var words := [a, b, c, d, e];
    assert Proper(words[0]) && Proper(words[1]) && Proper(words[2]) && Proper(words[3]) && Proper(words[4]);
    assert Settled(casing, words[0]) && Settled(casing, words[1]) && Settled(casing, words[2]);
    assert Settled(casing, words[3]) && Settled(casing, words[4]);
    WordsJoin(casing, a, b);
    WordsJoin(casing, b, c);
    var l, names, others := Locality(pin, a + "|" + b, c, d, e), [a + "|" + b, c, d, e], [a, b + "|" + c, d, e];
    PairsJoin(a, b, c);
    JoinedInContext([], [a + "|" + b, c], [a, b + "|" + c], [d, e]);
    assert [] + [a + "|" + b, c] + [d, e] == names && [] + [a, b + "|" + c] + [d, e] == others;
    SettledNamesStay(l, casing);
    assert others[0] != names[0];
    var m := RowOf(l, others, casing);
  }

  lemma WordsJoin(casing: Casing, a: string, b: string)
    requires Lowers(casing) && Settled(casing, a) && Settled(casing, b) && Proper(a) && Proper(b)
    ensures Settled(casing, a + "|" + b) && Proper(a + "|" + b)
  {
    hide Settled;
    BarJoinsWell(casing, a, b);
  }

  lemma SettledNamesStay(l: Locality, casing: Casing)
    requires AllSettled(casing, Names(l))
    ensures LoweredNames(l, casing) == Names(l)
  {
    assert forall i :: 0 <= i < 4 ==> Settled(casing, Names(l)[i]);
  }
}
