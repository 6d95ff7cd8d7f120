/** Reading a postal directory file: header, validation, and one row for each identity. */
module PostalDirectory {
  import opened Basics
  import Csv

  /** Lower-casing, as the runtime and as the locale do it. */
  datatype Casing = Casing(lower: string -> string, localeLower: string -> string)

  datatype Locality = Locality(postalCode: string, localityName: string, districtName: string, cityName: string,
                               regionName: string)

  datatype Columns = Columns(postal: nat, locality: nat, district: nat, region: nat, city: Option<nat>)

  datatype ImportError =
    | UnterminatedQuote | EmptyFile | MissingColumn(name: string) | BadPin(row: nat) | MissingData(row: nat)
    | TooFewRows(count: nat)

  // ---------------------------------------------------------------------------
  // Header
  // ---------------------------------------------------------------------------

  predicate HeaderChar(c: char) {
    'a' <= c <= 'z' || '0' <= c <= '9'
  }

  function Kept(s: string): string {
    if s == "" then "" else (if HeaderChar(s[0]) then [s[0]] else "") + Kept(s[1..])
  }

  function FindColumn(headers: seq<string>, names: set<string>, casing: Casing, from: nat): (column: Option<nat>)
    requires from <= |headers|
    ensures column.Some? ==>
      from <= column.value < |headers| && Kept(casing.lower(headers[column.value])) in names
    decreases |headers| - from
  {
    if from == |headers| then None
    else if Kept(casing.lower(headers[from])) in names then Some(from)
    else FindColumn(headers, names, casing, from + 1)
  }

  function FindColumns(headers: seq<string>, casing: Casing): Result<Columns, ImportError> {
    var postal := FindColumn(headers, {"pincode", "postalcode", "pin"}, casing, 0);
    if postal.None? then Err(MissingColumn("pincode"))
    else
      var locality := FindColumn(headers, {"officename", "localityname", "locality"}, casing, 0);
      if locality.None? then Err(MissingColumn("officename"))
      else
        var district := FindColumn(headers, {"districtname", "district"}, casing, 0);
        if district.None? then Err(MissingColumn("districtname"))
        else
          var region := FindColumn(headers, {"statename", "state", "regionname"}, casing, 0);
          if region.None? then Err(MissingColumn("statename"))
          else
            Ok(Columns(postal.value, locality.value, district.value, region.value,
                       FindColumn(headers, {"cityname", "city", "taluk", "talukname"}, casing, 0)))
  }

  // ---------------------------------------------------------------------------
  // Rows
  // ---------------------------------------------------------------------------

  function TrimStart(s: string): string {
    if s != "" && Csv.IsSpace(s[0]) then TrimStart(s[1..]) else s
  }

  function TrimEnd(s: string): string {
    if s != "" && Csv.IsSpace(s[|s| - 1]) then TrimEnd(s[..|s| - 1]) else s
  }

  function Cell(values: seq<string>, column: nat): string {
    if column < |values| then TrimEnd(TrimStart(values[column])) else ""
  }

  /** A missing or blank city falls back to the district. */
  function AsLocality(values: seq<string>, c: Columns): Locality {
    var district := Cell(values, c.district);
    var city := if c.city.Some? then Cell(values, c.city.value) else "";
    Locality(Cell(values, c.postal), Cell(values, c.locality), district, if city == "" then district else city,
             Cell(values, c.region))
  }

  predicate ValidPin(s: string) {
    |s| == 6 && '1' <= s[0] <= '9' && forall i :: 0 <= i < 6 ==> '0' <= s[i] <= '9'
  }

  /** Rows are numbered from 2, after the header. */
  function RowError(l: Locality, offset: nat): Option<ImportError> {
    if !ValidPin(l.postalCode) then Some(BadPin(offset + 2))
    else if l.localityName == "" || l.districtName == "" || l.cityName == "" || l.regionName == "" then
      Some(MissingData(offset + 2))
    else None
  }

  function Localities(rows: seq<seq<string>>, c: Columns): seq<Locality> {
    seq(|rows|, i requires 0 <= i < |rows| => AsLocality(rows[i], c))
  }

  function FirstError(ls: seq<Locality>, from: nat): Option<ImportError>
    requires from <= |ls|
    decreases |ls| - from
  {
    if from == |ls| then None
    else if RowError(ls[from], from).Some? then RowError(ls[from], from)
    else FirstError(ls, from + 1)
  }

  // ---------------------------------------------------------------------------
  // Identity
  // ---------------------------------------------------------------------------

  /** The lower-cased fields in the order they are joined. */
  function LoweredFields(l: Locality, casing: Casing): seq<string> {
    [casing.localeLower(l.postalCode), casing.localeLower(l.localityName), casing.localeLower(l.districtName),
     casing.localeLower(l.cityName), casing.localeLower(l.regionName)]
  }

  function Identity(l: Locality, casing: Casing): string {
    Csv.Joined(LoweredFields(l, casing), "|")
  }

  predicate Holds(ls: seq<Locality>, identity: string, casing: Casing) {
    exists l <- ls :: Identity(l, casing) == identity
  }

  /** The first locality of each identity, in the order of the file. */
  function Deduplicated(ls: seq<Locality>, casing: Casing): seq<Locality> {
    if ls == [] then []
    else
      var front, l := Deduplicated(ls[..|ls| - 1], casing), ls[|ls| - 1];
      if Holds(front, Identity(l, casing), casing) then front else front + [l]
  }

  function Canonical(rows: seq<seq<string>>, c: Columns, casing: Casing): Result<seq<Locality>, ImportError> {
    var ls := Localities(rows, c);
    match FirstError(ls, 0)
    case Some(e) => Err(e)
    case None => Ok(Deduplicated(ls, casing))
  }

  function WithoutMark(text: string): string {
    if text != "" && text[0] == '\U{FEFF}' then text[1..] else text
  }

  /** The whole reading of a file. */
  function ReadDirectory(text: string, casing: Casing, minimum: nat): Result<seq<Locality>, ImportError> {
    match Csv.Parsed(WithoutMark(text))
    case Err(_) => Err(UnterminatedQuote)
    case Ok(csv) =>
      if csv == [] then Err(EmptyFile)
      else
        match FindColumns(csv[0], casing)
        case Err(e) => Err(e)
        case Ok(columns) =>
          match Canonical(csv[1..], columns, casing)
          case Err(e) => Err(e)
          case Ok(ls) => if |ls| < minimum then Err(TooFewRows(|ls|)) else Ok(ls)
  }

  /** The loop that validates each row and keeps the first of each identity. */
  method Deduplicate(csv: seq<seq<string>>, c: Columns, casing: Casing) returns (r: Result<seq<Locality>, ImportError>)
    ensures r == Canonical(csv, c, casing)
  {
    hide Identity, AsLocality, RowError;
    var deduplicated: map<string, Locality>, rows: seq<Locality> := map[], [];
    ghost var ls := Localities(csv, c);
    for offset := 0 to |csv|
      invariant rows == Deduplicated(ls[..offset], casing)
      invariant forall identity :: identity in deduplicated <==> Holds(rows, identity, casing)
      invariant FirstError(ls, offset) == FirstError(ls, 0)
    {
      var l := AsLocality(csv[offset], c);
      var error := RowError(l, offset);
      if error.Some? { return Err(error.value); }
      var identity := Identity(l, casing);
      assert ls[..offset + 1][..offset] == ls[..offset] && ls[offset] == l;
      if identity !in deduplicated {
        deduplicated := deduplicated[identity := l];
        HoldsOneMore(rows, l, casing);
        rows := rows + [l];
      }
    }
    assert ls[..|csv|] == ls;
    r := Ok(rows);
  }

  lemma HoldsOneMore(ls: seq<Locality>, l: Locality, casing: Casing)
    ensures forall identity ::
      Holds(ls + [l], identity, casing) <==> Holds(ls, identity, casing) || identity == Identity(l, casing)
  {
  }

  // ---------------------------------------------------------------------------
  // What deduplication keeps
  // ---------------------------------------------------------------------------

  ghost predicate DistinctIdentities(ls: seq<Locality>, casing: Casing) {
    forall i, j :: 0 <= i < j < |ls| ==> Identity(ls[i], casing) != Identity(ls[j], casing)
  }

  function Identities(ls: seq<Locality>, casing: Casing): set<string> {
    set l | l in ls :: Identity(l, casing)
  }

  lemma {:induction false} DeduplicatedHolds(ls: seq<Locality>, casing: Casing, identity: string)
    ensures Holds(Deduplicated(ls, casing), identity, casing) <==> Holds(ls, identity, casing)
  {
    hide Identity, Holds;
    if ls != [] {
      var front, l := ls[..|ls| - 1], ls[|ls| - 1];
      DeduplicatedHolds(front, casing, identity);
      HoldsOneMore(front, l, casing);
      HoldsOneMore(Deduplicated(front, casing), l, casing);
      assert front + [l] == ls;
    }
  }

  /** One row for each identity of the file, no more and no fewer. */
  lemma {:induction false} OneRowPerIdentity(ls: seq<Locality>, casing: Casing)
    ensures DistinctIdentities(Deduplicated(ls, casing), casing)
    ensures |Deduplicated(ls, casing)| == |Identities(ls, casing)|
  {
    hide Identity;
    if ls != [] {
      var front, l := ls[..|ls| - 1], ls[|ls| - 1];
      var kept := Deduplicated(front, casing);
      OneRowPerIdentity(front, casing);
      DeduplicatedHolds(front, casing, Identity(l, casing));
      assert ls == front + [l];
      assert Identities(ls, casing) == Identities(front, casing) + {Identity(l, casing)};
      if Holds(kept, Identity(l, casing), casing) {
        assert Identity(l, casing) in Identities(front, casing);
      } else {
        assert Identity(l, casing) !in Identities(front, casing);
        forall i | 0 <= i < |kept| ensures Identity(kept[i], casing) != Identity(l, casing) {
          assert kept[i] in kept;
        }
      }
    }
  }

  /** The kept row is the first of the file with its identity. */
  lemma {:induction false} FirstIsKept(ls: seq<Locality>, casing: Casing, i: nat)
    requires i < |ls| && !Holds(ls[..i], Identity(ls[i], casing), casing)
    ensures ls[i] in Deduplicated(ls, casing)
  {
    hide Identity, Holds;
    var front := ls[..|ls| - 1];
    if i < |front| {
      assert front[..i] == ls[..i];
      FirstIsKept(front, casing, i);
    } else {
      assert front == ls[..i];
      DeduplicatedHolds(front, casing, Identity(ls[i], casing));
    }
  }

  lemma {:induction false} KeptComeFromFile(ls: seq<Locality>, casing: Casing)
    ensures forall l <- Deduplicated(ls, casing) :: l in ls
  {
    hide Identity, Holds;
    if ls != [] {
      KeptComeFromFile(ls[..|ls| - 1], casing);
    }
  }

  /** No error means no bad row, and an error is that of the first bad row. */
  lemma {:induction false} ErrorIsTheFirst(ls: seq<Locality>, from: nat)
    requires from <= |ls|
    ensures FirstError(ls, from).None? <==> forall k :: from <= k < |ls| ==> RowError(ls[k], k).None?
    ensures FirstError(ls, from).Some? ==> exists k :: IsFirstError(ls, from, k)
    decreases |ls| - from
  {
    if from < |ls| {
      if RowError(ls[from], from).Some? {
        assert IsFirstError(ls, from, from);
      } else {
        ErrorIsTheFirst(ls, from + 1);
        if FirstError(ls, from).Some? {
          var k :| IsFirstError(ls, from + 1, k);
          assert IsFirstError(ls, from, k);
        }
      }
    }
  }

  ghost predicate IsFirstError(ls: seq<Locality>, from: nat, k: int)
    requires from <= |ls|
  {
    && from <= k < |ls| && FirstError(ls, from) == RowError(ls[k], k)
    && forall j :: from <= j < k ==> RowError(ls[j], j).None?
  }

  predicate IsComplete(l: Locality) {
    && ValidPin(l.postalCode) && l.localityName != "" && l.districtName != "" && l.cityName != ""
    && l.regionName != ""
  }

  /** Every row of a directory that reads has a PIN code and all its names, and there are
      enough of them. */
  lemma ReadRowsAreValid(text: string, casing: Casing, minimum: nat)
    requires ReadDirectory(text, casing, minimum).Ok?
    ensures var rows := ReadDirectory(text, casing, minimum).value;
            |rows| >= minimum && forall l <- rows :: IsComplete(l)
  {
    hide FindColumns, ValidPin, AsLocality;
    var csv := Csv.Parsed(WithoutMark(text)).value;
    var columns := FindColumns(csv[0], casing).value;
    var ls := Localities(csv[1..], columns);
    ErrorIsTheFirst(ls, 0);
    KeptComeFromFile(ls, casing);
    forall l | l in Deduplicated(ls, casing) ensures IsComplete(l) {
      var k :| 0 <= k < |ls| && ls[k] == l;
      assert RowError(ls[k], k).None?;
    }
  }

  // ---------------------------------------------------------------------------
  // What an identity tells apart
  // ---------------------------------------------------------------------------

  predicate NoBar(fields: seq<string>) {
    forall i :: 0 <= i < |fields| ==> '|' !in fields[i]
  }

  lemma {:induction false} BarSplits(a: string, b: string, r: string, s: string)
    requires '|' !in a && '|' !in b && a + ("|" + r) == b + ("|" + s)
    ensures a == b && r == s
  {
    var x, y := a + ("|" + r), b + ("|" + s);
    BarStart(a, r);
    BarStart(b, s);
    if a == "" {
      assert x[1..] == r && y[1..] == s;
    } else {
      assert x[1..] == a[1..] + ("|" + r) && y[1..] == b[1..] + ("|" + s);
      assert x[0] == a[0] && y[0] == b[0];
      BarSplits(a[1..], b[1..], r, s);
      assert a == [a[0]] + a[1..] && b == [b[0]] + b[1..];
    }
  }

  lemma BarStart(a: string, r: string)
    requires '|' !in a
    ensures (a + ("|" + r))[0] == '|' <==> a == ""
  {
  }

  function Bars(s: string): nat {
    if s == "" then 0 else (if s[0] == '|' then 1 else 0) + Bars(s[1..])
  }

  function BarsIn(fields: seq<string>): nat {
    if fields == [] then 0 else Bars(fields[0]) + BarsIn(fields[1..])
  }

  lemma {:induction false} BarsAddUp(a: string, b: string)
    ensures Bars(a + b) == Bars(a) + Bars(b)
  {
    if a == "" {
      assert a + b == b;
    } else {
      assert (a + b)[0] == a[0] && (a + b)[1..] == a[1..] + b;
      BarsAddUp(a[1..], b);
    }
  }

  lemma {:induction false} NoBarsMeans(s: string)
    ensures Bars(s) == 0 <==> '|' !in s
  {
    if s != "" {
      NoBarsMeans(s[1..]);
      assert s == [s[0]] + s[1..];
    }
  }

  lemma {:induction false} NoBarsInMeans(fields: seq<string>)
    ensures BarsIn(fields) == 0 <==> NoBar(fields)
  {
    if fields != [] {
      NoBarsMeans(fields[0]);
      NoBarsInMeans(fields[1..]);
      assert fields == [fields[0]] + fields[1..];
    }
  }

  /** A joined text has its separators, and the bars of its fields. */
  lemma {:induction false} BarsOfJoined(fields: seq<string>)
    requires fields != []
    ensures Bars(Csv.Joined(fields, "|")) == |fields| - 1 + BarsIn(fields)
  {
    if |fields| == 1 {
      assert fields[1..] == [];
    } else {
      var rest := Csv.Joined(fields[1..], "|");
      BarsOfJoined(fields[1..]);
      assert Csv.Joined(fields, "|") == fields[0] + ("|" + rest);
      BarsAddUp(fields[0], "|" + rest);
      BarsAddUp("|", rest);
      assert Bars("|") == 1;
    }
  }

  lemma {:induction false} BarFreeListsAgree(fields: seq<string>, others: seq<string>)
    requires |fields| == |others| && NoBar(fields) && NoBar(others)
    requires Csv.Joined(fields, "|") == Csv.Joined(others, "|")
    ensures fields == others
  {
    if |fields| > 1 {
      assert Csv.Joined(fields, "|") == fields[0] + ("|" + Csv.Joined(fields[1..], "|"));
      assert Csv.Joined(others, "|") == others[0] + ("|" + Csv.Joined(others[1..], "|"));
      BarSplits(fields[0], others[0], Csv.Joined(fields[1..], "|"), Csv.Joined(others[1..], "|"));
      BarFreeListsAgree(fields[1..], others[1..]);
      assert fields == [fields[0]] + fields[1..] && others == [others[0]] + others[1..];
    }
  }

  /** Equal texts of equally many fields have equally many bars in them. */
  lemma JoinedTellsApart(fields: seq<string>, others: seq<string>)
    requires |fields| == |others| && fields != [] && NoBar(fields)
    requires Csv.Joined(fields, "|") == Csv.Joined(others, "|")
    ensures fields == others
  {
    BarsOfJoined(fields);
    BarsOfJoined(others);
    NoBarsInMeans(fields);
    NoBarsInMeans(others);
    BarFreeListsAgree(fields, others);
  }

  lemma {:induction false} JoinedInParts(a: seq<string>, b: seq<string>)
    requires a != [] && b != []
    ensures Csv.Joined(a + b, "|") == Csv.Joined(a, "|") + ("|" + Csv.Joined(b, "|"))
  {
    assert a + b == [a[0]] + (a[1..] + b);
    if |a| > 1 {
      JoinedInParts(a[1..], b);
    }
  }

  /** Replacing part of a list by one that joins to the same text. */
  lemma JoinedInContext(before: seq<string>, part: seq<string>, other: seq<string>, after: seq<string>)
    requires part != [] && other != [] && Csv.Joined(part, "|") == Csv.Joined(other, "|")
    ensures Csv.Joined(before + part + after, "|") == Csv.Joined(before + other + after, "|")
  {
    if before != [] {
      JoinedInParts(before, part);
      JoinedInParts(before, other);
    } else {
      assert before + part == part && before + other == other;
    }
    if after != [] {
      JoinedInParts(before + part, after);
      JoinedInParts(before + other, after);
    } else {
      assert before + part + after == before + part && before + other + after == before + other;
    }
  }

  lemma PairsJoin(x: string, y: string, z: string)
    ensures Csv.Joined([x + "|" + y, z], "|") == Csv.Joined([x, y + "|" + z], "|")
  {
    assert [x + "|" + y, z][1..] == [z] && [x, y + "|" + z][1..] == [y + "|" + z];
    assert x + "|" + y + "|" + z == x + "|" + (y + "|" + z);
  }

  /** A bar inside a field can be taken for the separator beside it. */
  lemma BarCanMove(fields: seq<string>) returns (others: seq<string>)
    requires |fields| >= 2 && !NoBar(fields)
    ensures |others| == |fields| && others != fields && Csv.Joined(others, "|") == Csv.Joined(fields, "|")
  {
    hide Csv.Joined;
    var i :| 0 <= i < |fields| && '|' in fields[i];
    var k :| 0 <= k < |fields[i]| && fields[i][k] == '|';
    var x, y := fields[i][..k], fields[i][k + 1..];
    assert fields[i] == x + "|" + y;
    if i + 1 < |fields| {
      PairsJoin(x, y, fields[i + 1]);
      others := Exchanged(fields, i, [x, y + "|" + fields[i + 1]]);
      assert others[i] == x;
    } else {
      PairsJoin(fields[i - 1], x, y);
      others := Exchanged(fields, i - 1, [fields[i - 1] + "|" + x, y]);
      assert others[i] == y;
    }
  }

  lemma Exchanged(fields: seq<string>, at: nat, pair: seq<string>) returns (others: seq<string>)
    requires at + 1 < |fields| && |pair| == 2
    requires Csv.Joined(pair, "|") == Csv.Joined([fields[at], fields[at + 1]], "|")
    ensures |others| == |fields| && others[at] == pair[0] && others[at + 1] == pair[1]
    ensures forall i :: 0 <= i < |fields| && i != at && i != at + 1 ==> others[i] == fields[i]
    ensures Csv.Joined(others, "|") == Csv.Joined(fields, "|")
  {
    hide Csv.Joined;
    assert fields == fields[..at] + [fields[at], fields[at + 1]] + fields[at + 2..];
    JoinedInContext(fields[..at], [fields[at], fields[at + 1]], pair, fields[at + 2..]);
    others := fields[..at] + pair + fields[at + 2..];
  }

  /** A row's identity stands for its fields and no other five exactly when none of them
      holds a bar. */
  lemma IdentityIsExactIff(l: Locality, casing: Casing)
    ensures NoBar(LoweredFields(l, casing)) <==>
            forall fields: seq<string> :: |fields| == 5 && Csv.Joined(fields, "|") == Identity(l, casing)
              ==> fields == LoweredFields(l, casing)
  {
    var own := LoweredFields(l, casing);
    if NoBar(own) {
      forall fields: seq<string> | |fields| == 5 && Csv.Joined(fields, "|") == Identity(l, casing) ensures fields == own {
        JoinedTellsApart(own, fields);
      }
    } else {
      var others := BarCanMove(own);
    }
  }

  /** A row without a bar is merged only with rows whose fields agree up to case, whatever
      the other row holds. */
  lemma IdentityDecides(l: Locality, m: Locality, casing: Casing)
    requires NoBar(LoweredFields(l, casing))
    ensures Identity(l, casing) == Identity(m, casing) <==> LoweredFields(l, casing) == LoweredFields(m, casing)
  {
    if Identity(l, casing) == Identity(m, casing) {
      JoinedTellsApart(LoweredFields(l, casing), LoweredFields(m, casing));
    }
  }
}
