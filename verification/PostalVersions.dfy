/** The versions of each country's postal directory, and the import transaction that adds
    and activates them. */
module PostalVersions {
  import opened Basics
  import opened PostalDirectory

  datatype Status = Staged | Active | Retired

  /** The unique key of a version. */
  datatype Key = Key(country: string, name: string)

  datatype Version = Version(checksum: string, status: Status, rowCount: nat, localities: seq<Locality>)

  type Versions = map<Key, Version>

  datatype Conflict = Conflict

  /** One run of the importer; the checksum stands for the bytes of the file. */
  datatype Command = Command(key: Key, checksum: string, text: string, minimum: nat, activate: bool)

  function Retire(vs: Versions, country: string): Versions {
    map k | k in vs :: if k.country == country && vs[k].status.Active? then vs[k].(status := Retired) else vs[k]
  }

  function Activate(vs: Versions, key: Key): Versions
    requires key in vs
  {
    if vs[key].status.Staged? then vs[key := vs[key].(status := Active)] else vs
  }

  function Import(vs: Versions, key: Key, checksum: string, rows: seq<Locality>, activate: bool): Result<Versions, Conflict> {
    if key in vs then
      if vs[key].checksum != checksum || vs[key].rowCount != |rows| then Err(Conflict)
      else if activate && vs[key].status.Staged? then Ok(Activate(Retire(vs, key.country), key))
      else Ok(vs)
    else
      var inserted := vs[key := Version(checksum, Staged, |rows|, rows)];
      Ok(if activate then Activate(Retire(inserted, key.country), key) else inserted)
  }

  /** A file that does not read, or a conflict, leaves everything as it was. */
  function Apply(vs: Versions, c: Command, casing: Casing): Versions {
    match ReadDirectory(c.text, casing, c.minimum)
    case Err(_) => vs
    case Ok(rows) =>
      match Import(vs, c.key, c.checksum, rows, c.activate)
      case Err(_) => vs
      case Ok(vs') => vs'
  }

  function Run(vs: Versions, commands: seq<Command>, casing: Casing): Versions
    decreases |commands|
  {
    if commands == [] then vs else Run(Apply(vs, commands[0], casing), commands[1..], casing)
  }

  // ---------------------------------------------------------------------------
  // The invariant
  // ---------------------------------------------------------------------------

  ghost predicate OneActive(vs: Versions) {
    forall k, l :: k in vs && l in vs && k.country == l.country && vs[k].status.Active? && vs[l].status.Active? ==> k == l
  }

  ghost predicate VersionOk(v: Version, casing: Casing) {
    v.rowCount == |v.localities| && DistinctIdentities(v.localities, casing)
  }

  ghost predicate Inv(vs: Versions, casing: Casing) {
    OneActive(vs) && forall k <- vs :: VersionOk(vs[k], casing)
  }

  ghost predicate HasActive(vs: Versions, country: string) {
    exists k <- vs :: k.country == country && vs[k].status.Active?
  }

  /** A version keeps its content and only moves from staged to active to retired. */
  ghost predicate Advances(v: Version, w: Version) {
    && w == v.(status := w.status)
    && (w.status == v.status || (v.status.Staged? && w.status.Active?) || (v.status.Active? && w.status.Retired?))
  }

  lemma ReadRowsAreDistinct(text: string, casing: Casing, minimum: nat)
    ensures ReadDirectory(text, casing, minimum).Ok? ==>
      DistinctIdentities(ReadDirectory(text, casing, minimum).value, casing)
  {
    hide DistinctIdentities, FindColumns;
    var csv := Csv.Parsed(WithoutMark(text));
    if csv.Ok? && csv.value != [] && FindColumns(csv.value[0], casing).Ok? {
      OneRowPerIdentity(Localities(csv.value[1..], FindColumns(csv.value[0], casing).value), casing);
    }
  }

  lemma ImportKeepsInv(vs: Versions, key: Key, checksum: string, rows: seq<Locality>, activate: bool, casing: Casing)
    requires Inv(vs, casing) && DistinctIdentities(rows, casing)
    ensures match Import(vs, key, checksum, rows, activate)
            case Err(_) => true
            case Ok(vs') =>
              && Inv(vs', casing)
              && (HasActive(vs, key.country) ==> HasActive(vs', key.country))
              && (forall country :: country != key.country && HasActive(vs, country) ==> HasActive(vs', country))
              && (activate && (key !in vs || vs[key].status.Staged?) ==> key in vs' && vs'[key].status.Active?)
  {
    hide DistinctIdentities;
    match Import(vs, key, checksum, rows, activate)
    case Err(_) =>
    case Ok(vs') =>
      forall country | HasActive(vs, country) ensures HasActive(vs', country) {
        var k :| k in vs && k.country == country && vs[k].status.Active?;
        if country == key.country && vs' != vs && activate {
          assert vs'[key].status.Active?;
        } else {
          assert vs'[k].status.Active?;
        }
      }
  }

  lemma ImportAdvances(vs: Versions, key: Key, checksum: string, rows: seq<Locality>, activate: bool, k: Key)
    requires k in vs
    ensures match Import(vs, key, checksum, rows, activate)
            case Err(_) => true
            case Ok(vs') => k in vs' && Advances(vs[k], vs'[k])
  {
  }

  lemma CommandKeepsInv(vs: Versions, c: Command, casing: Casing)
    requires Inv(vs, casing)
    ensures Inv(Apply(vs, c, casing), casing)
    ensures forall country :: HasActive(vs, country) ==> HasActive(Apply(vs, c, casing), country)
  {
    hide Inv, HasActive, ReadDirectory, DistinctIdentities;
    ReadRowsAreDistinct(c.text, casing, c.minimum);
    if ReadDirectory(c.text, casing, c.minimum).Ok? {
      ImportKeepsInv(vs, c.key, c.checksum, ReadDirectory(c.text, casing, c.minimum).value, c.activate, casing);
    }
  }

  lemma {:induction false} RunKeepsInv(vs: Versions, commands: seq<Command>, casing: Casing)
    requires Inv(vs, casing)
    ensures Inv(Run(vs, commands, casing), casing)
    ensures forall country :: HasActive(vs, country) ==> HasActive(Run(vs, commands, casing), country)
    decreases |commands|
  {
    hide Inv, HasActive, Apply;
    if commands != [] {
      CommandKeepsInv(vs, commands[0], casing);
      RunKeepsInv(Apply(vs, commands[0], casing), commands[1..], casing);
    }
  }

  /** At most one version of a country is active in every reachable state, and once one has
      been activated exactly one is, forever. */
  lemma ExactlyOneActiveForever(vs: Versions, commands: seq<Command>, casing: Casing, country: string)
    requires Inv(vs, casing)
    ensures OneActive(Run(vs, commands, casing))
    ensures HasActive(vs, country) ==> HasActive(Run(vs, commands, casing), country)
  {
    hide Run, VersionOk, HasActive, OneActive;
    RunKeepsInv(vs, commands, casing);
  }

  /** Every version declares as many rows as it stores, one for each identity. */
  lemma RowCountsHold(vs: Versions, commands: seq<Command>, casing: Casing, k: Key)
    requires Inv(vs, casing) && k in Run(vs, commands, casing)
    ensures var v := Run(vs, commands, casing)[k];
            v.rowCount == |v.localities| == |Identities(v.localities, casing)|
  {
    hide Run, OneActive, Identity;
    RunKeepsInv(vs, commands, casing);
    var v := Run(vs, commands, casing)[k];
    assert VersionOk(v, casing);
    DistinctCount(v.localities, casing);
  }

  lemma {:induction false} DistinctCount(ls: seq<Locality>, casing: Casing)
    requires DistinctIdentities(ls, casing)
    ensures |Identities(ls, casing)| == |ls|
  {
    hide Identity;
    if ls != [] {
      var front, l := ls[..|ls| - 1], ls[|ls| - 1];
      DistinctCount(front, casing);
      assert ls == front + [l];
      assert Identities(ls, casing) == Identities(front, casing) + {Identity(l, casing)};
      assert Identity(l, casing) !in Identities(front, casing);
    }
  }

  function Rank(s: Status): nat {
    match s
    case Staged => 0
    case Active => 1
    case Retired => 2
  }

  /** Over a whole run a version never goes back and never changes what it holds. */
  lemma {:induction false} VersionsOnlyAdvance(vs: Versions, commands: seq<Command>, casing: Casing, k: Key)
    requires k in vs
    ensures k in Run(vs, commands, casing)
    ensures var v, w := vs[k], Run(vs, commands, casing)[k];
            w == v.(status := w.status) && Rank(v.status) <= Rank(w.status)
    decreases |commands|
  {
    hide ReadDirectory, Import;
    if commands != [] {
      var c := commands[0];
      if ReadDirectory(c.text, casing, c.minimum).Ok? {
        ImportAdvances(vs, c.key, c.checksum, ReadDirectory(c.text, casing, c.minimum).value, c.activate, k);
      }
      VersionsOnlyAdvance(Apply(vs, c, casing), commands[1..], casing, k);
    }
  }

  /** Importing the same file again changes nothing; before that, all it can change is the
      activation of a staged version that asks for it. */
  lemma RepeatedImportIsIdle(vs: Versions, c: Command, casing: Casing)
    ensures Apply(Apply(vs, c, casing), c, casing) == Apply(vs, c, casing)
    ensures c.key in vs && !(c.activate && vs[c.key].status.Staged?) ==> Apply(vs, c, casing) == vs
  {
  }

  // ---------------------------------------------------------------------------
  // The transaction as it runs
  // ---------------------------------------------------------------------------

  class Store {
    var versions: Versions

    constructor (vs: Versions)
      ensures versions == vs
    {
      versions := vs;
    }

    method ImportRows(key: Key, checksum: string, rows: seq<Locality>, activate: bool) returns (error: Option<Conflict>)
      modifies this
      ensures match Import(old(versions), key, checksum, rows, activate)
              case Ok(vs) => error.None? && versions == vs
              case Err(e) => error == Some(e) && versions == old(versions)
    {
      if key in versions {
        if versions[key].checksum != checksum || versions[key].rowCount != |rows| { return Some(Conflict); }
        if activate && versions[key].status.Staged? {
          ActivateOnly(key);
        }
        return None;
      }
      versions := versions[key := Version(checksum, Staged, |rows|, [])];
      StoreChunks(key, rows);
      if activate {
        ActivateOnly(key);
      }
      error := None;
    }

    /** A thousand rows at a time. */
    method StoreChunks(key: Key, rows: seq<Locality>)
      requires key in versions && versions[key].localities == []
      modifies this
      ensures versions == old(versions)[key := old(versions)[key].(localities := rows)]
    {
      var index := 0;
      while index < |rows|
        invariant 0 <= index && key in versions
        invariant versions == old(versions)[key :=
          old(versions)[key].(localities := rows[..if index < |rows| then index else |rows|])]
        decreases |rows| - index
      {
        var end := if index + 1000 < |rows| then index + 1000 else |rows|;
        var chunk := rows[index..end];
        assert rows[..index] + chunk == rows[..end];
        versions := versions[key := versions[key].(localities := versions[key].localities + chunk)];
        index := index + 1000;
      }
      assert rows[..|rows|] == rows;
    }

    /** Retires the country's active version, then activates the staged one. */
    method ActivateOnly(key: Key)
      requires key in versions
      modifies this
      ensures versions == Activate(Retire(old(versions), key.country), key)
    {
      versions := Retire(versions, key.country);
      if versions[key].status.Staged? {
        versions := versions[key := versions[key].(status := Active)];
      }
    }
  }
}
