/** Which endpoint serves an API call, given the version of the service (utils/ssb.py):
    versions are compared number by number, newest first. */
module Endpoints {
  import opened Wrappers
  import opened Sorting

  type Version = seq<int>

  datatype Endpoint = Endpoint(path: string, kind: string)

  /** What one version of an API offers: an endpoint for each group of methods. */
  datatype Offer = Offer(methods: seq<string>, endpoint: Endpoint)

  datatype Row = Row(version: Version, offers: seq<Offer>)

  datatype Resolution = Found(endpoint: Endpoint) | UnknownName | NoEndpoint

  predicate VersionLe(a: Version, b: Version) {
    LexLe(a, b, IntLe)
  }

  predicate NewestFirst(a: Row, b: Row) {
    VersionLe(b.version, a.version)
  }

  predicate Supports(row: Row, verb: string) {
    exists i :: 0 <= i < |row.offers| && verb in row.offers[i].methods
  }

  /** The endpoint of the first group of methods that has the verb. */
  predicate Serves(row: Row, verb: string, e: Endpoint) {
    exists i :: 0 <= i < |row.offers| && verb in row.offers[i].methods && row.offers[i].endpoint == e
                && forall j :: 0 <= j < i ==> verb !in row.offers[j].methods
  }

  predicate Eligible(row: Row, verb: string, version: Version) {
    VersionLe(row.version, version) && Supports(row, verb)
  }

  /** The row is not for a later version, number by number, and some group of its methods has
      the verb. */
  ghost predicate Usable(row: Row, verb: string, version: Version) {
    NumbersInOrder(row.version, version) && exists i :: 0 <= i < |row.offers| && verb in row.offers[i].methods
  }

  lemma EligibleIs(row: Row, verb: string, version: Version)
    ensures Eligible(row, verb, version) <==> Usable(row, verb, version)
  {
    IntLeIs(row.version, version);
  }

  /** `e` is what the row for the greatest version serves, among the usable ones. */
  ghost predicate Best(rows: seq<Row>, verb: string, version: Version, e: Endpoint) {
    exists row :: row in rows && Usable(row, verb, version) && Serves(row, verb, e)
                  && forall other :: other in rows && Usable(other, verb, version) ==>
                      NumbersInOrder(other.version, row.version)
  }

  method GetApiEndpoint(mappings: map<string, seq<Row>>, verb: string, name: string, requested: Version,
      current: Version)
    returns (r: Resolution)
    ensures r == UnknownName <==> name !in mappings
    ensures var version := if requested == [] then current else requested;
            && (r.Found? ==> name in mappings && Best(mappings[name], verb, version, r.endpoint))
            && (r.NoEndpoint? <==>
                name in mappings && forall row :: row in mappings[name] ==> !Usable(row, verb, version))
  {
    var version := if requested == [] then current else requested;
    if name !in mappings {
      return UnknownName;
    }
    var rows := Sort(mappings[name], NewestFirst);
    SortedRows(mappings[name]);
    for i := 0 to |rows|
      invariant forall j :: 0 <= j < i ==> !Eligible(rows[j], verb, version)
    {
      if VersionLe(rows[i].version, version) {
        var e := FirstOffer(rows[i], verb);
        if e.Some? {
          NewestIsBest(mappings[name], rows, i, verb, version, e.value);
          return Found(e.value);
        }
      }
    }
    forall row | row in mappings[name] ensures !Usable(row, verb, version) {
      EligibleIs(row, verb, version);
    }
    return NoEndpoint;
  }

  method FirstOffer(row: Row, verb: string) returns (e: Option<Endpoint>)
    ensures e.None? <==> !Supports(row, verb)
    ensures e.Some? ==> Serves(row, verb, e.value)
  {
    for i := 0 to |row.offers|
      invariant forall j :: 0 <= j < i ==> verb !in row.offers[j].methods
    {
      if verb in row.offers[i].methods {
        return Some(row.offers[i].endpoint);
      }
    }
    return None;
  }

  lemma NewestFirstOrders()
    ensures TotalPreorder(NewestFirst)
  {
    forall a, b ensures NewestFirst(a, b) || NewestFirst(b, a) {
      LexLeIsTotal(a.version, b.version, IntLe);
    }
    forall a, b, c | NewestFirst(a, b) && NewestFirst(b, c) ensures NewestFirst(a, c) {
      LexLeIsTransitive(c.version, b.version, a.version, IntLe);
    }
  }

  /** The same rows, the newest versions first. */
  ghost predicate IsNewestFirst(sorted: seq<Row>, rows: seq<Row>) {
    && (forall row :: row in sorted <==> row in rows)
    && forall i, j :: 0 <= i <= j < |sorted| ==> NumbersInOrder(sorted[j].version, sorted[i].version)
  }

  lemma SortedRows(rows: seq<Row>)
    ensures IsNewestFirst(Sort(rows, NewestFirst), rows)
  {
    var sorted := Sort(rows, NewestFirst);
    NewestFirstOrders();
    SortSorts(rows, NewestFirst);
    forall i, j | 0 <= i <= j < |sorted| ensures NumbersInOrder(sorted[j].version, sorted[i].version) {
      assert NewestFirst(sorted[i], sorted[j]);
      IntLeIs(sorted[j].version, sorted[i].version);
    }
    forall row ensures row in sorted <==> row in rows {
      assert row in multiset(sorted) <==> row in multiset(rows);
    }
  }

  /** The first eligible row from the newest down is the one to use. */
  lemma NewestIsBest(rows: seq<Row>, sorted: seq<Row>, i: nat, verb: string, version: Version, e: Endpoint)
    requires IsNewestFirst(sorted, rows)
    requires i < |sorted| && Eligible(sorted[i], verb, version) && Serves(sorted[i], verb, e)
    requires forall j :: 0 <= j < i ==> !Eligible(sorted[j], verb, version)
    ensures Best(rows, verb, version, e)
  {
    assert sorted[i] in rows;
    EligibleIs(sorted[i], verb, version);
    forall other | other in rows && Usable(other, verb, version)
      ensures NumbersInOrder(other.version, sorted[i].version)
    {
      EligibleIs(other, verb, version);
      var j :| 0 <= j < |sorted| && sorted[j] == other;
    }
  }

  /** No two rows with the same version: the newest eligible row, and so the endpoint, is
      determined, however the table is listed. */
  lemma BestIsUnique(rows: seq<Row>, other: seq<Row>, verb: string, version: Version, e: Endpoint, e': Endpoint)
    requires forall a, b :: a in rows && b in rows && a.version == b.version ==> a == b
    requires multiset(rows) == multiset(other)
    requires Best(rows, verb, version, e) && Best(other, verb, version, e')
    ensures e == e'
  {
    var row :| row in rows && Usable(row, verb, version) && Serves(row, verb, e)
               && forall o :: o in rows && Usable(o, verb, version) ==> NumbersInOrder(o.version, row.version);
    var row' :| row' in other && Usable(row', verb, version) && Serves(row', verb, e')
                && forall o :: o in other && Usable(o, verb, version) ==> NumbersInOrder(o.version, row'.version);
    assert row in multiset(other) && row' in multiset(rows);
    IntLeIs(row.version, row'.version);
    IntLeIs(row'.version, row.version);
    LexLeIsTotal(row.version, row'.version, IntLe);
  }
}
