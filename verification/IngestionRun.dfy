/** One export run: what its manifest describes is compared with what the listing finds, every part is
    fetched by its hash, and the rows of all parts, in the order of their names, become the daily
    manifest. */
module IngestionRun {
  import opened Common
  import opened LedgerTypes
  import opened Decimals
  import opened LedgerAdmission
  import opened Strings
  import I = Ingestion

  datatype Described = Described(name: string, bytes: nat, rows: nat)

  /** What the export's manifest says of its parts. */
  datatype ExportManifest = ExportManifest(parts: seq<Described>, bytes: nat, blobs: nat)

  /** A fetched part: its size, the hash of its bytes, and the rows they parse to. */
  datatype Fetched = Fetched(bytes: nat, sha256: string, rows: seq<I.CsvRow>)

  /** Fetching by name and expected hash. */
  type Fetch = (string, string) -> Fetched

  const CSV := ".csv"

  predicate EndsWith(name: string, suffix: string) {
    |suffix| <= |name| && name[|name| - |suffix|..] == suffix
  }

  function Names(parts: seq<Described>): (names: seq<string>)
    ensures |names| == |parts| && forall i :: 0 <= i < |parts| ==> names[i] == parts[i].name
  {
    seq(|parts|, i requires 0 <= i < |parts| => parts[i].name)
  }

  /** The described parts by name. */
  function ByName(parts: seq<Described>): (byName: map<string, Described>)
    ensures forall name :: name in byName <==> name in Names(parts)
    ensures forall name :: name in byName ==> byName[name] in parts && byName[name].name == name
  {
    if parts == [] then map[]
    else
      var n := |parts| - 1;
      assert Names(parts) == Names(parts[..n]) + [parts[n].name];
      ByName(parts[..n])[parts[n].name := parts[n]]
  }

  function SumBytes(parts: seq<Described>): nat {
    if parts == [] then 0 else SumBytes(parts[..|parts| - 1]) + parts[|parts| - 1].bytes
  }

  function SumRows(parts: seq<Described>): nat {
    if parts == [] then 0 else SumRows(parts[..|parts| - 1]) + parts[|parts| - 1].rows
  }

  predicate DescribedFits(d: Described, prefix: string) {
    I.Scoped(d.name, prefix) && EndsWith(d.name, CSV) && d.rows <= MAX_RECORDS
  }

  /** What the manifest has to satisfy by itself. */
  ghost predicate ManifestFits(m: ExportManifest, run: I.Run, prefix: string) {
    && 1 <= m.blobs == |m.parts| <= I.MAX_PARTS
    && (forall d :: d in m.parts ==> DescribedFits(d, prefix))
    && NoRepeats(Names(m.parts))
    && SumBytes(m.parts) == m.bytes && SumRows(m.parts) == run.expectedRows
  }

  /** The first n named parts, with the rows fetched for them. */
  function PartsOf(names: seq<string>, byName: map<string, Described>, found: map<string, string>, fetch: Fetch,
                   n: nat): seq<I.Part>
    requires n <= |names| && forall i :: 0 <= i < n ==> names[i] in byName && names[i] in found
  {
    if n == 0 then []
    else
      var name := names[n - 1];
      PartsOf(names, byName, found, fetch, n - 1) + [I.Part(name, byName[name].rows, fetch(name, found[name]).rows)]
  }

  /** The parts in the order of their names. */
  function PartsInOrder(m: ExportManifest, found: map<string, string>, fetch: Fetch): seq<I.Part>
    requires found.Keys == ByName(m.parts).Keys
  {
    SortedIs(Names(m.parts));
    var names := Sorted(Names(m.parts));
    assert forall i :: 0 <= i < |names| ==> names[i] in names;
    PartsOf(names, ByName(m.parts), found, fetch, |names|)
  }

  predicate FetchFits(d: Described, sha256: string, fetch: Fetch) {
    fetch(d.name, sha256).bytes == d.bytes && fetch(d.name, sha256).sha256 == sha256
  }

  /** The listing ends with page n, finds exactly the described parts, and every part is the file it
      was described and listed as, with rows that fit. */
  ghost predicate RunFits(m: ExportManifest, run: I.Run, prefix: string, list: I.Listing, fetch: Fetch, n: nat) {
    && ManifestFits(m, run, prefix)
    && I.Lists(list, prefix, n)
    && I.Listed(list, n + 1).Keys == ByName(m.parts).Keys
    && (forall d :: d in m.parts ==> FetchFits(d, I.Listed(list, n + 1)[d.name], fetch))
    && I.Ingestible(PartsInOrder(m, I.Listed(list, n + 1), fetch), run)
  }

  method CheckManifest(m: ExportManifest, run: I.Run, prefix: string) returns (ok: bool)
    ensures ok <==> ManifestFits(m, run, prefix)
  {
    hide DescribedFits;
    if !(1 <= m.blobs == |m.parts| <= I.MAX_PARTS) {
      return false;
    }
    var described: set<string>, bytes, rows := {}, 0, 0;
    assert m.parts[..0] == [];
    for i := 0 to |m.parts|
      invariant forall j :: 0 <= j < i ==> DescribedFits(m.parts[j], prefix)
      invariant NoRepeats(Names(m.parts[..i])) && described == (set name | name in Names(m.parts[..i]))
      invariant bytes == SumBytes(m.parts[..i]) && rows == SumRows(m.parts[..i])
    {
      var d := m.parts[i];
      if !DescribedFits(d, prefix) {
        assert d in m.parts;
        return false;
      }
      assert m.parts[..i + 1][..i] == m.parts[..i];
      assert Names(m.parts[..i + 1]) == Names(m.parts[..i]) + [d.name];
      if d.name in described {
        var k :| 0 <= k < i && Names(m.parts[..i])[k] == d.name;
        assert Names(m.parts)[k] == Names(m.parts)[i];
        return false;
      }
      described, bytes, rows := described + {d.name}, bytes + d.bytes, rows + d.rows;
    }
    assert m.parts[..|m.parts|] == m.parts;
    ok := bytes == m.bytes && rows == run.expectedRows;
  }

  /** Fetches the named parts one by one. */
  method FetchAll(names: seq<string>, byName: map<string, Described>, found: map<string, string>, fetch: Fetch)
    returns (parts: Option<seq<I.Part>>, bytes: nat)
    requires forall i :: 0 <= i < |names| ==> names[i] in byName && names[i] in found && byName[names[i]].name == names[i]
    ensures parts.Some? <==> forall i :: 0 <= i < |names| ==> FetchFits(byName[names[i]], found[names[i]], fetch)
    ensures parts.Some? ==> parts.value == PartsOf(names, byName, found, fetch, |names|)
    ensures parts.Some? ==> bytes == BytesOf(byName, names, |names|)
  {
    var taken: seq<I.Part> := [];
    bytes := 0;
    for i := 0 to |names|
      invariant taken == PartsOf(names, byName, found, fetch, i) && bytes == BytesOf(byName, names, i)
      invariant forall j :: 0 <= j < i ==> FetchFits(byName[names[j]], found[names[j]], fetch)
    {
      var name := names[i];
      var file := fetch(name, found[name]);
      if !FetchFits(byName[name], found[name], fetch) {
        return None, bytes;
      }
      bytes := bytes + file.bytes;
      taken := taken + [I.Part(name, byName[name].rows, file.rows)];
    }
    parts := Some(taken);
  }

  /** Fetches the described parts in the order of their names. The byte total at the end is the
      manifest's, because each part has its described size. */
  method FetchParts(m: ExportManifest, found: map<string, string>, fetch: Fetch) returns (parts: Option<seq<I.Part>>)
    requires found.Keys == ByName(m.parts).Keys && NoRepeats(Names(m.parts)) && SumBytes(m.parts) == m.bytes
    ensures parts.Some? <==> forall d :: d in m.parts ==> FetchFits(d, found[d.name], fetch)
    ensures parts.Some? ==> parts.value == PartsInOrder(m, found, fetch)
  {
    hide FetchFits, Sorted, SumBytes, PartsOf, ByName, BytesOf;
    var byName, names := ByName(m.parts), Sorted(Names(m.parts));
    SortedCovers(m.parts, names);
    var bytes;
    parts, bytes := FetchAll(names, byName, found, fetch);
    EachPartNamed(m.parts, names, found, fetch);
    if parts.Some? {
      BytesInOrder(m.parts, names);
      if bytes != m.bytes {
        assert false;
      }
    }
  }

  lemma SortedCovers(parts: seq<Described>, names: seq<string>)
    requires names == Sorted(Names(parts))
    ensures forall name :: name in names <==> name in ByName(parts)
    ensures forall i :: 0 <= i < |names| ==> names[i] in ByName(parts)
  {
    hide Sorted, ByName, Names;
    SortedIs(Names(parts));
    forall i | 0 <= i < |names| ensures names[i] in ByName(parts) {
      assert names[i] in names;
    }
  }

  lemma EachPartNamed(parts: seq<Described>, names: seq<string>, found: map<string, string>, fetch: Fetch)
    requires NoRepeats(Names(parts)) && found.Keys == ByName(parts).Keys && names == Sorted(Names(parts))
    requires forall i :: 0 <= i < |names| ==> names[i] in ByName(parts)
    ensures (forall i :: 0 <= i < |names| ==> FetchFits(ByName(parts)[names[i]], found[names[i]], fetch))
       <==> (forall d :: d in parts ==> FetchFits(d, found[d.name], fetch))
  {
    hide FetchFits, Sorted, ByName;
    SortedCovers(parts, names);
    DescribedByName(parts);
    if forall i :: 0 <= i < |names| ==> FetchFits(ByName(parts)[names[i]], found[names[i]], fetch) {
      forall d | d in parts ensures FetchFits(d, found[d.name], fetch) {
        var i :| 0 <= i < |names| && names[i] == d.name;
      }
    }
  }

  lemma {:induction false} DescribedByName(parts: seq<Described>)
    requires NoRepeats(Names(parts))
    ensures forall d :: d in parts ==> d.name in ByName(parts) && ByName(parts)[d.name] == d
  {
    if parts != [] {
      var n := |parts| - 1;
      assert parts == parts[..n] + [parts[n]];
      assert Names(parts) == Names(parts[..n]) + [parts[n].name];
      DescribedByName(parts[..n]);
      forall d | d in parts[..n] ensures d.name != parts[n].name {
        LastNameIsNew(parts, d);
      }
    }
  }

  lemma LastNameIsNew(parts: seq<Described>, d: Described)
    requires parts != [] && NoRepeats(Names(parts)) && d in parts[..|parts| - 1]
    ensures d.name != parts[|parts| - 1].name
  {
    var k :| 0 <= k < |parts| - 1 && parts[k] == d;
    assert Names(parts)[k] == d.name;
  }

  // ---------- the byte total ----------

  function BytesOf(byName: map<string, Described>, names: seq<string>, n: nat): nat
    requires n <= |names| && forall i :: 0 <= i < n ==> names[i] in byName
  {
    if n == 0 then 0 else BytesOf(byName, names, n - 1) + byName[names[n - 1]].bytes
  }

  function Sizes(byName: map<string, Described>): map<string, int> {
    map name | name in byName :: byName[name].bytes
  }

  /** The sum over distinct names does not depend on their order. */
  lemma {:induction false} BytesAreSizes(byName: map<string, Described>, names: seq<string>, n: nat)
    requires n <= |names| && NoRepeats(names) && forall i :: 0 <= i < n ==> names[i] in byName
    requires Covers(names, n, byName)
    ensures BytesOf(byName, names, n) == SumValues(Sizes(byName))
  {
    hide SumValues, Covers, NoRepeats;
    if n == 0 {
      NothingCovered(names, byName);
      NothingSummed(Sizes(byName));
    } else {
      var last := names[n - 1];
      var rest := byName - {last};
      CoversRest(names, n, byName);
      BytesAreSizes(rest, names, n - 1);
      BytesWithout(byName, rest, names, n - 1);
      SumValuesWithout(Sizes(byName), last);
      assert Sizes(byName) - {last} == Sizes(rest);
    }
  }

  /** The first n names are at least those of the map. */
  ghost predicate Covers(names: seq<string>, n: nat, byName: map<string, Described>)
    requires n <= |names|
  {
    forall name :: name in byName ==> exists i :: 0 <= i < n && names[i] == name
  }

  lemma NothingCovered(names: seq<string>, byName: map<string, Described>)
    requires Covers(names, 0, byName)
    ensures byName.Keys == {}
  {
  }

  lemma CoversRest(names: seq<string>, n: nat, byName: map<string, Described>)
    requires 0 < n <= |names| && NoRepeats(names) && Covers(names, n, byName)
    ensures Covers(names, n - 1, byName - {names[n - 1]})
    ensures forall i :: 0 <= i < n - 1 ==> names[i] != names[n - 1]
  {
    var rest := byName - {names[n - 1]};
    forall name | name in rest ensures exists i :: 0 <= i < n - 1 && names[i] == name {
      var i :| 0 <= i < n && names[i] == name;
      assert i < n - 1;
    }
  }

  lemma NothingSummed(m: map<string, int>)
    requires m.Keys == {}
    ensures SumValues(m) == 0
  {
  }

  lemma {:induction false} BytesWithout(byName: map<string, Described>, rest: map<string, Described>,
                                        names: seq<string>, n: nat)
    requires n <= |names| && forall i :: 0 <= i < n ==> names[i] in byName && names[i] in rest && rest[names[i]] == byName[names[i]]
    ensures BytesOf(byName, names, n) == BytesOf(rest, names, n)
  {
    if n > 0 {
      BytesWithout(byName, rest, names, n - 1);
    }
  }

  lemma {:induction false} SumBytesByName(parts: seq<Described>, byName: map<string, Described>, n: nat)
    requires n <= |parts| && forall i :: 0 <= i < |parts| ==> parts[i].name in byName && byName[parts[i].name] == parts[i]
    ensures SumBytes(parts[..n]) == BytesOf(byName, Names(parts), n)
  {
    if n > 0 {
      SumBytesByName(parts, byName, n - 1);
      assert parts[..n][..n - 1] == parts[..n - 1];
    }
  }

  lemma BytesInOrder(parts: seq<Described>, names: seq<string>)
    requires NoRepeats(Names(parts)) && names == Sorted(Names(parts))
    requires forall i :: 0 <= i < |names| ==> names[i] in ByName(parts)
    ensures BytesOf(ByName(parts), names, |names|) == SumBytes(parts)
  {
    hide SumBytes, SumValues, Sorted, ByName, Sizes, BytesOf, NoRepeats;
    var byName := ByName(parts);
    SortedCovers(parts, names);
    SortedKeepsDistinct(Names(parts));
    assert Covers(names, |names|, byName) && Covers(Names(parts), |parts|, byName);
    BytesAreSizes(byName, names, |names|);
    DescribedByName(parts);
    SumBytesByName(parts, byName, |parts|);
    assert parts[..|parts|] == parts;
    BytesAreSizes(byName, Names(parts), |parts|);
  }

  // ---------- the run ----------

  /** A run is accepted exactly when manifest, listing and fetched parts agree; the totals and days are
      then those of all rows in the order of the part names. */
  method IngestRun(m: ExportManifest, run: I.Run, prefix: string, list: I.Listing, fetch: Fetch, ids: I.SourceIds)
    returns (result: Option<I.Ingested>, ghost last: nat)
    ensures result.Some? <==> exists n: nat :: RunFits(m, run, prefix, list, fetch, n)
    ensures result.Some? ==>
      && RunFits(m, run, prefix, list, fetch, last)
      && var parts := PartsInOrder(m, I.Listed(list, last + 1), fetch);
         I.Reconciled(result.value.totals, result.value.days, I.AllRecords(parts, run, ids, |parts|))
  {
    hide ManifestFits, I.Ingestible, I.Lists, I.EndsAt, FetchFits, I.Reconciled, I.Listed, I.AllRecords,
      ByName, PartsInOrder, Names, SumBytes, NoRepeats;
    last := 0;
    var ok := CheckManifest(m, run, prefix);
    if !ok {
      return None, 0;
    }
    var found;
    found, last := I.Inventory(list, prefix);
    if found.None? {
      NoRun(m, run, prefix, list, fetch);
      return None, last;
    }
    OnlyRun(m, run, prefix, list, fetch, last);
    if found.value.Keys != ByName(m.parts).Keys {
      return None, last;
    }
    assert NoRepeats(Names(m.parts)) && SumBytes(m.parts) == m.bytes by { ManifestSays(m, run, prefix); }
    var parts := FetchParts(m, found.value, fetch);
    if parts.None? {
      return None, last;
    }
    result := I.Ingest(parts.value, run, ids);
  }

  lemma ManifestSays(m: ExportManifest, run: I.Run, prefix: string)
    requires ManifestFits(m, run, prefix)
    ensures NoRepeats(Names(m.parts)) && SumBytes(m.parts) == m.bytes
  {
  }

  lemma OnlyRun(m: ExportManifest, run: I.Run, prefix: string, list: I.Listing, fetch: Fetch, last: nat)
    requires I.EndsAt(list, last) && exists n: nat :: I.Lists(list, prefix, n)
    ensures I.Lists(list, prefix, last)
    ensures (exists n: nat :: RunFits(m, run, prefix, list, fetch, n)) <==> RunFits(m, run, prefix, list, fetch, last)
  {
    hide ManifestFits, I.Ingestible, I.PagesFit, FetchFits, I.Listed, ByName, PartsInOrder;
    forall n: nat | I.Lists(list, prefix, n) ensures n == last {
    }
  }

  lemma NoRun(m: ExportManifest, run: I.Run, prefix: string, list: I.Listing, fetch: Fetch)
    requires !exists n: nat :: I.Lists(list, prefix, n)
    ensures !exists n: nat :: RunFits(m, run, prefix, list, fetch, n)
  {
    hide ManifestFits, I.Ingestible, I.Lists, FetchFits, I.Listed, ByName, PartsInOrder;
  }

  // ---------- what the ledger gets ----------

  ghost predicate MapsInto(run: I.Run, services: set<ServiceId>) {
    forall key :: key in run.mapping ==> run.mapping[key] in services
  }

  /** Every record of an accepted run satisfies the ledger's own checks of a record. */
  lemma RecordsFitLedger(parts: seq<I.Part>, run: I.Run, ids: I.SourceIds, services: set<ServiceId>, n: nat, i: nat)
    requires I.Ingestible(parts, run) && MapsInto(run, services) && n <= |parts|
    requires i < |I.AllRecords(parts, run, ids, n)|
    ensures RecordFits(I.AllRecords(parts, run, ids, n)[i].record, services)
  {
    hide InMoneyRange, PlainForm, Written;
    var before := I.AllRecords(parts, run, ids, n - 1);
    if i < |before| {
      RecordsFitLedger(parts, run, ids, services, n - 1, i);
    } else {
      var part, k := parts[n - 1], i - |before|;
      assert I.PartFits(part, run) && part.rows[k] in part.rows;
      assert I.RowFits(part.rows[k], run);
    }
  }
}
