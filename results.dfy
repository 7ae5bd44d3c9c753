/** The loop that fills `plane_emissions`: for each plane in turn it computes
    the three figures, stores them under the plane's name, and reports the
    comparison in years, months or weeks. A Python dictionary keeps its keys
    in first-insertion order, and assigning to an existing key replaces the
    value in place. An exception ends the script at the plane that raised it. */
module Results {
  import opened Failures
  import opened Quantities
  import opened Emissions

  /** The dictionary as a value: its keys in insertion order and its entries. */
  datatype Table = Table(keys: seq<string>, entries: map<string, CO2Emissions>)

  /** No key is listed twice and the listed keys are the keys of the entries. */
  predicate Valid(t: Table) {
    (forall i, j :: 0 <= i < j < |t.keys| ==> t.keys[i] != t.keys[j]) &&
    (forall k | k in t.entries :: k in t.keys) &&
    (forall k | k in t.keys :: k in t.entries)
  }

  /** `d[k] = v`: a new key goes to the end of the order, an existing key keeps
      its place; the value under `k` becomes `v`, and no other key is added,
      removed or changed. */
  function Insert(t: Table, k: string, v: CO2Emissions): (r: Table)
    ensures k in r.entries && r.entries[k] == v
    ensures forall k' :: k' != k ==> (k' in r.entries <==> k' in t.entries)
    ensures forall k' | k' in t.entries && k' != k :: r.entries[k'] == t.entries[k']
    ensures k in t.keys ==> r.keys == t.keys
    ensures k !in t.keys ==> r.keys == t.keys + [k]
    ensures Valid(t) ==> Valid(r)
  {
    Table(if k in t.keys then t.keys else t.keys + [k], t.entries[k := v])
  }

  /** `plane_emissions`, the dictionary the loop fills in place. */
  class EmissionsTable {
    var keys: seq<string>
    var entries: map<string, CO2Emissions>

    function Contents(): Table
      reads this
    {
      Table(keys, entries)
    }

    /** `plane_emissions = {}` */
    constructor ()
      ensures Contents() == Table([], map[])
      ensures Valid(Contents())
    {
      keys := [];
      entries := map[];
    }

    /** `plane_emissions[name] = emissions` */
    method Put(name: string, emissions: CO2Emissions)
      requires Valid(Contents())
      modifies this
      ensures Contents() == Insert(old(Contents()), name, emissions)
      ensures Valid(Contents())
    {
      if name !in entries {
        keys := keys + [name];
      }
      entries := entries[name := emissions];
    }
  }

  /** What the script prints for one plane: its name and the comparison in
      the units chosen for it. */
  datatype Report = Report(name: string, shown: Quantity)

  /** The state of the script after some iterations: the dictionary, what has
      been printed, and the exception that stopped it, if one did. */
  datatype Outcome = Outcome(table: Table, reports: seq<Report>, failure: Option<Error>)

  const Start := Outcome(Table([], map[]), [], None)

  /** The figures of `p` and the conversion of its comparison both succeed. */
  predicate PlaneSucceeds(p: PlaneCharacteristics, driving: Quantity) {
    ComputeEmissions(p, driving).Ok? && ReportComparison(ComputeEmissions(p, driving).value.co2Comparison).Ok?
  }

  predicate AllSucceed(ps: seq<PlaneCharacteristics>, driving: Quantity) {
    forall i :: 0 <= i < |ps| ==> PlaneSucceeds(ps[i], driving)
  }

  /** One iteration. Nothing happens after an exception. A failing
      computation stops the script before the dictionary is touched; a
      failing conversion of the comparison stops it after the entry is stored. */
  function Step(s: Outcome, p: PlaneCharacteristics, driving: Quantity): (r: Outcome)
    ensures s.failure.Some? ==> r == s
    ensures r.failure.None? <==> s.failure.None? && PlaneSucceeds(p, driving)
    ensures forall k | k in s.table.entries && k != p.name :: k in r.table.entries && r.table.entries[k] == s.table.entries[k]
    ensures forall k | k in r.table.entries && k != p.name :: k in s.table.entries
    ensures r.failure.None? ==>
      r.table == Insert(s.table, p.name, ComputeEmissions(p, driving).value) &&
      r.reports == s.reports + [Report(p.name, ReportComparison(ComputeEmissions(p, driving).value.co2Comparison).value)]
    ensures s.failure.None? && ComputeEmissions(p, driving).Err? ==> r.table == s.table
    ensures s.failure.None? && ComputeEmissions(p, driving).Ok? ==>
      r.table == Insert(s.table, p.name, ComputeEmissions(p, driving).value)
    ensures r.failure.Some? ==> r.reports == s.reports
    ensures s.failure.None? && ComputeEmissions(p, driving).Err? ==>
      r.failure == Some(ComputeEmissions(p, driving).error)
    ensures (s.failure.None? && ComputeEmissions(p, driving).Ok? &&
             ReportComparison(ComputeEmissions(p, driving).value.co2Comparison).Err?) ==>
      r.failure == Some(ReportComparison(ComputeEmissions(p, driving).value.co2Comparison).error)
  {
    if s.failure.Some? then s
    else
      match ComputeEmissions(p, driving)
      case Err(e) => s.(failure := Some(e))
      case Ok(emissions) =>
        var stored := s.(table := Insert(s.table, p.name, emissions));
        match ReportComparison(emissions.co2Comparison)
        case Err(e) => stored.(failure := Some(e))
        case Ok(shown) => stored.(reports := s.reports + [Report(p.name, shown)])
  }

  /** The loop run over `ps`, one plane after another. */
  function Run(ps: seq<PlaneCharacteristics>, driving: Quantity): (r: Outcome)
    decreases |ps|
    ensures |r.reports| <= |ps|
    ensures r.failure.None? ==> |r.reports| == |ps|
  {
    if |ps| == 0 then Start
    else Step(Run(ps[..|ps| - 1], driving), ps[|ps| - 1], driving)
  }

  /** The plane names in order, repeats included. */
  function Names(ps: seq<PlaneCharacteristics>): (ns: seq<string>)
    ensures |ns| == |ps| && forall i :: 0 <= i < |ps| ==> ns[i] == ps[i].name
  {
    seq(|ps|, i requires 0 <= i < |ps| => ps[i].name)
  }

  /** Where `x` first occurs in `ns`. */
  function FirstIndex(ns: seq<string>, x: string): (i: nat)
    requires x in ns
    ensures i < |ns| && ns[i] == x
    ensures forall j :: 0 <= j < i ==> ns[j] != x
  {
    if ns[0] == x then 0 else 1 + FirstIndex(ns[1..], x)
  }

  /** Where `x` last occurs in `ns`. */
  function LastIndex(ns: seq<string>, x: string): (i: nat)
    requires x in ns
    ensures i < |ns| && ns[i] == x
    ensures forall j :: i < j < |ns| ==> ns[j] != x
  {
    if ns[|ns| - 1] == x then |ns| - 1 else LastIndex(ns[..|ns| - 1], x)
  }

  // Facts about the loop.

  lemma NamesOfPrefix(ps: seq<PlaneCharacteristics>)
    requires |ps| > 0
    ensures Names(ps) == Names(ps[..|ps| - 1]) + [ps[|ps| - 1].name]
  {
  }

  /** The dictionary never lists a key twice. */
  lemma {:induction false} RunValid(ps: seq<PlaneCharacteristics>, driving: Quantity)
    ensures Valid(Run(ps, driving).table)
  {
    if |ps| > 0 {
      RunValid(ps[..|ps| - 1], driving);
    }
  }

  /** The script gets through every plane exactly when every plane's figures
      and its reported comparison can be computed. */
  lemma {:induction false} RunSucceeds(ps: seq<PlaneCharacteristics>, driving: Quantity)
    ensures Run(ps, driving).failure.None? <==> AllSucceed(ps, driving)
  {
    if |ps| > 0 {
      RunSucceeds(ps[..|ps| - 1], driving);
      AllSucceedSplit(ps, driving);
    }
  }

  /** After an exception, later planes change nothing. */
  lemma {:induction false} RunAfterFailure(ps: seq<PlaneCharacteristics>, rest: seq<PlaneCharacteristics>, driving: Quantity)
    requires Run(ps, driving).failure.Some?
    ensures Run(ps + rest, driving) == Run(ps, driving)
  {
    if |rest| > 0 {
      var shorter := rest[..|rest| - 1];
      assert (ps + rest)[..|ps + rest| - 1] == ps + shorter;
      RunAfterFailure(ps, shorter, driving);
      assert Run(ps + rest, driving) == Step(Run(ps + shorter, driving), (ps + rest)[|ps + rest| - 1], driving);
    } else {
      assert ps + rest == ps;
    }
  }

  /** Without an exception, one report is printed per plane, in order, each
      the comparison of that plane's own figures in its chosen units. */
  lemma {:induction false} RunReports(ps: seq<PlaneCharacteristics>, driving: Quantity)
    requires AllSucceed(ps, driving)
    ensures var reports := Run(ps, driving).reports;
      |reports| == |ps| &&
      forall i :: 0 <= i < |ps| ==>
        reports[i] == Report(ps[i].name, ReportComparison(ComputeEmissions(ps[i], driving).value.co2Comparison).value)
  {
    if |ps| > 0 {
      AllSucceedSplit(ps, driving);
      RunSucceeds(ps[..|ps| - 1], driving);
      RunReports(ps[..|ps| - 1], driving);
    }
  }

  /** Without an exception, the keys are exactly the plane names. */
  lemma {:induction false} RunKeys(ps: seq<PlaneCharacteristics>, driving: Quantity)
    requires AllSucceed(ps, driving)
    ensures forall n :: n in Run(ps, driving).table.keys <==> n in Names(ps)
  {
    if |ps| > 0 {
      AllSucceedSplit(ps, driving);
      RunSucceeds(ps[..|ps| - 1], driving);
      RunKeys(ps[..|ps| - 1], driving);
      NamesOfPrefix(ps);
    }
  }

  /** Without an exception, the keys are in the order in which each name
      first appears among the planes. */
  lemma {:induction false} RunKeysInFirstInsertionOrder(ps: seq<PlaneCharacteristics>, driving: Quantity)
    requires AllSucceed(ps, driving)
    ensures InFirstInsertionOrder(Run(ps, driving).table.keys, Names(ps))
  {
    if |ps| > 0 {
      var prefix := ps[..|ps| - 1];
      AllSucceedSplit(ps, driving);
      RunSucceeds(prefix, driving);
      RunKeysInFirstInsertionOrder(prefix, driving);
      RunKeys(prefix, driving);
      RunValid(prefix, driving);
      NamesOfPrefix(ps);
      var p := ps[|ps| - 1];
      InsertKeepsFirstInsertionOrder(Run(prefix, driving).table, Names(prefix), p.name, ComputeEmissions(p, driving).value);
    }
  }

  /** When no name repeats, the keys are the names in the order of the planes. */
  lemma {:induction false} RunKeysDistinctNames(ps: seq<PlaneCharacteristics>, driving: Quantity)
    requires AllSucceed(ps, driving)
    requires forall i, j :: 0 <= i < j < |ps| ==> ps[i].name != ps[j].name
    ensures Run(ps, driving).table.keys == Names(ps)
  {
    if |ps| > 0 {
      var prefix := ps[..|ps| - 1];
      AllSucceedSplit(ps, driving);
      RunSucceeds(prefix, driving);
      RunKeysDistinctNames(prefix, driving);
      NamesOfPrefix(ps);
      assert ps[|ps| - 1].name !in Names(prefix);
    }
  }

  /** The script itself: no exception is raised, and the dictionary holds
      the five aircraft under their names, in the order they are listed. */
  lemma ScriptTable()
    ensures var outcome := Run(Planes, Co2TonsYearDriving().value);
      outcome.failure.None? && outcome.table.keys == ["B-52", "B-1", "B-2", "F-15", "F-35"]
  {
    var driving := Co2TonsYearDriving().value;
    PlanesSucceed();
    RunSucceeds(Planes, driving);
    PlaneNames();
    RunKeysDistinctNames(Planes, driving);
  }

  lemma PlaneNames()
    ensures forall i, j :: 0 <= i < j < |Planes| ==> Planes[i].name != Planes[j].name
    ensures Names(Planes) == ["B-52", "B-1", "B-2", "F-15", "F-35"]
  {
  }

  /** Every aircraft of the script gets its figures and its comparison
      printed, in years. */
  lemma PlanesSucceed()
    ensures AllSucceed(Planes, Co2TonsYearDriving().value)
  {
    PlanesReportedInYears();
  }

  /** Every key of `keys` is among `ns`, and the keys are ordered by where
      they first occur in `ns`. */
  ghost predicate InFirstInsertionOrder(keys: seq<string>, ns: seq<string>) {
    forall i, j | 0 <= i < j < |keys| ::
      keys[i] in ns && keys[j] in ns && FirstIndex(ns, keys[i]) < FirstIndex(ns, keys[j])
  }

  /** Inserting the next name keeps the keys in first-insertion order. */
  lemma InsertKeepsFirstInsertionOrder(t: Table, ns: seq<string>, y: string, v: CO2Emissions)
    requires Valid(t) && InFirstInsertionOrder(t.keys, ns)
    requires forall n :: n in t.keys <==> n in ns
    ensures InFirstInsertionOrder(Insert(t, y, v).keys, ns + [y])
  {
    var keys := Insert(t, y, v).keys;
    forall x | x in ns
      ensures FirstIndex(ns + [y], x) == FirstIndex(ns, x)
    {
      FirstIndexOfExtension(ns, y, x);
    }
    if y !in ns {
      FirstIndexOfNew(ns, y);
      assert keys == t.keys + [y];
      forall i, j | 0 <= i < j < |keys|
        ensures keys[i] in ns + [y] && keys[j] in ns + [y]
        ensures FirstIndex(ns + [y], keys[i]) < FirstIndex(ns + [y], keys[j])
      {
        if j == |keys| - 1 {
          assert keys[i] == t.keys[i];
        }
      }
    }
  }

  lemma AllSucceedSplit(ps: seq<PlaneCharacteristics>, driving: Quantity)
    requires |ps| > 0
    ensures AllSucceed(ps, driving) <==> AllSucceed(ps[..|ps| - 1], driving) && PlaneSucceeds(ps[|ps| - 1], driving)
  {
    var prefix := ps[..|ps| - 1];
    assert forall i :: 0 <= i < |prefix| ==> prefix[i] == ps[i];
  }

  lemma FirstIndexOfExtension(ns: seq<string>, y: string, x: string)
    requires x in ns
    ensures FirstIndex(ns + [y], x) == FirstIndex(ns, x)
  {
    var i := FirstIndex(ns, x);
    var k := FirstIndex(ns + [y], x);
    assert (ns + [y])[i] == x;
    assert k < |ns| ==> (ns + [y])[k] == ns[k];
  }

  lemma FirstIndexOfNew(ns: seq<string>, y: string)
    requires y !in ns
    ensures FirstIndex(ns + [y], y) == |ns|
  {
    assert forall j :: 0 <= j < |ns| ==> (ns + [y])[j] == ns[j];
  }

  /** Without an exception, the entry of each name holds the figures of the
      last plane with that name, computed from that plane's record alone. */
  lemma {:induction false} RunLastWriteWins(ps: seq<PlaneCharacteristics>, driving: Quantity)
    requires AllSucceed(ps, driving)
    ensures var entries := Run(ps, driving).table.entries;
      forall n | n in entries ::
        n in Names(ps) && entries[n] == ComputeEmissions(ps[LastIndex(Names(ps), n)], driving).value
  {
    if |ps| > 0 {
      AllSucceedSplit(ps, driving);
      RunSucceeds(ps[..|ps| - 1], driving);
      var prefix := ps[..|ps| - 1];
      RunLastWriteWins(prefix, driving);
      NamesOfPrefix(ps);
      var ns := Names(ps);
      var last := ps[|ps| - 1].name;
      forall n | n in Run(prefix, driving).table.entries && n != last
        ensures LastIndex(ns, n) == LastIndex(Names(prefix), n)
      {
        LastIndexOfExtension(Names(prefix), last, n);
      }
      assert LastIndex(ns, last) == |ps| - 1;
    }
  }

  lemma LastIndexOfExtension(ns: seq<string>, y: string, x: string)
    requires x in ns && x != y
    ensures LastIndex(ns + [y], x) == LastIndex(ns, x)
  {
    assert (ns + [y])[..|ns|] == ns;
  }

  /** The loop of the script over `planes`, filling a fresh dictionary in
      place and stopping at the first exception. What it leaves behind is
      what `Run` describes. */
  method BuildEmissions(planes: seq<PlaneCharacteristics>) returns (table: EmissionsTable, reports: seq<Report>, failure: Option<Error>)
    ensures fresh(table)
    ensures Outcome(table.Contents(), reports, failure) == Run(planes, Co2TonsYearDriving().value)
  {
    var driving := Co2TonsYearDriving().value;
    table := new EmissionsTable();
    reports := [];
    failure := None;
    var i := 0;
    while i < |planes|
      invariant 0 <= i <= |planes|
      invariant Valid(table.Contents())
      invariant failure.None?
      invariant Outcome(table.Contents(), reports, failure) == Run(planes[..i], driving)
    {
      var plane := planes[i];
      assert planes[..i + 1][..i] == planes[..i];
      assert Run(planes[..i + 1], driving) == Step(Run(planes[..i], driving), plane, driving);
      var computed := ComputeEmissions(plane, driving);
      if computed.Err? {
        failure := Some(computed.error);
        StopEarly(planes, i + 1, driving);
        return;
      }
      table.Put(plane.name, computed.value);
      var shown := ReportComparison(computed.value.co2Comparison);
      if shown.Err? {
        failure := Some(shown.error);
        StopEarly(planes, i + 1, driving);
        return;
      }
      reports := reports + [Report(plane.name, shown.value)];
      i := i + 1;
    }
    assert planes[..i] == planes;
  }

  lemma StopEarly(planes: seq<PlaneCharacteristics>, n: nat, driving: Quantity)
    requires n <= |planes| && Run(planes[..n], driving).failure.Some?
    ensures Run(planes, driving) == Run(planes[..n], driving)
  {
    RunAfterFailure(planes[..n], planes[n..], driving);
    assert planes[..n] + planes[n..] == planes;
  }
}
