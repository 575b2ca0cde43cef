/**
 * The reports page's statistics over the whole aggregate: record and
 * revenue totals, completed and pending counts, distinct customers, the
 * brand tally and its top five, the average ticket, the low-stock count
 * and the per-status counts.
 */
module Reports {
  import opened Types
  import opened Collections
  import opened Aggregates
  import Store
  import Customers

  /** The statuses counted as pending: everything not yet ready or delivered. */
  const PendingStatuses: set<ServiceStatus> := {Beklemede, Islemde, ParcaBekliyor}

  /** The number of records with status `s`. */
  function CountOf(rs: seq<ServiceRecord>, s: ServiceStatus): nat {
    CountIn(rs, {s})
  }

  /** The five per-status counts add up to the number of records. */
  lemma StatusCountsTotal(rs: seq<ServiceRecord>)
    ensures CountOf(rs, Beklemede) + CountOf(rs, Islemde) + CountOf(rs, ParcaBekliyor)
            + CountOf(rs, Hazir) + CountOf(rs, TeslimEdildi) == |rs|
  {
    CountInUnion(rs, {Beklemede}, {Islemde});
    CountInUnion(rs, {Beklemede, Islemde}, {ParcaBekliyor});
    CountInUnion(rs, {Beklemede, Islemde, ParcaBekliyor}, {Hazir});
    CountInUnion(rs, {Beklemede, Islemde, ParcaBekliyor, Hazir}, {TeslimEdildi});
    assert {Beklemede} + {Islemde} == {Beklemede, Islemde};
    assert {Beklemede, Islemde} + {ParcaBekliyor} == {Beklemede, Islemde, ParcaBekliyor};
    assert {Beklemede, Islemde, ParcaBekliyor} + {Hazir} == {Beklemede, Islemde, ParcaBekliyor, Hazir};
    assert {Beklemede, Islemde, ParcaBekliyor, Hazir} + {TeslimEdildi}
        == {Beklemede, Islemde, ParcaBekliyor, Hazir, TeslimEdildi};
    CountInAll(rs);
  }

  /** Completed, pending and ready records make up all records: pending leaves out the ready ones. */
  lemma CompletedPendingReady(rs: seq<ServiceRecord>)
    ensures CountIn(rs, {TeslimEdildi}) + CountIn(rs, PendingStatuses) + CountIn(rs, {Hazir}) == |rs|
  {
    CountInUnion(rs, PendingStatuses, {Hazir});
    CountInUnion(rs, PendingStatuses + {Hazir}, {TeslimEdildi});
    assert PendingStatuses + {Hazir} + {TeslimEdildi} == {Beklemede, Islemde, ParcaBekliyor, Hazir, TeslimEdildi};
    CountInAll(rs);
  }

  /**
   * The status tally (a reduce into a dictionary): a status has a key
   * exactly when some record has it, and its value is its count.
   */
  method StatusCounts(rs: seq<ServiceRecord>) returns (m: map<ServiceStatus, nat>)
    ensures forall s :: s in m <==> CountOf(rs, s) > 0
    ensures forall s :: s in m ==> m[s] == CountOf(rs, s)
  {
    m := map[];
    var i := 0;
    while i < |rs|
      invariant 0 <= i <= |rs|
      invariant forall s :: s in m <==> CountOf(rs[..i], s) > 0
      invariant forall s :: s in m ==> m[s] == CountOf(rs[..i], s)
    {
      var s := rs[i].status;
      m := m[s := (if s in m then m[s] else 0) + 1];
      PrefixStep(rs, i);
      forall t ensures CountOf(rs[..i + 1], t) == CountOf(rs[..i], t) + (if s == t then 1 else 0) {
        CountInAppend(rs[..i], rs[i], {t});
      }
      i := i + 1;
    }
    assert rs[..i] == rs;
  }

  /** The brand dictionary after the records `p`, filled one record at a time. */
  function BrandMap(p: seq<ServiceRecord>): map<string, nat> {
    if p == [] then map[]
    else
      var m, b := BrandMap(p[..|p| - 1]), p[|p| - 1].deviceBrand;
      m[b := (if b in m then m[b] else 0) + 1]
  }

  lemma BrandMapStep(p: seq<ServiceRecord>, r: ServiceRecord)
    ensures var m, b := BrandMap(p), r.deviceBrand;
      BrandMap(p + [r]) == m[b := (if b in m then m[b] else 0) + 1]
  {
    assert (p + [r])[..|p|] == p;
  }

  /**
   * The dictionary holds exactly the brands some record has, each with
   * its number of records.
   */
  lemma {:induction false} BrandMapMeaning(p: seq<ServiceRecord>, x: string)
    ensures x in BrandMap(p) <==> x in Keys(p, BrandOf)
    ensures x in BrandMap(p) ==> BrandMap(p)[x] == |Matching(p, BrandOf, x)|
  {
    if p != [] {
      var init, r := p[..|p| - 1], p[|p| - 1];
      assert p == init + [r];
      BrandMapMeaning(init, x);
      KeysAppend(init, r, BrandOf);
      MatchingAppend(init, r, BrandOf, x);
      if x !in Keys(init, BrandOf) {
        MatchingNonEmpty(init, BrandOf, x);
      }
    }
  }

  /** The loop's step over the prefixes of `rs`. */
  lemma BrandPrefixStep(rs: seq<ServiceRecord>, i: nat)
    requires i < |rs|
    ensures var m, b := BrandMap(rs[..i]), rs[i].deviceBrand;
      && BrandMap(rs[..i + 1]) == m[b := (if b in m then m[b] else 0) + 1]
      && Distinct(Keys(rs[..i + 1], BrandOf)) == if b in m then Distinct(Keys(rs[..i], BrandOf))
                                                 else Distinct(Keys(rs[..i], BrandOf)) + [b]
  {
    PrefixStep(rs, i);
    BrandMapStep(rs[..i], rs[i]);
    DistinctKeysStep(rs[..i], rs[i], BrandOf);
    BrandMapMeaning(rs[..i], rs[i].deviceBrand);
  }

  /** The dictionary's entries, read in the order `order` (Object.entries). */
  function EntriesOf(order: seq<string>, m: map<string, nat>): (es: seq<Entry>)
    requires forall k :: 0 <= k < |order| ==> order[k] in m
    ensures |es| == |order|
    ensures forall k :: 0 <= k < |order| ==> es[k] == Entry(order[k], m[order[k]])
  {
    seq(|order|, k requires 0 <= k < |order| => Entry(order[k], m[order[k]]))
  }

  /** Reading the finished dictionary back in key order gives the tally. */
  lemma BrandMapTally(rs: seq<ServiceRecord>)
    ensures var order, m := Distinct(Keys(rs, BrandOf)), BrandMap(rs);
      && (forall k :: 0 <= k < |order| ==> order[k] in m)
      && EntriesOf(order, m) == Tally(rs, BrandOf)
  {
    var order, m := Distinct(Keys(rs, BrandOf)), BrandMap(rs);
    forall k | 0 <= k < |order| ensures order[k] in m && m[order[k]] == |Matching(rs, BrandOf, order[k])| {
      BrandMapMeaning(rs, order[k]);
    }
  }

  /**
   * The brand tally loop (a forEach into a dictionary): the counts, and
   * the order in which each brand's key was first set.
   */
  method FillBrandCounts(rs: seq<ServiceRecord>) returns (counts: map<string, nat>, order: seq<string>)
    ensures counts == BrandMap(rs)
    ensures order == Distinct(Keys(rs, BrandOf))
  {
    counts, order := map[], [];
    var i := 0;
    while i < |rs|
      invariant 0 <= i <= |rs|
      invariant counts == BrandMap(rs[..i])
      invariant order == Distinct(Keys(rs[..i], BrandOf))
    {
      var b := rs[i].deviceBrand;
      BrandPrefixStep(rs, i);
      if b in counts {
        counts := counts[b := counts[b] + 1];
      } else {
        counts := counts[b := 1];
        order := order + [b];
      }
      i := i + 1;
    }
    assert rs[..i] == rs;
  }

  /** The brand tally read back from the dictionary, in key order. */
  method BrandCounts(rs: seq<ServiceRecord>) returns (entries: seq<Entry>)
    ensures entries == Tally(rs, BrandOf)
  {
    var counts, order := FillBrandCounts(rs);
    BrandMapTally(rs);
    entries := EntriesOf(order, counts);
  }

  function Min(a: int, b: int): int {
    if a < b then a else b
  }

  /** The five most frequent brands: the tally sorted by count, largest first, cut after five. */
  function TopBrands(entries: seq<Entry>): (top: seq<Entry>)
    ensures |top| == Min(5, |entries|)
    ensures SortedDesc(top, EntryCount)
    ensures multiset(top) <= multiset(entries)
  {
    var sorted := SortDesc(entries, EntryCount);
    TakeSubMultiset(sorted, 5);
    Take(sorted, 5)
  }

  /** Every brand left out of the top five has a count no larger than any brand shown. */
  lemma TopBrandsLargest(entries: seq<Entry>, e: Entry)
    requires e in entries && e !in TopBrands(entries)
    ensures |TopBrands(entries)| == 5
    ensures forall t :: t in TopBrands(entries) ==> t.count >= e.count
  {
    var sorted := SortDesc(entries, EntryCount);
    var top := TopBrands(entries);
    assert e in multiset(sorted);
    var m :| 0 <= m < |sorted| && sorted[m] == e;
    assert top == sorted[..|top|];
    assert m >= |top|;
    forall t | t in top ensures t.count >= e.count {
      var i :| 0 <= i < |top| && top[i] == t;
      assert sorted[i] == t;
      assert EntryCount(sorted[i]) >= EntryCount(sorted[m]);
    }
  }

  /** The average ticket: the revenue divided by the record count, or 0 when there are no records. */
  function Average(total: int, n: nat): (avg: real)
    ensures n == 0 ==> avg == 0.0
    ensures n > 0 ==> avg * n as real == total as real
  {
    if n > 0 then total as real / n as real else 0.0
  }

  /** A closed time interval: the current day or the current month, taken from the clock. */
  datatype Interval = Interval(start: Time, end: Time)

  predicate InInterval(t: Time, iv: Interval) {
    iv.start <= t <= iv.end
  }

  /** The records created within `iv`, in order. */
  function CreatedWithin(rs: seq<ServiceRecord>, iv: Interval): (w: seq<ServiceRecord>)
    ensures |w| <= |rs|
    ensures forall r :: r in w <==> r in rs && InInterval(r.createdAt, iv)
  {
    if rs == [] then []
    else
      var init, r := rs[..|rs| - 1], rs[|rs| - 1];
      assert rs == init + [r];
      CreatedWithin(init, iv) + (if InInterval(r.createdAt, iv) then [r] else [])
  }

  /** The interval filter keeps order and repetitions: a concatenation filters part by part. */
  lemma {:induction false} CreatedWithinAppend(a: seq<ServiceRecord>, b: seq<ServiceRecord>, iv: Interval)
    ensures CreatedWithin(a + b, iv) == CreatedWithin(a, iv) + CreatedWithin(b, iv)
  {
    if b == [] {
      assert a + b == a;
    } else {
      var init, r := b[..|b| - 1], b[|b| - 1];
      assert (a + b)[..|a + b| - 1] == a + init;
      assert (a + b)[|a + b| - 1] == r;
      CreatedWithinAppend(a, init, iv);
    }
  }

  /** A record counted for a day is counted for any interval around that day, such as its month. */
  lemma {:induction false} CreatedWithinNested(rs: seq<ServiceRecord>, inner: Interval, outer: Interval)
    requires outer.start <= inner.start && inner.end <= outer.end
    ensures |CreatedWithin(rs, inner)| <= |CreatedWithin(rs, outer)|
  {
    if rs != [] {
      CreatedWithinNested(rs[..|rs| - 1], inner, outer);
    }
  }

  /** The statistics the reports page shows. */
  datatype Report = Report(
    todayCount: nat,
    todayRevenue: int,
    monthCount: nat,
    monthlyRevenue: int,
    totalRecords: nat,
    totalRevenue: int,
    completedCount: nat,
    pendingCount: nat,
    uniqueCustomers: nat,
    topBrands: seq<Entry>,
    avgTicket: real,
    lowStockCount: nat,
    statusCounts: map<ServiceStatus, nat>)

  /** Computes the page's statistics from the loaded aggregate, for the given day and month. */
  method ComputeReport(data: AppData, today: Interval, month: Interval) returns (rep: Report)
    ensures var rs := data.serviceRecords;
      && rep.todayCount == |CreatedWithin(rs, today)|
      && rep.todayRevenue == SumPrices(CreatedWithin(rs, today))
      && rep.monthCount == |CreatedWithin(rs, month)|
      && rep.monthlyRevenue == SumPrices(CreatedWithin(rs, month))
      && rep.totalRecords == |rs|
      && rep.totalRevenue == SumPrices(rs)
      && rep.completedCount == CountIn(rs, {TeslimEdildi})
      && rep.pendingCount == CountIn(rs, PendingStatuses)
      && rep.completedCount + rep.pendingCount + CountOf(rs, Hazir) == rep.totalRecords
      && rep.uniqueCustomers == |set p | p in Keys(rs, PhoneOf)|
      && rep.uniqueCustomers <= rep.totalRecords
      && rep.topBrands == TopBrands(Tally(rs, BrandOf))
      && rep.avgTicket == Average(rep.totalRevenue, rep.totalRecords)
      && rep.lowStockCount == |Store.LowStock(data.stockItems)|
      && (forall s :: s in rep.statusCounts <==> CountOf(rs, s) > 0)
      && (forall s :: s in rep.statusCounts ==> rep.statusCounts[s] == CountOf(rs, s))
  {
    var rs := data.serviceRecords;
    var revenue := SumPrices(rs);
    var completed := CountIn(rs, {TeslimEdildi});
    var pending := CountIn(rs, PendingStatuses);
    CompletedPendingReady(rs);
    var phones := set p | p in Keys(rs, PhoneOf);
    DistinctCardinality(Keys(rs, PhoneOf));
    var brands := BrandCounts(rs);
    var statusCounts := StatusCounts(rs);
    var avg := Average(revenue, |rs|);
    var todays, months := CreatedWithin(rs, today), CreatedWithin(rs, month);
    rep := Report(|todays|, SumPrices(todays), |months|, SumPrices(months), |rs|, revenue, completed, pending, |phones|, TopBrands(brands), avg,
                  |Store.LowStock(data.stockItems)|, statusCounts);
  }

  /**
   * The reports page and the customers page agree: as many unique
   * customers as customers listed, and the total revenue is what the
   * listed customers spent altogether.
   */
  lemma ReportAgreesWithCustomers(rs: seq<ServiceRecord>)
    ensures var cs := SortDesc(Customers.Grouped(rs), Customers.LastVisit);
      && |set p | p in Keys(rs, PhoneOf)| == |cs|
      && SumPrices(rs) == SumBy(cs, Customers.TotalSpent)
  {
    Customers.CustomersSpec(rs);
  }
}
