/**
 * The dashboard: its status counters, this month's revenue, and the
 * record list filtered by a search query and a status and cut after ten
 * rows.
 */
module Dashboard {
  import opened Types
  import opened Collections
  import opened Aggregates
  import Text
  import Reports

  /** The statuses the "ongoing" counter counts; waiting for a part is not one of them. */
  const OngoingStatuses: set<ServiceStatus> := {Islemde, Beklemede}

  /** The dashboard's counters. */
  datatype Stats = Stats(ongoing: nat, completed: nat, waitingParts: nat, monthlyRevenue: int)

  /** The counters over the records, with this month given as an interval. */
  function DashboardStats(rs: seq<ServiceRecord>, month: Reports.Interval): (s: Stats)
    ensures s.ongoing + s.completed + s.waitingParts <= |rs|
    ensures s.monthlyRevenue == SumPrices(Reports.CreatedWithin(rs, month))
  {
    var s := Stats(CountIn(rs, OngoingStatuses), CountIn(rs, {TeslimEdildi}), CountIn(rs, {ParcaBekliyor}),
                   SumPrices(Reports.CreatedWithin(rs, month)));
    StatsPartition(rs);
    s
  }

  /** The three counters and the ready records partition the records: the status sets are disjoint. */
  lemma StatsPartition(rs: seq<ServiceRecord>)
    ensures CountIn(rs, OngoingStatuses) + CountIn(rs, {TeslimEdildi}) + CountIn(rs, {ParcaBekliyor})
            + CountIn(rs, {Hazir}) == |rs|
  {
    CountInUnion(rs, OngoingStatuses, {TeslimEdildi});
    CountInUnion(rs, OngoingStatuses + {TeslimEdildi}, {ParcaBekliyor});
    CountInUnion(rs, OngoingStatuses + {TeslimEdildi} + {ParcaBekliyor}, {Hazir});
    assert OngoingStatuses + {TeslimEdildi} + {ParcaBekliyor} + {Hazir}
        == {Beklemede, Islemde, ParcaBekliyor, Hazir, TeslimEdildi};
    CountInAll(rs);
  }

  /** A record waiting for a part adds to the waiting counter and not to the ongoing one. */
  lemma WaitingIsNotOngoing(rs: seq<ServiceRecord>, r: ServiceRecord, month: Reports.Interval)
    requires r.status == ParcaBekliyor
    ensures DashboardStats(rs + [r], month).ongoing == DashboardStats(rs, month).ongoing
    ensures DashboardStats(rs + [r], month).waitingParts == DashboardStats(rs, month).waitingParts + 1
  {
    CountInAppend(rs, r, OngoingStatuses);
    CountInAppend(rs, r, {ParcaBekliyor});
  }

  /** The status select: every status, or one of them. */
  datatype StatusFilter = All | Only(status: ServiceStatus)

  predicate MatchesStatus(r: ServiceRecord, f: StatusFilter) {
    f.All? || r.status == f.status
  }

  /**
   * The search: an empty query matches everything; otherwise the
   * lower-cased name or model contains the lower-cased query, or the
   * phone or IMEI contains the query as typed. The brand is not searched.
   */
  predicate MatchesSearch(r: ServiceRecord, q: string, lower: Text.CaseFold) {
    || q == ""
    || Text.Includes(lower(r.customerName), lower(q))
    || Text.Includes(r.customerPhone, q)
    || Text.Includes(lower(r.deviceModel), lower(q))
    || Text.Includes(r.imei, q)
  }

  /** Changing a record's brand never changes whether it matches the search. */
  lemma BrandNotSearched(r: ServiceRecord, brand: string, q: string, lower: Text.CaseFold)
    ensures MatchesSearch(r.(deviceBrand := brand), q, lower) == MatchesSearch(r, q, lower)
  {
  }

  /** The records matching both the search and the status filter, in collection order. */
  function FilterAll(rs: seq<ServiceRecord>, q: string, f: StatusFilter, lower: Text.CaseFold): (r: seq<ServiceRecord>)
    ensures |r| <= |rs|
    ensures forall x :: x in r <==> x in rs && MatchesSearch(x, q, lower) && MatchesStatus(x, f)
  {
    if rs == [] then []
    else
      (if MatchesSearch(rs[0], q, lower) && MatchesStatus(rs[0], f) then [rs[0]] else [])
      + FilterAll(rs[1..], q, f, lower)
  }

  /** Filtering keeps order: the matches in a concatenation are the matches of each part, in turn. */
  lemma {:induction false} FilterAllAppend(xs: seq<ServiceRecord>, ys: seq<ServiceRecord>, q: string,
                                           f: StatusFilter, lower: Text.CaseFold)
    ensures FilterAll(xs + ys, q, f, lower) == FilterAll(xs, q, f, lower) + FilterAll(ys, q, f, lower)
  {
    if xs == [] {
      assert xs + ys == ys;
    } else {
      assert (xs + ys)[0] == xs[0];
      assert (xs + ys)[1..] == xs[1..] + ys;
      FilterAllAppend(xs[1..], ys, q, f, lower);
    }
  }

  /** The list the dashboard shows: the first ten matches. */
  function FilterRecords(rs: seq<ServiceRecord>, q: string, f: StatusFilter, lower: Text.CaseFold): (r: seq<ServiceRecord>)
    ensures |r| <= 10 && |r| <= |FilterAll(rs, q, f, lower)|
    ensures r == FilterAll(rs, q, f, lower)[..|r|]
    ensures |r| < 10 ==> r == FilterAll(rs, q, f, lower)
    ensures forall x :: x in r ==> x in rs && MatchesSearch(x, q, lower) && MatchesStatus(x, f)
    ensures f.Only? ==> forall x :: x in r ==> x.status == f.status
  {
    var all := FilterAll(rs, q, f, lower);
    var r := Take(all, 10);
    assert forall x :: x in r ==> x in all;
    r
  }

  /** With no query and every status, the filter keeps every record, in order. */
  lemma {:induction false} FilterAllKeepsAll(rs: seq<ServiceRecord>, lower: Text.CaseFold)
    ensures FilterAll(rs, "", All, lower) == rs
  {
    if rs != [] {
      FilterAllKeepsAll(rs[1..], lower);
    }
  }

  /** With no query and every status, the dashboard shows the first ten records. */
  lemma UnfilteredShowsFirstTen(rs: seq<ServiceRecord>, lower: Text.CaseFold)
    ensures FilterRecords(rs, "", All, lower) == rs[..if |rs| < 10 then |rs| else 10]
  {
    FilterAllKeepsAll(rs, lower);
  }
}
