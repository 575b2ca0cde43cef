/**
 * The customers page: records grouped by phone number into one customer
 * each (name of the first record, number of records, total of estimated
 * prices, latest visit), sorted latest visit first, and the name/phone
 * search over that list.
 */
module Customers {
  import opened Types
  import opened Collections
  import opened Aggregates
  import Text

  datatype Customer = Customer(name: string, phone: string, recordCount: nat, totalSpent: int, lastVisit: Time)

  function PhonesOf(cs: seq<Customer>): (ps: seq<string>)
    ensures |ps| == |cs| && forall k :: 0 <= k < |cs| ==> ps[k] == cs[k].phone
  {
    seq(|cs|, k requires 0 <= k < |cs| => cs[k].phone)
  }

  function LastVisit(c: Customer): int {
    c.lastVisit
  }

  function RecordCount(c: Customer): int {
    c.recordCount
  }

  function TotalSpent(c: Customer): int {
    c.totalSpent
  }

  /**
   * What the page shows for the customer with phone `p`: the name on the
   * first record with that phone, the number of records with it, the sum
   * of their prices and the latest of their creation times.
   */
  function Summary(rs: seq<ServiceRecord>, p: string): (c: Customer)
    requires p in Keys(rs, PhoneOf)
    ensures c.phone == p
  {
    MatchingNonEmpty(rs, PhoneOf, p);
    var m := Matching(rs, PhoneOf, p);
    Customer(rs[FirstIndex(Keys(rs, PhoneOf), p).value].customerName, p, |m|, SumPrices(m), MaxCreated(m))
  }

  /**
   * A summary counts at least one record; its name is the first record's,
   * and its last visit is the creation time of one of the phone's records
   * and no earlier than any of them.
   */
  lemma SummaryMeaning(rs: seq<ServiceRecord>, p: string)
    requires p in Keys(rs, PhoneOf)
    ensures var c := Summary(rs, p);
      && c.recordCount == |Matching(rs, PhoneOf, p)| >= 1
      && c.name == rs[FirstIndex(Keys(rs, PhoneOf), p).value].customerName
      && rs[FirstIndex(Keys(rs, PhoneOf), p).value].customerPhone == p
      && c.totalSpent == SumPrices(Matching(rs, PhoneOf, p))
      && (forall i :: 0 <= i < |rs| && rs[i].customerPhone == p ==> rs[i].createdAt <= c.lastVisit)
      && (exists i :: 0 <= i < |rs| && rs[i].customerPhone == p && rs[i].createdAt == c.lastVisit)
  {
    MatchingNonEmpty(rs, PhoneOf, p);
    var m := Matching(rs, PhoneOf, p);
    MaxCreatedBounds(m);
    forall i | 0 <= i < |rs| && rs[i].customerPhone == p ensures rs[i].createdAt <= MaxCreated(m) {
      assert rs[i] in m;
    }
    var j :| 0 <= j < |m| && m[j].createdAt == MaxCreated(m);
    assert m[j] in rs;
  }

  /** One customer per distinct phone, in order of the phone's first record. */
  function Grouped(rs: seq<ServiceRecord>): (cs: seq<Customer>)
  {
    var d := Distinct(Keys(rs, PhoneOf));
    seq(|d|, k requires 0 <= k < |d| => Summary(rs, d[k]))
  }

  /** The grouped customers' phones are the distinct phones, in order of first appearance. */
  lemma GroupedPhones(rs: seq<ServiceRecord>)
    ensures PhonesOf(Grouped(rs)) == Distinct(Keys(rs, PhoneOf))
    ensures Unique(PhonesOf(Grouped(rs)))
  {
  }

  /** The entry a phone's first record creates. */
  function Fresh(r: ServiceRecord): Customer {
    Customer(r.customerName, r.customerPhone, 1, r.estimatedPrice, r.createdAt)
  }

  /** A later record of a known phone: one more record, its price added, a later visit kept. */
  function Bump(c: Customer, r: ServiceRecord): Customer {
    c.(recordCount := c.recordCount + 1, totalSpent := c.totalSpent + r.estimatedPrice,
       lastVisit := if r.createdAt > c.lastVisit then r.createdAt else c.lastVisit)
  }

  /** One iteration of the grouping loop. */
  function Step(cs: seq<Customer>, r: ServiceRecord): seq<Customer> {
    match FirstIndex(PhonesOf(cs), r.customerPhone)
    case None => cs + [Fresh(r)]
    case Some(j) => cs[j := Bump(cs[j], r)]
  }

  lemma {:induction false} FirstIndexAppend(xs: seq<string>, y: string, p: string)
    requires p in xs
    ensures FirstIndex(xs + [y], p) == FirstIndex(xs, p)
  {
    if xs[0] != p {
      assert (xs + [y])[1..] == xs[1..] + [y];
      FirstIndexAppend(xs[1..], y, p);
    }
  }

  /** A record of another phone leaves a summary as it is. */
  lemma SummaryOther(rs: seq<ServiceRecord>, r: ServiceRecord, p: string)
    requires p in Keys(rs, PhoneOf) && p != r.customerPhone
    ensures p in Keys(rs + [r], PhoneOf)
    ensures Summary(rs + [r], p) == Summary(rs, p)
  {
    MatchingAppend(rs, r, PhoneOf, p);
    assert Matching(rs + [r], PhoneOf, p) == Matching(rs, PhoneOf, p);
    SummaryNameStable(rs, r, p);
  }

  /** A further record of a known phone bumps its summary. */
  lemma SummaryBump(rs: seq<ServiceRecord>, r: ServiceRecord)
    requires r.customerPhone in Keys(rs, PhoneOf)
    ensures r.customerPhone in Keys(rs + [r], PhoneOf)
    ensures Summary(rs + [r], r.customerPhone) == Bump(Summary(rs, r.customerPhone), r)
  {
    SummaryNameStable(rs, r, r.customerPhone);
    SummaryTotalsBump(rs, r);
  }

  lemma SummaryTotalsBump(rs: seq<ServiceRecord>, r: ServiceRecord)
    requires r.customerPhone in Keys(rs, PhoneOf)
    ensures r.customerPhone in Keys(rs + [r], PhoneOf)
    ensures var c, c' := Summary(rs, r.customerPhone), Summary(rs + [r], r.customerPhone);
      && c'.recordCount == c.recordCount + 1
      && c'.totalSpent == c.totalSpent + r.estimatedPrice
      && c'.lastVisit == if r.createdAt > c.lastVisit then r.createdAt else c.lastVisit
  {
    var p := r.customerPhone;
    KeysAppend(rs, r, PhoneOf);
    MatchingAppend(rs, r, PhoneOf, p);
    MatchingNonEmpty(rs, PhoneOf, p);
    var m := Matching(rs, PhoneOf, p);
    SumPricesAppend(m, r);
    MaxCreatedAppend(m, r);
  }

  /** A later record never changes the name of a phone that already has a record. */
  lemma SummaryNameStable(rs: seq<ServiceRecord>, r: ServiceRecord, p: string)
    requires p in Keys(rs, PhoneOf)
    ensures p in Keys(rs + [r], PhoneOf)
    ensures Summary(rs + [r], p).name == Summary(rs, p).name
  {
    var ks := Keys(rs, PhoneOf);
    KeysAppend(rs, r, PhoneOf);
    FirstIndexAppend(ks, r.customerPhone, p);
    var i := FirstIndex(ks, p).value;
    assert FirstIndex(Keys(rs + [r], PhoneOf), p) == Some(i);
    assert (rs + [r])[i] == rs[i];
  }

  /** The first record of a phone starts its summary. */
  lemma SummaryFresh(rs: seq<ServiceRecord>, r: ServiceRecord)
    requires r.customerPhone !in Keys(rs, PhoneOf)
    ensures r.customerPhone in Keys(rs + [r], PhoneOf)
    ensures Summary(rs + [r], r.customerPhone) == Fresh(r)
  {
    var p := r.customerPhone;
    var ks := Keys(rs, PhoneOf);
    KeysAppend(rs, r, PhoneOf);
    MatchingAppend(rs, r, PhoneOf, p);
    MatchingNonEmpty(rs, PhoneOf, p);
    assert Matching(rs, PhoneOf, p) == [];
    assert Matching(rs + [r], PhoneOf, p) == [r];
    assert SumPrices([r]) == r.estimatedPrice by {
      assert [r][..0] == [];
    }
    assert FirstIndex(ks + [p], p) == Some(|ks|) by {
      assert (ks + [p])[|ks|] == p;
      assert (ks + [p])[..|ks|] == ks;
    }
    assert (rs + [r])[|rs|] == r;
  }

  /** The grouping loop's step takes the summary of a prefix to the summary of the next prefix. */
  lemma GroupedStep(rs: seq<ServiceRecord>, r: ServiceRecord)
    ensures Step(Grouped(rs), r) == Grouped(rs + [r])
  {
    GroupedPhones(rs);
    if r.customerPhone in Keys(rs, PhoneOf) {
      GroupedStepKnown(rs, r);
    } else {
      GroupedStepNew(rs, r);
    }
  }

  /** A record with a new phone appends that phone's first summary. */
  lemma GroupedStepNew(rs: seq<ServiceRecord>, r: ServiceRecord)
    requires r.customerPhone !in Keys(rs, PhoneOf)
    ensures Grouped(rs + [r]) == Grouped(rs) + [Fresh(r)]
  {
    var g, g' := Grouped(rs), Grouped(rs + [r]);
    GroupedLength(rs, r);
    forall k | 0 <= k < |g'| ensures g'[k] == (g + [Fresh(r)])[k] {
      GroupedNewAt(rs, r, k);
    }
  }

  /** The distinct phones after one more record. */
  lemma DistinctPhonesStep(rs: seq<ServiceRecord>, r: ServiceRecord)
    ensures Distinct(Keys(rs + [r], PhoneOf)) ==
      Distinct(Keys(rs, PhoneOf)) + (if r.customerPhone in Keys(rs, PhoneOf) then [] else [r.customerPhone])
  {
    KeysAppend(rs, r, PhoneOf);
    DistinctAppend(Keys(rs, PhoneOf), r.customerPhone);
  }

  lemma GroupedLength(rs: seq<ServiceRecord>, r: ServiceRecord)
    ensures |Grouped(rs + [r])| == |Grouped(rs)| + (if r.customerPhone in Keys(rs, PhoneOf) then 0 else 1)
  {
    DistinctPhonesStep(rs, r);
  }

  lemma GroupedNewAt(rs: seq<ServiceRecord>, r: ServiceRecord, k: nat)
    requires r.customerPhone !in Keys(rs, PhoneOf)
    requires k <= |Grouped(rs)|
    ensures |Grouped(rs + [r])| == |Grouped(rs)| + 1
    ensures Grouped(rs + [r])[k] == if k < |Grouped(rs)| then Grouped(rs)[k] else Fresh(r)
  {
    var d := Distinct(Keys(rs, PhoneOf));
    DistinctPhonesStep(rs, r);
    if k < |d| {
      SummaryOther(rs, r, d[k]);
    } else {
      SummaryFresh(rs, r);
    }
  }

  /** A record with a known phone bumps that phone's summary in place. */
  lemma GroupedStepKnown(rs: seq<ServiceRecord>, r: ServiceRecord)
    requires r.customerPhone in Keys(rs, PhoneOf)
    ensures var j := FirstIndex(Distinct(Keys(rs, PhoneOf)), r.customerPhone).value;
      Grouped(rs + [r]) == Grouped(rs)[j := Bump(Grouped(rs)[j], r)]
  {
    var g, g' := Grouped(rs), Grouped(rs + [r]);
    var ks := Keys(rs, PhoneOf);
    KeysAppend(rs, r, PhoneOf);
    DistinctAppend(ks, r.customerPhone);
    var d := Distinct(ks);
    var j := FirstIndex(d, r.customerPhone).value;
    var s := g[j := Bump(g[j], r)];
    forall k | 0 <= k < |s| ensures s[k] == g'[k] {
      if k == j {
        SummaryBump(rs, r);
      } else {
        assert d[k] != d[j];
        SummaryOther(rs, r, d[k]);
      }
    }
  }

  /** One turn of the grouping loop, on a prefix of the records. */
  lemma StepPrefix(rs: seq<ServiceRecord>, i: nat)
    requires i < |rs|
    ensures Step(Grouped(rs[..i]), rs[i]) == Grouped(rs[..i + 1])
  {
    var a, b := rs[..i], rs[..i + 1];
    assert b == a + [rs[i]];
    GroupedStep(a, rs[i]);
  }

  /**
   * The customers page's list: the loop over the records builds one
   * customer per phone in order of first appearance, then the list is
   * sorted latest visit first.
   */
  method GroupCustomers(rs: seq<ServiceRecord>) returns (customers: seq<Customer>)
    ensures multiset(customers) == multiset(Grouped(rs))
    ensures SortedDesc(customers, LastVisit)
    ensures customers == SortDesc(Grouped(rs), LastVisit)
  {
    var cs: seq<Customer> := [];
    var i := 0;
    while i < |rs|
      invariant 0 <= i <= |rs|
      invariant cs == Grouped(rs[..i])
    {
      var r := rs[i];
      StepPrefix(rs, i);
      match FirstIndex(PhonesOf(cs), r.customerPhone) {
        case None =>
          cs := cs + [Fresh(r)];
        case Some(j) =>
          cs := cs[j := Bump(cs[j], r)];
      }
      i := i + 1;
    }
    assert rs[..i] == rs;
    customers := SortDesc(cs, LastVisit);
  }

  /** The record counts of the grouped customers add up to the number of records, their totals to the revenue. */
  lemma {:induction false} GroupedSums(rs: seq<ServiceRecord>)
    ensures SumBy(Grouped(rs), RecordCount) == |rs|
    ensures SumBy(Grouped(rs), TotalSpent) == SumPrices(rs)
  {
    if rs != [] {
      var init, r := rs[..|rs| - 1], rs[|rs| - 1];
      assert rs == init + [r];
      GroupedSums(init);
      GroupedStep(init, r);
      SumPricesAppend(init, r);
      StepSums(Grouped(init), r);
    }
  }

  /** One step adds one record and that record's price to the sums. */
  lemma StepSums(cs: seq<Customer>, r: ServiceRecord)
    ensures SumBy(Step(cs, r), RecordCount) == SumBy(cs, RecordCount) + 1
    ensures SumBy(Step(cs, r), TotalSpent) == SumBy(cs, TotalSpent) + r.estimatedPrice
  {
    match FirstIndex(PhonesOf(cs), r.customerPhone)
    case None =>
      SumByAppend(cs, [Fresh(r)], RecordCount);
      SumByAppend(cs, [Fresh(r)], TotalSpent);
      assert [Fresh(r)][1..] == [];
    case Some(j) =>
      SumByUpdate(cs, j, Bump(cs[j], r), RecordCount);
      SumByUpdate(cs, j, Bump(cs[j], r), TotalSpent);
  }

  /**
   * The sorted list: every customer is the summary of its phone, every
   * phone on a record has a customer, there are as many customers as
   * distinct phones, their record counts add up to the number of records
   * and their totals to the sum of all prices.
   */
  lemma CustomersSpec(rs: seq<ServiceRecord>)
    ensures var cs := SortDesc(Grouped(rs), LastVisit);
            && (forall k :: 0 <= k < |cs| ==> cs[k].phone in Keys(rs, PhoneOf) && cs[k] == Summary(rs, cs[k].phone))
            && (forall p :: p in Keys(rs, PhoneOf) ==> Summary(rs, p) in cs)
            && |cs| == |set p | p in Keys(rs, PhoneOf)|
            && SumBy(cs, RecordCount) == |rs|
            && SumBy(cs, TotalSpent) == SumPrices(rs)
  {
    var g := Grouped(rs);
    var cs := SortDesc(g, LastVisit);
    forall k | 0 <= k < |cs| ensures cs[k].phone in Keys(rs, PhoneOf) && cs[k] == Summary(rs, cs[k].phone) {
      assert cs[k] in multiset(g);
    }
    forall p | p in Keys(rs, PhoneOf) ensures Summary(rs, p) in cs {
      var d := Distinct(Keys(rs, PhoneOf));
      var k :| 0 <= k < |d| && d[k] == p;
      assert g[k] in multiset(cs);
    }
    DistinctCardinality(Keys(rs, PhoneOf));
    GroupedSums(rs);
    SumBySortDesc(g, LastVisit, RecordCount);
    SumBySortDesc(g, LastVisit, TotalSpent);
  }

  /** The first record's name is kept even when later records of the same phone carry another name. */
  lemma FirstNameWins(a: ServiceRecord, b: ServiceRecord)
    requires a.customerPhone == b.customerPhone
    ensures Grouped([a, b]) == [Bump(Fresh(a), b)]
    ensures Grouped([a, b])[0].name == a.customerName
  {
    GroupedStep([a], b);
    GroupedStep([], a);
    assert [] + [a] == [a] && [a] + [b] == [a, b];
  }

  /** The search: a customer stays when its lower-cased name or its phone contains the query. */
  function FilterCustomers(cs: seq<Customer>, query: string, lower: Text.CaseFold): (r: seq<Customer>)
    ensures |r| <= |cs|
    ensures forall c :: c in r <==>
      c in cs && (Text.Includes(lower(c.name), lower(query)) || Text.Includes(c.phone, query))
  {
    if cs == [] then []
    else
      (if Text.Includes(lower(cs[0].name), lower(query)) || Text.Includes(cs[0].phone, query)
       then [cs[0]] else [])
      + FilterCustomers(cs[1..], query, lower)
  }

  /** The search keeps the sorted order: a concatenation is searched part by part. */
  lemma {:induction false} FilterCustomersAppend(a: seq<Customer>, b: seq<Customer>, query: string, lower: Text.CaseFold)
    ensures FilterCustomers(a + b, query, lower) == FilterCustomers(a, query, lower) + FilterCustomers(b, query, lower)
  {
    if a == [] {
      assert a + b == b;
    } else {
      assert (a + b)[0] == a[0];
      assert (a + b)[1..] == a[1..] + b;
      FilterCustomersAppend(a[1..], b, query, lower);
    }
  }

  /** An empty query keeps every customer, in order: every phone contains the empty string. */
  lemma {:induction false} FilterEmptyQuery(cs: seq<Customer>, lower: Text.CaseFold)
    ensures FilterCustomers(cs, "", lower) == cs
  {
    if cs != [] {
      Text.IncludesTrivial(cs[0].phone);
      FilterEmptyQuery(cs[1..], lower);
    }
  }
}
