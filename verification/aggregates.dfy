/**
 * Reference definitions over the record list that the customers, reports
 * and dashboard pages aggregate: the records' keys (phone or brand), the
 * distinct keys in order of first appearance, the records sharing a key,
 * price sums, the latest creation time and counts by status.
 */
module Aggregates {
  import opened Types
  import opened Collections

  function PhoneOf(r: ServiceRecord): string {
    r.customerPhone
  }

  function BrandOf(r: ServiceRecord): string {
    r.deviceBrand
  }

  /** The key of every record, in order. */
  function Keys(rs: seq<ServiceRecord>, key: ServiceRecord -> string): (ks: seq<string>)
    ensures |ks| == |rs| && forall i :: 0 <= i < |rs| ==> ks[i] == key(rs[i])
  {
    seq(|rs|, i requires 0 <= i < |rs| => key(rs[i]))
  }

  lemma KeysAppend(rs: seq<ServiceRecord>, r: ServiceRecord, key: ServiceRecord -> string)
    ensures Keys(rs + [r], key) == Keys(rs, key) + [key(r)]
  {
  }

  /** The distinct elements of `ks`, each where it first occurs. */
  function Distinct(ks: seq<string>): (d: seq<string>)
    ensures |d| <= |ks|
    ensures Unique(d)
    ensures forall x :: x in d <==> x in ks
  {
    if ks == [] then []
    else
      var init, k := ks[..|ks| - 1], ks[|ks| - 1];
      assert ks == init + [k];
      Distinct(init) + (if k in init then [] else [k])
  }

  lemma DistinctAppend(ks: seq<string>, k: string)
    ensures Distinct(ks + [k]) == Distinct(ks) + (if k in ks then [] else [k])
  {
    assert (ks + [k])[..|ks|] == ks;
  }

  /** There are as many distinct elements as elements in the set of `ks`. */
  lemma {:induction false} DistinctCardinality(ks: seq<string>)
    ensures |set x | x in ks| == |Distinct(ks)|
  {
    if ks != [] {
      var init, k := ks[..|ks| - 1], ks[|ks| - 1];
      assert ks == init + [k];
      DistinctCardinality(init);
      assert Distinct(ks) == Distinct(init) + (if k in init then [] else [k]);
      var a, b := set x | x in init, set x | x in ks;
      assert b == a + {k};
      if k in init {
        assert k in a;
        assert b == a;
      } else {
        assert k !in a;
        assert |b| == |a| + 1;
      }
    }
  }

  /** The records whose key is `p`, in order. */
  function Matching(rs: seq<ServiceRecord>, key: ServiceRecord -> string, p: string): (m: seq<ServiceRecord>)
    ensures |m| <= |rs|
    ensures forall x :: x in m <==> x in rs && key(x) == p
  {
    if rs == [] then []
    else
      var init, r := rs[..|rs| - 1], rs[|rs| - 1];
      assert rs == init + [r];
      Matching(init, key, p) + (if key(r) == p then [r] else [])
  }

  lemma MatchingAppend(rs: seq<ServiceRecord>, r: ServiceRecord, key: ServiceRecord -> string, p: string)
    ensures Matching(rs + [r], key, p) == Matching(rs, key, p) + (if key(r) == p then [r] else [])
  {
    assert (rs + [r])[..|rs|] == rs;
  }

  /** Some record has key `p` exactly when the records with key `p` are not none. */
  lemma MatchingNonEmpty(rs: seq<ServiceRecord>, key: ServiceRecord -> string, p: string)
    ensures Matching(rs, key, p) != [] <==> p in Keys(rs, key)
  {
    var m := Matching(rs, key, p);
    if p in Keys(rs, key) {
      var i :| 0 <= i < |rs| && Keys(rs, key)[i] == p;
      assert rs[i] in m;
    }
    if m != [] {
      assert m[0] in rs;
      var i :| 0 <= i < |rs| && rs[i] == m[0];
      assert Keys(rs, key)[i] == p;
    }
  }

  /** The sum of the estimated prices. */
  function SumPrices(rs: seq<ServiceRecord>): int {
    if rs == [] then 0 else SumPrices(rs[..|rs| - 1]) + rs[|rs| - 1].estimatedPrice
  }

  lemma SumPricesAppend(rs: seq<ServiceRecord>, r: ServiceRecord)
    ensures SumPrices(rs + [r]) == SumPrices(rs) + r.estimatedPrice
  {
    assert (rs + [r])[..|rs|] == rs;
  }

  /** The latest creation time among the records. */
  function MaxCreated(rs: seq<ServiceRecord>): Time
    requires rs != []
  {
    var r := rs[|rs| - 1];
    if |rs| == 1 then r.createdAt
    else
      var t := MaxCreated(rs[..|rs| - 1]);
      if r.createdAt > t then r.createdAt else t
  }

  /** The latest creation time is no earlier than any record's and is some record's. */
  lemma {:induction false} MaxCreatedBounds(rs: seq<ServiceRecord>)
    requires rs != []
    ensures forall i :: 0 <= i < |rs| ==> rs[i].createdAt <= MaxCreated(rs)
    ensures exists i :: 0 <= i < |rs| && rs[i].createdAt == MaxCreated(rs)
  {
    var last := |rs| - 1;
    if |rs| == 1 {
      assert rs[last].createdAt == MaxCreated(rs);
    } else {
      var init := rs[..last];
      MaxCreatedBounds(init);
      var j :| 0 <= j < |init| && init[j].createdAt == MaxCreated(init);
      assert rs[j] == init[j];
      forall i | 0 <= i < last ensures rs[i].createdAt <= MaxCreated(rs) {
        assert rs[i] == init[i];
      }
      if rs[last].createdAt > MaxCreated(init) {
        assert rs[last].createdAt == MaxCreated(rs);
      } else {
        assert rs[j].createdAt == MaxCreated(rs);
      }
    }
  }

  lemma MaxCreatedAppend(rs: seq<ServiceRecord>, r: ServiceRecord)
    requires rs != []
    ensures MaxCreated(rs + [r]) == if r.createdAt > MaxCreated(rs) then r.createdAt else MaxCreated(rs)
  {
    assert (rs + [r])[..|rs|] == rs;
  }

  /** The number of records whose status is in `statuses`. */
  function CountIn(rs: seq<ServiceRecord>, statuses: set<ServiceStatus>): (n: nat)
    ensures n <= |rs|
  {
    if rs == [] then 0
    else (if rs[0].status in statuses then 1 else 0) + CountIn(rs[1..], statuses)
  }

  /** Counts over disjoint status sets add up to the count over their union. */
  lemma {:induction false} CountInUnion(rs: seq<ServiceRecord>, s: set<ServiceStatus>, t: set<ServiceStatus>)
    requires s !! t
    ensures CountIn(rs, s) + CountIn(rs, t) == CountIn(rs, s + t)
  {
    if rs != [] {
      CountInUnion(rs[1..], s, t);
    }
  }

  /** Every record has one of the five statuses. */
  lemma {:induction false} CountInAll(rs: seq<ServiceRecord>)
    ensures CountIn(rs, {Beklemede, Islemde, ParcaBekliyor, Hazir, TeslimEdildi}) == |rs|
  {
    if rs != [] {
      CountInAll(rs[1..]);
      assert rs[0].status in {Beklemede, Islemde, ParcaBekliyor, Hazir, TeslimEdildi} by {
        match rs[0].status
        case Beklemede =>
        case Islemde =>
        case ParcaBekliyor =>
        case Hazir =>
        case TeslimEdildi =>
      }
    }
  }

  lemma {:induction false} CountInAppend(rs: seq<ServiceRecord>, r: ServiceRecord, s: set<ServiceStatus>)
    ensures CountIn(rs + [r], s) == CountIn(rs, s) + (if r.status in s then 1 else 0)
  {
    if rs == [] {
      assert [r][1..] == [];
    } else {
      assert (rs + [r])[1..] == rs[1..] + [r];
      CountInAppend(rs[1..], r, s);
    }
  }

  /** A count is positive exactly when some record has a status in the set. */
  lemma {:induction false} CountInPositive(rs: seq<ServiceRecord>, s: set<ServiceStatus>)
    ensures CountIn(rs, s) > 0 <==> exists i :: 0 <= i < |rs| && rs[i].status in s
  {
    if rs != [] {
      CountInPositive(rs[1..], s);
      if exists i :: 0 <= i < |rs[1..]| && rs[1..][i].status in s {
        var i :| 0 <= i < |rs[1..]| && rs[1..][i].status in s;
        assert rs[i + 1].status in s;
      }
      if exists i :: 0 <= i < |rs| && rs[i].status in s {
        var i :| 0 <= i < |rs| && rs[i].status in s;
        if i > 0 {
          assert rs[1..][i - 1].status in s;
        }
      }
    }
  }

  /** A key and how many records carry it. */
  datatype Entry = Entry(key: string, count: nat)

  function EntryCount(e: Entry): int {
    e.count
  }

  /** The number of records with each distinct key, in order of the key's first record. */
  function Tally(rs: seq<ServiceRecord>, key: ServiceRecord -> string): (t: seq<Entry>)
    ensures |t| == |Distinct(Keys(rs, key))|
  {
    var d := Distinct(Keys(rs, key));
    seq(|d|, k requires 0 <= k < |d| => Entry(d[k], |Matching(rs, key, d[k])|))
  }

  lemma DistinctKeysStep(rs: seq<ServiceRecord>, r: ServiceRecord, key: ServiceRecord -> string)
    ensures Distinct(Keys(rs + [r], key)) ==
      Distinct(Keys(rs, key)) + (if key(r) in Keys(rs, key) then [] else [key(r)])
  {
    KeysAppend(rs, r, key);
    DistinctAppend(Keys(rs, key), key(r));
  }

  /** A record with a new key appends that key with count 1. */
  lemma TallyStepNew(rs: seq<ServiceRecord>, r: ServiceRecord, key: ServiceRecord -> string)
    requires key(r) !in Keys(rs, key)
    ensures Tally(rs + [r], key) == Tally(rs, key) + [Entry(key(r), 1)]
  {
    var t, t' := Tally(rs, key), Tally(rs + [r], key);
    var d := Distinct(Keys(rs, key));
    DistinctKeysStep(rs, r, key);
    forall k | 0 <= k < |t'| ensures t'[k] == (t + [Entry(key(r), 1)])[k] {
      if k < |d| {
        MatchingAppend(rs, r, key, d[k]);
      } else {
        MatchingAppend(rs, r, key, key(r));
        MatchingNonEmpty(rs, key, key(r));
      }
    }
  }

  /** A record with a known key, the `j`-th distinct one, adds one to that key's count, in place. */
  lemma TallyStepKnown(rs: seq<ServiceRecord>, r: ServiceRecord, key: ServiceRecord -> string, j: nat)
    requires j < |Distinct(Keys(rs, key))| && Distinct(Keys(rs, key))[j] == key(r)
    ensures j < |Tally(rs, key)|
    ensures Tally(rs + [r], key) == Tally(rs, key)[j := Entry(key(r), Tally(rs, key)[j].count + 1)]
  {
    var t, t' := Tally(rs, key), Tally(rs + [r], key);
    var u := t[j := Entry(key(r), t[j].count + 1)];
    TallyKnownLength(rs, r, key);
    assert |t'| == |u|;
    forall k | 0 <= k < |t'| ensures t'[k] == u[k] {
      TallyKnownAt(rs, r, key, j, k);
    }
  }

  lemma TallyKnownLength(rs: seq<ServiceRecord>, r: ServiceRecord, key: ServiceRecord -> string)
    requires key(r) in Keys(rs, key)
    ensures |Tally(rs + [r], key)| == |Tally(rs, key)|
  {
    DistinctKeysStep(rs, r, key);
  }

  lemma TallyKnownAt(rs: seq<ServiceRecord>, r: ServiceRecord, key: ServiceRecord -> string, j: nat, k: nat)
    requires j < |Distinct(Keys(rs, key))| && Distinct(Keys(rs, key))[j] == key(r)
    requires k < |Distinct(Keys(rs, key))|
    ensures k < |Tally(rs + [r], key)| && j < |Tally(rs, key)|
    ensures Tally(rs + [r], key)[k] == if k == j then Entry(key(r), Tally(rs, key)[j].count + 1) else Tally(rs, key)[k]
  {
    var d := Distinct(Keys(rs, key));
    DistinctKeysStep(rs, r, key);
    assert Distinct(Keys(rs + [r], key)) == d;
    MatchingAppend(rs, r, key, d[k]);
    if k != j {
      assert d[k] != d[j];
    }
  }

  /** The counts of a tally add up to the number of records. */
  lemma {:induction false} TallySum(rs: seq<ServiceRecord>, key: ServiceRecord -> string)
    ensures SumBy(Tally(rs, key), EntryCount) == |rs|
  {
    if rs != [] {
      var init, r := rs[..|rs| - 1], rs[|rs| - 1];
      assert rs == init + [r];
      TallySum(init, key);
      var t := Tally(init, key);
      if key(r) in Keys(init, key) {
        var j := FirstIndex(Distinct(Keys(init, key)), key(r)).value;
        TallyStepKnown(init, r, key, j);
        SumByUpdate(t, j, Entry(key(r), t[j].count + 1), EntryCount);
      } else {
        TallyStepNew(init, r, key);
        SumByAppend(t, [Entry(key(r), 1)], EntryCount);
        assert [Entry(key(r), 1)][1..] == [];
      }
    }
  }
}
