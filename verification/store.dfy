/**
 * The record store: one aggregate (service records, stock items, a
 * lastUpdated stamp) plus a session flag, changed one entity at a time and
 * written back whole. The clock is the `now` parameter of each operation;
 * the id generator is a counter rendered in decimal.
 */
module Store {
  import opened Types
  import opened Collections
  import Text

  const DemoPassword: string := "admin123"

  // ---------------------------------------------------------------------
  // Identifiers

  function DigitChar(d: nat): char
    requires d < 10
  {
    ('0' as int + d) as char
  }

  /** The id the generator hands out for counter value `n`. */
  function IdOf(n: nat): (id: string)
    ensures id != [] && Text.AllDigits(id)
  {
    if n < 10 then [DigitChar(n)] else IdOf(n / 10) + [DigitChar(n % 10)]
  }

  function DigitsValue(s: string): nat
    requires Text.AllDigits(s)
  {
    if s == [] then 0 else 10 * DigitsValue(s[..|s| - 1]) + (s[|s| - 1] as int - '0' as int)
  }

  /** The counter value an id stands for, when it is a generated one. */
  function ParseId(s: string): Option<nat> {
    if s != [] && Text.AllDigits(s) then Some(DigitsValue(s)) else None
  }

  /** Reading a generated id back gives the counter value it was made from. */
  lemma {:induction false} ParseIdOf(n: nat)
    ensures ParseId(IdOf(n)) == Some(n)
  {
    var s := IdOf(n);
    if n < 10 {
      assert s[..|s| - 1] == [];
    } else {
      ParseIdOf(n / 10);
      assert s[..|s| - 1] == IdOf(n / 10);
      assert DigitsValue(s) == 10 * (n / 10) + n % 10;
    }
  }

  /** Distinct counter values give distinct ids. */
  lemma IdOfInjective(m: nat, n: nat)
    requires m != n
    ensures IdOf(m) != IdOf(n)
  {
    ParseIdOf(m);
    ParseIdOf(n);
  }

  /** `id` cannot be produced by the generator from counter `c` onwards. */
  predicate IdBelow(id: string, c: nat) {
    ParseId(id).None? || ParseId(id).value < c
  }

  // ---------------------------------------------------------------------
  // Service records

  /** The record's last history entry carries its current status. */
  predicate HistoryConsistent(r: ServiceRecord) {
    |r.statusHistory| >= 1 && r.statusHistory[|r.statusHistory| - 1].status == r.status
  }

  predicate AllHistoriesConsistent(rs: seq<ServiceRecord>) {
    forall i :: 0 <= i < |rs| ==> HistoryConsistent(rs[i])
  }

  /** The record created from a draft: one history entry with the draft's status, both stamps `now`. */
  function NewRecord(d: RecordDraft, id: string, historyId: string, now: Time): (r: ServiceRecord)
    ensures r.id == id && DraftOf(r) == d
    ensures r.statusHistory == [StatusChange(historyId, d.status, now, None)]
    ensures r.createdAt == now && r.updatedAt == now
    ensures HistoryConsistent(r)
  {
    ServiceRecord(id, d.customerName, d.customerPhone, d.deviceBrand, d.deviceModel, d.imei,
                  d.issueDescription, d.estimatedPrice, d.accessories, d.deliveryDate,
                  d.status, d.notes, [StatusChange(historyId, d.status, now, None)], now, now)
  }

  /**
   * The record with the supplied fields merged in and `updatedAt` set to
   * `now`, whether or not the patch supplied one. The status history is
   * taken over as it is unless the patch replaces it.
   */
  function MergeRecord(r: ServiceRecord, p: RecordPatch, now: Time): (m: ServiceRecord)
    ensures m.id == p.id.GetOr(r.id)
    ensures m.customerName == p.customerName.GetOr(r.customerName)
    ensures m.customerPhone == p.customerPhone.GetOr(r.customerPhone)
    ensures m.deviceBrand == p.deviceBrand.GetOr(r.deviceBrand)
    ensures m.deviceModel == p.deviceModel.GetOr(r.deviceModel)
    ensures m.imei == p.imei.GetOr(r.imei)
    ensures m.issueDescription == p.issueDescription.GetOr(r.issueDescription)
    ensures m.estimatedPrice == p.estimatedPrice.GetOr(r.estimatedPrice)
    ensures m.accessories == p.accessories.GetOr(r.accessories)
    ensures m.deliveryDate == p.deliveryDate.GetOr(r.deliveryDate)
    ensures m.status == p.status.GetOr(r.status)
    ensures m.notes == p.notes.GetOr(r.notes)
    ensures m.statusHistory == p.statusHistory.GetOr(r.statusHistory)
    ensures m.createdAt == p.createdAt.GetOr(r.createdAt)
    ensures m.updatedAt == now
  {
    ServiceRecord(p.id.GetOr(r.id), p.customerName.GetOr(r.customerName),
                  p.customerPhone.GetOr(r.customerPhone), p.deviceBrand.GetOr(r.deviceBrand),
                  p.deviceModel.GetOr(r.deviceModel), p.imei.GetOr(r.imei),
                  p.issueDescription.GetOr(r.issueDescription),
                  p.estimatedPrice.GetOr(r.estimatedPrice), p.accessories.GetOr(r.accessories),
                  p.deliveryDate.GetOr(r.deliveryDate), p.status.GetOr(r.status),
                  p.notes.GetOr(r.notes), p.statusHistory.GetOr(r.statusHistory),
                  p.createdAt.GetOr(r.createdAt), now)
  }

  /** Merging the same patch twice is the same as merging it once. */
  lemma MergeRecordIdempotent(r: ServiceRecord, p: RecordPatch, now: Time)
    ensures MergeRecord(MergeRecord(r, p, now), p, now) == MergeRecord(r, p, now)
  {
  }

  /** An empty patch only restamps the record. */
  lemma MergeEmptyPatch(r: ServiceRecord, now: Time)
    ensures MergeRecord(r, EmptyRecordPatch, now) == r.(updatedAt := now)
  {
  }

  /** A patch that touches neither status nor history keeps the history consistent with the status. */
  lemma MergeKeepsConsistency(r: ServiceRecord, p: RecordPatch, now: Time)
    requires HistoryConsistent(r)
    requires p.status.None? && p.statusHistory.None?
    ensures HistoryConsistent(MergeRecord(r, p, now))
  {
  }

  /**
   * Changing the status through a field patch does not record it in the
   * history, so the last history entry no longer matches the status.
   */
  lemma MergeStatusBreaksConsistency(r: ServiceRecord, s: ServiceStatus, now: Time)
    requires HistoryConsistent(r) && s != r.status
    ensures !HistoryConsistent(MergeRecord(r, EmptyRecordPatch.(status := Some(s)), now))
    ensures MergeRecord(r, EmptyRecordPatch.(status := Some(s)), now).statusHistory == r.statusHistory
  {
  }

  /**
   * The record after a status transition: the status is `s`, exactly one
   * entry carrying `s` and the note is appended to the history, `updatedAt`
   * is `now`, and nothing else changes.
   */
  function WithStatus(r: ServiceRecord, s: ServiceStatus, changeId: string, note: Option<string>, now: Time)
    : (m: ServiceRecord)
    ensures m.status == s && m.updatedAt == now
    ensures |m.statusHistory| == |r.statusHistory| + 1
    ensures m.statusHistory[..|r.statusHistory|] == r.statusHistory
    ensures m.statusHistory[|r.statusHistory|] == StatusChange(changeId, s, now, note)
    ensures HistoryConsistent(m)
    ensures m.id == r.id && m.createdAt == r.createdAt && DraftOf(m) == DraftOf(r).(status := s)
  {
    r.(status := s, statusHistory := r.statusHistory + [StatusChange(changeId, s, now, note)], updatedAt := now)
  }

  /** The record with `note` appended as its last note and `updatedAt` set to `now`. */
  function WithNote(r: ServiceRecord, note: string, now: Time): (m: ServiceRecord)
    ensures |m.notes| == |r.notes| + 1 && m.notes[..|r.notes|] == r.notes && m.notes[|r.notes|] == note
    ensures m.updatedAt == now
    ensures m.status == r.status && m.statusHistory == r.statusHistory && m.id == r.id
    ensures HistoryConsistent(r) ==> HistoryConsistent(m)
  {
    r.(notes := r.notes + [note], updatedAt := now)
  }

  /**
   * A record created with status beklemede, moved to islemde with a note
   * and then to teslim-edildi without one, has the three statuses in its
   * history in that order and ends delivered.
   */
  lemma StatusScenario(d: RecordDraft, t0: Time, t1: Time, t2: Time)
    requires d.status == Beklemede
    ensures var r0 := NewRecord(d, IdOf(0), IdOf(1), t0);
            var r1 := WithStatus(r0, Islemde, IdOf(2), Some("parça sipariş edildi"), t1);
            var r2 := WithStatus(r1, TeslimEdildi, IdOf(3), None, t2);
            && |r2.statusHistory| == 3
            && r2.statusHistory[0].status == Beklemede
            && r2.statusHistory[1].status == Islemde
            && r2.statusHistory[1].note == Some("parça sipariş edildi")
            && r2.statusHistory[2].status == TeslimEdildi
            && r2.status == TeslimEdildi
            && r2.updatedAt == t2
  {
    var r0 := NewRecord(d, IdOf(0), IdOf(1), t0);
    var r1 := WithStatus(r0, Islemde, IdOf(2), Some("parça sipariş edildi"), t1);
    var r2 := WithStatus(r1, TeslimEdildi, IdOf(3), None, t2);
    assert r2.statusHistory[..2] == r1.statusHistory;
  }

  // ---------------------------------------------------------------------
  // Stock items

  /** The item created from a draft, stamped `now` twice. */
  function NewItem(d: StockDraft, id: string, now: Time): (item: StockItem)
    ensures item.id == id && item.name == d.name
    ensures item.quantity == d.quantity && item.criticalLevel == d.criticalLevel
    ensures item.createdAt == now && item.updatedAt == now
  {
    StockItem(id, d.name, d.quantity, d.criticalLevel, now, now)
  }

  /** The item with the supplied fields merged in and `updatedAt` set to `now`. */
  function MergeItem(item: StockItem, p: StockPatch, now: Time): (m: StockItem)
    ensures m.id == p.id.GetOr(item.id) && m.name == p.name.GetOr(item.name)
    ensures m.quantity == p.quantity.GetOr(item.quantity)
    ensures m.criticalLevel == p.criticalLevel.GetOr(item.criticalLevel)
    ensures m.createdAt == p.createdAt.GetOr(item.createdAt)
    ensures m.updatedAt == now
  {
    StockItem(p.id.GetOr(item.id), p.name.GetOr(item.name), p.quantity.GetOr(item.quantity),
              p.criticalLevel.GetOr(item.criticalLevel), p.createdAt.GetOr(item.createdAt), now)
  }

  /** The items at or below their critical level, in collection order. */
  function LowStock(items: seq<StockItem>): (r: seq<StockItem>)
    ensures |r| <= |items|
    ensures forall x :: x in r <==> x in items && IsLow(x)
  {
    if items == [] then []
    else (if IsLow(items[0]) then [items[0]] else []) + LowStock(items[1..])
  }

  /** The low-stock filter distributes over concatenation, so it keeps collection order. */
  lemma {:induction false} LowStockAppend(a: seq<StockItem>, b: seq<StockItem>)
    ensures LowStock(a + b) == LowStock(a) + LowStock(b)
  {
    if a == [] {
      assert a + b == b;
    } else {
      assert (a + b)[0] == a[0];
      assert (a + b)[1..] == a[1..] + b;
      LowStockAppend(a[1..], b);
    }
  }

  /**
   * Raising a low item's quantity above its critical level removes it from
   * the low-stock list, and the other entries are those of the other items.
   */
  lemma LowStockAfterRestock(items: seq<StockItem>, i: nat, q: int)
    requires i < |items| && q > items[i].criticalLevel
    ensures var after := items[i := items[i].(quantity := q)];
            LowStock(after) == LowStock(items[..i]) + LowStock(items[i + 1..])
  {
    var after := items[i := items[i].(quantity := q)];
    var a, x, c := items[..i], after[i], items[i + 1..];
    assert after == a + ([x] + c);
    LowStockAppend(a, [x] + c);
    LowStockAppend([x], c);
    assert [x][1..] == [];
    assert LowStock([x]) == [];
  }

  // ---------------------------------------------------------------------
  // Import and export

  /**
   * The outcome of parsing an import: each top-level collection is present
   * (truthy) or missing. A blob that does not parse at all is None.
   */
  datatype ImportBlob = ImportBlob(serviceRecords: Option<seq<ServiceRecord>>,
                                   stockItems: Option<seq<StockItem>>,
                                   lastUpdated: Option<Time>)

  /** The export form of an aggregate. */
  function Serialize(d: AppData): ImportBlob {
    ImportBlob(Some(d.serviceRecords), Some(d.stockItems), Some(d.lastUpdated))
  }

  /**
   * Importing: accepted exactly when the blob parsed and carries both
   * collections; an accepted blob replaces the whole aggregate, stamped
   * `now`; a rejected one leaves the aggregate as it was.
   */
  function ImportResult(current: AppData, blob: Option<ImportBlob>, now: Time): (res: (bool, AppData))
    ensures res.0 <==> blob.Some? && blob.value.serviceRecords.Some? && blob.value.stockItems.Some?
    ensures !res.0 ==> res.1 == current
    ensures res.0 ==> res.1 == AppData(blob.value.serviceRecords.value, blob.value.stockItems.value, now)
  {
    match blob
    case None => (false, current)
    case Some(b) =>
      if b.serviceRecords.None? || b.stockItems.None? then (false, current)
      else (true, AppData(b.serviceRecords.value, b.stockItems.value, now))
  }

  /** Exporting and importing the export restores both collections; only the stamp is renewed. */
  lemma ExportImportRoundTrip(current: AppData, d: AppData, now: Time)
    ensures ImportResult(current, Some(Serialize(d)), now) == (true, d.(lastUpdated := now))
  {
  }

  /** An import that lacks the stock collection fails and keeps the aggregate. */
  lemma ImportMissingStockFails(current: AppData, rs: seq<ServiceRecord>, now: Time)
    ensures ImportResult(current, Some(ImportBlob(Some(rs), None, None)), now) == (false, current)
  {
  }

  // ---------------------------------------------------------------------
  // The store

  class RecordStore {
    var records: seq<ServiceRecord>
    var stock: seq<StockItem>
    var lastUpdated: Time
    var authed: bool
    /** The next value of the id generator. */
    var idCounter: nat

    /** The persisted aggregate. */
    function Data(): AppData
      reads this
    {
      AppData(records, stock, lastUpdated)
    }

    /**
     * The model's assumption about the id generator: no id in the store is
     * one the generator will still hand out.
     */
    ghost predicate CounterFresh()
      reads this
    {
      && (forall i :: 0 <= i < |records| ==> IdBelow(records[i].id, idCounter))
      && (forall i :: 0 <= i < |stock| ==> IdBelow(stock[i].id, idCounter))
    }

    /**
     * First load with nothing persisted: the seed aggregate is saved
     * (stamped `now`) and nobody is logged in.
     */
    constructor (seed: AppData, firstId: nat, now: Time)
      ensures Data() == seed.(lastUpdated := now)
      ensures !authed && idCounter == firstId
    {
      records := seed.serviceRecords;
      stock := seed.stockItems;
      lastUpdated := now;
      authed := false;
      idCounter := firstId;
    }

    /** The current aggregate. */
    method LoadData() returns (d: AppData)
      ensures d == Data()
    {
      d := AppData(records, stock, lastUpdated);
    }

    /** Writes the whole aggregate back, stamping it `now`. */
    method SaveData(d: AppData, now: Time)
      modifies this`records, this`stock, this`lastUpdated
      ensures Data() == d.(lastUpdated := now)
    {
      records := d.serviceRecords;
      stock := d.stockItems;
      lastUpdated := now;
    }

    /** The export form of the current aggregate. */
    method ExportData() returns (blob: ImportBlob)
      ensures ImportResult(Data(), Some(blob), lastUpdated) == (true, Data())
      ensures blob == Serialize(Data())
    {
      blob := Serialize(AppData(records, stock, lastUpdated));
    }

    /** Replaces the whole aggregate with an accepted import; leaves it untouched otherwise. */
    method ImportData(blob: Option<ImportBlob>, now: Time) returns (ok: bool)
      modifies this
      ensures (ok, Data()) == ImportResult(old(Data()), blob, now)
      ensures !ok ==> unchanged(this)
      ensures authed == old(authed) && idCounter == old(idCounter)
    {
      if blob.None? || blob.value.serviceRecords.None? || blob.value.stockItems.None? {
        return false;
      }
      SaveData(AppData(blob.value.serviceRecords.value, blob.value.stockItems.value, lastUpdated), now);
      ok := true;
    }

    /** Hands out the next id. */
    method NextId() returns (id: string)
      modifies this`idCounter
      ensures id == IdOf(old(idCounter)) && idCounter == old(idCounter) + 1
    {
      id := IdOf(idCounter);
      idCounter := idCounter + 1;
    }

    /**
     * Creates a record from a draft and puts it in front of the others,
     * which keep their order.
     */
    method AddServiceRecord(draft: RecordDraft, now: Time) returns (rec: ServiceRecord)
      modifies this
      ensures rec == NewRecord(draft, IdOf(old(idCounter)), IdOf(old(idCounter) + 1), now)
      ensures records == [rec] + old(records)
      ensures stock == old(stock) && lastUpdated == now && authed == old(authed)
      ensures idCounter == old(idCounter) + 2
      ensures old(AllHistoriesConsistent(records)) ==> AllHistoriesConsistent(records)
      ensures old(CounterFresh()) ==> CounterFresh() && rec.id !in old(RecordIds(records))
      ensures old(CounterFresh() && Unique(RecordIds(records))) ==> Unique(RecordIds(records))
    {
      var id := NextId();
      var historyId := NextId();
      rec := NewRecord(draft, id, historyId, now);
      SaveData(AppData([rec] + records, stock, lastUpdated), now);
      ParseIdOf(old(idCounter));
      assert forall i :: 0 < i < |records| ==> records[i] == old(records)[i - 1];
    }

    /**
     * Merges a patch into the first record with that id, in place; None
     * and no write when no record has that id.
     */
    method UpdateServiceRecord(id: string, p: RecordPatch, now: Time) returns (r: Option<ServiceRecord>)
      modifies this
      ensures match FirstIndex(RecordIds(old(records)), id)
        case None => r.None? && unchanged(this)
        case Some(i) =>
          && r == Some(MergeRecord(old(records)[i], p, now))
          && records == old(records)[i := r.value]
          && stock == old(stock) && lastUpdated == now
          && authed == old(authed) && idCounter == old(idCounter)
    {
      var index := FirstIndex(RecordIds(records), id);
      if index.None? {
        return None;
      }
      var updated := MergeRecord(records[index.value], p, now);
      SaveData(AppData(records[index.value := updated], stock, lastUpdated), now);
      r := Some(updated);
    }

    /**
     * Moves the first record with that id to a new status, appending one
     * history entry with a fresh id; None and no write when no record has
     * that id. Every other record is unchanged.
     */
    method UpdateServiceStatus(id: string, status: ServiceStatus, note: Option<string>, now: Time)
      returns (r: Option<ServiceRecord>)
      modifies this
      ensures match FirstIndex(RecordIds(old(records)), id)
        case None => r.None? && unchanged(this)
        case Some(i) =>
          && r == Some(WithStatus(old(records)[i], status, IdOf(old(idCounter)), note, now))
          && records == old(records)[i := r.value]
          && stock == old(stock) && lastUpdated == now
          && authed == old(authed) && idCounter == old(idCounter) + 1
      ensures old(AllHistoriesConsistent(records)) ==> AllHistoriesConsistent(records)
    {
      var index := FirstIndex(RecordIds(records), id);
      if index.None? {
        return None;
      }
      var changeId := NextId();
      var updated := WithStatus(records[index.value], status, changeId, note, now);
      SaveData(AppData(records[index.value := updated], stock, lastUpdated), now);
      r := Some(updated);
    }

    /** Appends a note to the first record with that id; None and no write when there is none. */
    method AddNoteToRecord(id: string, note: string, now: Time) returns (r: Option<ServiceRecord>)
      modifies this
      ensures match FirstIndex(RecordIds(old(records)), id)
        case None => r.None? && unchanged(this)
        case Some(i) =>
          && r == Some(WithNote(old(records)[i], note, now))
          && records == old(records)[i := r.value]
          && stock == old(stock) && lastUpdated == now
          && authed == old(authed) && idCounter == old(idCounter)
      ensures old(AllHistoriesConsistent(records)) ==> AllHistoriesConsistent(records)
    {
      var index := FirstIndex(RecordIds(records), id);
      if index.None? {
        return None;
      }
      var updated := WithNote(records[index.value], note, now);
      SaveData(AppData(records[index.value := updated], stock, lastUpdated), now);
      r := Some(updated);
    }

    /** Removes the first record with that id; false and no write when there is none. */
    method DeleteServiceRecord(id: string, now: Time) returns (found: bool)
      modifies this
      ensures found <==> id in RecordIds(old(records))
      ensures !found ==> unchanged(this)
      ensures found ==>
        && records == RemoveAt(old(records), FirstIndex(RecordIds(old(records)), id).value)
        && stock == old(stock) && lastUpdated == now
        && authed == old(authed) && idCounter == old(idCounter)
      ensures old(AllHistoriesConsistent(records)) ==> AllHistoriesConsistent(records)
    {
      var index := FirstIndex(RecordIds(records), id);
      if index.None? {
        return false;
      }
      SaveData(AppData(RemoveAt(records, index.value), stock, lastUpdated), now);
      found := true;
    }

    /** The first record with that id, if any. */
    method GetServiceRecord(id: string) returns (r: Option<ServiceRecord>)
      ensures r.None? <==> id !in RecordIds(records)
      ensures r.Some? ==> r.value.id == id && r.value in records
      ensures r.Some? ==> r.value == records[FirstIndex(RecordIds(records), id).value]
    {
      var index := FirstIndex(RecordIds(records), id);
      if index.None? {
        return None;
      }
      r := Some(records[index.value]);
    }

    /** Creates a stock item and puts it after the others. */
    method AddStockItem(draft: StockDraft, now: Time) returns (item: StockItem)
      modifies this
      ensures item == NewItem(draft, IdOf(old(idCounter)), now)
      ensures stock == old(stock) + [item]
      ensures records == old(records) && lastUpdated == now && authed == old(authed)
      ensures idCounter == old(idCounter) + 1
      ensures old(CounterFresh()) ==> CounterFresh() && item.id !in old(ItemIds(stock))
      ensures old(CounterFresh() && Unique(ItemIds(stock))) ==> Unique(ItemIds(stock))
    {
      var id := NextId();
      item := NewItem(draft, id, now);
      SaveData(AppData(records, stock + [item], lastUpdated), now);
      ParseIdOf(old(idCounter));
    }

    /** Merges a patch into the first item with that id; None and no write when there is none. */
    method UpdateStockItem(id: string, p: StockPatch, now: Time) returns (r: Option<StockItem>)
      modifies this
      ensures match FirstIndex(ItemIds(old(stock)), id)
        case None => r.None? && unchanged(this)
        case Some(i) =>
          && r == Some(MergeItem(old(stock)[i], p, now))
          && stock == old(stock)[i := r.value]
          && records == old(records) && lastUpdated == now
          && authed == old(authed) && idCounter == old(idCounter)
    {
      var index := FirstIndex(ItemIds(stock), id);
      if index.None? {
        return None;
      }
      var updated := MergeItem(stock[index.value], p, now);
      SaveData(AppData(records, stock[index.value := updated], lastUpdated), now);
      r := Some(updated);
    }

    /** Removes the first item with that id; false and no write when there is none. */
    method DeleteStockItem(id: string, now: Time) returns (found: bool)
      modifies this
      ensures found <==> id in ItemIds(old(stock))
      ensures !found ==> unchanged(this)
      ensures found ==>
        && stock == RemoveAt(old(stock), FirstIndex(ItemIds(old(stock)), id).value)
        && records == old(records) && lastUpdated == now
        && authed == old(authed) && idCounter == old(idCounter)
    {
      var index := FirstIndex(ItemIds(stock), id);
      if index.None? {
        return false;
      }
      SaveData(AppData(records, RemoveAt(stock, index.value), lastUpdated), now);
      found := true;
    }

    /** The items at or below their critical level, in collection order. */
    method GetLowStockItems() returns (low: seq<StockItem>)
      ensures low == LowStock(stock)
      ensures forall x :: x in low <==> x in stock && IsLow(x)
    {
      low := LowStock(stock);
    }

    /** Whether the session is logged in. */
    method CheckAuth() returns (b: bool)
      ensures b == authed
    {
      b := authed;
    }

    /** Logs in exactly when the password is the shared one; a wrong password changes nothing. */
    method Login(password: string) returns (ok: bool)
      modifies this`authed
      ensures ok <==> password == DemoPassword
      ensures authed == (old(authed) || ok)
    {
      if password == DemoPassword {
        authed := true;
        return true;
      }
      return false;
    }

    /** Ends the session. */
    method Logout()
      modifies this`authed
      ensures !authed
    {
      authed := false;
    }
  }
}
