/**
 * The record-detail page: the WhatsApp phone normalisation, the short id
 * and receipt number shown in the header and on the receipt, the status
 * timeline, and the status-change, add-note and delete handlers.
 */
module RecordDetail {
  import opened Types
  import opened Collections
  import Text
  import Store

  /**
   * The phone number for the WhatsApp link: the digits of the stored
   * phone; when they start with 0, that 0 is replaced by the country code 90.
   */
  function NormalizePhone(phone: string): (r: string)
    ensures Text.AllDigits(r)
    ensures var d := Text.DigitsOf(phone);
            if d != [] && d[0] == '0' then r == "90" + d[1..] && |r| == |d| + 1 else r == d
  {
    var digits := Text.DigitsOf(phone);
    if |digits| > 0 && digits[0] == '0' then "90" + digits[1..] else digits
  }

  /** A normalised phone never starts with 0, and normalising it again changes nothing. */
  lemma NormalizePhoneIdempotent(phone: string)
    ensures var r := NormalizePhone(phone);
            (r == [] || r[0] != '0') && NormalizePhone(r) == r
  {
    var r := NormalizePhone(phone);
    assert Text.DigitsOf(r) == r;
  }

  /** A domestic number written with a space becomes its international form. */
  lemma NormalizePhoneExample()
    ensures NormalizePhone("0 5") == "905"
  {
    assert "0 5"[1..] == " 5" && " 5"[1..] == "5";
    assert Text.DigitsOf("5") == "5";
    assert Text.DigitsOf(" 5") == "5";
    assert Text.DigitsOf("0 5") == "05";
  }

  /** The last `n` characters of `s` (s.slice(-n)), or all of `s` when it is shorter. */
  function Last(s: string, n: nat): (r: string)
    ensures |r| == if |s| < n then |s| else n
    ensures r == s[|s| - |r|..]
  {
    if |s| <= n then s else s[|s| - n..]
  }

  /** The header's short id: the id's last six characters, upper-cased. */
  function ShortId(id: string): (r: string)
    ensures |r| == if |id| < 6 then |id| else 6
    ensures forall k :: 0 <= k < |r| ==> r[k] == Text.UpperChar(id[|id| - |r| + k])
  {
    var m := if |id| < 6 then |id| else 6;
    seq(m, k requires 0 <= k < m => Text.UpperChar(id[|id| - m + k]))
  }

  /** The receipt number: the id's last eight characters, upper-cased. */
  function ReceiptNumber(id: string): (r: string)
    ensures |r| == if |id| < 8 then |id| else 8
    ensures forall k :: 0 <= k < |r| ==> r[k] == Text.UpperChar(id[|id| - |r| + k])
  {
    var m := if |id| < 8 then |id| else 8;
    seq(m, k requires 0 <= k < m => Text.UpperChar(id[|id| - m + k]))
  }

  /** The short id is the tail of the receipt number. */
  lemma ShortIdEndsReceipt(id: string)
    ensures var s, n := ShortId(id), ReceiptNumber(id);
            |s| <= |n| && s == n[|n| - |s|..]
  {
    var s, n := ShortId(id), ReceiptNumber(id);
    var d := |n| - |s|;
    var t := n[d..];
    assert |t| == |s|;
    forall k | 0 <= k < |s| ensures s[k] == t[k] {
      assert t[k] == n[d + k];
      assert |id| - |n| + (d + k) == |id| - |s| + k;
    }
    assert s == t;
  }

  /**
   * Upper-casing touches only lower-case ASCII letters: a character of the
   * id's tail comes out unchanged exactly when it is not such a letter.
   */
  lemma ShortIdChangesOnlyLowerCase(id: string)
    ensures var s, t := ShortId(id), Last(id, 6);
      && |s| == |t|
      && forall k :: 0 <= k < |s| ==> (s[k] == t[k] <==> !('a' <= t[k] <= 'z'))
  {
    var s, t := ShortId(id), Last(id, 6);
    forall k | 0 <= k < |s| ensures s[k] == t[k] <==> !('a' <= t[k] <= 'z') {
      assert t[k] == id[|id| - |t|..][k];
      Text.UpperCharFixes(t[k]);
    }
  }

  /** An id of base-36 digits, as the store generates them, shows its tail in capitals. */
  lemma ShortIdExample()
    ensures ShortId("lz3k9x2a") == "3K9X2A"
  {
    var t := Last("lz3k9x2a", 6);
    assert t == "3k9x2a";
    var s := ShortId("lz3k9x2a");
    assert s[0] == '3' && s[1] == 'K' && s[2] == '9' && s[3] == 'X' && s[4] == '2' && s[5] == 'A';
  }

  /** The status timeline: the history, newest entry first. */
  function Timeline(r: ServiceRecord): (t: seq<StatusChange>)
    ensures |t| == |r.statusHistory|
    ensures forall k :: 0 <= k < |t| ==> t[k] == r.statusHistory[|t| - 1 - k]
  {
    Reversed(r.statusHistory)
  }

  /** When the history is consistent, the timeline opens with the current status. */
  lemma TimelineTop(r: ServiceRecord)
    requires Store.HistoryConsistent(r)
    ensures |Timeline(r)| >= 1 && Timeline(r)[0].status == r.status
  {
  }

  /** After a status change the timeline gains the new entry on top; the rest is the old timeline. */
  lemma TimelineAfterStatus(r: ServiceRecord, s: ServiceStatus, changeId: string, note: Option<string>, now: Time)
    ensures var t := Timeline(Store.WithStatus(r, s, changeId, note, now));
            && |t| == |Timeline(r)| + 1
            && t[0] == StatusChange(changeId, s, now, note)
            && t[1..] == Timeline(r)
  {
    var m := Store.WithStatus(r, s, changeId, note, now);
    var t := Timeline(m);
    var h := r.statusHistory;
    forall k | 0 <= k < |h| ensures t[1..][k] == Timeline(r)[k] {
      assert t[1..][k] == t[k + 1] == m.statusHistory[|h| - 1 - k];
      assert m.statusHistory[..|h|][|h| - 1 - k] == h[|h| - 1 - k];
    }
  }

  /** The note passed with a status change: an empty text is no note (`statusNote || undefined`). */
  function StatusNoteArg(text: string): (note: Option<string>)
    ensures note.None? <==> text == ""
    ensures note.Some? ==> note.value == text
  {
    if text == "" then None else Some(text)
  }

  class RecordDetailPage {
    const store: Store.RecordStore
    /** The record shown; None renders the not-found view, which has no handlers. */
    var record: Option<ServiceRecord>
    var newNote: string
    var statusNote: string
    var newStatus: Option<ServiceStatus>
    var statusDialogOpen: bool

    /** The page opens on the stored record with that id, if any, with empty inputs. */
    constructor (store: Store.RecordStore, id: string)
      ensures this.store == store
      ensures record.None? <==> id !in RecordIds(store.records)
      ensures record.Some? ==> record.value == store.records[FirstIndex(RecordIds(store.records), id).value]
      ensures newNote == "" && statusNote == "" && newStatus.None? && !statusDialogOpen
    {
      this.store := store;
      var r := store.GetServiceRecord(id);
      record := r;
      newNote := "";
      statusNote := "";
      newStatus := None;
      statusDialogOpen := false;
    }

    /**
     * Applies the chosen status: without one nothing happens. Otherwise the
     * store records the change (an empty note as none); the page shows the
     * updated record when the store found it, and the dialog is closed and
     * cleared either way.
     */
    method HandleStatusChange(now: Time)
      requires record.Some?
      modifies this, store
      ensures old(newStatus).None? ==> unchanged(this) && unchanged(store)
      ensures old(newStatus).Some? ==>
        && newStatus.None? && statusNote == "" && !statusDialogOpen && newNote == old(newNote)
        && match FirstIndex(RecordIds(old(store.records)), old(record).value.id)
           case None => record == old(record) && unchanged(store)
           case Some(i) =>
             && record == Some(Store.WithStatus(old(store.records)[i], old(newStatus).value,
                                                Store.IdOf(old(store.idCounter)),
                                                StatusNoteArg(old(statusNote)), now))
             && store.records == old(store.records)[i := record.value]
             && store.stock == old(store.stock) && store.lastUpdated == now
             && store.authed == old(store.authed) && store.idCounter == old(store.idCounter) + 1
    {
      if newStatus.None? {
        return;
      }
      var updated := store.UpdateServiceStatus(record.value.id, newStatus.value, StatusNoteArg(statusNote), now);
      if updated.Some? {
        record := updated;
      }
      statusDialogOpen := false;
      newStatus := None;
      statusNote := "";
    }

    /**
     * Adds the typed note, trimmed: a blank note does nothing. When the
     * store found the record the page shows the updated record and clears
     * the input; otherwise the input is kept.
     */
    method HandleAddNote(now: Time)
      requires record.Some?
      modifies this, store
      ensures Text.Trim(old(newNote)) == "" ==> unchanged(this) && unchanged(store)
      ensures Text.Trim(old(newNote)) != "" ==>
        && newStatus == old(newStatus) && statusNote == old(statusNote)
        && match FirstIndex(RecordIds(old(store.records)), old(record).value.id)
           case None => unchanged(this) && unchanged(store)
           case Some(i) =>
             && record == Some(Store.WithNote(old(store.records)[i], Text.Trim(old(newNote)), now))
             && store.records == old(store.records)[i := record.value]
             && store.stock == old(store.stock) && store.lastUpdated == now
             && store.authed == old(store.authed) && store.idCounter == old(store.idCounter)
             && newNote == ""
    {
      var text := Text.Trim(newNote);
      if text == "" {
        return;
      }
      var updated := store.AddNoteToRecord(record.value.id, text, now);
      if updated.Some? {
        record := updated;
        newNote := "";
      }
    }

    /** Deletes the shown record from the store (the first one with its id). */
    method HandleDelete(now: Time)
      requires record.Some?
      modifies store
      ensures var id := record.value.id;
        && (id in RecordIds(old(store.records)) ==>
              && store.records == RemoveAt(old(store.records), FirstIndex(RecordIds(old(store.records)), id).value)
              && store.stock == old(store.stock) && store.lastUpdated == now
              && store.authed == old(store.authed) && store.idCounter == old(store.idCounter))
        && (id !in RecordIds(old(store.records)) ==> unchanged(store))
    {
      var _ := store.DeleteServiceRecord(record.value.id, now);
    }
  }
}
