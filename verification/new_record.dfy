/**
 * The new-record page: the form's initial draft, the required-field guard
 * that decides whether submitting creates a record, the price default and
 * the accessory checklist toggle.
 */
module NewRecord {
  import opened Types
  import Text
  import Store

  /** The form's fields; the price is kept as typed next to what parseFloat makes of it. */
  datatype RecordForm = RecordForm(
    customerName: string,
    customerPhone: string,
    deviceBrand: string,
    deviceModel: string,
    imei: string,
    issueDescription: string,
    estimatedPrice: Text.NumberField,
    accessories: seq<string>,
    deliveryDate: string,
    status: ServiceStatus,
    notes: seq<string>)

  /**
   * The form as the page opens it: every text field empty, no price, no
   * accessories and no notes, status beklemede, and the delivery date set
   * to `today` (the date part of the current ISO timestamp).
   */
  function DefaultForm(today: string): (f: RecordForm)
    ensures f.status == Beklemede && f.accessories == [] && f.notes == []
    ensures f.deliveryDate == today && f.estimatedPrice.text == ""
    ensures f.customerName == "" && f.customerPhone == "" && f.deviceBrand == "" && f.deviceModel == ""
    ensures f.imei == "" && f.issueDescription == "" && f.estimatedPrice.parsed.None?
  {
    RecordForm("", "", "", "", "", "", Text.NumberField("", None), [], today, Beklemede, [])
  }

  /** The submit guard: name, phone, brand and model must all be non-empty. */
  predicate RequiredFilled(f: RecordForm) {
    f.customerName != "" && f.customerPhone != "" && f.deviceBrand != "" && f.deviceModel != ""
  }

  /** The issue description, IMEI, price and delivery date play no part in the guard. */
  lemma GuardIgnoresOptionalFields(f: RecordForm, text: string, price: Text.NumberField)
    ensures RequiredFilled(f.(issueDescription := text)) == RequiredFilled(f)
    ensures RequiredFilled(f.(imei := text, estimatedPrice := price, deliveryDate := text)) == RequiredFilled(f)
    ensures RequiredFilled(f) <==>
      f.customerName != "" && f.customerPhone != "" && f.deviceBrand != "" && f.deviceModel != ""
  {
  }

  /** The freshly opened form cannot be submitted. */
  lemma DefaultFormRefused(today: string)
    ensures !RequiredFilled(DefaultForm(today))
  {
  }

  /**
   * The draft handed to the store: the form's fields, with a price that is
   * not a number (or is 0) submitted as 0.
   */
  function SubmitDraft(f: RecordForm): (d: RecordDraft)
    ensures d.estimatedPrice == Text.OrDefault(f.estimatedPrice, 0)
    ensures f.estimatedPrice.parsed.None? ==> d.estimatedPrice == 0
    ensures d.customerName == f.customerName && d.customerPhone == f.customerPhone
    ensures d.deviceBrand == f.deviceBrand && d.deviceModel == f.deviceModel && d.imei == f.imei
    ensures d.issueDescription == f.issueDescription && d.accessories == f.accessories
    ensures d.deliveryDate == f.deliveryDate && d.status == f.status && d.notes == f.notes
  {
    RecordDraft(f.customerName, f.customerPhone, f.deviceBrand, f.deviceModel, f.imei,
                f.issueDescription, Text.OrDefault(f.estimatedPrice, 0), f.accessories,
                f.deliveryDate, f.status, f.notes)
  }

  /** A record made from the untouched defaults starts as beklemede with no accessories or notes. */
  lemma DefaultDraft(today: string, name: string, phone: string, brand: string, model: string)
    ensures var d := SubmitDraft(DefaultForm(today).(customerName := name, customerPhone := phone,
                                                     deviceBrand := brand, deviceModel := model));
            d.status == Beklemede && d.accessories == [] && d.notes == [] && d.estimatedPrice == 0
  {
  }

  /** `list` without any occurrence of `a`, the others in their order (list.filter(x => x !== a)). */
  function Without(list: seq<string>, a: string): (r: seq<string>)
    ensures |r| <= |list|
    ensures forall x :: x in r <==> x in list && x != a
  {
    if list == [] then []
    else (if list[0] == a then [] else [list[0]]) + Without(list[1..], a)
  }

  lemma {:induction false} WithoutAppend(xs: seq<string>, ys: seq<string>, a: string)
    ensures Without(xs + ys, a) == Without(xs, a) + Without(ys, a)
  {
    if xs == [] {
      assert xs + ys == ys;
    } else {
      assert (xs + ys)[0] == xs[0];
      assert (xs + ys)[1..] == xs[1..] + ys;
      WithoutAppend(xs[1..], ys, a);
    }
  }

  lemma {:induction false} WithoutAbsent(list: seq<string>, a: string)
    requires a !in list
    ensures Without(list, a) == list
  {
    if list != [] {
      assert list[0] != a;
      assert a !in list[1..];
      WithoutAbsent(list[1..], a);
    }
  }

  /** Ticks or unticks an accessory: a present one is removed, an absent one goes at the end. */
  function ToggleAccessory(list: seq<string>, a: string): (r: seq<string>)
    ensures a in r <==> a !in list
    ensures forall x :: x != a ==> (x in r <==> x in list)
    ensures a !in list ==> r == list + [a]
    ensures a in list ==> r == Without(list, a)
  {
    if a in list then Without(list, a) else list + [a]
  }

  /** Ticking an accessory and unticking it again restores the checklist. */
  lemma ToggleTwice(list: seq<string>, a: string)
    requires a !in list
    ensures ToggleAccessory(ToggleAccessory(list, a), a) == list
  {
    calc {
      ToggleAccessory(ToggleAccessory(list, a), a);
      Without(list + [a], a);
      { WithoutAppend(list, [a], a); }
      Without(list, a) + Without([a], a);
      { WithoutAbsent(list, a); assert [a][1..] == []; }
      list;
    }
  }

  /** Unticking and re-ticking a present accessory moves it to the end of the checklist. */
  lemma ToggleTwicePresent(list: seq<string>, a: string)
    requires a in list
    ensures var r := ToggleAccessory(ToggleAccessory(list, a), a);
            r == Without(list, a) + [a]
  {
  }

  class NewRecordPage {
    const store: Store.RecordStore
    var form: RecordForm

    /** The page opens on the default form. */
    constructor (store: Store.RecordStore, today: string)
      ensures this.store == store && form == DefaultForm(today)
    {
      this.store := store;
      form := DefaultForm(today);
    }

    /** Flips one accessory of the form; no other field changes. */
    method HandleToggleAccessory(a: string)
      modifies this`form
      ensures form == old(form).(accessories := ToggleAccessory(old(form).accessories, a))
      ensures a in form.accessories <==> a !in old(form).accessories
    {
      form := form.(accessories := ToggleAccessory(form.accessories, a));
    }

    /**
     * Submits the form: with a required field empty nothing is created and
     * the store is untouched; otherwise the store creates the record from
     * the submitted draft and puts it first.
     */
    method HandleSubmit(now: Time) returns (rec: Option<ServiceRecord>)
      modifies store
      ensures !RequiredFilled(form) ==> rec.None? && unchanged(store)
      ensures RequiredFilled(form) ==>
        && rec == Some(Store.NewRecord(SubmitDraft(form), Store.IdOf(old(store.idCounter)),
                                       Store.IdOf(old(store.idCounter) + 1), now))
        && store.records == [rec.value] + old(store.records)
        && store.stock == old(store.stock) && store.lastUpdated == now
        && store.authed == old(store.authed) && store.idCounter == old(store.idCounter) + 2
    {
      if !RequiredFilled(form) {
        return None;
      }
      var r := store.AddServiceRecord(SubmitDraft(form), now);
      rec := Some(r);
    }
  }
}
