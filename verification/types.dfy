/**
 * Data model of the repair-shop record keeper: service records with their
 * status history, stock items, the persisted aggregate, the drafts and
 * partial updates the store accepts, and the constant lookup tables.
 */
module Types {

  datatype Option<+T> = None | Some(value: T) {
    function GetOr(default: T): T {
      match this
      case Some(v) => v
      case None => default
    }
  }

  /** The five repair-ticket statuses. */
  datatype ServiceStatus = Beklemede | Islemde | ParcaBekliyor | Hazir | TeslimEdildi

  const AllStatuses: seq<ServiceStatus> := [Beklemede, Islemde, ParcaBekliyor, Hazir, TeslimEdildi]

  /** The string a status is persisted as. */
  function StatusCode(s: ServiceStatus): string {
    match s
    case Beklemede => "beklemede"
    case Islemde => "islemde"
    case ParcaBekliyor => "parca-bekliyor"
    case Hazir => "hazir"
    case TeslimEdildi => "teslim-edildi"
  }

  /** Reads a persisted status string back; anything else is not a status. */
  function ParseStatus(code: string): (r: Option<ServiceStatus>)
    ensures r.Some? ==> StatusCode(r.value) == code
  {
    if code == "beklemede" then Some(Beklemede)
    else if code == "islemde" then Some(Islemde)
    else if code == "parca-bekliyor" then Some(ParcaBekliyor)
    else if code == "hazir" then Some(Hazir)
    else if code == "teslim-edildi" then Some(TeslimEdildi)
    else None
  }

  /** There are exactly five distinct statuses. */
  lemma StatusesEnumerated()
    ensures |AllStatuses| == 5
    ensures forall i, j :: 0 <= i < j < |AllStatuses| ==> AllStatuses[i] != AllStatuses[j]
  {
  }

  /** Every status is enumerated, and its persisted code reads back as itself. */
  lemma StatusCodeRoundTrip(s: ServiceStatus)
    ensures s in AllStatuses
    ensures ParseStatus(StatusCode(s)) == Some(s)
  {
    match s
    case Beklemede =>
    case Islemde =>
    case ParcaBekliyor =>
    case Hazir =>
    case TeslimEdildi =>
  }

  /** Display label of a status (total over the enumeration). */
  function StatusLabel(s: ServiceStatus): (text: string)
    ensures text != ""
  {
    match s
    case Beklemede => "Beklemede"
    case Islemde => "İşlemde"
    case ParcaBekliyor => "Parça Bekliyor"
    case Hazir => "Hazır"
    case TeslimEdildi => "Teslim Edildi"
  }

  /** No two statuses share a label. */
  lemma StatusLabelsDistinct(s: ServiceStatus, t: ServiceStatus)
    requires s != t
    ensures StatusLabel(s) != StatusLabel(t)
  {
  }

  /** Badge colour classes of a status (total over the enumeration). */
  function StatusColor(s: ServiceStatus): (classes: string)
    ensures classes != ""
  {
    match s
    case Beklemede => "bg-yellow-100 text-yellow-800 border-yellow-200"
    case Islemde => "bg-blue-100 text-blue-800 border-blue-200"
    case ParcaBekliyor => "bg-orange-100 text-orange-800 border-orange-200"
    case Hazir => "bg-green-100 text-green-800 border-green-200"
    case TeslimEdildi => "bg-gray-100 text-gray-800 border-gray-200"
  }

  const AccessoryOptions: seq<string> :=
    ["Şarj Kablosu", "Kulaklık", "Kılıf", "Ekran Koruyucu",
     "Hafıza Kartı", "SIM Kart", "Kutu", "Garanti Belgesi"]

  /** The accessory checklist has eight distinct entries. */
  lemma AccessoryOptionsDistinct()
    ensures |AccessoryOptions| == 8
    ensures forall i, j :: 0 <= i < j < |AccessoryOptions| ==> AccessoryOptions[i] != AccessoryOptions[j]
  {
  }

  /** Timestamps are clock ticks supplied by the caller. */
  type Time = int

  /** One entry of a record's status history; the note is optional. */
  datatype StatusChange = StatusChange(id: string, status: ServiceStatus, timestamp: Time, note: Option<string>)

  datatype ServiceRecord = ServiceRecord(
    id: string,
    customerName: string,
    customerPhone: string,
    deviceBrand: string,
    deviceModel: string,
    imei: string,
    issueDescription: string,
    estimatedPrice: int,
    accessories: seq<string>,
    deliveryDate: string,
    status: ServiceStatus,
    notes: seq<string>,
    statusHistory: seq<StatusChange>,
    createdAt: Time,
    updatedAt: Time)

  /** A record without the fields the store fills in (id, history, timestamps). */
  datatype RecordDraft = RecordDraft(
    customerName: string,
    customerPhone: string,
    deviceBrand: string,
    deviceModel: string,
    imei: string,
    issueDescription: string,
    estimatedPrice: int,
    accessories: seq<string>,
    deliveryDate: string,
    status: ServiceStatus,
    notes: seq<string>)

  /** The draft part of a record. */
  function DraftOf(r: ServiceRecord): RecordDraft {
    RecordDraft(r.customerName, r.customerPhone, r.deviceBrand, r.deviceModel, r.imei,
                r.issueDescription, r.estimatedPrice, r.accessories, r.deliveryDate,
                r.status, r.notes)
  }

  /** A partial record: every field may be supplied or left out. */
  datatype RecordPatch = RecordPatch(
    id: Option<string>,
    customerName: Option<string>,
    customerPhone: Option<string>,
    deviceBrand: Option<string>,
    deviceModel: Option<string>,
    imei: Option<string>,
    issueDescription: Option<string>,
    estimatedPrice: Option<int>,
    accessories: Option<seq<string>>,
    deliveryDate: Option<string>,
    status: Option<ServiceStatus>,
    notes: Option<seq<string>>,
    statusHistory: Option<seq<StatusChange>>,
    createdAt: Option<Time>,
    updatedAt: Option<Time>)

  const EmptyRecordPatch: RecordPatch :=
    RecordPatch(None, None, None, None, None, None, None, None, None, None, None, None, None, None, None)

  datatype StockItem = StockItem(id: string, name: string, quantity: int, criticalLevel: int,
                                 createdAt: Time, updatedAt: Time)

  /** A stock item without id and timestamps. */
  datatype StockDraft = StockDraft(name: string, quantity: int, criticalLevel: int)

  /** A partial stock item. */
  datatype StockPatch = StockPatch(id: Option<string>, name: Option<string>, quantity: Option<int>,
                                   criticalLevel: Option<int>, createdAt: Option<Time>,
                                   updatedAt: Option<Time>)

  const EmptyStockPatch: StockPatch := StockPatch(None, None, None, None, None, None)

  /** The persisted aggregate: two ordered collections and a stamp. */
  datatype AppData = AppData(serviceRecords: seq<ServiceRecord>, stockItems: seq<StockItem>,
                             lastUpdated: Time)

  /** An item is low on stock when its quantity is at or below its critical level. */
  predicate IsLow(item: StockItem) {
    item.quantity <= item.criticalLevel
  }

  /** The ids of a collection, in order. */
  function RecordIds(rs: seq<ServiceRecord>): (ids: seq<string>)
    ensures |ids| == |rs| && forall i :: 0 <= i < |rs| ==> ids[i] == rs[i].id
  {
    seq(|rs|, i requires 0 <= i < |rs| => rs[i].id)
  }

  function ItemIds(items: seq<StockItem>): (ids: seq<string>)
    ensures |ids| == |items| && forall i :: 0 <= i < |items| ==> ids[i] == items[i].id
  {
    seq(|items|, i requires 0 <= i < |items| => items[i].id)
  }

  predicate Unique(ids: seq<string>) {
    forall i, j :: 0 <= i < j < |ids| ==> ids[i] != ids[j]
  }
}
