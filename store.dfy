/** The persistent state the handlers read and write: one table per entity, each a
    sequence of rows in storage order, held by a `Database` object that the handlers
    update in place. A query's `.first()` is the first matching row in that order. */
module Store {
  import opened Values

  /** The columns of a shipment row other than its primary key and creation time, by the
      attribute names `create_shipment` and `update_shipment` use. `hasattr`/`setattr`
      on a shipment reach exactly these. */
  const ShipmentColumns: set<string> := {
    "shipment_number", "supplier_id", "buyer_id", "origin_port", "destination_port",
    "incoterm", "cargo_type", "container_type", "container_qty", "goods_description",
    "hs_code", "gross_weight_kg", "net_weight_kg", "volume_cbm", "total_packages",
    "package_type", "preferred_etd", "preferred_eta", "declared_value_usd",
    "insurance_required", "status", "metadata_", "updated_at"
  }

  /** A shipment row: its key, its server-set creation time, and every other column by
      name (a column absent from `attrs` is NULL). */
  datatype Shipment = Shipment(id: Id, createdAt: Time, attrs: map<string, Value>)

  /** `getattr(shipment, name)` for a column; NULL reads as None. */
  function Attr(s: Shipment, name: string): Value {
    Get(s.attrs, name, VNone)
  }

  /** `str(shipment.<column>) == str(user_id)`: the ownership tests of every handler. */
  predicate OwnedBy(s: Shipment, column: string, user: Id) {
    Attr(s, column) == VStr(user)
  }

  /** `setattr(shipment, name, v)` as the database keeps it: only a column is persisted;
      any other attribute name lives on the Python object and is lost. */
  function SetColumn(s: Shipment, name: string, v: Value): (r: Shipment)
    ensures r.id == s.id && r.createdAt == s.createdAt
    ensures name in ShipmentColumns ==> r.attrs == s.attrs[name := v]
    ensures name !in ShipmentColumns ==> r == s
  {
    if name in ShipmentColumns then s.(attrs := s.attrs[name := v]) else s
  }

  /** Two versions of a shipment row agree on every column not named in `changed`. */
  ghost predicate SameExcept(a: Shipment, b: Shipment, changed: seq<string>) {
    && a.id == b.id && a.createdAt == b.createdAt
    && forall c :: c !in changed ==>
         (c in a.attrs <==> c in b.attrs) && (c in a.attrs ==> a.attrs[c] == b.attrs[c])
  }

  datatype QuoteStatus = Pending | Accepted | Rejected | Expired

  function QuoteStatusName(st: QuoteStatus): string {
    match st
    case Pending => "pending"
    case Accepted => "accepted"
    case Rejected => "rejected"
    case Expired => "expired"
  }

  /** A quote row (its monetary and routing columns are not touched by the core). */
  datatype Quote = Quote(
    id: Id, shipmentId: Id, forwarderId: Id, status: QuoteStatus,
    validityDate: Option<Time>, remarks: Option<string>)

  datatype TrackingStatus =
    | Booked | GateIn | VesselDeparted | InTransit | PortArrival
    | GateOut | CustomsClearance | Delivered | Held | Delayed

  /** `TrackingStatus.value` */
  function TrackingStatusValue(t: TrackingStatus): string {
    match t
    case Booked => "booked"
    case GateIn => "gate_in"
    case VesselDeparted => "vessel_departed"
    case InTransit => "in_transit"
    case PortArrival => "port_arrival"
    case GateOut => "gate_out"
    case CustomsClearance => "customs_clearance"
    case Delivered => "delivered"
    case Held => "held"
    case Delayed => "delayed"
  }

  /** A tracking-event row; `timestamp` is set by the server when the row is inserted. */
  datatype TrackingEvent = TrackingEvent(
    id: Id, shipmentId: Id, createdBy: Id, status: string, location: string,
    vesselName: Option<string>, voyageNumber: Option<string>, containerNumber: Option<string>,
    description: string, remarks: Option<string>,
    estimated: Option<Time>, actual: Option<Time>, documents: seq<string>,
    isMilestone: bool, verified: bool, timestamp: Time)

  datatype DocumentType =
    | Invoice | PackingList | CommercialInvoice | CertificateOfOrigin | BillOfLading
    | HouseBl | MasterBl | TelexRelease | Other

  /** A document row. `confidence`, `extractionMethod` and `needsReview` hold whatever
      the extractor's dictionary supplied. */
  datatype Document = Document(
    id: Id, shipmentId: Id, uploadedBy: Id, docType: DocumentType,
    fileName: string, fileUrl: string, fileSize: nat, mimeType: Option<string>,
    extractedData: Option<map<string, Value>>,
    confidence: Value, extractionMethod: Value, needsReview: Value)

  datatype JobStatus = Processing | Completed | Failed

  datatype ExtractionJob = ExtractionJob(
    id: Id, documentId: Id, status: JobStatus, modelUsed: Value,
    processingTimeMs: Value, errorMessage: Option<string>, attempts: int)

  /** The database session: every table the core reads or writes. */
  class Database {
    var users: seq<User>
    var shipments: seq<Shipment>
    var quotes: seq<Quote>
    var events: seq<TrackingEvent>
    var documents: seq<Document>
    var jobs: seq<ExtractionJob>

    constructor ()
      ensures users == [] && shipments == [] && quotes == []
      ensures events == [] && documents == [] && jobs == []
    {
      users, shipments, quotes := [], [], [];
      events, documents, jobs := [], [], [];
    }
  }

  /** `query(Shipment).filter(Shipment.id == id).first()` */
  function FindShipment(rows: seq<Shipment>, id: Id): (r: Option<nat>)
    ensures r.Some? ==> r.value < |rows| && rows[r.value].id == id
    ensures r.Some? ==> forall j :: 0 <= j < r.value ==> rows[j].id != id
    ensures r.None? <==> forall j :: 0 <= j < |rows| ==> rows[j].id != id
  {
    if rows == [] then None
    else if rows[0].id == id then Some(0)
    else match FindShipment(rows[1..], id)
      case None => None
      case Some(k) => Some(k + 1)
  }

  /** `query(Quote).filter(Quote.id == id, Quote.shipment_id == shipment).first()` */
  function FindQuoteOf(rows: seq<Quote>, id: Id, shipment: Id): (r: Option<nat>)
    ensures r.Some? ==> r.value < |rows| && rows[r.value].id == id
    ensures r.Some? ==> rows[r.value].shipmentId == shipment
    ensures r.Some? ==> forall j :: 0 <= j < r.value ==>
      !(rows[j].id == id && rows[j].shipmentId == shipment)
    ensures r.None? <==> forall j :: 0 <= j < |rows| ==>
      !(rows[j].id == id && rows[j].shipmentId == shipment)
  {
    if rows == [] then None
    else if rows[0].id == id && rows[0].shipmentId == shipment then Some(0)
    else match FindQuoteOf(rows[1..], id, shipment)
      case None => None
      case Some(k) => Some(k + 1)
  }

  /** `query(Quote).filter(Quote.id == id).first()` */
  function FindQuote(rows: seq<Quote>, id: Id): (r: Option<nat>)
    ensures r.Some? ==> r.value < |rows| && rows[r.value].id == id
    ensures r.Some? ==> forall j :: 0 <= j < r.value ==> rows[j].id != id
    ensures r.None? <==> forall j :: 0 <= j < |rows| ==> rows[j].id != id
  {
    if rows == [] then None
    else if rows[0].id == id then Some(0)
    else match FindQuote(rows[1..], id)
      case None => None
      case Some(k) => Some(k + 1)
  }

  /** `query(User).filter(User.id == id).first()` */
  function FindUser(rows: seq<User>, id: Id): (r: Option<nat>)
    ensures r.Some? ==> r.value < |rows| && rows[r.value].id == id
    ensures r.Some? ==> forall j :: 0 <= j < r.value ==> rows[j].id != id
    ensures r.None? <==> forall j :: 0 <= j < |rows| ==> rows[j].id != id
  {
    if rows == [] then None
    else if rows[0].id == id then Some(0)
    else match FindUser(rows[1..], id)
      case None => None
      case Some(k) => Some(k + 1)
  }

  /** `query(Document).filter(Document.id == id).first()` */
  function FindDocument(rows: seq<Document>, id: Id): (r: Option<nat>)
    ensures r.Some? ==> r.value < |rows| && rows[r.value].id == id
    ensures r.Some? ==> forall j :: 0 <= j < r.value ==> rows[j].id != id
    ensures r.None? <==> forall j :: 0 <= j < |rows| ==> rows[j].id != id
  {
    if rows == [] then None
    else if rows[0].id == id then Some(0)
    else match FindDocument(rows[1..], id)
      case None => None
      case Some(k) => Some(k + 1)
  }

  /** `query(ExtractionJob).filter(ExtractionJob.document_id == document).first()` */
  function FindJobOf(rows: seq<ExtractionJob>, document: Id): (r: Option<nat>)
    ensures r.Some? ==> r.value < |rows| && rows[r.value].documentId == document
    ensures r.Some? ==> forall j :: 0 <= j < r.value ==> rows[j].documentId != document
    ensures r.None? <==> forall j :: 0 <= j < |rows| ==> rows[j].documentId != document
  {
    if rows == [] then None
    else if rows[0].documentId == document then Some(0)
    else match FindJobOf(rows[1..], document)
      case None => None
      case Some(k) => Some(k + 1)
  }
}
