/** The shipment service: creation with its defaults, field-wise updates, the owner
    listings, and the mapping of extracted document data onto a shipment. */
module ShipmentService {
  import opened Values
  import opened Store
  import opened Sorting
  import Helpers

  // ---------------------------------------------------------------------------
  // create_shipment

  /** The request body of `create_shipment`; the two enum fields are given by `.value`. */
  datatype ShipmentCreate = ShipmentCreate(
    originPort: Value, destinationPort: Value, incoterm: string, cargoType: string,
    containerType: Value, containerQty: Value, goodsDescription: Value, hsCode: Value,
    grossWeightKg: Value, netWeightKg: Value, volumeCbm: Value, totalPackages: Value,
    packageType: Value, preferredEtd: Value, preferredEta: Value, declaredValueUsd: Value,
    insuranceRequired: Value, specialInstructions: Value)

  /** The row `create_shipment` inserts; `updated_at` stays NULL until the first update. */
  function NewShipment(id: Id, supplier: Id, buyer: Id, data: ShipmentCreate,
                       number: string, now: Time): Shipment
  {
    Shipment(id, now, map[
      "shipment_number" := VStr(number),
      "supplier_id" := VStr(supplier),
      "buyer_id" := VStr(buyer),
      "origin_port" := data.originPort,
      "destination_port" := data.destinationPort,
      "incoterm" := VStr(data.incoterm),
      "cargo_type" := VStr(data.cargoType),
      "container_type" := data.containerType,
      "container_qty" := data.containerQty,
      "goods_description" := data.goodsDescription,
      "hs_code" := data.hsCode,
      "gross_weight_kg" := data.grossWeightKg,
      "net_weight_kg" := data.netWeightKg,
      "volume_cbm" := data.volumeCbm,
      "total_packages" := data.totalPackages,
      "package_type" := data.packageType,
      "preferred_etd" := data.preferredEtd,
      "preferred_eta" := data.preferredEta,
      "declared_value_usd" := data.declaredValueUsd,
      "insurance_required" := data.insuranceRequired,
      "status" := VStr("draft"),
      "metadata_" := VDict(map[
        "special_instructions" := data.specialInstructions,
        "created_via" := VStr("api")])
    ])
  }

  /** A new shipment is a `draft` owned by its supplier and buyer, records
      `created_via: "api"`, carries a well-formed shipment number and stores only columns. */
  lemma NewShipmentDefaults(id: Id, supplier: Id, buyer: Id, data: ShipmentCreate,
                            today: Helpers.Date, picks: seq<nat>, now: Time)
    requires Helpers.ValidDate(today)
    requires Helpers.ValidPicks(picks, Helpers.ShipmentSuffixChars, 5)
    ensures var s := NewShipment(id, supplier, buyer, data,
                                 Helpers.ShipmentNumber(today, picks), now);
      && s.id == id && s.createdAt == now
      && Attr(s, "status") == VStr("draft")
      && OwnedBy(s, "supplier_id", supplier) && OwnedBy(s, "buyer_id", buyer)
      && Attr(s, "metadata_").VDict?
      && Get(Attr(s, "metadata_").entries, "created_via", VNone) == VStr("api")
      && s.attrs.Keys <= ShipmentColumns
      && "updated_at" !in s.attrs.Keys
      && Attr(s, "shipment_number").VStr?
      && |Attr(s, "shipment_number").s| == 17
      && Attr(s, "shipment_number").s[..3] == "TF-"
  {
    var number := Helpers.ShipmentNumber(today, picks);
    var s := NewShipment(id, supplier, buyer, data, number, now);
    Helpers.ShipmentNumberFormat(today, picks);
    assert "shipment_number" in s.attrs && s.attrs["shipment_number"] == VStr(number);
    assert s.attrs["status"] == VStr("draft");
    assert s.attrs["supplier_id"] == VStr(supplier) && s.attrs["buyer_id"] == VStr(buyer);
    NewShipmentKeys(id, supplier, buyer, data, number, now);
  }

  /** The new row stores exactly the columns `create_shipment` names. */
  lemma NewShipmentKeys(id: Id, supplier: Id, buyer: Id, data: ShipmentCreate,
                        number: string, now: Time)
    ensures var s := NewShipment(id, supplier, buyer, data, number, now);
      s.attrs.Keys == ShipmentColumns - {"updated_at"}
  {
  }

  /** `create_shipment`; the shipment number is drawn from `today` and `picks`. */
  method CreateShipment(db: Database, id: Id, supplier: Id, buyer: Id, data: ShipmentCreate,
                        today: Helpers.Date, picks: seq<nat>, now: Time)
    returns (s: Shipment)
    requires Helpers.ValidDate(today)
    requires Helpers.ValidPicks(picks, Helpers.ShipmentSuffixChars, 5)
    modifies db`shipments
    ensures s == NewShipment(id, supplier, buyer, data, Helpers.ShipmentNumber(today, picks), now)
    ensures db.shipments == old(db.shipments) + [s]
  {
    var number := Helpers.ShipmentNumber(today, picks);
    s := NewShipment(id, supplier, buyer, data, number, now);
    db.shipments := db.shipments + [s];
  }

  // ---------------------------------------------------------------------------
  // Listings

  /** `if status_filter: query = query.filter(Shipment.status == status_filter)` */
  predicate StatusMatches(s: Shipment, statusFilter: Option<string>) {
    statusFilter.None? || statusFilter.value == "" || Attr(s, "status") == VStr(statusFilter.value)
  }

  /** The rows whose `column` names `owner` and that pass the status filter, in storage order. */
  function OwnedRows(rows: seq<Shipment>, column: string, owner: Id,
                     statusFilter: Option<string>): (r: seq<Shipment>)
    ensures forall x :: x in r <==>
      x in rows && OwnedBy(x, column, owner) && StatusMatches(x, statusFilter)
    ensures |r| <= |rows|
    ensures multiset(r) <= multiset(rows)
  {
    if rows == [] then []
    else
      var rest := OwnedRows(rows[1..], column, owner, statusFilter);
      assert forall x :: x in rows <==> x == rows[0] || x in rows[1..];
      assert rows == [rows[0]] + rows[1..];
      if OwnedBy(rows[0], column, owner) && StatusMatches(rows[0], statusFilter)
      then [rows[0]] + rest else rest
  }

  /** The sort key of `order_by(Shipment.created_at.desc())`. */
  function NewestFirst(s: Shipment): int { -s.createdAt }

  predicate NewestToOldest(r: seq<Shipment>) {
    forall i, j :: 0 <= i < j < |r| ==> r[i].createdAt >= r[j].createdAt
  }

  /** `get_supplier_shipments` */
  function GetSupplierShipments(rows: seq<Shipment>, supplier: Id,
                                statusFilter: Option<string>): (r: seq<Shipment>)
    ensures forall x :: x in r <==>
      x in rows && OwnedBy(x, "supplier_id", supplier) && StatusMatches(x, statusFilter)
    ensures multiset(r) == multiset(OwnedRows(rows, "supplier_id", supplier, statusFilter))
    ensures NewestToOldest(r)
  {
    var r := SortBy(OwnedRows(rows, "supplier_id", supplier, statusFilter), NewestFirst);
    forall x ensures x in r <==> x in OwnedRows(rows, "supplier_id", supplier, statusFilter) {
      MemberOfSorted(OwnedRows(rows, "supplier_id", supplier, statusFilter), NewestFirst, x);
    }
    r
  }

  /** `get_buyer_shipments` */
  function GetBuyerShipments(rows: seq<Shipment>, buyer: Id,
                             statusFilter: Option<string>): (r: seq<Shipment>)
    ensures forall x :: x in r <==>
      x in rows && OwnedBy(x, "buyer_id", buyer) && StatusMatches(x, statusFilter)
    ensures multiset(r) == multiset(OwnedRows(rows, "buyer_id", buyer, statusFilter))
    ensures NewestToOldest(r)
  {
    var r := SortBy(OwnedRows(rows, "buyer_id", buyer, statusFilter), NewestFirst);
    forall x ensures x in r <==> x in OwnedRows(rows, "buyer_id", buyer, statusFilter) {
      MemberOfSorted(OwnedRows(rows, "buyer_id", buyer, statusFilter), NewestFirst, x);
    }
    r
  }

  /** Some quote of this shipment was submitted by the forwarder (the join condition). */
  predicate QuotedBy(s: Shipment, quotes: seq<Quote>, forwarder: Id) {
    exists i :: 0 <= i < |quotes| && quotes[i].shipmentId == s.id && quotes[i].forwarderId == forwarder
  }

  /** The shipments the forwarder has quoted and that pass the status filter, one per
      row however many quotes join it, in storage order. */
  function QuotedRows(rows: seq<Shipment>, quotes: seq<Quote>, forwarder: Id,
                      statusFilter: Option<string>): (r: seq<Shipment>)
    ensures forall x :: x in r <==>
      x in rows && QuotedBy(x, quotes, forwarder) && StatusMatches(x, statusFilter)
    ensures multiset(r) <= multiset(rows)
  {
    if rows == [] then []
    else
      var rest := QuotedRows(rows[1..], quotes, forwarder, statusFilter);
      assert forall x :: x in rows <==> x == rows[0] || x in rows[1..];
      assert rows == [rows[0]] + rows[1..];
      if QuotedBy(rows[0], quotes, forwarder) && StatusMatches(rows[0], statusFilter)
      then [rows[0]] + rest else rest
  }

  /** `get_shipments_for_forwarder`: the ORM query de-duplicates the joined shipment rows. */
  function GetShipmentsForForwarder(rows: seq<Shipment>, quotes: seq<Quote>, forwarder: Id,
                                    statusFilter: Option<string>): (r: seq<Shipment>)
    ensures forall x :: x in r <==>
      x in rows && QuotedBy(x, quotes, forwarder) && StatusMatches(x, statusFilter)
    ensures multiset(r) == multiset(QuotedRows(rows, quotes, forwarder, statusFilter))
    ensures multiset(r) <= multiset(rows)
    ensures NewestToOldest(r)
  {
    var r := SortBy(QuotedRows(rows, quotes, forwarder, statusFilter), NewestFirst);
    forall x ensures x in r <==> x in QuotedRows(rows, quotes, forwarder, statusFilter) {
      MemberOfSorted(QuotedRows(rows, quotes, forwarder, statusFilter), NewestFirst, x);
    }
    r
  }

  // ---------------------------------------------------------------------------
  // update_shipment

  /** `for field, value in items: if hasattr(shipment, field): setattr(shipment, field, value)` */
  function ApplyUpdates(s: Shipment, items: seq<(string, Value)>): Shipment {
    if items == [] then s
    else
      var last := items[|items| - 1];
      SetColumn(ApplyUpdates(s, items[..|items| - 1]), last.0, last.1)
  }

  /** The value `items` assigns to `key` last, if any. */
  function LastValue(items: seq<(string, Value)>, key: string): Option<Value> {
    if items == [] then None
    else if items[|items| - 1].0 == key then Some(items[|items| - 1].1)
    else LastValue(items[..|items| - 1], key)
  }

  /** Every column named in the update takes its (last) value; every other column, and
      every name that is not a column, is left as it was. */
  lemma {:induction false} ApplyUpdatesAt(s: Shipment, items: seq<(string, Value)>, key: string)
    ensures ApplyUpdates(s, items).id == s.id
    ensures ApplyUpdates(s, items).createdAt == s.createdAt
    ensures key in ShipmentColumns && LastValue(items, key).Some? ==>
      key in ApplyUpdates(s, items).attrs
      && ApplyUpdates(s, items).attrs[key] == LastValue(items, key).value
    ensures !(key in ShipmentColumns && LastValue(items, key).Some?) ==>
      (key in ApplyUpdates(s, items).attrs <==> key in s.attrs)
      && (key in s.attrs ==> ApplyUpdates(s, items).attrs[key] == s.attrs[key])
  {
    if items != [] {
      ApplyUpdatesAt(s, items[..|items| - 1], key);
    }
  }

  datatype UpdateOutcome = UpdateOutcome(response: Option<Shipment>, shipments: seq<Shipment>)

  /** What `update_shipment` answers and leaves in the shipments table. */
  function UpdateShipmentOutcome(rows: seq<Shipment>, id: Id, items: seq<(string, Value)>,
                                 now: Time): UpdateOutcome
  {
    match FindShipment(rows, id)
    case None => UpdateOutcome(None, rows)
    case Some(k) =>
      var s := SetColumn(ApplyUpdates(rows[k], items), "updated_at", VTime(now));
      UpdateOutcome(Some(s), rows[k := s])
  }

  /** An unknown id answers None and changes nothing. Otherwise only the first row with
      that id changes: the explicitly set columns take their values, `updated_at` becomes
      now, and all other columns keep theirs. */
  lemma UpdateShipmentSpec(rows: seq<Shipment>, id: Id, items: seq<(string, Value)>,
                           now: Time, key: string)
    ensures var o := UpdateShipmentOutcome(rows, id, items, now);
      (o.response.None? <==> FindShipment(rows, id).None?)
      && (o.response.None? ==> o.shipments == rows)
      && (o.response.Some? ==>
        var k := FindShipment(rows, id).value;
        var s := o.response.value;
        && o.shipments == rows[k := s]
        && s.id == id && s.createdAt == rows[k].createdAt
        && s.attrs["updated_at"] == VTime(now)
        && (key != "updated_at" && key in ShipmentColumns && LastValue(items, key).Some? ==>
              key in s.attrs && s.attrs[key] == LastValue(items, key).value)
        && (key != "updated_at" && !(key in ShipmentColumns && LastValue(items, key).Some?) ==>
              (key in s.attrs <==> key in rows[k].attrs)
              && (key in rows[k].attrs ==> s.attrs[key] == rows[k].attrs[key])))
  {
    if FindShipment(rows, id).Some? {
      ApplyUpdatesAt(rows[FindShipment(rows, id).value], items, key);
    }
  }

  /** `update_shipment` */
  method UpdateShipment(db: Database, id: Id, items: seq<(string, Value)>, now: Time)
    returns (r: Option<Shipment>)
    modifies db`shipments
    ensures var o := UpdateShipmentOutcome(old(db.shipments), id, items, now);
      r == o.response && db.shipments == o.shipments
  {
    var k := FindShipment(db.shipments, id);
    if k.None? {
      return None;
    }
    var s := db.shipments[k.value];
    ghost var s0 := s;
    var i := 0;
    while i < |items|
      invariant 0 <= i <= |items|
      invariant s == ApplyUpdates(s0, items[..i])
    {
      var (field, value) := items[i];
      if field in ShipmentColumns {
        s := s.(attrs := s.attrs[field := value]);
      }
      assert items[..i + 1][..i] == items[..i];
      i := i + 1;
    }
    assert items[..|items|] == items;
    s := s.(attrs := s.attrs["updated_at" := VTime(now)]);
    db.shipments := db.shipments[k.value := s];
    r := Some(s);
  }

  // ---------------------------------------------------------------------------
  // update_shipment_from_document

  /** `field_mapping`, in its dictionary order: extracted key, shipment column. */
  const FieldMapping: seq<(string, string)> := [
    ("total_gross_weight_kg", "gross_weight_kg"),
    ("total_net_weight_kg", "net_weight_kg"),
    ("total_volume_cbm", "volume_cbm"),
    ("total_packages", "total_packages")
  ]

  /** Every column the mapping may report, in the order it reports them. */
  const DocumentFields: seq<string> := [
    "gross_weight_kg", "net_weight_kg", "volume_cbm", "total_packages",
    "hs_code", "goods_description"
  ]

  /** Position of a reported column in `DocumentFields`. */
  function Rank(f: string): nat {
    if f == "gross_weight_kg" then 0
    else if f == "net_weight_kg" then 1
    else if f == "volume_cbm" then 2
    else if f == "total_packages" then 3
    else if f == "hs_code" then 4
    else 5
  }

  /** The shipment as modified so far and the columns reported so far. */
  datatype Progress = Progress(shipment: Shipment, updated: seq<string>)

  /** One entry of the mapping. None where `new_value > 0` raises TypeError (a value that
      is truthy, differs from the current one and is not a number). */
  function MapEntry(p: Progress, data: map<string, Value>, extracted: string,
                    column: string): Option<Progress>
  {
    if extracted in data && Truthy(data[extracted]) then
      var current := Attr(p.shipment, column);
      var value := data[extracted];
      if PyEq(current, value) then Some(p)
      else if Number(value).None? then None
      else if Number(value).value > 0.0 then
        Some(Progress(SetColumn(p.shipment, column, value), p.updated + [column]))
      else Some(p)
    else Some(p)
  }

  /** The first `n` entries of the mapping. */
  function ApplyMapping(s: Shipment, data: map<string, Value>, n: nat): Option<Progress>
    requires n <= |FieldMapping|
  {
    if n == 0 then Some(Progress(s, []))
    else match ApplyMapping(s, data, n - 1)
      case None => None
      case Some(p) => MapEntry(p, data, FieldMapping[n - 1].0, FieldMapping[n - 1].1)
  }

  /** `if items and items[0].get("hs_code")`; None where `items` is truthy but not a list,
      or its first element has no `.get` (AttributeError, KeyError, TypeError). */
  function HsCodeStep(p: Progress, items: Value): Option<Progress> {
    if !Truthy(items) then Some(p)
    else if !items.VList? || !items.items[0].VDict? then None
    else
      var hs := Get(items.items[0].entries, "hs_code", VNone);
      if Truthy(hs) then Some(Progress(SetColumn(p.shipment, "hs_code", hs), p.updated + ["hs_code"]))
      else Some(p)
  }

  /** `filter(None, [item.get("description", "") for item in items])` as strings; None
      where an item has no `.get` or a kept description is not a string (`join` raises). */
  function Descriptions(items: seq<Value>): Option<seq<string>> {
    if items == [] then Some([])
    else if !items[0].VDict? then None
    else
      var d := Get(items[0].entries, "description", VStr(""));
      match Descriptions(items[1..])
      case None => None
      case Some(rest) =>
        if !Truthy(d) then Some(rest)
        else if d.VStr? then Some([d.s] + rest)
        else None
  }

  /** `if items and len(items) <= 3`: the goods description. */
  function GoodsStep(p: Progress, items: Value): Option<Progress> {
    if Truthy(items) && items.VList? && |items.items| <= 3 then
      match Descriptions(items.items)
      case None => None
      case Some(ds) =>
        Some(Progress(SetColumn(p.shipment, "goods_description", VStr(Helpers.Join("; ", ds))),
                      p.updated + ["goods_description"]))
    else Some(p)
  }

  /** Once an entry raises, the rest of the mapping is not reached. */
  lemma {:induction false} MappingStaysNone(s: Shipment, data: map<string, Value>, n: nat, m: nat)
    requires n <= m <= |FieldMapping|
    requires ApplyMapping(s, data, n).None?
    ensures ApplyMapping(s, data, m).None?
    decreases m - n
  {
    if n < m {
      MappingStaysNone(s, data, n + 1, m);
    }
  }

  /** The whole mapping applied to one shipment; None where the source raises. */
  function FromDocument(s: Shipment, data: map<string, Value>): Option<Progress> {
    var items := Get(data, "items", VList([]));
    match ApplyMapping(s, data, |FieldMapping|)
    case None => None
    case Some(p1) =>
      match HsCodeStep(p1, items)
      case None => None
      case Some(p2) => GoodsStep(p2, items)
  }

  datatype DocumentUpdateOutcome =
    DocumentUpdateOutcome(response: Result<seq<string>>, shipments: seq<Shipment>)

  /** What `update_shipment_from_document` returns and commits. */
  function FromDocumentOutcome(rows: seq<Shipment>, id: Id, data: map<string, Value>,
                               now: Time): DocumentUpdateOutcome
  {
    match FindShipment(rows, id)
    case None => DocumentUpdateOutcome(Ok([]), rows)
    case Some(k) =>
      match FromDocument(rows[k], data)
      case None => DocumentUpdateOutcome(Err(InternalError), rows)
      case Some(p) =>
        if p.updated == [] then DocumentUpdateOutcome(Ok([]), rows)
        else DocumentUpdateOutcome(Ok(p.updated),
                                   rows[k := SetColumn(p.shipment, "updated_at", VTime(now))])
  }

  /** Reported columns come in mapping order, then `hs_code`, then `goods_description`. */
  ghost predicate InDocumentOrder(u: seq<string>) {
    && (forall i :: 0 <= i < |u| ==> u[i] in DocumentFields)
    && (forall i, j :: 0 <= i < j < |u| ==> Rank(u[i]) < Rank(u[j]))
  }

  /** The condition under which entry `k` of the mapping writes its column. */
  predicate EntryWrites(s: Shipment, data: map<string, Value>, k: nat)
    requires k < |FieldMapping|
  {
    var (extracted, column) := FieldMapping[k];
    && extracted in data && Truthy(data[extracted])
    && !PyEq(Attr(s, column), data[extracted])
    && Number(data[extracted]).Some? && Number(data[extracted]).value > 0.0
  }

  /** Entry `k` has reported and written its column exactly when `EntryWrites` holds of
      the original row `s`. */
  ghost predicate EntryDone(s: Shipment, data: map<string, Value>, k: nat, p: Progress)
    requires k < |FieldMapping|
  {
    && (FieldMapping[k].1 in p.updated <==> EntryWrites(s, data, k))
    && Attr(p.shipment, FieldMapping[k].1)
       == (if EntryWrites(s, data, k) then data[FieldMapping[k].0] else Attr(s, FieldMapping[k].1))
  }

  /** Entry `k` has not run yet. */
  ghost predicate EntryPending(s: Shipment, k: nat, p: Progress)
    requires k < |FieldMapping|
  {
    FieldMapping[k].1 !in p.updated && Attr(p.shipment, FieldMapping[k].1) == Attr(s, FieldMapping[k].1)
  }

  /** What `n` entries of the mapping have done to `s`, giving `p`; all columns other than
      the reported ones are untouched. */
  ghost predicate MappingDone(s: Shipment, data: map<string, Value>, n: nat, p: Progress)
    requires n <= |FieldMapping|
  {
    && (forall i :: 0 <= i < |p.updated| ==> Rank(p.updated[i]) < n)
    && InDocumentOrder(p.updated)
    && SameExcept(p.shipment, s, p.updated)
    && (forall k :: 0 <= k < n ==> EntryDone(s, data, k, p))
    && (forall k :: n <= k < |FieldMapping| ==> EntryPending(s, k, p))
  }

  /** One entry either leaves the progress alone or reports and writes its column. */
  lemma MapEntryShape(q: Progress, data: map<string, Value>, k: nat, p: Progress)
    requires k < |FieldMapping|
    requires MapEntry(q, data, FieldMapping[k].0, FieldMapping[k].1) == Some(p)
    ensures var (extracted, column) := FieldMapping[k];
      var writes := extracted in data && Truthy(data[extracted])
                    && !PyEq(Attr(q.shipment, column), data[extracted])
                    && Number(data[extracted]).Some? && Number(data[extracted]).value > 0.0;
      && (writes ==> p == Progress(SetColumn(q.shipment, column, data[extracted]), q.updated + [column]))
      && (!writes ==> p == q)
  {
  }

  lemma MappingStep(s: Shipment, data: map<string, Value>, n: nat, q: Progress, p: Progress)
    requires 0 < n <= |FieldMapping|
    requires MappingDone(s, data, n - 1, q)
    requires MapEntry(q, data, FieldMapping[n - 1].0, FieldMapping[n - 1].1) == Some(p)
    ensures MappingDone(s, data, n, p)
  {
    var column := FieldMapping[n - 1].1;
    assert EntryPending(s, n - 1, q);
    assert Attr(q.shipment, column) == Attr(s, column);
    MapEntryShape(q, data, n - 1, p);
    if EntryWrites(s, data, n - 1) {
      WriteStep(s, data, n, q, p);
    } else {
      assert p == q;
      assert EntryDone(s, data, n - 1, p);
    }
  }

  lemma WriteStep(s: Shipment, data: map<string, Value>, n: nat, q: Progress, p: Progress)
    requires 0 < n <= |FieldMapping|
    requires MappingDone(s, data, n - 1, q)
    requires EntryWrites(s, data, n - 1)
    requires p == Progress(SetColumn(q.shipment, FieldMapping[n - 1].1, data[FieldMapping[n - 1].0]),
                           q.updated + [FieldMapping[n - 1].1])
    ensures MappingDone(s, data, n, p)
  {
    var column := FieldMapping[n - 1].1;
    assert Rank(column) == n - 1;
    assert column in ShipmentColumns;
    WriteKeepsEntries(s, data, n, q, p);
    assert forall i :: 0 <= i < |p.updated| ==> Rank(p.updated[i]) < n;
  }

  /** Writing entry `n - 1` finishes it and leaves every other entry as it was. */
  lemma WriteKeepsEntries(s: Shipment, data: map<string, Value>, n: nat, q: Progress, p: Progress)
    requires 0 < n <= |FieldMapping|
    requires forall k :: 0 <= k < n - 1 ==> EntryDone(s, data, k, q)
    requires forall k :: n - 1 <= k < |FieldMapping| ==> EntryPending(s, k, q)
    requires EntryWrites(s, data, n - 1)
    requires p == Progress(SetColumn(q.shipment, FieldMapping[n - 1].1, data[FieldMapping[n - 1].0]),
                           q.updated + [FieldMapping[n - 1].1])
    ensures forall k :: 0 <= k < n ==> EntryDone(s, data, k, p)
    ensures forall k :: n <= k < |FieldMapping| ==> EntryPending(s, k, p)
  {
    var column := FieldMapping[n - 1].1;
    assert column in ShipmentColumns;
    forall k | 0 <= k < n - 1 ensures EntryDone(s, data, k, p) {
      assert EntryDone(s, data, k, q);
      assert FieldMapping[k].1 != column;
    }
    forall k | n <= k < |FieldMapping| ensures EntryPending(s, k, p) {
      assert EntryPending(s, k, q);
      assert FieldMapping[k].1 != column;
    }
    assert EntryPending(s, n - 1, q);
  }

  lemma {:induction false} ApplyMappingSpec(s: Shipment, data: map<string, Value>, n: nat)
    requires n <= |FieldMapping|
    requires ApplyMapping(s, data, n).Some?
    ensures MappingDone(s, data, n, ApplyMapping(s, data, n).value)
  {
    if n > 0 {
      ApplyMappingSpec(s, data, n - 1);
      MappingStep(s, data, n, ApplyMapping(s, data, n - 1).value, ApplyMapping(s, data, n).value);
    }
  }

  /** The number columns: a column is reported (and takes the extracted value) iff the
      extracted key is present, its value truthy, different from the current value and
      greater than zero. */
  lemma MappedColumnRule(s: Shipment, data: map<string, Value>, k: nat)
    requires k < |FieldMapping|
    requires FromDocument(s, data).Some?
    ensures var p := FromDocument(s, data).value;
      && (FieldMapping[k].1 in p.updated <==> EntryWrites(s, data, k))
      && Attr(p.shipment, FieldMapping[k].1)
         == (if EntryWrites(s, data, k) then data[FieldMapping[k].0] else Attr(s, FieldMapping[k].1))
  {
    ApplyMappingSpec(s, data, |FieldMapping|);
    var items := Get(data, "items", VList([]));
    var p1 := ApplyMapping(s, data, |FieldMapping|).value;
    assert EntryDone(s, data, k, p1);
    var column := FieldMapping[k].1;
    assert column != "hs_code" && column != "goods_description";
    var p2 := HsCodeStep(p1, items).value;
    assert (column in p2.updated <==> column in p1.updated)
      && Attr(p2.shipment, column) == Attr(p1.shipment, column);
  }

  /** `hs_code` is reported iff the first item is a dictionary with a truthy `hs_code`,
      even when it equals the current value; it then holds that value. */
  lemma HsCodeRule(s: Shipment, data: map<string, Value>)
    requires FromDocument(s, data).Some?
    ensures var p := FromDocument(s, data).value;
      var items := Get(data, "items", VList([]));
      var chosen := Truthy(items) && items.VList? && items.items[0].VDict?
                    && Truthy(Get(items.items[0].entries, "hs_code", VNone));
      && ("hs_code" in p.updated <==> chosen)
      && (chosen ==> Attr(p.shipment, "hs_code") == Get(items.items[0].entries, "hs_code", VNone))
      && (!chosen ==> Attr(p.shipment, "hs_code") == Attr(s, "hs_code"))
  {
    ApplyMappingSpec(s, data, |FieldMapping|);
    var p1 := ApplyMapping(s, data, |FieldMapping|).value;
    assert forall i :: 0 <= i < |p1.updated| ==> p1.updated[i] != "hs_code";
  }

  /** `goods_description` is reported iff there are one to three items; it is then the
      `"; "`-join of the descriptions that are not empty. */
  lemma GoodsDescriptionRule(s: Shipment, data: map<string, Value>)
    requires FromDocument(s, data).Some?
    ensures var p := FromDocument(s, data).value;
      var items := Get(data, "items", VList([]));
      var chosen := items.VList? && 1 <= |items.items| <= 3;
      && ("goods_description" in p.updated <==> chosen)
      && (chosen ==>
            (Descriptions(items.items).Some?
             && Attr(p.shipment, "goods_description")
                == VStr(Helpers.Join("; ", Descriptions(items.items).value))))
      && (chosen ==> forall i :: 0 <= i < |Descriptions(items.items).value| ==>
            Descriptions(items.items).value[i] != "")
      && (!chosen ==> Attr(p.shipment, "goods_description") == Attr(s, "goods_description"))
  {
    ApplyMappingSpec(s, data, |FieldMapping|);
    var items := Get(data, "items", VList([]));
    var p1 := ApplyMapping(s, data, |FieldMapping|).value;
    assert forall i :: 0 <= i < |p1.updated| ==> p1.updated[i] != "goods_description";
    var p2 := HsCodeStep(p1, items).value;
    assert forall i :: 0 <= i < |p2.updated| ==> p2.updated[i] != "goods_description";
    if items.VList? && 1 <= |items.items| <= 3 {
      DescriptionsNonEmpty(items.items);
    }
  }

  lemma {:induction false} DescriptionsNonEmpty(items: seq<Value>)
    requires Descriptions(items).Some?
    ensures forall i :: 0 <= i < |Descriptions(items).value| ==> Descriptions(items).value[i] != ""
  {
    if items != [] {
      DescriptionsNonEmpty(items[1..]);
    }
  }

  lemma {:induction false} OrderedIsShort(u: seq<string>)
    requires InDocumentOrder(u)
    ensures |u| <= |DocumentFields|
    ensures forall i :: 0 <= i < |u| ==> Rank(u[i]) >= i
  {
    if u != [] {
      var init := u[..|u| - 1];
      assert InDocumentOrder(init) by {
        forall i | 0 <= i < |init| ensures init[i] in DocumentFields { assert init[i] == u[i]; }
      }
      OrderedIsShort(init);
      if |u| > 1 {
        assert Rank(u[|u| - 2]) < Rank(u[|u| - 1]);
        assert u[|u| - 2] == init[|init| - 1];
      }
      assert Rank(u[|u| - 1]) <= 5;
    }
  }

  /** The reported columns have no duplicates, number at most six, and come in mapping
      order, then `hs_code`, then `goods_description`; nothing else is modified. */
  lemma UpdatedFieldsOrder(s: Shipment, data: map<string, Value>)
    requires FromDocument(s, data).Some?
    ensures var p := FromDocument(s, data).value;
      && InDocumentOrder(p.updated)
      && |p.updated| <= 6
      && (forall i, j :: 0 <= i < j < |p.updated| ==> p.updated[i] != p.updated[j])
      && SameExcept(p.shipment, s, p.updated)
  {
    ApplyMappingSpec(s, data, |FieldMapping|);
    var items := Get(data, "items", VList([]));
    var p1 := ApplyMapping(s, data, |FieldMapping|).value;
    var p2 := HsCodeStep(p1, items).value;
    var p := GoodsStep(p2, items).value;
    if p2 != p1 {
      ReportColumn(p1, s, "hs_code", p2);
    }
    assert forall i :: 0 <= i < |p2.updated| ==> Rank(p2.updated[i]) < 5;
    if p != p2 {
      ReportColumn(p2, s, "goods_description", p);
    }
    OrderedIsShort(p.updated);
    forall i, j | 0 <= i < j < |p.updated| ensures p.updated[i] != p.updated[j] {
      assert Rank(p.updated[i]) < Rank(p.updated[j]);
    }
  }

  /** Reporting a column ranked after all columns reported so far keeps the order, and
      writing only that column keeps every other one. */
  lemma ReportColumn(q: Progress, s: Shipment, column: string, p: Progress)
    requires column in DocumentFields && column in ShipmentColumns
    requires InDocumentOrder(q.updated) && SameExcept(q.shipment, s, q.updated)
    requires forall i :: 0 <= i < |q.updated| ==> Rank(q.updated[i]) < Rank(column)
    requires p.updated == q.updated + [column]
    requires exists v :: p.shipment == SetColumn(q.shipment, column, v)
    ensures InDocumentOrder(p.updated) && SameExcept(p.shipment, s, p.updated)
    ensures forall i :: 0 <= i < |p.updated| ==> Rank(p.updated[i]) <= Rank(column)
  {
  }

  /** An unknown shipment answers `[]` and changes nothing; a raising mapping answers an
      error and changes nothing; otherwise the answer is the columns `FromDocument`
      reports, and the row it computes is written (with `updated_at`) only when some
      column was reported. */
  lemma FromDocumentCommit(rows: seq<Shipment>, id: Id, data: map<string, Value>, now: Time)
    ensures var o := FromDocumentOutcome(rows, id, data, now);
      && (FindShipment(rows, id).None? ==> o.response == Ok([]) && o.shipments == rows)
      && (o.shipments != rows ==> o.response.Ok? && o.response.value != [])
      && (FindShipment(rows, id).Some? && o.response.Ok? && o.response.value != [] ==>
            var k := FindShipment(rows, id).value;
            o.shipments == rows[k := o.shipments[k]]
            && o.shipments[k].attrs["updated_at"] == VTime(now))
      && (FindShipment(rows, id).Some? && o.response.Ok? && o.response.value == [] ==>
            o.shipments == rows)
      && (FindShipment(rows, id).Some? ==>
            var k := FindShipment(rows, id).value;
            var p := FromDocument(rows[k], data);
            && (o.response.Err? <==> p.None?)
            && (p.Some? ==> o.response == Ok(p.value.updated))
            && (p.Some? && p.value.updated != [] ==>
                  o.shipments == rows[k := SetColumn(p.value.shipment, "updated_at", VTime(now))]))
  {
  }

  /** `update_shipment_from_document` */
  method UpdateShipmentFromDocument(db: Database, id: Id, data: map<string, Value>, now: Time)
    returns (r: Result<seq<string>>)
    modifies db`shipments
    ensures var o := FromDocumentOutcome(old(db.shipments), id, data, now);
      r == o.response && db.shipments == o.shipments
  {
    var k := FindShipment(db.shipments, id);
    if k.None? {
      return Ok([]);
    }
    var s := db.shipments[k.value];
    ghost var s0 := s;
    var updated: seq<string> := [];
    var i := 0;
    while i < |FieldMapping|
      invariant 0 <= i <= |FieldMapping|
      invariant ApplyMapping(s0, data, i) == Some(Progress(s, updated))
    {
      var (extracted, column) := FieldMapping[i];
      if extracted in data && Truthy(data[extracted]) {
        var current := Attr(s, column);
        var value := data[extracted];
        if !PyEq(current, value) {
          if Number(value).None? {
            // `new_value > 0` raises TypeError
            MappingStaysNone(s0, data, i + 1, |FieldMapping|);
            return Err(InternalError);
          }
          if Number(value).value > 0.0 {
            s := SetColumn(s, column, value);
            updated := updated + [column];
          }
        }
      }
      i := i + 1;
    }
    var items := Get(data, "items", VList([]));
    if Truthy(items) {
      if !items.VList? || !items.items[0].VDict? {
        return Err(InternalError);
      }
      var hs := Get(items.items[0].entries, "hs_code", VNone);
      if Truthy(hs) {
        s := SetColumn(s, "hs_code", hs);
        updated := updated + ["hs_code"];
      }
      if |items.items| <= 3 {
        var descriptions := Descriptions(items.items);
        if descriptions.None? {
          return Err(InternalError);
        }
        s := SetColumn(s, "goods_description", VStr(Helpers.Join("; ", descriptions.value)));
        updated := updated + ["goods_description"];
      }
    }
    if updated != [] {
      s := SetColumn(s, "updated_at", VTime(now));
      db.shipments := db.shipments[k.value := s];
    }
    r := Ok(updated);
  }
}
