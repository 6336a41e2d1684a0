/** The tracking router: an append-only event log per shipment, written only by the
    forwarder whose quote was accepted, and read through role-based permissions with a
    scan that derives the estimated and actual arrival. */
module TrackingRouter {
  import opened Values
  import opened Store
  import opened Sorting

  /** `current_user.role == "supplier"` / `"buyer"` ownership tests; forwarders may read
      any shipment. */
  predicate MayRead(caller: User, s: Shipment) {
    && (caller.role == Supplier ==> OwnedBy(s, "supplier_id", caller.id))
    && (caller.role == Buyer ==> OwnedBy(s, "buyer_id", caller.id))
  }

  /** `filter(TrackingEvent.shipment_id == shipment_id)` in storage order. */
  function EventsOf(events: seq<TrackingEvent>, shipmentId: Id): (r: seq<TrackingEvent>)
    ensures forall e :: e in r <==> e in events && e.shipmentId == shipmentId
    ensures multiset(r) <= multiset(events)
  {
    if events == [] then []
    else
      var rest := EventsOf(events[1..], shipmentId);
      assert forall e :: e in events <==> e == events[0] || e in events[1..];
      assert events == [events[0]] + events[1..];
      if events[0].shipmentId == shipmentId then [events[0]] + rest else rest
  }

  function Timestamp(e: TrackingEvent): int { e.timestamp }

  function NewestFirst(e: TrackingEvent): int { -e.timestamp }

  /** The shipment's events `order_by(TrackingEvent.timestamp)`. */
  function Timeline(events: seq<TrackingEvent>, shipmentId: Id): (r: seq<TrackingEvent>)
    ensures forall e :: e in r <==> e in events && e.shipmentId == shipmentId
    ensures forall i, j :: 0 <= i < j < |r| ==> r[i].timestamp <= r[j].timestamp
    ensures multiset(r) == multiset(EventsOf(events, shipmentId))
  {
    var r := SortBy(EventsOf(events, shipmentId), Timestamp);
    forall e ensures e in r <==> e in EventsOf(events, shipmentId) {
      MemberOfSorted(EventsOf(events, shipmentId), Timestamp, e);
    }
    r
  }

  // ---------------------------------------------------------------------------
  // The arrival scan of get_shipment_tracking

  /** `event.actual_datetime or event.timestamp` */
  function ArrivalTime(e: TrackingEvent): Time {
    if e.actual.Some? then e.actual.value else e.timestamp
  }

  /** `actual_arrival` after the loop has seen `es`: every delivered event overwrites it. */
  function ActualArrival(es: seq<TrackingEvent>): Option<Time> {
    if es == [] then None
    else if es[|es| - 1].status == "delivered" then Some(ArrivalTime(es[|es| - 1]))
    else ActualArrival(es[..|es| - 1])
  }

  /** `estimated_arrival` after the loop has seen `es`: set once, by a non-delivered event
      that has an estimate. */
  function EstimatedArrival(es: seq<TrackingEvent>): Option<Time> {
    if es == [] then None
    else
      var before := EstimatedArrival(es[..|es| - 1]);
      var e := es[|es| - 1];
      if before.Some? then before
      else if e.status != "delivered" && e.estimated.Some? then e.estimated
      else None
  }

  /** A non-delivered event that supplies an estimate. */
  predicate Estimates(e: TrackingEvent) {
    e.status != "delivered" && e.estimated.Some?
  }

  /** `actual_arrival` is None iff no event is delivered; otherwise it comes from the last
      delivered event: its actual time, or its timestamp when that is unset. */
  lemma {:induction false} ActualArrivalSpec(es: seq<TrackingEvent>)
    ensures ActualArrival(es).None? <==> forall i :: 0 <= i < |es| ==> es[i].status != "delivered"
    ensures ActualArrival(es).Some? ==>
      exists i :: 0 <= i < |es| && es[i].status == "delivered"
        && ActualArrival(es).value == ArrivalTime(es[i])
        && forall j :: i < j < |es| ==> es[j].status != "delivered"
  {
    if es != [] {
      var init := es[..|es| - 1];
      ActualArrivalSpec(init);
      assert forall i :: 0 <= i < |init| ==> init[i] == es[i];
      if es[|es| - 1].status == "delivered" {
        assert es[|es| - 1].status == "delivered" && ActualArrival(es).value == ArrivalTime(es[|es| - 1]);
      } else if ActualArrival(init).Some? {
        var i :| 0 <= i < |init| && init[i].status == "delivered"
          && ActualArrival(init).value == ArrivalTime(init[i])
          && forall j :: i < j < |init| ==> init[j].status != "delivered";
        assert es[i].status == "delivered" && ActualArrival(es).value == ArrivalTime(es[i]);
      }
    }
  }

  /** `estimated_arrival` is None iff no non-delivered event has an estimate; otherwise it
      is the estimate of the first such event. Delivered events never supply it. */
  lemma {:induction false} EstimatedArrivalSpec(es: seq<TrackingEvent>)
    ensures EstimatedArrival(es).None? <==> forall i :: 0 <= i < |es| ==> !Estimates(es[i])
    ensures EstimatedArrival(es).Some? ==>
      exists i :: 0 <= i < |es| && Estimates(es[i])
        && EstimatedArrival(es) == es[i].estimated
        && forall j :: 0 <= j < i ==> !Estimates(es[j])
  {
    if es != [] {
      var init := es[..|es| - 1];
      EstimatedArrivalSpec(init);
      assert forall i :: 0 <= i < |init| ==> init[i] == es[i];
      if EstimatedArrival(init).Some? {
        var i :| 0 <= i < |init| && Estimates(init[i]) && EstimatedArrival(init) == init[i].estimated
          && forall j :: 0 <= j < i ==> !Estimates(init[j]);
        assert Estimates(es[i]) && EstimatedArrival(es) == es[i].estimated;
      } else if Estimates(es[|es| - 1]) {
        assert EstimatedArrival(es) == es[|es| - 1].estimated;
      }
    }
  }

  /** One step of the scan: how event `i` changes both arrival values. */
  lemma ScanStep(es: seq<TrackingEvent>, i: nat)
    requires i < |es|
    ensures ActualArrival(es[..i + 1]) ==
      (if es[i].status == "delivered" then Some(ArrivalTime(es[i])) else ActualArrival(es[..i]))
    ensures EstimatedArrival(es[..i + 1]) ==
      (if EstimatedArrival(es[..i]).None? && Estimates(es[i]) then es[i].estimated
       else EstimatedArrival(es[..i]))
  {
    assert es[..i + 1][..i] == es[..i];
  }

  /** The `ShipmentTrackingResponse`. */
  datatype TrackingView = TrackingView(
    shipmentId: Id, shipmentNumber: Value, currentStatus: Value,
    originPort: Value, destinationPort: Value,
    estimatedArrival: Option<Time>, actualArrival: Option<Time>,
    events: seq<TrackingEvent>)

  /** What `get_shipment_tracking` answers. */
  function ShipmentTracking(shipments: seq<Shipment>, events: seq<TrackingEvent>,
                            caller: User, shipmentId: Id): Result<TrackingView>
  {
    match FindShipment(shipments, shipmentId)
    case None => Err(HttpError(404, "Shipment not found"))
    case Some(j) =>
      var s := shipments[j];
      if !MayRead(caller, s) then
        Err(HttpError(403, "Not authorized to view tracking for this shipment"))
      else
        var es := Timeline(events, shipmentId);
        Ok(TrackingView(s.id, Attr(s, "shipment_number"), Attr(s, "status"),
                        Attr(s, "origin_port"), Attr(s, "destination_port"),
                        EstimatedArrival(es), ActualArrival(es), es))
  }

  /** A missing shipment is 404, a supplier or buyer who is not the shipment's is 403;
      otherwise the view reports the shipment's current status and its events in
      timestamp order. */
  lemma ShipmentTrackingSpec(shipments: seq<Shipment>, events: seq<TrackingEvent>,
                             caller: User, shipmentId: Id)
    ensures var r := ShipmentTracking(shipments, events, caller, shipmentId);
      var j := FindShipment(shipments, shipmentId);
      && (j.None? ==> r == Err(HttpError(404, "Shipment not found")))
      && (j.Some? ==> (r.Ok? <==> MayRead(caller, shipments[j.value])))
      && (j.Some? && r.Err? ==>
            r.error == HttpError(403, "Not authorized to view tracking for this shipment"))
      && (r.Ok? ==>
            && r.value.shipmentId == shipmentId
            && r.value.currentStatus == Attr(shipments[j.value], "status")
            && (forall e :: e in r.value.events <==> e in events && e.shipmentId == shipmentId)
            && (forall a, b :: 0 <= a < b < |r.value.events| ==>
                  r.value.events[a].timestamp <= r.value.events[b].timestamp)
            && r.value.actualArrival == ActualArrival(r.value.events)
            && r.value.estimatedArrival == EstimatedArrival(r.value.events))
  {
  }

  /** `get_shipment_tracking`, with the arrival scan as the source's loop. */
  method GetShipmentTracking(db: Database, caller: User, shipmentId: Id)
    returns (r: Result<TrackingView>)
    ensures r == ShipmentTracking(db.shipments, db.events, caller, shipmentId)
  {
    var j := FindShipment(db.shipments, shipmentId);
    if j.None? {
      return Err(HttpError(404, "Shipment not found"));
    }
    var s := db.shipments[j.value];
    if caller.role == Supplier && !OwnedBy(s, "supplier_id", caller.id) {
      return Err(HttpError(403, "Not authorized to view tracking for this shipment"));
    }
    if caller.role == Buyer && !OwnedBy(s, "buyer_id", caller.id) {
      return Err(HttpError(403, "Not authorized to view tracking for this shipment"));
    }
    var events := Timeline(db.events, shipmentId);
    var estimated: Option<Time> := None;
    var actual: Option<Time> := None;
    var i := 0;
    while i < |events|
      invariant 0 <= i <= |events|
      invariant actual == ActualArrival(events[..i])
      invariant estimated == EstimatedArrival(events[..i])
    {
      var event := events[i];
      ScanStep(events, i);
      if event.status == "delivered" {
        actual := Some(if event.actual.Some? then event.actual.value else event.timestamp);
      } else if event.estimated.Some? && estimated.None? {
        estimated := event.estimated;
      }
      i := i + 1;
    }
    assert events[..|events|] == events;
    r := Ok(TrackingView(s.id, Attr(s, "shipment_number"), Attr(s, "status"),
                         Attr(s, "origin_port"), Attr(s, "destination_port"),
                         estimated, actual, events));
  }

  // ---------------------------------------------------------------------------
  // get_latest_tracking_event

  /** What `get_latest_tracking_event` answers: the first event of the shipment by
      descending timestamp. */
  function LatestTrackingEvent(shipments: seq<Shipment>, events: seq<TrackingEvent>,
                               caller: User, shipmentId: Id): Result<TrackingEvent>
  {
    match FindShipment(shipments, shipmentId)
    case None => Err(HttpError(404, "Shipment not found"))
    case Some(j) =>
      if !MayRead(caller, shipments[j]) then Err(HttpError(403, "Not authorized"))
      else
        var newest := SortBy(EventsOf(events, shipmentId), NewestFirst);
        if newest == [] then Err(HttpError(404, "No tracking events found"))
        else Ok(newest[0])
  }

  /** The permission checks of the full history, with the shorter detail; with no event
      the answer is 404; otherwise the answer is an event of the shipment with the
      greatest timestamp. */
  lemma LatestTrackingEventSpec(shipments: seq<Shipment>, events: seq<TrackingEvent>,
                                caller: User, shipmentId: Id)
    ensures var r := LatestTrackingEvent(shipments, events, caller, shipmentId);
      var j := FindShipment(shipments, shipmentId);
      && (j.None? ==> r == Err(HttpError(404, "Shipment not found")))
      && (j.Some? && !MayRead(caller, shipments[j.value]) ==> r == Err(HttpError(403, "Not authorized")))
      && (j.Some? && MayRead(caller, shipments[j.value]) ==>
            (r.Err? <==> forall e :: e in events ==> e.shipmentId != shipmentId)
            && (r.Err? ==> r.error == HttpError(404, "No tracking events found")))
      && (r.Ok? ==>
            && r.value in events && r.value.shipmentId == shipmentId
            && forall e :: e in events && e.shipmentId == shipmentId ==>
                 e.timestamp <= r.value.timestamp)
  {
    if FindShipment(shipments, shipmentId).Some? {
      var own := EventsOf(events, shipmentId);
      var newest := SortBy(own, NewestFirst);
      forall e ensures e in newest <==> e in own {
        MemberOfSorted(own, NewestFirst, e);
      }
      if newest != [] {
        forall e | e in newest ensures NewestFirst(newest[0]) <= NewestFirst(e) {
          var i :| 0 <= i < |newest| && newest[i] == e;
        }
      }
    }
  }

  // ---------------------------------------------------------------------------
  // create_tracking_event

  /** The request body `TrackingEventCreate`. */
  datatype EventCreate = EventCreate(
    status: TrackingStatus, location: string,
    vesselName: Option<string>, voyageNumber: Option<string>, containerNumber: Option<string>,
    description: string, remarks: Option<string>,
    estimated: Option<Time>, actual: Option<Time>,
    documents: seq<string>, isMilestone: bool)

  /** The quote query: an accepted quote of the shipment submitted by the caller. */
  function FindAcceptedQuote(quotes: seq<Quote>, shipmentId: Id, forwarder: Id): (r: Option<nat>)
    ensures r.Some? ==>
      r.value < |quotes| && quotes[r.value].shipmentId == shipmentId
      && quotes[r.value].forwarderId == forwarder && quotes[r.value].status == Accepted
    ensures r.None? <==> forall i :: 0 <= i < |quotes| ==>
      !(quotes[i].shipmentId == shipmentId && quotes[i].forwarderId == forwarder
        && quotes[i].status == Accepted)
  {
    if quotes == [] then None
    else if quotes[0].shipmentId == shipmentId && quotes[0].forwarderId == forwarder
            && quotes[0].status == Accepted then Some(0)
    else match FindAcceptedQuote(quotes[1..], shipmentId, forwarder)
      case None => None
      case Some(k) => Some(k + 1)
  }

  /** Some accepted quote of the shipment was submitted by the forwarder. */
  predicate AssignedForwarder(quotes: seq<Quote>, shipmentId: Id, forwarder: Id) {
    exists i :: 0 <= i < |quotes| && quotes[i].shipmentId == shipmentId
      && quotes[i].forwarderId == forwarder && quotes[i].status == Accepted
  }

  /** The inserted row; `timestamp` is the server's now, `verified` its default. */
  function NewEvent(id: Id, shipmentId: Id, caller: Id, data: EventCreate, now: Time): TrackingEvent {
    TrackingEvent(id, shipmentId, caller, TrackingStatusValue(data.status), data.location,
                  data.vesselName, data.voyageNumber, data.containerNumber,
                  data.description, data.remarks, data.estimated,
                  Some(if data.actual.Some? then data.actual.value else now),
                  data.documents, data.isMilestone, false, now)
  }

  datatype EventOutcome =
    EventOutcome(response: Result<TrackingEvent>, shipments: seq<Shipment>, events: seq<TrackingEvent>)

  /** What `create_tracking_event` answers and commits. */
  function CreateEventOutcome(shipments: seq<Shipment>, quotes: seq<Quote>,
                              events: seq<TrackingEvent>, caller: Id, shipmentId: Id,
                              data: EventCreate, newId: Id, now: Time): EventOutcome
  {
    match FindShipment(shipments, shipmentId)
    case None => EventOutcome(Err(HttpError(404, "Shipment not found")), shipments, events)
    case Some(j) =>
      if FindAcceptedQuote(quotes, shipmentId, caller).None? then
        EventOutcome(Err(HttpError(403, "You are not the assigned forwarder for this shipment")),
                     shipments, events)
      else
        var e := NewEvent(newId, shipmentId, caller, data, now);
        var shipments' := if data.isMilestone
          then shipments[j := SetColumn(shipments[j], "status", VStr(TrackingStatusValue(data.status)))]
          else shipments;
        EventOutcome(Ok(e), shipments', events + [e])
  }

  /** A missing shipment is 404 and a caller without an accepted quote for it is 403,
      neither changing anything; otherwise exactly one event is appended, carrying the
      shipment, the creator and the actual time (now when not supplied), and only a
      milestone overwrites the shipment's status (and nothing else). */
  lemma CreateEventSpec(shipments: seq<Shipment>, quotes: seq<Quote>, events: seq<TrackingEvent>,
                        caller: Id, shipmentId: Id, data: EventCreate, newId: Id, now: Time)
    ensures var o := CreateEventOutcome(shipments, quotes, events, caller, shipmentId, data, newId, now);
      var j := FindShipment(shipments, shipmentId);
      var hasQuote := AssignedForwarder(quotes, shipmentId, caller);
      && (j.None? ==>
            o == EventOutcome(Err(HttpError(404, "Shipment not found")), shipments, events))
      && (j.Some? && !hasQuote ==>
            o == EventOutcome(Err(HttpError(403, "You are not the assigned forwarder for this shipment")),
                              shipments, events))
      && (o.response.Ok? <==> j.Some? && hasQuote)
      && (o.response.Ok? ==>
            var e := o.response.value;
            && o.events == events + [e]
            && e.id == newId && e.shipmentId == shipmentId && e.createdBy == caller
            && e.status == TrackingStatusValue(data.status)
            && e.actual == (if data.actual.Some? then data.actual else Some(now))
            && e.estimated == data.estimated
            && e.timestamp == now && !e.verified && e.isMilestone == data.isMilestone
            && |o.shipments| == |shipments|
            && (forall i :: 0 <= i < |shipments| && i != j.value ==> o.shipments[i] == shipments[i])
            && (data.isMilestone ==>
                  Attr(o.shipments[j.value], "status") == VStr(TrackingStatusValue(data.status))
                  && SameExcept(o.shipments[j.value], shipments[j.value], ["status"]))
            && (!data.isMilestone ==> o.shipments == shipments))
  {
  }

  /** The log is append-only: every answer keeps the old events as a prefix and adds at
      most one. */
  lemma CreateEventAppendOnly(shipments: seq<Shipment>, quotes: seq<Quote>,
                              events: seq<TrackingEvent>, caller: Id, shipmentId: Id,
                              data: EventCreate, newId: Id, now: Time)
    ensures var o := CreateEventOutcome(shipments, quotes, events, caller, shipmentId, data, newId, now);
      && |events| <= |o.events| <= |events| + 1
      && o.events[..|events|] == events
  {
  }

  /** `create_tracking_event` */
  method CreateTrackingEvent(db: Database, caller: Id, shipmentId: Id, data: EventCreate,
                             newId: Id, now: Time)
    returns (r: Result<TrackingEvent>)
    modifies db`shipments, db`events
    ensures var o := CreateEventOutcome(old(db.shipments), db.quotes, old(db.events),
                                        caller, shipmentId, data, newId, now);
      r == o.response && db.shipments == o.shipments && db.events == o.events
  {
    var j := FindShipment(db.shipments, shipmentId);
    if j.None? {
      return Err(HttpError(404, "Shipment not found"));
    }
    var quote := FindAcceptedQuote(db.quotes, shipmentId, caller);
    if quote.None? {
      return Err(HttpError(403, "You are not the assigned forwarder for this shipment"));
    }
    var event := NewEvent(newId, shipmentId, caller, data, now);
    db.events := db.events + [event];
    if data.isMilestone {
      db.shipments := db.shipments[j.value :=
        SetColumn(db.shipments[j.value], "status", VStr(TrackingStatusValue(data.status)))];
    }
    r := Ok(event);
  }
}
