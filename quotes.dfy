/** The quote router: the role-filtered quote listing, accepting a quote (the one
    transition that writes several rows) and a forwarder's update of its own quote. */
module QuoteRouter {
  import opened Values
  import opened Store

  /** A `QuoteResponse`: the quote row with its forwarder's name and company. */
  datatype QuoteView = QuoteView(quote: Quote, forwarderName: string, forwarderCompany: Option<string>)

  /** `forwarder.name if forwarder else "Unknown"` and the same for the company. */
  function ViewOf(users: seq<User>, q: Quote): (v: QuoteView)
    ensures v.quote == q
    ensures FindUser(users, q.forwarderId).None? ==>
      v.forwarderName == "Unknown" && v.forwarderCompany == Some("Unknown")
    ensures FindUser(users, q.forwarderId).Some? ==>
      var u := users[FindUser(users, q.forwarderId).value];
      u.id == q.forwarderId && v.forwarderName == u.name && v.forwarderCompany == u.companyName
  {
    match FindUser(users, q.forwarderId)
    case None => QuoteView(q, "Unknown", Some("Unknown"))
    case Some(k) => QuoteView(q, users[k].name, users[k].companyName)
  }

  // ---------------------------------------------------------------------------
  // get_shipment_quotes

  /** The quote query of `get_shipment_quotes`: a forwarder's own quotes of the shipment,
      or all quotes of the shipment for any other caller. */
  predicate Visible(caller: User, shipmentId: Id, q: Quote) {
    q.shipmentId == shipmentId && (caller.role == Forwarder ==> q.forwarderId == caller.id)
  }

  /** The visible quotes in storage order. */
  function VisibleQuotes(quotes: seq<Quote>, caller: User, shipmentId: Id): (r: seq<Quote>)
    ensures forall q :: q in r <==> q in quotes && Visible(caller, shipmentId, q)
    ensures |r| <= |quotes|
    ensures multiset(r) <= multiset(quotes)
  {
    if quotes == [] then []
    else
      var init := quotes[..|quotes| - 1];
      var last := quotes[|quotes| - 1];
      assert forall q :: q in quotes <==> q in init || q == last;
      assert quotes == init + [last];
      if Visible(caller, shipmentId, last) then VisibleQuotes(init, caller, shipmentId) + [last]
      else VisibleQuotes(init, caller, shipmentId)
  }

  function Views(users: seq<User>, qs: seq<Quote>): (r: seq<QuoteView>)
    ensures |r| == |qs|
    ensures forall i :: 0 <= i < |qs| ==> r[i] == ViewOf(users, qs[i])
  {
    if qs == [] then [] else Views(users, qs[..|qs| - 1]) + [ViewOf(users, qs[|qs| - 1])]
  }

  /** What `get_shipment_quotes` answers. */
  function ShipmentQuotes(shipments: seq<Shipment>, quotes: seq<Quote>, users: seq<User>,
                          caller: User, shipmentId: Id): Result<seq<QuoteView>>
  {
    match FindShipment(shipments, shipmentId)
    case None => Err(HttpError(404, "Shipment not found"))
    case Some(j) =>
      if caller.role == Supplier && !OwnedBy(shipments[j], "supplier_id", caller.id) then
        Err(HttpError(403, "Not authorized to view quotes for this shipment"))
      else Ok(Views(users, VisibleQuotes(quotes, caller, shipmentId)))
  }

  /** A missing shipment is 404; a supplier who does not own it is 403; otherwise the
      answer lists exactly the visible quotes, each with its forwarder's details. */
  lemma ShipmentQuotesSpec(shipments: seq<Shipment>, quotes: seq<Quote>, users: seq<User>,
                           caller: User, shipmentId: Id)
    ensures var r := ShipmentQuotes(shipments, quotes, users, caller, shipmentId);
      && (FindShipment(shipments, shipmentId).None? ==>
            r == Err(HttpError(404, "Shipment not found")))
      && (FindShipment(shipments, shipmentId).Some? ==>
            (r.Err? <==> caller.role == Supplier
                         && !OwnedBy(shipments[FindShipment(shipments, shipmentId).value],
                                     "supplier_id", caller.id)))
      && (FindShipment(shipments, shipmentId).Some? && r.Err? ==>
            r.error == HttpError(403, "Not authorized to view quotes for this shipment"))
      && (r.Ok? ==>
            && (forall q :: (exists i :: 0 <= i < |r.value| && r.value[i].quote == q)
                            <==> q in quotes && q.shipmentId == shipmentId
                                 && (caller.role == Forwarder ==> q.forwarderId == caller.id))
            && (forall i :: 0 <= i < |r.value| ==>
                  r.value[i] == ViewOf(users, r.value[i].quote))
            && |r.value| == |VisibleQuotes(quotes, caller, shipmentId)|
            && (forall i :: 0 <= i < |r.value| ==>
                  r.value[i].quote == VisibleQuotes(quotes, caller, shipmentId)[i]))
  {
    var r := ShipmentQuotes(shipments, quotes, users, caller, shipmentId);
    if r.Ok? {
      var qs := VisibleQuotes(quotes, caller, shipmentId);
      assert r.value == Views(users, qs);
      forall q ensures (exists i :: 0 <= i < |r.value| && r.value[i].quote == q)
                       <==> q in quotes && q.shipmentId == shipmentId
                            && (caller.role == Forwarder ==> q.forwarderId == caller.id) {
        assert q in qs <==> q in quotes && Visible(caller, shipmentId, q);
        if q in qs {
          var i :| 0 <= i < |qs| && qs[i] == q;
          assert r.value[i].quote == q;
        }
        if exists i :: 0 <= i < |r.value| && r.value[i].quote == q {
          var i :| 0 <= i < |r.value| && r.value[i].quote == q;
          assert qs[i] == q;
        }
      }
    }
  }

  /** `get_shipment_quotes` */
  method GetShipmentQuotes(db: Database, caller: User, shipmentId: Id)
    returns (r: Result<seq<QuoteView>>)
    ensures r == ShipmentQuotes(db.shipments, db.quotes, db.users, caller, shipmentId)
  {
    var j := FindShipment(db.shipments, shipmentId);
    if j.None? {
      return Err(HttpError(404, "Shipment not found"));
    }
    if caller.role == Supplier && !OwnedBy(db.shipments[j.value], "supplier_id", caller.id) {
      return Err(HttpError(403, "Not authorized to view quotes for this shipment"));
    }
    var quotes := VisibleQuotes(db.quotes, caller, shipmentId);
    var result: seq<QuoteView> := [];
    var i := 0;
    while i < |quotes|
      invariant 0 <= i <= |quotes|
      invariant result == Views(db.users, quotes[..i])
    {
      var forwarder := FindUser(db.users, quotes[i].forwarderId);
      var view := if forwarder.Some?
        then QuoteView(quotes[i], db.users[forwarder.value].name, db.users[forwarder.value].companyName)
        else QuoteView(quotes[i], "Unknown", Some("Unknown"));
      result := result + [view];
      assert quotes[..i + 1][..i] == quotes[..i];
      i := i + 1;
    }
    assert quotes[..|quotes|] == quotes;
    r := Ok(result);
  }

  // ---------------------------------------------------------------------------
  // accept_quote

  /** The bulk update `status = "rejected"` over the pending quotes of the shipment other
      than the accepted one. */
  predicate RejectedByAccept(q: Quote, shipmentId: Id, quoteId: Id) {
    q.shipmentId == shipmentId && q.id != quoteId && q.status == Pending
  }

  function RejectSiblings(quotes: seq<Quote>, shipmentId: Id, quoteId: Id): (r: seq<Quote>)
    ensures |r| == |quotes|
    ensures forall i :: 0 <= i < |quotes| ==>
      r[i] == if RejectedByAccept(quotes[i], shipmentId, quoteId) then quotes[i].(status := Rejected)
              else quotes[i]
  {
    if quotes == [] then []
    else
      var q := quotes[0];
      [if RejectedByAccept(q, shipmentId, quoteId) then q.(status := Rejected) else q]
        + RejectSiblings(quotes[1..], shipmentId, quoteId)
  }

  datatype AcceptOutcome =
    AcceptOutcome(response: Result<QuoteView>, shipments: seq<Shipment>, quotes: seq<Quote>)

  /** What `accept_quote` answers and commits. */
  function AcceptQuoteOutcome(shipments: seq<Shipment>, quotes: seq<Quote>, users: seq<User>,
                              caller: Id, shipmentId: Id, quoteId: Id, now: Time): AcceptOutcome
  {
    match FindShipment(shipments, shipmentId)
    case None => AcceptOutcome(Err(HttpError(404, "Shipment not found")), shipments, quotes)
    case Some(j) =>
      if !OwnedBy(shipments[j], "supplier_id", caller) then
        AcceptOutcome(Err(HttpError(403, "Not authorized to accept quotes for this shipment")),
                      shipments, quotes)
      else match FindQuoteOf(quotes, quoteId, shipmentId)
        case None => AcceptOutcome(Err(HttpError(404, "Quote not found")), shipments, quotes)
        case Some(k) =>
          var q := quotes[k];
          if q.status != Pending then
            AcceptOutcome(Err(HttpError(400, "Quote is already " + QuoteStatusName(q.status))),
                          shipments, quotes)
          else if q.validityDate.Some? && q.validityDate.value < now then
            AcceptOutcome(Err(HttpError(400, "Quote has expired")),
                          shipments, quotes[k := q.(status := Expired)])
          else
            var quotes' := RejectSiblings(quotes[k := q.(status := Accepted)], shipmentId, quoteId);
            var shipments' := shipments[j := SetColumn(shipments[j], "status", VStr("quoted"))];
            AcceptOutcome(Ok(ViewOf(users, quotes'[k])), shipments', quotes')
  }

  /** The error exits of `accept_quote`, in order; none of them changes anything. */
  lemma AcceptErrorOrder(shipments: seq<Shipment>, quotes: seq<Quote>, users: seq<User>,
                         caller: Id, shipmentId: Id, quoteId: Id, now: Time)
    ensures var o := AcceptQuoteOutcome(shipments, quotes, users, caller, shipmentId, quoteId, now);
      var j := FindShipment(shipments, shipmentId);
      var k := FindQuoteOf(quotes, quoteId, shipmentId);
      && (j.None? ==>
            o == AcceptOutcome(Err(HttpError(404, "Shipment not found")), shipments, quotes))
      && (j.Some? && !OwnedBy(shipments[j.value], "supplier_id", caller) ==>
            o == AcceptOutcome(Err(HttpError(403, "Not authorized to accept quotes for this shipment")),
                               shipments, quotes))
      && (j.Some? && OwnedBy(shipments[j.value], "supplier_id", caller) && k.None? ==>
            o == AcceptOutcome(Err(HttpError(404, "Quote not found")), shipments, quotes))
      && (j.Some? && OwnedBy(shipments[j.value], "supplier_id", caller) && k.Some?
          && quotes[k.value].status != Pending ==>
            o == AcceptOutcome(Err(HttpError(400, "Quote is already "
                                            + QuoteStatusName(quotes[k.value].status))),
                               shipments, quotes))
  {
  }

  /** A pending quote past its validity date is marked expired, and that write persists,
      but the call fails; the shipment and every other quote are unchanged. */
  lemma AcceptExpired(shipments: seq<Shipment>, quotes: seq<Quote>, users: seq<User>,
                      caller: Id, shipmentId: Id, quoteId: Id, now: Time)
    requires FindShipment(shipments, shipmentId).Some?
    requires OwnedBy(shipments[FindShipment(shipments, shipmentId).value], "supplier_id", caller)
    requires FindQuoteOf(quotes, quoteId, shipmentId).Some?
    ensures var k := FindQuoteOf(quotes, quoteId, shipmentId).value;
      var o := AcceptQuoteOutcome(shipments, quotes, users, caller, shipmentId, quoteId, now);
      quotes[k].status == Pending && quotes[k].validityDate.Some? && quotes[k].validityDate.value < now
      ==>
      && o.response == Err(HttpError(400, "Quote has expired"))
      && o.shipments == shipments
      && |o.quotes| == |quotes|
      && o.quotes[k].status == Expired
      && o.quotes[k] == quotes[k].(status := Expired)
      && (forall i :: 0 <= i < |quotes| && i != k ==> o.quotes[i] == quotes[i])
  {
  }

  /** The call succeeds iff the shipment exists, the caller owns it, the quote of that
      shipment exists, is pending and is not past its validity date. */
  lemma AcceptSucceedsIff(shipments: seq<Shipment>, quotes: seq<Quote>, users: seq<User>,
                          caller: Id, shipmentId: Id, quoteId: Id, now: Time)
    ensures var o := AcceptQuoteOutcome(shipments, quotes, users, caller, shipmentId, quoteId, now);
      var j := FindShipment(shipments, shipmentId);
      var k := FindQuoteOf(quotes, quoteId, shipmentId);
      o.response.Ok? <==>
        && j.Some? && OwnedBy(shipments[j.value], "supplier_id", caller)
        && k.Some? && quotes[k.value].status == Pending
        && !(quotes[k.value].validityDate.Some? && quotes[k.value].validityDate.value < now)
  {
  }

  /** On success the target becomes accepted and is answered, the shipment's status
      becomes `quoted` (no other column changes), the pending siblings become rejected,
      and every other quote is untouched. */
  lemma AcceptSuccess(shipments: seq<Shipment>, quotes: seq<Quote>, users: seq<User>,
                      caller: Id, shipmentId: Id, quoteId: Id, now: Time)
    requires AcceptQuoteOutcome(shipments, quotes, users, caller, shipmentId, quoteId, now).response.Ok?
    ensures var o := AcceptQuoteOutcome(shipments, quotes, users, caller, shipmentId, quoteId, now);
      var j := FindShipment(shipments, shipmentId).value;
      var k := FindQuoteOf(quotes, quoteId, shipmentId).value;
      && o.quotes[k] == quotes[k].(status := Accepted)
      && o.response.value == ViewOf(users, o.quotes[k])
      && |o.shipments| == |shipments|
      && Attr(o.shipments[j], "status") == VStr("quoted")
      && SameExcept(o.shipments[j], shipments[j], ["status"])
      && (forall i :: 0 <= i < |shipments| && i != j ==> o.shipments[i] == shipments[i])
      && |o.quotes| == |quotes|
      && (forall i :: 0 <= i < |quotes| && i != k && RejectedByAccept(quotes[i], shipmentId, quoteId)
            ==> o.quotes[i] == quotes[i].(status := Rejected))
      && (forall i :: 0 <= i < |quotes| && i != k && quotes[i].status != Pending
            ==> o.quotes[i] == quotes[i])
      && (forall i :: 0 <= i < |quotes| && i != k && quotes[i].shipmentId != shipmentId
            ==> o.quotes[i] == quotes[i])
  {
    var k := FindQuoteOf(quotes, quoteId, shipmentId).value;
    var marked := quotes[k := quotes[k].(status := Accepted)];
    assert !RejectedByAccept(marked[k], shipmentId, quoteId);
  }

  /** The primary key: no two quote rows share an id. */
  ghost predicate UniqueQuoteIds(quotes: seq<Quote>) {
    forall i, j :: 0 <= i < j < |quotes| ==> quotes[i].id != quotes[j].id
  }

  /** After a successful accept no quote of the shipment other than the target is
      pending, and the target is the only one changed to accepted. */
  lemma AcceptLeavesNoPending(shipments: seq<Shipment>, quotes: seq<Quote>, users: seq<User>,
                              caller: Id, shipmentId: Id, quoteId: Id, now: Time)
    requires UniqueQuoteIds(quotes)
    requires AcceptQuoteOutcome(shipments, quotes, users, caller, shipmentId, quoteId, now).response.Ok?
    ensures var o := AcceptQuoteOutcome(shipments, quotes, users, caller, shipmentId, quoteId, now);
      var k := FindQuoteOf(quotes, quoteId, shipmentId).value;
      && UniqueQuoteIds(o.quotes)
      && (forall i :: 0 <= i < |o.quotes| && o.quotes[i].shipmentId == shipmentId
            ==> o.quotes[i].status != Pending)
      && (forall i :: 0 <= i < |o.quotes| && o.quotes[i].status == Accepted
            ==> i == k || quotes[i].status == Accepted)
  {
    AcceptSuccess(shipments, quotes, users, caller, shipmentId, quoteId, now);
  }

  /** At most one accepted quote per shipment. */
  ghost predicate AtMostOneAccepted(quotes: seq<Quote>, shipmentId: Id) {
    forall i, j :: 0 <= i < |quotes| && 0 <= j < |quotes|
      && quotes[i].shipmentId == shipmentId && quotes[j].shipmentId == shipmentId
      && quotes[i].status == Accepted && quotes[j].status == Accepted
      ==> i == j
  }

  /** The shipment has no accepted quote next to a pending one. */
  ghost predicate NoAcceptedBesidePending(quotes: seq<Quote>, shipmentId: Id) {
    forall i, j :: 0 <= i < |quotes| && 0 <= j < |quotes|
      && quotes[i].shipmentId == shipmentId && quotes[j].shipmentId == shipmentId
      ==> !(quotes[i].status == Accepted && quotes[j].status == Pending)
  }

  /** Accepting keeps "at most one accepted" for the shipment when, before the call, no
      accepted quote of it coexisted with a pending one, and it then re-establishes that
      side condition; other shipments' quotes are untouched. */
  lemma AcceptKeepsOneAccepted(shipments: seq<Shipment>, quotes: seq<Quote>, users: seq<User>,
                               caller: Id, shipmentId: Id, quoteId: Id, now: Time)
    requires UniqueQuoteIds(quotes)
    requires NoAcceptedBesidePending(quotes, shipmentId)
    requires AcceptQuoteOutcome(shipments, quotes, users, caller, shipmentId, quoteId, now).response.Ok?
    ensures var o := AcceptQuoteOutcome(shipments, quotes, users, caller, shipmentId, quoteId, now);
      && AtMostOneAccepted(o.quotes, shipmentId)
      && NoAcceptedBesidePending(o.quotes, shipmentId)
  {
    var o := AcceptQuoteOutcome(shipments, quotes, users, caller, shipmentId, quoteId, now);
    var k := FindQuoteOf(quotes, quoteId, shipmentId).value;
    AcceptLeavesNoPending(shipments, quotes, users, caller, shipmentId, quoteId, now);
    assert forall i :: 0 <= i < |quotes| && quotes[i].shipmentId == shipmentId ==>
             quotes[i].status != Accepted;
  }

  // ---------------------------------------------------------------------------
  // update_quote

  datatype QuoteOutcome = QuoteOutcome(response: Result<QuoteView>, quotes: seq<Quote>)

  /** What `update_quote` answers and commits. */
  function UpdateQuoteOutcome(quotes: seq<Quote>, users: seq<User>, caller: Id, quoteId: Id,
                              status: QuoteStatus, remarks: Option<string>): QuoteOutcome
  {
    match FindQuote(quotes, quoteId)
    case None => QuoteOutcome(Err(HttpError(404, "Quote not found")), quotes)
    case Some(k) =>
      if quotes[k].forwarderId != caller then
        QuoteOutcome(Err(HttpError(403, "Not authorized to update this quote")), quotes)
      else if status != Pending && status != Rejected then
        QuoteOutcome(Err(HttpError(400, "Cannot set quote to this status")), quotes)
      else
        var q := quotes[k].(status := status,
                            remarks := if remarks.Some? && remarks.value != "" then remarks
                                       else quotes[k].remarks);
        QuoteOutcome(Ok(ViewOf(users, q)), quotes[k := q])
  }

  /** The error exits in order, none changing anything; on success the status is
      overwritten whatever it was, the remarks only by non-empty remarks, and no other
      quote or column changes. */
  lemma UpdateQuoteSpec(quotes: seq<Quote>, users: seq<User>, caller: Id, quoteId: Id,
                        status: QuoteStatus, remarks: Option<string>)
    ensures var o := UpdateQuoteOutcome(quotes, users, caller, quoteId, status, remarks);
      var k := FindQuote(quotes, quoteId);
      && (k.None? ==> o == QuoteOutcome(Err(HttpError(404, "Quote not found")), quotes))
      && (k.Some? && quotes[k.value].forwarderId != caller ==>
            o == QuoteOutcome(Err(HttpError(403, "Not authorized to update this quote")), quotes))
      && (k.Some? && quotes[k.value].forwarderId == caller && status in {Accepted, Expired} ==>
            o == QuoteOutcome(Err(HttpError(400, "Cannot set quote to this status")), quotes))
      && (o.response.Ok? <==>
            k.Some? && quotes[k.value].forwarderId == caller && status in {Pending, Rejected})
      && (o.response.Ok? ==>
            var q := o.quotes[k.value];
            && |o.quotes| == |quotes|
            && (forall i :: 0 <= i < |quotes| && i != k.value ==> o.quotes[i] == quotes[i])
            && q.status == status
            && q.id == quotes[k.value].id && q.shipmentId == quotes[k.value].shipmentId
            && q.forwarderId == caller && q.validityDate == quotes[k.value].validityDate
            && (remarks.Some? && remarks.value != "" ==> q.remarks == remarks)
            && (!(remarks.Some? && remarks.value != "") ==> q.remarks == quotes[k.value].remarks)
            && o.response.value == ViewOf(users, q))
  {
  }

  /** `update_quote` can undo an acceptance: the forwarder may put an accepted quote
      back to pending. Accepting another quote of the shipment afterwards leaves two
      accepted quotes, so "at most one accepted quote per shipment" is not an invariant
      of the handlers. */
  lemma ReopenThenAcceptGivesTwoAccepted()
    ensures var supplier := "s1";
      var shipments := [Shipment("sh", 0, map["supplier_id" := VStr(supplier)])];
      var q1 := Quote("q1", "sh", "f1", Pending, None, None);
      var q2 := Quote("q2", "sh", "f2", Pending, None, None);
      var first := AcceptQuoteOutcome(shipments, [q1, q2], [], supplier, "sh", "q1", 0);
      var reopened := UpdateQuoteOutcome(first.quotes, [], "f2", "q2", Pending, None);
      var second := AcceptQuoteOutcome(first.shipments, reopened.quotes, [], supplier, "sh", "q2", 0);
      && AtMostOneAccepted([q1, q2], "sh")
      && first.response.Ok? && reopened.response.Ok? && second.response.Ok?
      && |second.quotes| == 2
      && second.quotes[0].status == Accepted && second.quotes[1].status == Accepted
      && !AtMostOneAccepted(second.quotes, "sh")
  {
    var supplier := "s1";
    var shipments := [Shipment("sh", 0, map["supplier_id" := VStr(supplier)])];
    var q1 := Quote("q1", "sh", "f1", Pending, None, None);
    var q2 := Quote("q2", "sh", "f2", Pending, None, None);
    assert OwnedBy(shipments[0], "supplier_id", supplier);
    assert FindShipment(shipments, "sh") == Some(0);
    assert FindQuoteOf([q1, q2], "q1", "sh") == Some(0);
    var first := AcceptQuoteOutcome(shipments, [q1, q2], [], supplier, "sh", "q1", 0);
    assert first.quotes == [q1.(status := Accepted), q2.(status := Rejected)];
    assert FindQuote(first.quotes, "q2") == Some(1);
    var reopened := UpdateQuoteOutcome(first.quotes, [], "f2", "q2", Pending, None);
    assert reopened.quotes == [q1.(status := Accepted), q2];
    assert FindShipment(first.shipments, "sh") == Some(0);
    assert OwnedBy(first.shipments[0], "supplier_id", supplier);
    assert FindQuoteOf(reopened.quotes, "q2", "sh") == Some(1);
    var second := AcceptQuoteOutcome(first.shipments, reopened.quotes, [], supplier, "sh", "q2", 0);
    assert second.quotes == [q1.(status := Accepted), q2.(status := Accepted)];
  }

  /** `accept_quote` */
  method AcceptQuote(db: Database, caller: Id, shipmentId: Id, quoteId: Id, now: Time)
    returns (r: Result<QuoteView>)
    modifies db`shipments, db`quotes
    ensures var o := AcceptQuoteOutcome(old(db.shipments), old(db.quotes), db.users,
                                        caller, shipmentId, quoteId, now);
      r == o.response && db.shipments == o.shipments && db.quotes == o.quotes
  {
    var j := FindShipment(db.shipments, shipmentId);
    if j.None? {
      return Err(HttpError(404, "Shipment not found"));
    }
    if !OwnedBy(db.shipments[j.value], "supplier_id", caller) {
      return Err(HttpError(403, "Not authorized to accept quotes for this shipment"));
    }
    var k := FindQuoteOf(db.quotes, quoteId, shipmentId);
    if k.None? {
      return Err(HttpError(404, "Quote not found"));
    }
    var quote := db.quotes[k.value];
    if quote.status != Pending {
      return Err(HttpError(400, "Quote is already " + QuoteStatusName(quote.status)));
    }
    if quote.validityDate.Some? && quote.validityDate.value < now {
      db.quotes := db.quotes[k.value := quote.(status := Expired)];
      return Err(HttpError(400, "Quote has expired"));
    }
    db.quotes := db.quotes[k.value := quote.(status := Accepted)];
    db.shipments := db.shipments[j.value := SetColumn(db.shipments[j.value], "status", VStr("quoted"))];
    db.quotes := RejectSiblings(db.quotes, shipmentId, quoteId);
    r := Ok(ViewOf(db.users, db.quotes[k.value]));
  }

  /** `update_quote` */
  method UpdateQuote(db: Database, caller: Id, quoteId: Id, status: QuoteStatus,
                     remarks: Option<string>)
    returns (r: Result<QuoteView>)
    modifies db`quotes
    ensures var o := UpdateQuoteOutcome(old(db.quotes), db.users, caller, quoteId, status, remarks);
      r == o.response && db.quotes == o.quotes
  {
    var k := FindQuote(db.quotes, quoteId);
    if k.None? {
      return Err(HttpError(404, "Quote not found"));
    }
    var quote := db.quotes[k.value];
    if quote.forwarderId != caller {
      return Err(HttpError(403, "Not authorized to update this quote"));
    }
    if status != Pending && status != Rejected {
      return Err(HttpError(400, "Cannot set quote to this status"));
    }
    quote := quote.(status := status);
    if remarks.Some? && remarks.value != "" {
      quote := quote.(remarks := remarks);
    }
    db.quotes := db.quotes[k.value := quote];
    r := Ok(ViewOf(db.users, quote));
  }
}
