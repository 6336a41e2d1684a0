/** The document router: the checks an upload passes before a document row is created,
    the auto-fill of shipment columns from extracted data, and the bookkeeping of an
    extraction run (the document's extracted fields and the extraction job). */
module DocumentRouter {
  import opened Values
  import opened Store

  // ---------------------------------------------------------------------------
  // upload_document

  /** `allowed_types` */
  const AllowedTypes: seq<string> := ["application/pdf", "image/jpeg", "image/png", "image/jpg"]

  /** `f"{file.content_type}"`: a missing content type prints as `None`. */
  function ContentTypeText(contentType: Option<string>): string {
    if contentType.Some? then contentType.value else "None"
  }

  /** The content types `upload_document` accepts. */
  predicate AllowedType(contentType: Option<string>) {
    contentType.Some? && contentType.value in AllowedTypes
  }

  /** The 400 for a content type outside `allowed_types`. */
  function FileTypeError(contentType: Option<string>): HttpError {
    HttpError(400, "File type " + ContentTypeText(contentType) + " not allowed. Use PDF or images.")
  }

  /** The 500 the `except Exception` clause raises. */
  function UploadFailure(message: string): HttpError {
    HttpError(500, "Failed to upload document: " + message)
  }

  /** What the storage upload gives back: the file's URL, or the message of the exception
      it raised. */
  datatype StorageResult = Stored(url: string) | StorageFailed(message: string)

  datatype UploadOutcome = UploadOutcome(response: Result<Document>, documents: seq<Document>)

  /** The new row; the extraction columns hold their defaults until an extraction runs. */
  function NewDocument(id: Id, shipmentId: Id, uploader: Id, docType: DocumentType,
                       fileName: string, url: string, content: seq<bv8>,
                       contentType: Option<string>): Document
  {
    Document(id, shipmentId, uploader, docType, fileName, url, |content|, contentType,
             None, VFloat(0.0), VNone, VBool(true))
  }

  /** What `upload_document` answers and commits. */
  function UploadOutcomeOf(shipments: seq<Shipment>, documents: seq<Document>, caller: User,
                           shipmentId: Id, fileName: string, contentType: Option<string>,
                           content: seq<bv8>, docType: DocumentType, newId: Id,
                           storage: StorageResult): UploadOutcome
  {
    match FindShipment(shipments, shipmentId)
    case None => UploadOutcome(Err(HttpError(404, "Shipment not found")), documents)
    case Some(j) =>
      if caller.role == Supplier && !OwnedBy(shipments[j], "supplier_id", caller.id) then
        UploadOutcome(Err(HttpError(403, "Not authorized to upload documents for this shipment")),
                      documents)
      else if !AllowedType(contentType) then
        UploadOutcome(Err(FileTypeError(contentType)), documents)
      else match storage
        case StorageFailed(message) =>
          UploadOutcome(Err(UploadFailure(message)), documents)
        case Stored(url) =>
          var d := NewDocument(newId, shipmentId, caller.id, docType, fileName, url, content, contentType);
          UploadOutcome(Ok(d), documents + [d])
  }

  /** The checks in order (shipment, supplier ownership, content type, storage), none of
      which writes anything; a passing upload appends exactly one document, not yet
      extracted, recording the shipment, the uploader, the URL, the size and the type. */
  lemma UploadSpec(shipments: seq<Shipment>, documents: seq<Document>, caller: User,
                   shipmentId: Id, fileName: string, contentType: Option<string>,
                   content: seq<bv8>, docType: DocumentType, newId: Id, storage: StorageResult)
    ensures var o := UploadOutcomeOf(shipments, documents, caller, shipmentId, fileName,
                                     contentType, content, docType, newId, storage);
      var j := FindShipment(shipments, shipmentId);
      var owned := j.Some? && !(caller.role == Supplier && !OwnedBy(shipments[j.value], "supplier_id", caller.id));
      var allowed := AllowedType(contentType);
      && (o.response.Err? ==> o.documents == documents)
      && (j.None? ==> o.response == Err(HttpError(404, "Shipment not found")))
      && (j.Some? && !owned ==>
            o.response == Err(HttpError(403, "Not authorized to upload documents for this shipment")))
      && (owned && !allowed ==> o.response == Err(FileTypeError(contentType)))
      && (owned && allowed && storage.StorageFailed? ==>
            o.response == Err(UploadFailure(storage.message)))
      && (o.response.Ok? <==> owned && allowed && storage.Stored?)
      && (o.response.Ok? ==>
            var d := o.response.value;
            && o.documents == documents + [d]
            && d.id == newId && d.shipmentId == shipmentId && d.uploadedBy == caller.id
            && d.fileUrl == storage.url && d.fileSize == |content| && d.mimeType == contentType
            && d.docType == docType && d.fileName == fileName
            && d.extractedData.None?)
  {
    var o := UploadOutcomeOf(shipments, documents, caller, shipmentId, fileName,
                             contentType, content, docType, newId, storage);
    match FindShipment(shipments, shipmentId)
    case None =>
    case Some(j) =>
      if !(caller.role == Supplier && !OwnedBy(shipments[j], "supplier_id", caller.id))
         && AllowedType(contentType) && storage.Stored? {
        var d := NewDocument(newId, shipmentId, caller.id, docType, fileName, storage.url,
                             content, contentType);
        assert o == UploadOutcome(Ok(d), documents + [d]);
      }
  }

  /** `upload_document` */
  method UploadDocument(db: Database, caller: User, shipmentId: Id, fileName: string,
                        contentType: Option<string>, content: seq<bv8>, docType: DocumentType,
                        newId: Id, storage: StorageResult)
    returns (r: Result<Document>)
    modifies db`documents
    ensures var o := UploadOutcomeOf(db.shipments, old(db.documents), caller, shipmentId,
                                     fileName, contentType, content, docType, newId, storage);
      r == o.response && db.documents == o.documents
  {
    ghost var o := UploadOutcomeOf(db.shipments, db.documents, caller, shipmentId,
                                   fileName, contentType, content, docType, newId, storage);
    var j := FindShipment(db.shipments, shipmentId);
    if j.None? {
      return Err(HttpError(404, "Shipment not found"));
    }
    if caller.role == Supplier && !OwnedBy(db.shipments[j.value], "supplier_id", caller.id) {
      return Err(HttpError(403, "Not authorized to upload documents for this shipment"));
    }
    if !AllowedType(contentType) {
      return Err(FileTypeError(contentType));
    }
    if storage.StorageFailed? {
      return Err(UploadFailure(storage.message));
    }
    var document := NewDocument(newId, shipmentId, caller.id, docType, fileName,
                                storage.url, content, contentType);
    assert o == UploadOutcome(Ok(document), db.documents + [document]);
    db.documents := db.documents + [document];
    r := Ok(document);
  }

  // ---------------------------------------------------------------------------
  // autofill_shipment

  /** The default of `AutoFillRequest.fields`. */
  const DefaultFields: seq<string> := [
    "gross_weight_kg", "net_weight_kg", "volume_cbm", "total_packages",
    "hs_code", "goods_description"
  ]

  /** A requested field is copied when the extracted data holds it with a truthy value. */
  predicate Copies(data: map<string, Value>, field: string) {
    field in data && Truthy(data[field])
  }

  /** The requested fields that are copied, in request order (the reference definition). */
  function Chosen(data: map<string, Value>, fields: seq<string>): seq<string> {
    if fields == [] then []
    else (if Copies(data, fields[0]) then [fields[0]] else []) + Chosen(data, fields[1..])
  }

  /** The state of the auto-fill loop: the shipment, `updated_fields`, `extracted_values`. */
  datatype Fill = Fill(shipment: Shipment, updated: seq<string>, values: map<string, Value>)

  /** The loop of `autofill_shipment` after it has seen `fields`. */
  function FillFrom(s: Shipment, data: map<string, Value>, fields: seq<string>): Fill {
    if fields == [] then Fill(s, [], map[])
    else
      var f := FillFrom(s, data, fields[..|fields| - 1]);
      var field := fields[|fields| - 1];
      if Copies(data, field) then
        Fill(SetColumn(f.shipment, field, data[field]), f.updated + [field], f.values[field := data[field]])
      else f
  }

  lemma {:induction false} ChosenAppend(data: map<string, Value>, fields: seq<string>, x: string)
    ensures Chosen(data, fields + [x]) == Chosen(data, fields) + (if Copies(data, x) then [x] else [])
  {
    if fields == [] {
      assert fields + [x] == [x];
    } else {
      assert (fields + [x])[1..] == fields[1..] + [x];
      ChosenAppend(data, fields[1..], x);
    }
  }

  lemma {:induction false} FillUpdated(s: Shipment, data: map<string, Value>, fields: seq<string>)
    ensures FillFrom(s, data, fields).updated == Chosen(data, fields)
  {
    if fields != [] {
      var init := fields[..|fields| - 1];
      FillUpdated(s, data, init);
      assert fields == init + [fields[|fields| - 1]];
      ChosenAppend(data, init, fields[|fields| - 1]);
    }
  }

  lemma {:induction false} FillValues(s: Shipment, data: map<string, Value>, fields: seq<string>)
    ensures var f := FillFrom(s, data, fields);
      && (forall c :: c in f.values <==> c in f.updated)
      && (forall c :: c in f.values ==> Copies(data, c) && f.values[c] == data[c])
  {
    if fields != [] {
      FillValues(s, data, fields[..|fields| - 1]);
    }
  }

  lemma {:induction false} FillColumns(s: Shipment, data: map<string, Value>, fields: seq<string>)
    ensures var f := FillFrom(s, data, fields);
      && (forall c :: c in f.updated ==> c in data)
      && (forall c :: c in f.updated && c in ShipmentColumns ==>
            c in f.shipment.attrs && f.shipment.attrs[c] == data[c])
      && SameExcept(f.shipment, s, f.updated)
  {
    if fields != [] {
      var init := fields[..|fields| - 1];
      var field := fields[|fields| - 1];
      FillColumns(s, data, init);
      var g := FillFrom(s, data, init);
      if Copies(data, field) {
        assert forall c :: c in g.updated + [field] <==> c in g.updated || c == field;
      }
    }
  }

  /** `updated_fields` is exactly the subsequence of the request whose keys the data holds
      with a truthy value; `extracted_values` maps exactly those fields to their values; each
      copied column holds its value and every other column is unchanged. */
  lemma FillSpec(s: Shipment, data: map<string, Value>, fields: seq<string>)
    ensures var f := FillFrom(s, data, fields);
      && f.updated == Chosen(data, fields)
      && (forall c :: c in f.values <==> c in f.updated)
      && (forall c :: c in f.values ==> c in data && f.values[c] == data[c] && Truthy(data[c]))
      && (forall c :: c in f.updated && c in ShipmentColumns ==>
            c in f.shipment.attrs && f.shipment.attrs[c] == data[c])
      && SameExcept(f.shipment, s, f.updated)
  {
    FillUpdated(s, data, fields);
    FillValues(s, data, fields);
    FillColumns(s, data, fields);
  }

  /** The `AutoFillResponse`. */
  datatype AutoFill = AutoFill(documentId: Id, shipmentId: Id, updatedFields: seq<string>,
                               confidence: Value, extractedValues: map<string, Value>)

  datatype AutoFillOutcome = AutoFillOutcome(response: Result<AutoFill>, shipments: seq<Shipment>)

  /** What `autofill_shipment` answers and commits. A missing shipment row ends in an
      AttributeError on `None`, before anything is written. */
  function AutoFillOutcomeOf(documents: seq<Document>, shipments: seq<Shipment>, caller: User,
                             documentId: Id, fields: seq<string>): AutoFillOutcome
  {
    match FindDocument(documents, documentId)
    case None => AutoFillOutcome(Err(HttpError(404, "Document not found")), shipments)
    case Some(d) =>
      var document := documents[d];
      if document.extractedData.None? || document.extractedData.value == map[] then
        AutoFillOutcome(Err(HttpError(400, "Document has not been extracted yet")), shipments)
      else match FindShipment(shipments, document.shipmentId)
        case None => AutoFillOutcome(Err(InternalError), shipments)
        case Some(j) =>
          if caller.role == Supplier && !OwnedBy(shipments[j], "supplier_id", caller.id) then
            AutoFillOutcome(Err(HttpError(403, "Not authorized")), shipments)
          else
            var f := FillFrom(shipments[j], document.extractedData.value, fields);
            AutoFillOutcome(Ok(AutoFill(document.id, shipments[j].id, f.updated,
                                        document.confidence, f.values)),
                            shipments[j := f.shipment])
  }

  /** The checks in order: document, extraction, a missing shipment row (500), then
      ownership; none of them writes, and a caller gets past them unless it is a supplier
      who does not own the shipment. On success only the document's shipment row changes, as `FillSpec`
      describes, and the answer reports the document's confidence. */
  lemma AutoFillSpec(documents: seq<Document>, shipments: seq<Shipment>, caller: User,
                     documentId: Id, fields: seq<string>)
    ensures var o := AutoFillOutcomeOf(documents, shipments, caller, documentId, fields);
      var d := FindDocument(documents, documentId);
      var extracted := d.Some? && documents[d.value].extractedData.Some?
                       && documents[d.value].extractedData.value != map[];
      && (o.response.Err? ==> o.shipments == shipments)
      && (d.None? ==> o.response == Err(HttpError(404, "Document not found")))
      && (d.Some? && !extracted ==>
            o.response == Err(HttpError(400, "Document has not been extracted yet")))
      && (extracted && FindShipment(shipments, documents[d.value].shipmentId).Some?
          && caller.role == Supplier
          && !OwnedBy(shipments[FindShipment(shipments, documents[d.value].shipmentId).value],
                      "supplier_id", caller.id) ==>
            o.response == Err(HttpError(403, "Not authorized")))
      && (extracted && FindShipment(shipments, documents[d.value].shipmentId).None? ==>
            o.response == Err(InternalError))
      && (o.response.Ok? <==>
            extracted && FindShipment(shipments, documents[d.value].shipmentId).Some?
            && !(caller.role == Supplier
                 && !OwnedBy(shipments[FindShipment(shipments, documents[d.value].shipmentId).value],
                             "supplier_id", caller.id)))
      && (o.response.Ok? ==>
            var document := documents[d.value];
            var j := FindShipment(shipments, document.shipmentId).value;
            var data := document.extractedData.value;
            && o.response.value.documentId == documentId
            && o.response.value.shipmentId == document.shipmentId
            && o.response.value.confidence == document.confidence
            && o.response.value.updatedFields == Chosen(data, fields)
            && (forall c :: c in o.response.value.extractedValues <==> c in Chosen(data, fields))
            && (forall c :: c in o.response.value.extractedValues ==>
                  c in data && o.response.value.extractedValues[c] == data[c])
            && |o.shipments| == |shipments|
            && (forall i :: 0 <= i < |shipments| && i != j ==> o.shipments[i] == shipments[i])
            && SameExcept(o.shipments[j], shipments[j], Chosen(data, fields))
            && (forall c :: c in Chosen(data, fields) && c in ShipmentColumns ==>
                  Attr(o.shipments[j], c) == data[c]))
  {
    var d := FindDocument(documents, documentId);
    if d.Some? && documents[d.value].extractedData.Some? {
      var document := documents[d.value];
      var j := FindShipment(shipments, document.shipmentId);
      if j.Some? {
        FillSpec(shipments[j.value], document.extractedData.value, fields);
      }
    }
  }

  /** `autofill_shipment`; `fields` is the request's field list, `DefaultFields` when the
      request leaves it out. */
  method AutofillShipment(db: Database, caller: User, documentId: Id, fields: seq<string>)
    returns (r: Result<AutoFill>)
    modifies db`shipments
    ensures var o := AutoFillOutcomeOf(db.documents, old(db.shipments), caller, documentId, fields);
      r == o.response && db.shipments == o.shipments
  {
    var d := FindDocument(db.documents, documentId);
    if d.None? {
      return Err(HttpError(404, "Document not found"));
    }
    var document := db.documents[d.value];
    if document.extractedData.None? || document.extractedData.value == map[] {
      return Err(HttpError(400, "Document has not been extracted yet"));
    }
    var j := FindShipment(db.shipments, document.shipmentId);
    if j.None? {
      return Err(InternalError);
    }
    var shipment := db.shipments[j.value];
    if caller.role == Supplier && !OwnedBy(shipment, "supplier_id", caller.id) {
      return Err(HttpError(403, "Not authorized"));
    }
    var data := document.extractedData.value;
    ghost var s0 := shipment;
    var updated: seq<string> := [];
    var values: map<string, Value> := map[];
    var i := 0;
    while i < |fields|
      invariant 0 <= i <= |fields|
      invariant FillFrom(s0, data, fields[..i]) == Fill(shipment, updated, values)
      invariant shipment.id == s0.id
    {
      var field := fields[i];
      assert fields[..i + 1][..i] == fields[..i];
      if field in data {
        var value := data[field];
        if Truthy(value) {
          shipment := SetColumn(shipment, field, value);
          updated := updated + [field];
          values := values[field := value];
        }
      }
      i := i + 1;
    }
    assert fields[..|fields|] == fields;
    db.shipments := db.shipments[j.value := shipment];
    r := Ok(AutoFill(document.id, shipment.id, updated, document.confidence, values));
  }

  // ---------------------------------------------------------------------------
  // extract_document_data

  /** What the extractor gives back: its dictionary, or the message of the exception it
      raised. */
  datatype Extraction = Extracted(data: map<string, Value>) | ExtractionFailed(message: string)

  datatype ExtractOutcome = ExtractOutcome(documents: seq<Document>, jobs: seq<ExtractionJob>)

  /** A document that has been through a successful extraction. */
  function WithExtraction(d: Document, data: map<string, Value>): Document {
    d.(extractedData := Some(data),
       confidence := Get(data, "confidence", VFloat(0.0)),
       extractionMethod := Get(data, "extraction_method", VStr("unknown")),
       needsReview := Get(data, "needs_review", VBool(true)))
  }

  /** What `extract_document_data` commits. */
  function ExtractOutcomeOf(documents: seq<Document>, jobs: seq<ExtractionJob>, documentId: Id,
                            newJobId: Id, extraction: Extraction): ExtractOutcome
  {
    match FindDocument(documents, documentId)
    case None => ExtractOutcome(documents, jobs)
    case Some(d) =>
      var job := ExtractionJob(newJobId, documentId, Processing, VNone, VNone, None, 0);
      var jobs' := jobs + [job];
      match extraction
      case Extracted(data) =>
        ExtractOutcome(documents[d := WithExtraction(documents[d], data)],
                       jobs'[|jobs| := job.(status := Completed,
                                            modelUsed := Get(data, "extraction_method", VStr("gemini_1.5_pro")),
                                            processingTimeMs := Get(data, "processing_time_ms", VInt(0)))])
      case ExtractionFailed(message) =>
        match FindJobOf(jobs', documentId)
        case None => ExtractOutcome(documents, jobs')
        case Some(k) =>
          ExtractOutcome(documents,
                         jobs'[k := jobs'[k].(status := Failed, errorMessage := Some(message),
                                              attempts := jobs'[k].attempts + 1)])
  }

  /** An unknown document changes nothing. Otherwise one job is added; a successful run
      stores the data with its defaults in the document, whose other columns stay as they
      were, and completes that job; a failed
      run leaves the documents alone and fails the document's first job, recording the
      message and adding exactly one attempt, and no other job changes. */
  lemma ExtractSpec(documents: seq<Document>, jobs: seq<ExtractionJob>, documentId: Id,
                    newJobId: Id, extraction: Extraction)
    ensures var o := ExtractOutcomeOf(documents, jobs, documentId, newJobId, extraction);
      var d := FindDocument(documents, documentId);
      && (d.None? ==> o == ExtractOutcome(documents, jobs))
      && (d.Some? ==>
            && |o.jobs| == |jobs| + 1
            && o.jobs[|jobs|].id == newJobId && o.jobs[|jobs|].documentId == documentId)
      && (d.Some? && extraction.Extracted? ==>
            var data := extraction.data;
            var doc := o.documents[d.value];
            && |o.documents| == |documents|
            && (forall i :: 0 <= i < |documents| && i != d.value ==> o.documents[i] == documents[i])
            && doc == documents[d.value].(
                 extractedData := Some(data),
                 confidence := (if "confidence" in data then data["confidence"] else VFloat(0.0)),
                 extractionMethod := (if "extraction_method" in data then data["extraction_method"]
                                      else VStr("unknown")),
                 needsReview := (if "needs_review" in data then data["needs_review"] else VBool(true)))
            && o.jobs[..|jobs|] == jobs
            && o.jobs[|jobs|].status == Completed
            && o.jobs[|jobs|].modelUsed == (if "extraction_method" in data then data["extraction_method"]
                                            else VStr("gemini_1.5_pro"))
            && o.jobs[|jobs|].processingTimeMs == (if "processing_time_ms" in data
                                                   then data["processing_time_ms"] else VInt(0))
            && o.jobs[|jobs|].errorMessage.None? && o.jobs[|jobs|].attempts == 0)
      && (d.Some? && extraction.ExtractionFailed? ==>
            var k := FindJobOf(jobs + [ExtractionJob(newJobId, documentId, Processing, VNone, VNone, None, 0)],
                               documentId).value;
            var before := if k < |jobs| then jobs[k].attempts else 0;
            && o.documents == documents
            && (forall i :: 0 <= i < |jobs| && jobs[i].documentId == documentId ==> k <= i)
            && o.jobs[k].documentId == documentId
            && o.jobs[k].status == Failed
            && o.jobs[k].errorMessage == Some(extraction.message)
            && o.jobs[k].attempts == before + 1
            && (forall i :: 0 <= i < |jobs| && i != k ==> o.jobs[i] == jobs[i])
            && (k != |jobs| ==> o.jobs[|jobs|].status == Processing)
            && ((forall i :: 0 <= i < |jobs| ==> jobs[i].documentId != documentId) ==> k == |jobs|))
  {
    var d := FindDocument(documents, documentId);
    if d.Some? && extraction.ExtractionFailed? {
      var job := ExtractionJob(newJobId, documentId, Processing, VNone, VNone, None, 0);
      var jobs' := jobs + [job];
      assert jobs'[|jobs|].documentId == documentId;
      var k := FindJobOf(jobs', documentId).value;
      forall i | 0 <= i < |jobs| && jobs[i].documentId == documentId ensures k <= i {
        assert jobs'[i] == jobs[i];
      }
    }
  }

  /** `extract_document_data` */
  method ExtractDocumentData(db: Database, documentId: Id, newJobId: Id, extraction: Extraction)
    modifies db`documents, db`jobs
    ensures var o := ExtractOutcomeOf(old(db.documents), old(db.jobs), documentId, newJobId, extraction);
      db.documents == o.documents && db.jobs == o.jobs
  {
    var d := FindDocument(db.documents, documentId);
    if d.None? {
      return;
    }
    var job := ExtractionJob(newJobId, documentId, Processing, VNone, VNone, None, 0);
    db.jobs := db.jobs + [job];
    var index := |db.jobs| - 1;
    match extraction {
      case Extracted(data) =>
        db.documents := db.documents[d.value := WithExtraction(db.documents[d.value], data)];
        db.jobs := db.jobs[index := job.(status := Completed,
                                         modelUsed := Get(data, "extraction_method", VStr("gemini_1.5_pro")),
                                         processingTimeMs := Get(data, "processing_time_ms", VInt(0)))];
      case ExtractionFailed(message) =>
        var k := FindJobOf(db.jobs, documentId);
        if k.Some? {
          var failed := db.jobs[k.value];
          db.jobs := db.jobs[k.value := failed.(status := Failed, errorMessage := Some(message),
                                                attempts := failed.attempts + 1)];
        }
    }
  }
}
