/** The `/api/workshop` routes behind the `["workshop", "admin"]` gate: equipment creation
    with its category mapping, personnel list fields, the recent-photos feed, the
    maintenance schedule, scheduling a maintenance, and the anomaly update. */
module WorkshopRoutes {
  import opened Common
  import opened Text
  import opened Sorting
  import opened EquipmentRoutes
  import A = AnomalyRoutes

  // ---------------------------------------------------------------- category mapping

  /** `getEquipmentType(category)` */
  function EquipmentTypeOf(category: string): (t: string)
    ensures t in EquipmentTypes
    ensures t == "trailer" <==> category == "remorque"
    ensures t == "handling" <==> category == "manutention"
    ensures t == "vehicle" <==> category != "remorque" && category != "manutention"
  {
    if category == "vehicule" || category == "camion" then "vehicle"
    else if category == "remorque" then "trailer"
    else if category == "manutention" then "handling"
    else "vehicle"
  }

  /** `getSpecificType(category, type)`; `typ` is `None` when the body has no `type`. */
  function SpecificTypeOf(category: string, typ: Option<string>): (r: Option<string>)
    ensures r.Some? <==> category == "vehicule" || category == "camion"
    ensures r.Some? ==> r.value in VehicleTypes
    ensures r.Some? ==> (r.value == "road_tractor" <==> typ == Some("tracteur"))
    ensures r.Some? ==> (r.value == "van" <==> typ == Some("utilitaire"))
    ensures r.Some? ==> (r.value == "car" <==> typ == Some("voiture"))
    ensures r.Some? ==> (r.value == "truck" <==> typ !in {Some("tracteur"), Some("utilitaire"), Some("voiture")})
  {
    if category == "vehicule" || category == "camion" then
      if typ == Some("camion") || typ == Some("porteur") then Some("truck")
      else if typ == Some("tracteur") then Some("road_tractor")
      else if typ == Some("utilitaire") then Some("van")
      else if typ == Some("voiture") then Some("car")
      else Some("truck")
    else None
  }

  /** The two mappings agree with each other and with the schema: a vehicle type is only
      produced for a vehicle, and both values always pass the enum validators. */
  lemma MappingsConsistent(category: string, typ: Option<string>)
    ensures SpecificTypeOf(category, typ).Some? ==> EquipmentTypeOf(category) == "vehicle"
    ensures EquipmentTypeOf(category) != "vehicle" ==> SpecificTypeOf(category, typ).None?
    ensures var e := SpecificTypeOf(category, typ); e.Some? ==> e.value != "truck_trailer" && e.value != "custom"
  {
  }

  // ---------------------------------------------------------------- POST /equipment

  /** The body fields of `POST /equipment`. `None` stands for a falsy value, except for
      `status`, where `None` is an absent field (which defaults to `"active"`), and `fuel`,
      where `None` is an absent field (an empty string is kept and checked by the enum). */
  datatype CreateRequest = CreateRequest(
    internalId: Option<string>,
    name: Option<string>,
    typ: Option<string>,
    category: Option<string>,
    licensePlate: Option<string>,
    currentMileage: Option<int>,
    status: Option<string>,
    nextTechnicalControl: Option<Millis>,
    fuel: Option<string>)

  /** `status === "active" ? "available" : status`, after the `"active"` default. */
  function StoredStatus(status: Option<string>): (s: string)
    ensures status.None? || status == Some("active") ==> s == "available"
    ensures status.Some? && status != Some("active") ==> s == status.value
  {
    var v := if status.None? then "active" else status.value;
    if v == "active" then "available" else v
  }

  /** The `equipmentData` object for a request that passed the required-field check. The
      supplied `internalId` becomes the `billunId` and is not stored as `internalId`. */
  function NewEquipment(req: CreateRequest, billunId: string): (e: Equipment)
    requires Truthy(req.category)
    ensures e.billunId == billunId && e.internalId.None?
    ensures e.equipmentType == Some(EquipmentTypeOf(req.category.value))
    ensures e.vehicleType == SpecificTypeOf(req.category.value, req.typ)
    ensures e.status == Some(StoredStatus(req.status))
    ensures e.currentMileage == Some(if req.currentMileage.Some? then req.currentMileage.value else 0)
    ensures e.fuelType == req.fuel && e.trailerType.None? && e.handlingType.None?
  {
    Equipment(billunId, None, req.licensePlate, req.name,
              Some(EquipmentTypeOf(req.category.value)), SpecificTypeOf(req.category.value, req.typ),
              None, None, req.fuel,
              Some(StoredStatus(req.status)),
              Some(if req.currentMileage.Some? then req.currentMileage.value else 0),
              req.nextTechnicalControl, None, None, None, None, None)
  }

  /** `internalId || generateBillunId()` */
  function ChosenId(req: CreateRequest, year: nat, r: real): (id: string)
    requires 0.0 <= r < 1.0
    ensures id != ""
    ensures Truthy(req.internalId) ==> id == req.internalId.value
    ensures !Truthy(req.internalId) ==> id == GenerateBillunId(year, r)
  {
    if Truthy(req.internalId) then req.internalId.value else GenerateBillunId(year, r)
  }

  /** The mapped types always pass validation, so `save()` refuses a new document exactly
      when its status or its supplied fuel is outside its enum. */
  lemma CreateRefusedForStatusOrFuel(req: CreateRequest, year: nat, r: real)
    requires Truthy(req.category) && 0.0 <= r < 1.0
    ensures EquipmentValid(NewEquipment(req, ChosenId(req, year, r))) <==>
              StoredStatus(req.status) in EquipmentStatuses && (req.fuel.Some? ==> req.fuel.value in FuelTypes)
  {
    MappingsConsistent(req.category.value, req.typ);
  }

  /** `POST /equipment`: 400 without name or category, 400 when the chosen id is already
      held (this route does not draw again), 500 when `save()` refuses, else 201. */
  method CreateEquipment(store: EquipmentStore, req: CreateRequest, year: nat, r: real) returns (reply: Reply<Equipment>)
    requires store.Valid() && 0.0 <= r < 1.0
    modifies store
    ensures store.Valid()
    ensures !Truthy(req.name) || !Truthy(req.category) ==> reply == Failure(400)
    ensures Truthy(req.name) && Truthy(req.category) ==>
              var e := NewEquipment(req, ChosenId(req, year, r));
              && (Taken(old(store.items), e.billunId) ==> reply == Failure(400))
              && (!Taken(old(store.items), e.billunId) && !EquipmentValid(e) ==> reply == Failure(500))
              && (!Taken(old(store.items), e.billunId) && EquipmentValid(e) ==>
                    reply == Success(201, e) && store.items == old(store.items)[old(store.nextId) := e])
    ensures reply.Failure? ==> store.items == old(store.items)
  {
    if !Truthy(req.name) || !Truthy(req.category) {
      return Failure(400);
    }
    var billunId := ChosenId(req, year, r);
    var exists_ := store.HasBillunId(billunId);
    if exists_ {
      return Failure(400);
    }
    var e := NewEquipment(req, billunId);
    var saved := store.Insert(e);
    if !saved {
      return Failure(500);
    }
    reply := Success(201, e);
  }

  // ---------------------------------------------------------------- POST /personnel

  /** `s ? s.split(",").map((x) => x.trim()) : []` */
  function SplitTrim(s: Option<string>): (r: seq<string>)
    ensures !Truthy(s) ==> r == []
    ensures Truthy(s) ==> |r| == Count(s.value, ',') + 1
    ensures forall k :: 0 <= k < |r| ==> ',' !in r[k]
    ensures forall k :: 0 <= k < |r| ==> |r[k]| > 0 ==> !IsSpace(r[k][0]) && !IsSpace(r[k][|r[k]| - 1])
  {
    if !Truthy(s) then []
    else
      var pieces := Split(s.value, ',');
      seq(|pieces|, k requires 0 <= k < |pieces| => TrimPiece(pieces[k]))
  }

  /** Trimming a piece that has no comma leaves it without one. */
  function TrimPiece(p: string): (r: string)
    requires ',' !in p
    ensures ',' !in r
    ensures r == Trim(p)
  {
    var t := Trim(p);
    assert ',' !in t by {
      var a :| TrimmedAt(p, t, a);
    }
    t
  }

  /** A comma-separated list written without spaces is split into pieces that join back
      into it; with spaces, only the spaces around each piece are lost. */
  lemma SplitTrimRoundTrip(s: string)
    requires s != "" && NoSpace(s)
    ensures Join(SplitTrim(Some(s)), ',') == s
  {
    var pieces := Split(s, ',');
    SplitKeepsNoSpace(s, ',');
    forall k | 0 <= k < |pieces| ensures Trim(pieces[k]) == pieces[k] {
      TrimNoSpace(pieces[k]);
    }
    assert SplitTrim(Some(s)) == pieces;
    JoinSplit(s, ',');
  }

  // ---------------------------------------------------------------- GET /photos/recent

  /** One element of `recentPhotos`. */
  datatype PhotoEntry = PhotoEntry(url: string, timestamp: Millis, anomaly: A.AnomalyId, criticality: string)

  /** `photo.geolocation?.timestamp || anomaly.dateReported` with the photo's context. */
  function EntryOf(id: A.AnomalyId, a: A.Anomaly, p: A.Photo): PhotoEntry {
    PhotoEntry(p.url, if p.timestamp.Some? then p.timestamp.value else a.dateReported, id, a.criticality)
  }

  function EntriesOf(id: A.AnomalyId, a: A.Anomaly): (r: seq<PhotoEntry>)
    ensures |r| == |a.photos|
    ensures forall j :: 0 <= j < |r| ==> r[j] == EntryOf(id, a, a.photos[j])
  {
    seq(|a.photos|, j requires 0 <= j < |a.photos| => EntryOf(id, a, a.photos[j]))
  }

  /** All photos of the fetched anomalies, anomaly by anomaly, in their stored order. */
  function Flattened(found: seq<(A.AnomalyId, A.Anomaly)>): seq<PhotoEntry> {
    if found == [] then [] else Flattened(found[..|found| - 1]) + EntriesOf(found[|found| - 1].0, found[|found| - 1].1)
  }

  /** Photo `j` of fetched anomaly `i`. */
  ghost predicate PhotoOf(found: seq<(A.AnomalyId, A.Anomaly)>, e: PhotoEntry, i: int, j: int) {
    0 <= i < |found| && 0 <= j < |found[i].1.photos| && e == EntryOf(found[i].0, found[i].1, found[i].1.photos[j])
  }

  /** The flattening loses no photo and invents none. */
  lemma {:induction false} FlattenedMembership(found: seq<(A.AnomalyId, A.Anomaly)>, e: PhotoEntry)
    ensures e in Flattened(found) <==> exists i, j :: PhotoOf(found, e, i, j)
  {
    if found != [] {
      var init := found[..|found| - 1];
      var last := found[|found| - 1];
      FlattenedMembership(init, e);
      if e in Flattened(found) {
        if e !in Flattened(init) {
          var j :| 0 <= j < |EntriesOf(last.0, last.1)| && EntriesOf(last.0, last.1)[j] == e;
          assert PhotoOf(found, e, |found| - 1, j);
        } else {
          var i, j :| PhotoOf(init, e, i, j);
          assert PhotoOf(found, e, i, j);
        }
      }
      if exists i, j :: PhotoOf(found, e, i, j) {
        var i, j :| PhotoOf(found, e, i, j);
        if i < |found| - 1 {
          assert PhotoOf(init, e, i, j);
        } else {
          assert EntriesOf(last.0, last.1)[j] == e;
        }
      }
    }
  }

  /** The two nested `forEach` loops that fill `recentPhotos`. */
  method FlattenPhotos(found: seq<(A.AnomalyId, A.Anomaly)>) returns (out: seq<PhotoEntry>)
    ensures out == Flattened(found)
  {
    out := [];
    var i := 0;
    while i < |found|
      invariant i <= |found|
      invariant out == Flattened(found[..i])
    {
      var (id, a) := found[i];
      var j := 0;
      while j < |a.photos|
        invariant j <= |a.photos|
        invariant out == Flattened(found[..i]) + EntriesOf(id, a)[..j]
      {
        out := out + [EntryOf(id, a, a.photos[j])];
        assert EntriesOf(id, a)[..j + 1] == EntriesOf(id, a)[..j] + [EntryOf(id, a, a.photos[j])];
        j := j + 1;
      }
      assert EntriesOf(id, a)[..j] == EntriesOf(id, a);
      assert found[..i + 1][..i] == found[..i];
      i := i + 1;
    }
    assert found[..|found|] == found;
  }

  /** `(a, b) => new Date(b.timestamp) - new Date(a.timestamp)`: newer photos first. */
  predicate Newer(a: PhotoEntry, b: PhotoEntry) { a.timestamp >= b.timestamp }

  lemma NewerOrders()
    ensures TotalPreorder(Newer)
  {
  }

  function Min(a: nat, b: nat): nat { if a <= b then a else b }

  /** The newest `limit` photos, newest first. */
  function Newest(photos: seq<PhotoEntry>, limit: nat): seq<PhotoEntry> {
    NewerOrders();
    SortBy(photos, Newer)[..Min(limit, |photos|)]
  }

  /** `recentPhotos.sort(...)` then `slice(0, limit)`: the answer holds `min(limit, n)`
      photos of the list, newest first, and no photo left out is newer than one kept. */
  lemma NewestMeaning(photos: seq<PhotoEntry>, limit: nat)
    ensures var r := Newest(photos, limit);
            && |r| == Min(limit, |photos|)
            && (forall i, j :: 0 <= i < j < |r| ==> r[i].timestamp >= r[j].timestamp)
            && multiset(r) <= multiset(photos)
            && (forall p, q :: p in r && q in multiset(photos) - multiset(r) ==> q.timestamp <= p.timestamp)
  {
    NewerOrders();
    var sorted := SortBy(photos, Newer);
    SortedPrefixFirst(sorted, Min(limit, |photos|), Newer);
  }

  /** `GET /photos/recent` over the anomalies the query returned (those with a photo, newest
      report first, at most `limit` of them). */
  method RecentPhotos(found: seq<(A.AnomalyId, A.Anomaly)>, limit: nat) returns (photos: seq<PhotoEntry>)
    ensures photos == Newest(Flattened(found), limit)
  {
    var all := FlattenPhotos(found);
    NewerOrders();
    var sorted := SortBy(all, Newer);
    photos := sorted[..Min(limit, |sorted|)];
  }

  // ---------------------------------------------------------------- GET /maintenance

  datatype EventId = FromAnomaly(anomaly: A.AnomalyId) | EquipmentMaintenance(equipment: EquipmentId) | EquipmentControl(equipment: EquipmentId)

  datatype Event = Event(id: EventId, kind: string, title: Option<string>, date: Millis, status: string, criticality: string)

  /** The event of a scheduled or in-progress anomaly. Its date is `scheduledDate || new
      Date()`; the Anomaly schema has no `scheduledDate` path, so the date is the time of
      the request. */
  function AnomalyEvent(id: A.AnomalyId, a: A.Anomaly, now: Millis): (ev: Event)
    ensures ev.id == FromAnomaly(id) && ev.kind == "maintenance" && ev.date == now
  {
    Event(FromAnomaly(id), "maintenance", a.titre, now, a.status, a.criticality)
  }

  /** `equipment.nextMaintenanceDate`. The Equipment schema names this field
      `nextMaintenance`; a loaded document has no `nextMaintenanceDate` and reads
      `undefined`. */
  function NextMaintenanceDate(e: Equipment): Option<Millis> {
    None
  }

  function EquipmentEventsOf(k: EquipmentId, e: Equipment): seq<Event> {
    (match NextMaintenanceDate(e)
     case Some(d) => [Event(EquipmentMaintenance(k), "maintenance", Some("Entretien " + e.billunId), d, "scheduled", "normal")]
     case None => [])
    + (if e.nextTechnicalInspection.Some?
       then [Event(EquipmentControl(k), "control", Some("CT " + e.billunId), e.nextTechnicalInspection.value, "scheduled", "important")]
       else [])
  }

  function AnomalyEvents(anomalies: seq<(A.AnomalyId, A.Anomaly)>, now: Millis): seq<Event> {
    seq(|anomalies|, i requires 0 <= i < |anomalies| => AnomalyEvent(anomalies[i].0, anomalies[i].1, now))
  }

  function EquipmentEvents(equipment: seq<(EquipmentId, Equipment)>): seq<Event> {
    if equipment == [] then []
    else EquipmentEvents(equipment[..|equipment| - 1]) + EquipmentEventsOf(equipment[|equipment| - 1].0, equipment[|equipment| - 1].1)
  }

  function HasInspection(equipment: seq<(EquipmentId, Equipment)>): nat {
    if equipment == [] then 0
    else HasInspection(equipment[..|equipment| - 1]) + (if equipment[|equipment| - 1].1.nextTechnicalInspection.Some? then 1 else 0)
  }

  /** As written, equipment contributes exactly one `control` event per set inspection date,
      dated by it, and no `maintenance` event at all. */
  lemma {:induction false} EquipmentEventsMeaning(equipment: seq<(EquipmentId, Equipment)>)
    ensures |EquipmentEvents(equipment)| == HasInspection(equipment)
    ensures forall ev :: ev in EquipmentEvents(equipment) ==>
              ev.kind == "control" && ev.id.EquipmentControl? &&
              exists i :: 0 <= i < |equipment| && equipment[i].0 == ev.id.equipment && equipment[i].1.nextTechnicalInspection == Some(ev.date)
  {
    if equipment != [] {
      var init := equipment[..|equipment| - 1];
      EquipmentEventsMeaning(init);
      forall ev | ev in EquipmentEvents(equipment)
        ensures ev.kind == "control" && ev.id.EquipmentControl? &&
                exists i :: 0 <= i < |equipment| && equipment[i].0 == ev.id.equipment && equipment[i].1.nextTechnicalInspection == Some(ev.date)
      {
        if ev in EquipmentEvents(init) {
          var i :| 0 <= i < |init| && init[i].0 == ev.id.equipment && init[i].1.nextTechnicalInspection == Some(ev.date);
          assert equipment[i] == init[i];
        } else {
          assert equipment[|equipment| - 1].1.nextTechnicalInspection == Some(ev.date);
        }
      }
    }
  }

  /** The two `forEach` loops that fill `maintenanceEvents`. */
  method BuildEvents(anomalies: seq<(A.AnomalyId, A.Anomaly)>, equipment: seq<(EquipmentId, Equipment)>, now: Millis)
    returns (events: seq<Event>)
    ensures events == AnomalyEvents(anomalies, now) + EquipmentEvents(equipment)
  {
    events := [];
    var i := 0;
    while i < |anomalies|
      invariant i <= |anomalies|
      invariant events == AnomalyEvents(anomalies, now)[..i]
    {
      events := events + [AnomalyEvent(anomalies[i].0, anomalies[i].1, now)];
      i := i + 1;
    }
    ghost var prefix := events;
    i := 0;
    while i < |equipment|
      invariant i <= |equipment|
      invariant events == prefix + EquipmentEvents(equipment[..i])
    {
      var (k, e) := equipment[i];
      match NextMaintenanceDate(e) {
        case Some(d) =>
          events := events + [Event(EquipmentMaintenance(k), "maintenance", Some("Entretien " + e.billunId), d, "scheduled", "normal")];
        case None =>
      }
      if e.nextTechnicalInspection.Some? {
        events := events + [Event(EquipmentControl(k), "control", Some("CT " + e.billunId), e.nextTechnicalInspection.value, "scheduled", "important")];
      }
      assert equipment[..i + 1][..i] == equipment[..i];
      i := i + 1;
    }
    assert equipment[..|equipment|] == equipment;
  }

  /** `(a, b) => new Date(a.date) - new Date(b.date)`: earlier events first. */
  predicate Earlier(a: Event, b: Event) { a.date <= b.date }

  lemma EarlierOrders()
    ensures TotalPreorder(Earlier)
  {
  }

  /** `GET /maintenance`: the events sorted by date, earliest first. */
  method MaintenanceSchedule(anomalies: seq<(A.AnomalyId, A.Anomaly)>, equipment: seq<(EquipmentId, Equipment)>, now: Millis)
    returns (events: seq<Event>)
    ensures forall i, j :: 0 <= i < j < |events| ==> events[i].date <= events[j].date
    ensures multiset(events) == multiset(AnomalyEvents(anomalies, now) + EquipmentEvents(equipment))
    ensures |events| == |anomalies| + HasInspection(equipment)
  {
    var built := BuildEvents(anomalies, equipment, now);
    EarlierOrders();
    events := SortBy(built, Earlier);
    EquipmentEventsMeaning(equipment);
    assert forall i, j :: 0 <= i < j < |events| ==> Earlier(events[i], events[j]);
  }

  // ---------------------------------------------------------------- POST /maintenance

  /** The body of `POST /maintenance`; `None` is a falsy value, except for `typ` and
      `criticality`, where `None` is an absent field that takes its default. A
      `scheduledDate` of 0 is falsy too. */
  datatype ScheduleRequest = ScheduleRequest(
    equipmentId: Option<EquipmentId>,
    title: Option<string>,
    description: Option<string>,
    scheduledDate: Option<Millis>,
    typ: Option<string>,
    criticality: Option<string>)

  /** `!scheduledDate`: absent, `null` or the number 0. */
  predicate NoScheduledDate(d: Option<Millis>) {
    d.None? || d.value == 0
  }

  /** `type === "control" ? "inspection" : "maintenance"`, after the `"maintenance"` default. */
  function ProblemType(typ: Option<string>): (p: string)
    ensures p == "inspection" <==> typ == Some("control")
    ensures p == "inspection" || p == "maintenance"
  {
    if typ == Some("control") then "inspection" else "maintenance"
  }

  const ProblemTypes := ["tires", "bodywork", "equipment", "hydraulics", "engine", "electrical", "other"]

  /** The `maintenanceData` document. `location`, `problemType` and `scheduledDate` are
      left out of it: the first two are not fields of the modelled anomaly, and the
      schema has no `scheduledDate` path. */
  function ScheduledAnomaly(req: ScheduleRequest, reporter: A.UserId, now: Millis): (a: A.Anomaly)
    requires req.equipmentId.Some?
    ensures a.titre == req.title && a.status == "scheduled" && a.immobilizationStatus == "operational"
    ensures a.criticality == (if req.criticality.Some? then req.criticality.value else "normal")
    ensures a.description == (if Truthy(req.description) then req.description else Some("Maintenance programmée"))
  {
    A.Anomaly(req.equipmentId.value, reporter, req.title,
              if Truthy(req.description) then req.description else Some("Maintenance programmée"),
              "operational", [],
              if req.criticality.Some? then req.criticality.value else "normal",
              "scheduled", now, None, None, false, None, None, None, None, None, None)
  }

  /** As written, the scheduled document never passes `save()`: `"operational"` is not an
      immobilisation status, and neither problem type is in its enum. */
  lemma ScheduledNeverValid(req: ScheduleRequest, reporter: A.UserId, now: Millis)
    requires req.equipmentId.Some?
    ensures !A.AnomalyValid(ScheduledAnomaly(req, reporter, now))
    ensures ProblemType(req.typ) !in ProblemTypes
  {
  }

  /** `POST /maintenance`: 400 without equipment, title or date; otherwise the save, which
      the validators refuse (500). */
  method ScheduleMaintenance(store: A.AnomalyStore, req: ScheduleRequest, reporter: A.UserId, now: Millis) returns (reply: Reply<A.AnomalyId>)
    requires store.Valid()
    modifies store
    ensures store.Valid()
    ensures req.equipmentId.None? || !Truthy(req.title) || NoScheduledDate(req.scheduledDate) ==> reply == Failure(400)
    ensures req.equipmentId.Some? && Truthy(req.title) && !NoScheduledDate(req.scheduledDate) ==> reply == Failure(500)
    ensures store.anomalies == old(store.anomalies)
  {
    if req.equipmentId.None? || !Truthy(req.title) || NoScheduledDate(req.scheduledDate) {
      return Failure(400);
    }
    var doc := ScheduledAnomaly(req, reporter, now);
    ScheduledNeverValid(req, reporter, now);
    var saved := store.Insert(doc);
    match saved
    case None => reply := Failure(500);
  }

  // ---------------------------------------------------------------- PUT /anomalies/:id

  /** The body fields the route reads; `None` is an absent or falsy value (an empty string,
      a cost of 0). */
  datatype WorkshopBody = WorkshopBody(
    status: Option<string>,
    analysisNotes: Option<string>,
    resolutionNotes: Option<string>,
    assignedTo: Option<A.UserId>,
    estimatedRepairCost: Option<real>)

  /** JavaScript truthiness of an optional number. */
  predicate TruthyCost(c: Option<real>) {
    c.Some? && c.value != 0.0
  }

  /** `updateData`: each truthy field is copied, and a status of `in_analysis` or `resolved`
      sets its date to now. */
  function WorkshopPatch(body: WorkshopBody, now: Millis): (u: A.Update)
    ensures u.status.Given? <==> Truthy(body.status)
    ensures u.status.Given? ==> u.status.value == body.status.value
    ensures u.analysisNotes.Given? <==> Truthy(body.analysisNotes)
    ensures u.analysisNotes.Given? ==> u.analysisNotes.value == body.analysisNotes
    ensures u.resolutionNotes.Given? <==> Truthy(body.resolutionNotes)
    ensures u.resolutionNotes.Given? ==> u.resolutionNotes.value == body.resolutionNotes
    ensures u.assignedTo == (if body.assignedTo.Some? then A.Given(body.assignedTo) else A.Absent)
    ensures u.estimatedRepairCost.Given? <==> TruthyCost(body.estimatedRepairCost)
    ensures u.estimatedRepairCost.Given? ==> u.estimatedRepairCost.value == body.estimatedRepairCost
    ensures u.dateAnalyzed.Given? <==> body.status == Some("in_analysis")
    ensures u.dateResolved.Given? <==> body.status == Some("resolved")
    ensures u.dateAnalyzed.Given? ==> u.dateAnalyzed.value == Some(now)
    ensures u.dateResolved.Given? ==> u.dateResolved.value == Some(now)
  {
    A.Update(
      if Truthy(body.status) then A.Given(body.status.value) else A.Absent,
      if body.status == Some("in_analysis") then A.Given(Some(now)) else A.Absent,
      if body.status == Some("resolved") then A.Given(Some(now)) else A.Absent,
      if Truthy(body.analysisNotes) then A.Given(body.analysisNotes) else A.Absent,
      if Truthy(body.resolutionNotes) then A.Given(body.resolutionNotes) else A.Absent,
      if body.assignedTo.Some? then A.Given(body.assignedTo) else A.Absent,
      if TruthyCost(body.estimatedRepairCost) then A.Given(body.estimatedRepairCost) else A.Absent)
  }

  /** The workshop route stamps as the anomaly route does for a body that supplies no date:
      its dates are the anomaly route's stamps of the same status, and stamping the patch
      again changes nothing. */
  lemma WorkshopAgreesWithStamp(body: WorkshopBody, now: Millis)
    ensures var u := WorkshopPatch(body, now);
            u == A.Stamp(u.(dateAnalyzed := A.Absent, dateResolved := A.Absent), now)
    ensures A.Stamp(WorkshopPatch(body, now), now) == WorkshopPatch(body, now)
  {
  }

  /** What the stored anomaly becomes: the truthy fields replace their stored values, the
      status dates are set to now, and everything else is kept. */
  lemma WorkshopUpdateMeaning(a: A.Anomaly, body: WorkshopBody, now: Millis)
    ensures var r := A.Apply(a, WorkshopPatch(body, now));
            && r.status == (if Truthy(body.status) then body.status.value else a.status)
            && r.analysisNotes == (if Truthy(body.analysisNotes) then body.analysisNotes else a.analysisNotes)
            && r.resolutionNotes == (if Truthy(body.resolutionNotes) then body.resolutionNotes else a.resolutionNotes)
            && r.assignedTo == (if body.assignedTo.Some? then body.assignedTo else a.assignedTo)
            && r.estimatedRepairCost == (if TruthyCost(body.estimatedRepairCost) then body.estimatedRepairCost else a.estimatedRepairCost)
            && r.dateAnalyzed == (if body.status == Some("in_analysis") then Some(now) else a.dateAnalyzed)
            && r.dateResolved == (if body.status == Some("resolved") then Some(now) else a.dateResolved)
            && r.(status := a.status, dateAnalyzed := a.dateAnalyzed, dateResolved := a.dateResolved,
                  analysisNotes := a.analysisNotes, resolutionNotes := a.resolutionNotes,
                  assignedTo := a.assignedTo, estimatedRepairCost := a.estimatedRepairCost) == a
  {
  }

  /** `PUT /anomalies/:id`: 404 for an unknown id, otherwise the patch overwrites the stored
      fields without validation. */
  method WorkshopUpdateAnomaly(store: A.AnomalyStore, id: A.AnomalyId, body: WorkshopBody, now: Millis) returns (reply: Reply<A.Anomaly>)
    modifies store
    ensures store.nextId == old(store.nextId)
    ensures id !in old(store.anomalies) ==> reply == Failure(404) && store.anomalies == old(store.anomalies)
    ensures id in old(store.anomalies) ==>
              var a := A.Apply(old(store.anomalies)[id], WorkshopPatch(body, now));
              reply == Success(200, a) && store.anomalies == old(store.anomalies)[id := a]
  {
    var patch := WorkshopPatch(body, now);
    WorkshopAgreesWithStamp(body, now);
    reply := A.UpdateAnomaly(store, id, patch, now);
  }

  // ---------------------------------------------------------------- PUT /equipment/:id/status

  /** `PUT /equipment/:id/status`: 404 for an unknown id; otherwise a supplied status is
      written without validation, so it may lie outside the enum. `lastStatusUpdate` and
      `availability` are not Equipment paths and are dropped by the strict schema. */
  method SetEquipmentStatus(store: EquipmentStore, id: EquipmentId, status: Option<string>) returns (reply: Reply<Equipment>)
    requires store.Valid()
    modifies store
    ensures store.Valid() && store.nextId == old(store.nextId)
    ensures id !in old(store.items) ==> reply == Failure(404) && store.items == old(store.items)
    ensures id in old(store.items) ==>
              var e := if status.Some? then old(store.items)[id].(status := status) else old(store.items)[id];
              reply == Success(200, e) && store.items == old(store.items)[id := e]
  {
    if id !in store.items {
      return Failure(404);
    }
    var e := store.items[id];
    if status.Some? {
      e := e.(status := status);
    }
    store.items := store.items[id := e];
    reply := Success(200, e);
  }

  /** The status route can leave a document that `save()` would refuse, while the store
      invariant still holds. */
  lemma StatusUpdateBypassesEnum(e: Equipment)
    requires EquipmentValid(e)
    ensures !EquipmentValid(e.(status := Some("retired")))
    ensures EquipmentValid(e.(status := Some("maintenance")))
  {
  }
}
