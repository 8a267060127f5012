/** The `/api/anomalies` routes: the list filter, reporting an anomaly (directly or through a
    partnership) and the status update with its automatic timestamps. */
module AnomalyRoutes {
  import opened Common
  import opened Partnerships

  type UserId = nat
  type AnomalyId = nat

  /** A photo subdocument: its url and the geolocation timestamp (defaulted on save). */
  datatype Photo = Photo(url: string, timestamp: Option<Millis>)

  datatype Anomaly = Anomaly(
    equipment: EquipmentId,
    reportedBy: UserId,
    titre: Option<string>,
    description: Option<string>,
    immobilizationStatus: string,
    photos: seq<Photo>,
    criticality: string,
    status: string,
    dateReported: Millis,
    dateAnalyzed: Option<Millis>,
    dateResolved: Option<Millis>,
    reportedViaPartnership: bool,
    partnerCompany: Option<CompanyId>,
    partnership: Option<PartnershipId>,
    analysisNotes: Option<string>,
    resolutionNotes: Option<string>,
    assignedTo: Option<UserId>,
    estimatedRepairCost: Option<real>)

  const ImmobilizationStatuses := ["mobile", "immobilized", "limited_use"]
  const Criticalities := ["ok", "minor", "important", "critical"]
  const Statuses := ["reported", "in_analysis", "scheduled", "in_progress", "resolved", "closed"]

  /** The validators `save()` runs: required `titre` and `description` (an empty string
      fails `required`), the enums, and a url on every photo. */
  predicate AnomalyValid(a: Anomaly) {
    && Truthy(a.titre) && Truthy(a.description)
    && a.immobilizationStatus in ImmobilizationStatuses
    && a.criticality in Criticalities
    && a.status in Statuses
    && forall i :: 0 <= i < |a.photos| ==> a.photos[i].url != ""
  }

  /** The body fields both report routes read. */
  datatype ReportRequest = ReportRequest(
    equipmentId: EquipmentId,
    description: Option<string>,
    criticality: Option<string>,
    immobilizationStatus: Option<string>,
    photos: Option<seq<Photo>>,
    partnershipId: Option<PartnershipId>)

  /** `!photos || photos.length < 4` */
  predicate TooFewPhotos(req: ReportRequest) {
    req.photos.None? || |req.photos.value| < 4
  }

  /** The document `new Anomaly({...})` builds: no `titre` is passed, absent enums take
      their defaults. */
  function NewReport(req: ReportRequest, reporter: UserId, now: Millis): (a: Anomaly)
    ensures a.titre.None? && a.status == "reported" && !a.reportedViaPartnership
    ensures a.equipment == req.equipmentId && a.reportedBy == reporter && a.dateReported == now
  {
    Anomaly(req.equipmentId, reporter, None, req.description,
            if req.immobilizationStatus.Some? then req.immobilizationStatus.value else "mobile",
            if req.photos.Some? then req.photos.value else [],
            if req.criticality.Some? then req.criticality.value else "ok",
            "reported", now, None, None, false, None, None, None, None, None, None)
  }

  /** The document the partner route builds: the same report, marked as coming through
      partnership `pid` from the reporter's company. */
  function PartnerReport(req: ReportRequest, reporter: UserId, company: CompanyId, pid: PartnershipId, now: Millis): (a: Anomaly)
    ensures a.reportedViaPartnership && a.partnerCompany == Some(company) && a.partnership == Some(pid)
    ensures a.titre.None?
  {
    NewReport(req, reporter, now).(reportedViaPartnership := true, partnerCompany := Some(company), partnership := Some(pid))
  }

  /** Neither route passes a `titre`, so neither document ever passes validation. */
  lemma ReportsNeverValid(req: ReportRequest, reporter: UserId, company: CompanyId, pid: PartnershipId, now: Millis)
    ensures !AnomalyValid(NewReport(req, reporter, now))
    ensures !AnomalyValid(PartnerReport(req, reporter, company, pid, now))
  {
  }

  /** A partnership document as the partner route reads it: its status string and the
      `requestingCompany` / `targetCompany` properties, which the schema does not define. */
  datatype PartnerView = PartnerView(status: string, requestingCompany: Option<CompanyId>, targetCompany: Option<CompanyId>)

  /** How a stored partnership looks to the route: fields outside the schema are undefined. */
  function ViewOf(p: Partnership): (v: PartnerView)
    ensures v.requestingCompany.None? && v.targetCompany.None?
  {
    PartnerView(StatusName(p.status), None, None)
  }

  /** The `hasAccess` expression; `owner` is the equipment's `company`, which the schema does
      not require. `None` is a TypeError (a method called on an undefined party, on a user
      without company, or on equipment without company), which the route turns into 500. */
  function HasAccess(v: PartnerView, user: Option<CompanyId>, owner: Option<CompanyId>): (r: Option<bool>)
    ensures r.Some? ==> v.requestingCompany.Some? && user.Some?
    ensures v.requestingCompany.Some? && user.Some? && v.targetCompany.Some? && owner.Some? ==>
              r == Some(
                (v.requestingCompany.value == user.value && owner.value == v.targetCompany.value)
                || (v.requestingCompany.value != user.value && v.targetCompany.value == user.value && owner.value == v.requestingCompany.value))
    // equipment without company throws exactly when the user is one of the parties
    ensures owner.None? ==>
              (r.Some? <==> v.requestingCompany.Some? && user.Some? && v.targetCompany.Some?
                            && v.requestingCompany.value != user.value && v.targetCompany.value != user.value)
              && (r.Some? ==> r == Some(false))
  {
    if v.requestingCompany.None? || user.None? then None
    else if v.requestingCompany.value == user.value then
      // `equals(undefined)` is false
      if owner.None? then None else Some(v.targetCompany.Some? && owner.value == v.targetCompany.value)
    else if v.targetCompany.None? then None
    else if v.targetCompany.value == user.value then
      if owner.None? then None else Some(owner.value == v.requestingCompany.value)
    else Some(false)  // the `&&` short-circuits before the equipment is read
  }

  /** When both parties are present, access holds iff the user's company is one party and
      the equipment belongs to the other one. */
  lemma HasAccessMeaning(v: PartnerView, user: CompanyId, owner: CompanyId)
    requires v.requestingCompany.Some? && v.targetCompany.Some?
    requires v.requestingCompany.value != v.targetCompany.value
    ensures HasAccess(v, Some(user), Some(owner)) == Some(
              (user == v.requestingCompany.value && owner == v.targetCompany.value)
              || (user == v.targetCompany.value && owner == v.requestingCompany.value))
  {
  }

  /** The equipment `findById` finds, reduced to its optional `company`. */
  datatype Found = Found(company: Option<CompanyId>)

  class AnomalyStore {
    var anomalies: map<AnomalyId, Anomaly>
    var nextId: AnomalyId

    /** Every stored id was handed out. The validators are not part of the invariant:
        `findByIdAndUpdate` stores documents that would fail them. */
    ghost predicate Valid()
      reads this
    {
      forall id | id in anomalies :: id < nextId
    }

    constructor ()
      ensures Valid() && anomalies == map[]
    {
      anomalies := map[];
      nextId := 0;
    }

    /** `save()` of a new anomaly. */
    method Insert(a: Anomaly) returns (r: Option<AnomalyId>)
      requires Valid()
      modifies this
      ensures Valid()
      ensures r.Some? <==> AnomalyValid(a)
      ensures r.Some? ==> r.value !in old(anomalies) && anomalies == old(anomalies)[r.value := a]
      ensures r.None? ==> anomalies == old(anomalies)
    {
      if !AnomalyValid(a) {
        return None;
      }
      r := Some(nextId);
      anomalies := anomalies[nextId := a];
      nextId := nextId + 1;
    }

    /** `POST /`: 404 for unknown equipment, then 400 with fewer than four photos, then the
        save, which the missing `titre` always refuses (500). `equipment` is `None` when no
        equipment has the id. */
    method Report(req: ReportRequest, equipment: Option<Found>, reporter: UserId, now: Millis) returns (reply: Reply<AnomalyId>)
      requires Valid()
      modifies this
      ensures Valid() && anomalies == old(anomalies)
      ensures equipment.None? ==> reply == Failure(404)
      ensures equipment.Some? && TooFewPhotos(req) ==> reply == Failure(400)
      ensures equipment.Some? && !TooFewPhotos(req) ==> reply == Failure(500)
    {
      if equipment.None? {
        return Failure(404);
      }
      if TooFewPhotos(req) {
        return Failure(400);
      }
      var id := Insert(NewReport(req, reporter, now));
      match id
      case None => reply := Failure(500);
    }

    /** `POST /partner`. `partnerships` holds the partnership documents as the route sees
        them; `user` is the reporter's company. The guards run in this order: equipment,
        partnership existence and status `"active"`, access, photos, then the save. */
    method ReportViaPartner(req: ReportRequest, equipment: Option<Found>, reporter: UserId, user: Option<CompanyId>,
                            partnerships: map<PartnershipId, PartnerView>, now: Millis)
      returns (reply: Reply<AnomalyId>)
      requires Valid()
      modifies this
      ensures Valid() && anomalies == old(anomalies)
      ensures equipment.None? ==> reply == Failure(404)
      ensures equipment.Some? && !Active(req, partnerships) ==> reply == Failure(403)
      // past the status guard: the access test, then the photos, then the failed save
      ensures equipment.Some? && Active(req, partnerships) ==>
                var access := HasAccess(partnerships[req.partnershipId.value], user, equipment.value.company);
                && (access.None? ==> reply == Failure(500))
                && (access == Some(false) ==> reply == Failure(403))
                && (access == Some(true) && TooFewPhotos(req) ==> reply == Failure(400))
                && (access == Some(true) && !TooFewPhotos(req) ==> reply == Failure(500))
      ensures reply.Failure? && reply.code == 400 ==> TooFewPhotos(req)
      ensures reply.Failure?
    {
      if equipment.None? {
        return Failure(404);
      }
      if req.partnershipId.None? || req.partnershipId.value !in partnerships {
        return Failure(403);
      }
      var v := partnerships[req.partnershipId.value];
      if v.status != "active" {
        return Failure(403);
      }
      var access := HasAccess(v, user, equipment.value.company);
      if access.None? {
        return Failure(500);
      }
      if !access.value {
        return Failure(403);
      }
      if TooFewPhotos(req) {
        return Failure(400);
      }
      var id := Insert(PartnerReport(req, reporter, user.value, req.partnershipId.value, now));
      match id
      case None => reply := Failure(500);
    }
  }

  /** The partnership named by the request exists and reads as `"active"`. */
  predicate Active(req: ReportRequest, partnerships: map<PartnershipId, PartnerView>) {
    req.partnershipId.Some? && req.partnershipId.value in partnerships
    && partnerships[req.partnershipId.value].status == "active"
  }

  /** No schema-valid partnership passes the status guard of the partner route: the route
      asks for "active", which is not a member of the status enum. */
  lemma PartnerRouteRefusesStored(p: Partnership)
    ensures ViewOf(p).status != "active"
    ensures ParseStatus("active").None?
  {
  }

  /** Stored partnerships, seen through `ViewOf`, are always refused with 403 once the
      equipment exists. */
  lemma {:induction false} StoredPartnershipsRefused(m: map<PartnershipId, Partnership>, id: PartnershipId)
    requires id in m
    ensures (map k | k in m :: ViewOf(m[k]))[id].status != "active"
  {
    PartnerRouteRefusesStored(m[id]);
  }

  // ---------------------------------------------------------------- PUT /:id

  /** A key of a request body: absent, or given with a value, which for an optional field
      may be `null` (`Given(None)`). */
  datatype Key<T> = Absent | Given(value: T)

  /** The field after `findByIdAndUpdate`: a given key overwrites it, whatever its value. */
  function Put<T>(k: Key<T>, stored: T): T {
    match k
    case Absent => stored
    case Given(v) => v
  }

  /** The keys of an update body the model carries: the status, the two dates and the
      analysis fields the workshop route copies. */
  datatype Update = Update(
    status: Key<string>,
    dateAnalyzed: Key<Option<Millis>>,
    dateResolved: Key<Option<Millis>>,
    analysisNotes: Key<Option<string>>,
    resolutionNotes: Key<Option<string>>,
    assignedTo: Key<Option<UserId>>,
    estimatedRepairCost: Key<Option<real>>)

  /** The body with no key. */
  const NoChange: Update := Update(Absent, Absent, Absent, Absent, Absent, Absent, Absent)

  /** `!updates.dateX`: the date is falsy, that is absent, `null` or the number 0. */
  predicate NoDate(k: Key<Option<Millis>>) {
    k.Absent? || k.value.None? || k.value.value == 0
  }

  /** The automatic timestamps: moving to `in_analysis` fills `dateAnalyzed`, moving to
      `resolved` fills `dateResolved`, each only when the caller supplied no truthy date;
      every other key is left as it is. */
  function Stamp(u: Update, now: Millis): (r: Update)
    ensures r.(dateAnalyzed := u.dateAnalyzed, dateResolved := u.dateResolved) == u
    // a truthy supplied date, or another status, leaves the key as supplied
    ensures !NoDate(u.dateAnalyzed) || u.status != Given("in_analysis") ==> r.dateAnalyzed == u.dateAnalyzed
    ensures !NoDate(u.dateResolved) || u.status != Given("resolved") ==> r.dateResolved == u.dateResolved
    // otherwise the key is the current time
    ensures NoDate(u.dateAnalyzed) && u.status == Given("in_analysis") ==> r.dateAnalyzed == Given(Some(now))
    ensures NoDate(u.dateResolved) && u.status == Given("resolved") ==> r.dateResolved == Given(Some(now))
  {
    var u1 := if u.status == Given("in_analysis") && NoDate(u.dateAnalyzed) then u.(dateAnalyzed := Given(Some(now))) else u;
    if u1.status == Given("resolved") && NoDate(u1.dateResolved) then u1.(dateResolved := Given(Some(now))) else u1
  }

  /** Stamping twice changes nothing more, once the first stamp is a truthy date (any time
      after the epoch). */
  lemma StampIdempotent(u: Update, t1: Millis, t2: Millis)
    requires t1 != 0
    ensures Stamp(Stamp(u, t1), t2) == Stamp(u, t1)
  {
  }

  /** A supplied date of 0 is falsy, so the status still stamps it; a truthy date is kept. */
  lemma StampZeroDate(now: Millis, d: Millis)
    requires d != 0
    ensures Stamp(NoChange.(status := Given("in_analysis"), dateAnalyzed := Given(Some(0))), now).dateAnalyzed == Given(Some(now))
    ensures Stamp(NoChange.(status := Given("resolved"), dateResolved := Given(Some(0))), now).dateResolved == Given(Some(now))
    ensures Stamp(NoChange.(status := Given("resolved"), dateResolved := Given(Some(d))), now).dateResolved == Given(Some(d))
  {
  }

  /** `findByIdAndUpdate` without validators: every given key overwrites its field, an
      empty string or a `null` included, and every other field is kept. */
  function Apply(a: Anomaly, u: Update): (r: Anomaly)
    ensures r.status == Put(u.status, a.status)
    ensures r.dateAnalyzed == Put(u.dateAnalyzed, a.dateAnalyzed)
    ensures r.dateResolved == Put(u.dateResolved, a.dateResolved)
    ensures r.analysisNotes == Put(u.analysisNotes, a.analysisNotes)
    ensures r.resolutionNotes == Put(u.resolutionNotes, a.resolutionNotes)
    ensures r.assignedTo == Put(u.assignedTo, a.assignedTo)
    ensures r.estimatedRepairCost == Put(u.estimatedRepairCost, a.estimatedRepairCost)
    ensures r.(status := a.status, dateAnalyzed := a.dateAnalyzed, dateResolved := a.dateResolved,
               analysisNotes := a.analysisNotes, resolutionNotes := a.resolutionNotes,
               assignedTo := a.assignedTo, estimatedRepairCost := a.estimatedRepairCost) == a
  {
    a.(status := Put(u.status, a.status),
       dateAnalyzed := Put(u.dateAnalyzed, a.dateAnalyzed),
       dateResolved := Put(u.dateResolved, a.dateResolved),
       analysisNotes := Put(u.analysisNotes, a.analysisNotes),
       resolutionNotes := Put(u.resolutionNotes, a.resolutionNotes),
       assignedTo := Put(u.assignedTo, a.assignedTo),
       estimatedRepairCost := Put(u.estimatedRepairCost, a.estimatedRepairCost))
  }

  /** An update is a set of field writes: the empty body changes nothing, and repeating an
      update changes nothing more. */
  lemma ApplyWrites(a: Anomaly, u: Update)
    ensures Apply(a, NoChange) == a
    ensures Apply(Apply(a, u), u) == Apply(a, u)
  {
  }

  /** The update route does not run validators, so it can store a status outside the enum,
      an empty status, or clear a date with `null`. */
  lemma UpdateBypassesEnum(a: Anomaly, now: Millis)
    requires AnomalyValid(a)
    ensures !AnomalyValid(Apply(a, Stamp(NoChange.(status := Given("archived")), now)))
    ensures var r := Apply(a, Stamp(NoChange.(status := Given("")), now)); r.status == "" && !AnomalyValid(r)
    ensures Apply(a, Stamp(NoChange.(dateResolved := Given(None)), now)).dateResolved.None?
  {
  }

  /** `PUT /:id` */
  method UpdateAnomaly(store: AnomalyStore, id: AnomalyId, u: Update, now: Millis) returns (reply: Reply<Anomaly>)
    modifies store
    ensures store.nextId == old(store.nextId)
    ensures id !in old(store.anomalies) ==> reply == Failure(404) && store.anomalies == old(store.anomalies)
    ensures id in old(store.anomalies) ==>
              var a := Apply(old(store.anomalies)[id], Stamp(u, now));
              reply == Success(200, a) && store.anomalies == old(store.anomalies)[id := a]
  {
    var stamped := Stamp(u, now);
    if id !in store.anomalies {
      return Failure(404);
    }
    var a := Apply(store.anomalies[id], stamped);
    store.anomalies := store.anomalies[id := a];
    reply := Success(200, a);
  }

  // ---------------------------------------------------------------- GET /

  datatype Query = Query(
    status: Option<string>,
    criticality: Option<string>,
    date: Option<string>,
    equipment: Option<EquipmentId>,
    reporter: Option<UserId>)

  /** The query document: only supplied keys appear, and `dateReported` is a half-open
      range `[from, until)` where either end may be open. */
  datatype Filter = Filter(
    status: Option<string>,
    criticality: Option<string>,
    equipment: Option<EquipmentId>,
    reportedBy: Option<UserId>,
    from: Option<Millis>,
    until: Option<Millis>)

  /** `startOfToday` is local midnight of the current day; `now` the current time. */
  function BuildFilter(q: Query, startOfToday: Millis, now: Millis): (f: Filter)
    ensures f.status.Some? <==> Truthy(q.status)
    ensures f.criticality.Some? <==> Truthy(q.criticality)
    ensures f.from.Some? <==> q.date == Some("today") || q.date == Some("week")
    ensures f.until.Some? <==> q.date == Some("today")
  {
    Filter(if Truthy(q.status) then q.status else None,
           if Truthy(q.criticality) then q.criticality else None,
           q.equipment, q.reporter,
           if q.date == Some("today") then Some(startOfToday)
           else if q.date == Some("week") then Some(now - 7 * DayMs)
           else None,
           if q.date == Some("today") then Some(startOfToday + DayMs) else None)
  }

  predicate Matches(a: Anomaly, f: Filter) {
    && (f.status.Some? ==> a.status == f.status.value)
    && (f.criticality.Some? ==> a.criticality == f.criticality.value)
    && (f.equipment.Some? ==> a.equipment == f.equipment.value)
    && (f.reportedBy.Some? ==> a.reportedBy == f.reportedBy.value)
    && (f.from.Some? ==> f.from.value <= a.dateReported)
    && (f.until.Some? ==> a.dateReported < f.until.value)
  }

  /** An anomaly is listed iff it agrees with every supplied key; `today` keeps the reports
      of the current day, `week` those of the last seven days, any other `date` is ignored. */
  lemma FilterMeaning(a: Anomaly, q: Query, startOfToday: Millis, now: Millis)
    ensures Matches(a, BuildFilter(q, startOfToday, now)) <==>
              && (Truthy(q.status) ==> a.status == q.status.value)
              && (Truthy(q.criticality) ==> a.criticality == q.criticality.value)
              && (q.equipment.Some? ==> a.equipment == q.equipment.value)
              && (q.reporter.Some? ==> a.reportedBy == q.reporter.value)
              && (q.date == Some("today") ==> startOfToday <= a.dateReported < startOfToday + DayMs)
              && (q.date == Some("week") ==> now - 7 * DayMs <= a.dateReported)
  {
  }
}
