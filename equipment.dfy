/** The `/api/equipment` routes: the `BLN-<year>-<6 digits>` identifier, the retry loop that
    makes it unique at registration, the `deadlines=upcoming` list filter and the search by
    any of the three identifiers. */
module EquipmentRoutes {
  import opened Common
  import opened Text

  type EquipmentId = nat
  type CompanyId = nat

  /** An equipment document, restricted to the fields the routes read or write. */
  datatype Equipment = Equipment(
    billunId: string,
    internalId: Option<string>,
    licensePlate: Option<string>,
    name: Option<string>,
    equipmentType: Option<string>,
    vehicleType: Option<string>,
    trailerType: Option<string>,
    handlingType: Option<string>,
    fuelType: Option<string>,
    status: Option<string>,
    currentMileage: Option<int>,
    nextTechnicalInspection: Option<Millis>,
    nextMaintenance: Option<Millis>,
    nextTailgateMaintenance: Option<Millis>,
    company: Option<CompanyId>,
    site: Option<nat>,
    workshop: Option<nat>)

  const EquipmentTypes := ["vehicle", "trailer", "handling"]
  const VehicleTypes := ["truck", "truck_trailer", "road_tractor", "van", "car", "custom"]
  const TrailerTypes := ["tarpaulin", "refrigerated", "box", "tanker", "tipper", "moving_floor", "flatbed", "container_chassis", "train", "custom"]
  const HandlingTypes := ["pallet_truck", "electric_pallet_truck", "forklift", "custom"]
  const FuelTypes := ["diesel", "gasoline", "lpg", "cng", "lng", "electric", "hybrid", "hydrogen", "biofuel", "e85", "adblue", "other"]
  const EquipmentStatuses := ["available", "maintenance", "unavailable"]

  /** The validators `save()` runs: a non-empty `billunId`, a required `equipmentType` from
      its enum, and the enums of the type, fuel and status fields when those are set. */
  predicate EquipmentValid(e: Equipment) {
    && e.billunId != ""
    && e.equipmentType.Some? && e.equipmentType.value in EquipmentTypes
    && (e.vehicleType.Some? ==> e.vehicleType.value in VehicleTypes)
    && (e.trailerType.Some? ==> e.trailerType.value in TrailerTypes)
    && (e.handlingType.Some? ==> e.handlingType.value in HandlingTypes)
    && (e.fuelType.Some? ==> e.fuelType.value in FuelTypes)
    && (e.status.Some? ==> e.status.value in EquipmentStatuses)
  }

  /** The document `new Equipment(data)` builds: an absent status takes its default. */
  function WithDefaults(e: Equipment): (r: Equipment)
    ensures r.status.Some?
    ensures e.status.Some? ==> r == e
    ensures e.status.None? ==> r == e.(status := Some("available"))
  {
    if e.status.None? then e.(status := Some("available")) else e
  }

  // ---------------------------------------------------------------- identifiers

  /** `Math.floor(100000 + Math.random() * 900000)` for a draw `r` of `Math.random()`. */
  function Suffix(r: real): (n: nat)
    requires 0.0 <= r < 1.0
    ensures 100000 <= n <= 999999
    ensures n as real <= 100000.0 + r * 900000.0 < n as real + 1.0
  {
    (100000.0 + r * 900000.0).Floor
  }

  /** The template string `BLN-${year}-${n}`. */
  function BillunId(year: nat, n: nat): string {
    "BLN-" + NatToString(year) + "-" + NatToString(n)
  }

  /** `generateBillunId()` in a given year for a given draw: `BLN-`, the year, `-`, then
      exactly six digits whose value is the suffix. */
  function GenerateBillunId(year: nat, r: real): (id: string)
    requires 0.0 <= r < 1.0
    ensures |id| == 4 + |NatToString(year)| + 1 + 6
    ensures id[..4] == "BLN-"
    ensures id[4..|id| - 7] == NatToString(year) && id[|id| - 7] == '-'
    ensures forall i :: |id| - 6 <= i < |id| ==> IsDigit(id[i])
    ensures DigitsValue(id[|id| - 6..]) == Suffix(r)
  {
    var n := Suffix(r);
    SixDigits(n);
    NatToStringValue(n);
    var id := BillunId(year, n);
    assert id[|id| - 6..] == NatToString(n);
    assert id[4..|id| - 7] == NatToString(year);
    id
  }

  /** Two identifiers generated in the same year are equal only when their suffixes are. */
  lemma GeneratedIdsDistinct(year: nat, r1: real, r2: real)
    requires 0.0 <= r1 < 1.0 && 0.0 <= r2 < 1.0
    ensures GenerateBillunId(year, r1) == GenerateBillunId(year, r2) <==> Suffix(r1) == Suffix(r2)
  {
    var a, b := GenerateBillunId(year, r1), GenerateBillunId(year, r2);
    if a == b {
      assert a[|a| - 6..] == b[|b| - 6..];
    }
  }

  /** A draw sequence modelling the successive values of `Math.random()`. */
  predicate Draws(draws: seq<real>) {
    forall i :: 0 <= i < |draws| ==> 0.0 <= draws[i] < 1.0
  }

  /** Some stored equipment already holds `id`. */
  ghost predicate Taken(items: map<EquipmentId, Equipment>, id: string) {
    exists k :: k in items && items[k].billunId == id
  }

  // ---------------------------------------------------------------- list filter

  /** The query parameters of `GET /`; a falsy parameter is `None`. */
  datatype ListQuery = ListQuery(
    equipmentType: Option<string>,
    status: Option<string>,
    company: Option<CompanyId>,
    site: Option<nat>,
    workshop: Option<nat>,
    deadlines: Option<string>)

  /** The thirty-day horizon `setDate(getDate() + 30)`. */
  function Horizon(now: Millis): Millis {
    now + 30 * DayMs
  }

  /** The three dates the `upcoming` filter looks at. */
  function Deadlines(e: Equipment): set<Millis> {
    (if e.nextTechnicalInspection.Some? then {e.nextTechnicalInspection.value} else {})
    + (if e.nextMaintenance.Some? then {e.nextMaintenance.value} else {})
    + (if e.nextTailgateMaintenance.Some? then {e.nextTailgateMaintenance.value} else {})
  }

  /** The `$or` of three `$lte` clauses: some set deadline falls on or before the horizon. */
  predicate Upcoming(e: Equipment, now: Millis) {
    || (e.nextTechnicalInspection.Some? && e.nextTechnicalInspection.value <= Horizon(now))
    || (e.nextMaintenance.Some? && e.nextMaintenance.value <= Horizon(now))
    || (e.nextTailgateMaintenance.Some? && e.nextTailgateMaintenance.value <= Horizon(now))
  }

  /** The filter names a deadline within thirty days, overdue ones included. */
  lemma UpcomingMeaning(e: Equipment, now: Millis)
    ensures Upcoming(e, now) <==> exists d :: d in Deadlines(e) && d <= now + 30 * DayMs
  {
    if Upcoming(e, now) {
      if e.nextTechnicalInspection.Some? && e.nextTechnicalInspection.value <= Horizon(now) {
        assert e.nextTechnicalInspection.value in Deadlines(e);
      } else if e.nextMaintenance.Some? && e.nextMaintenance.value <= Horizon(now) {
        assert e.nextMaintenance.value in Deadlines(e);
      } else {
        assert e.nextTailgateMaintenance.value in Deadlines(e);
      }
    }
  }

  /** The object `filter` built from the query, applied to one document: each truthy
      parameter adds an equality, and `deadlines=upcoming` adds the deadline clause. */
  predicate ListMatches(e: Equipment, q: ListQuery, now: Millis) {
    && (q.equipmentType.Some? ==> e.equipmentType == q.equipmentType)
    && (q.status.Some? ==> e.status == q.status)
    && (q.company.Some? ==> e.company == q.company)
    && (q.site.Some? ==> e.site == q.site)
    && (q.workshop.Some? ==> e.workshop == q.workshop)
    && (q.deadlines == Some("upcoming") ==> Upcoming(e, now))
  }

  /** Once listed as upcoming, equipment stays listed as time passes until its dates change:
      the filter has no lower bound. A `deadlines` value other than `upcoming` adds nothing. */
  lemma ListFilterMonotone(e: Equipment, q: ListQuery, t1: Millis, t2: Millis)
    requires t1 <= t2
    ensures ListMatches(e, q, t1) ==> ListMatches(e, q, t2)
    ensures q.deadlines != Some("upcoming") ==> (ListMatches(e, q, t1) <==> ListMatches(e, q, t2))
  {
  }

  // ---------------------------------------------------------------- search

  /** The `$or` of `/search/:identifier`: the identifier equals one of the three ids. */
  predicate SearchMatches(e: Equipment, identifier: string) {
    e.billunId == identifier || e.internalId == Some(identifier) || e.licensePlate == Some(identifier)
  }

  /** The equipment collection. */
  class EquipmentStore {
    var items: map<EquipmentId, Equipment>
    var nextId: EquipmentId

    /** Every key was handed out and `billunId` is unique. The validators are not part of
        the invariant: `findByIdAndUpdate` stores documents that would fail them. */
    ghost predicate Valid()
      reads this
    {
      && (forall k :: k in items ==> k < nextId)
      && (forall k, j :: k in items && j in items && items[k].billunId == items[j].billunId ==> k == j)
    }

    constructor ()
      ensures Valid() && items == map[] && nextId == 0
    {
      items := map[];
      nextId := 0;
    }

    /** `save()` of a new document: refused by the validators or by the unique index on
        `billunId`, otherwise stored under a fresh key. */
    method Insert(e: Equipment) returns (saved: bool)
      requires Valid()
      modifies this
      ensures Valid()
      ensures saved <==> EquipmentValid(e) && !Taken(old(items), e.billunId)
      ensures saved ==> items == old(items)[old(nextId) := e] && nextId == old(nextId) + 1
      ensures !saved ==> items == old(items) && nextId == old(nextId)
    {
      if !EquipmentValid(e) {
        return false;
      }
      var taken := HasBillunId(e.billunId);
      if taken {
        return false;
      }
      items := items[nextId := e];
      nextId := nextId + 1;
      saved := true;
    }

    /** `Equipment.findOne({ billunId })` turned into a yes/no answer. */
    method HasBillunId(id: string) returns (found: bool)
      ensures found <==> Taken(items, id)
    {
      var ks := items.Keys;
      found := false;
      while ks != {}
        invariant ks <= items.Keys
        invariant !found ==> forall k :: k in items && k !in ks ==> items[k].billunId != id
        invariant found ==> Taken(items, id)
        decreases ks
      {
        var k :| k in ks;
        if items[k].billunId == id {
          found := true;
        }
        ks := ks - {k};
      }
    }

    /** The `while (!isUnique)` loop, one draw per attempt: the answer is the identifier of
        the first draw whose identifier no stored equipment holds, and `None` when every
        draw of the sequence gave a taken identifier. */
    method FreshBillunId(year: nat, draws: seq<real>) returns (r: Option<(string, nat)>)
      requires Draws(draws)
      ensures r.Some? ==> r.value.1 < |draws| && r.value.0 == GenerateBillunId(year, draws[r.value.1])
      ensures r.Some? ==> !Taken(items, r.value.0)
      ensures r.Some? ==> forall j :: 0 <= j < r.value.1 ==> Taken(items, GenerateBillunId(year, draws[j]))
      ensures r.None? <==> forall j :: 0 <= j < |draws| ==> Taken(items, GenerateBillunId(year, draws[j]))
    {
      var i := 0;
      while i < |draws|
        invariant i <= |draws|
        invariant forall j :: 0 <= j < i ==> Taken(items, GenerateBillunId(year, draws[j]))
      {
        var id := GenerateBillunId(year, draws[i]);
        var taken := HasBillunId(id);
        if !taken {
          return Some((id, i));
        }
        i := i + 1;
      }
      return None;
    }

    /** `POST /`: the generated identifier replaces whatever `billunId` the body carried,
        and the document is stored when it passes validation (500 otherwise). The draw
        sequence is one on which the loop ends. */
    method Register(body: Equipment, year: nat, draws: seq<real>) returns (reply: Reply<Equipment>)
      requires Valid()
      requires Draws(draws)
      requires exists j :: 0 <= j < |draws| && FreeDraw(items, year, draws, j)
      modifies this
      ensures Valid()
      ensures reply.Success? ==> reply.code == 201
      ensures reply.Success? ==> !Taken(old(items), reply.body.billunId)
      ensures reply.Success? ==> reply.body == WithDefaults(body.(billunId := reply.body.billunId))
      ensures reply.Success? ==> exists j :: 0 <= j < |draws| && reply.body.billunId == GenerateBillunId(year, draws[j])
      ensures reply.Success? ==> items == old(items)[old(nextId) := reply.body] && nextId == old(nextId) + 1
      ensures reply.Failure? ==> reply.code == 500 && items == old(items) && nextId == old(nextId)
      ensures reply.Success? <==> EquipmentValid(WithDefaults(body.(billunId := GenerateBillunId(year, draws[FirstFresh(old(items), year, draws, 0)]))))
    {
      var drawn := FreshBillunId(year, draws);
      ghost var first := FirstFresh(items, year, draws, 0);
      assert !Taken(items, GenerateBillunId(year, draws[first]));
      assert drawn.Some?;
      var pick := drawn.value;
      assert FreeDraw(items, year, draws, pick.1);
      assert pick.1 == first;
      var e := WithDefaults(body.(billunId := pick.0));
      var saved := Insert(e);
      if !saved {
        return Failure(500);
      }
      reply := Success(201, e);
    }

    /** `GET /search/:identifier`: some equipment matching one of the three ids, or 404. */
    method Search(identifier: string) returns (reply: Reply<EquipmentId>)
      ensures reply.Success? ==> reply.code == 200 && reply.body in items && SearchMatches(items[reply.body], identifier)
      ensures reply.Failure? ==> reply.code == 404
      ensures reply.Failure? <==> forall k :: k in items ==> !SearchMatches(items[k], identifier)
    {
      var ks := items.Keys;
      while ks != {}
        invariant ks <= items.Keys
        invariant forall k :: k in items && k !in ks ==> !SearchMatches(items[k], identifier)
        decreases ks
      {
        var k :| k in ks;
        if SearchMatches(items[k], identifier) {
          return Success(200, k);
        }
        ks := ks - {k};
      }
      return Failure(404);
    }
  }

  /** Draw `j` gives an identifier no stored equipment holds. */
  ghost predicate FreeDraw(items: map<EquipmentId, Equipment>, year: nat, draws: seq<real>, j: int)
    requires Draws(draws)
  {
    0 <= j < |draws| && !Taken(items, GenerateBillunId(year, draws[j]))
  }

  /** The index of the first draw from `i` on whose identifier is free. */
  ghost function FirstFresh(items: map<EquipmentId, Equipment>, year: nat, draws: seq<real>, i: nat): (r: nat)
    requires Draws(draws)
    requires exists j :: i <= j && FreeDraw(items, year, draws, j)
    ensures i <= r && FreeDraw(items, year, draws, r)
    ensures forall j :: i <= j < r ==> !FreeDraw(items, year, draws, j)
    decreases |draws| - i
  {
    if FreeDraw(items, year, draws, i) then i
    else FirstFresh(items, year, draws, i + 1)
  }
}
