/** The `/api/admin` rules: the twelve monthly buckets of the analytics endpoints, the
    pagination arithmetic and filters of the contact list, the contact update, and the
    company create and delete guards. */
module AdminRoutes {
  import opened Common
  import opened Partnerships
  import opened PartnershipRoutes
  import E = EquipmentRoutes

  // ---------------------------------------------------------------- monthly buckets

  const Months: seq<string> := ["Jan", "Fév", "Mar", "Avr", "Mai", "Juin", "Juil", "Août", "Sep", "Oct", "Nov", "Déc"]

  /** One `$group` result: a year, a month in 1..12 (as `$month` yields) and a count. */
  datatype Row = Row(year: int, month: int, count: nat)

  datatype MonthCount = MonthCount(month: string, count: nat)

  predicate RowsWellFormed(rows: seq<Row>) {
    forall i :: 0 <= i < |rows| ==> 1 <= rows[i].month <= 12
  }

  /** The count the `forEach` leaves at month `m` (1..12): that of the last row of the
      current year for `m`, or 0. */
  function CountAt(rows: seq<Row>, year: int, m: int): nat {
    if rows == [] then 0
    else
      var last := rows[|rows| - 1];
      if last.year == year && last.month == m then last.count else CountAt(rows[..|rows| - 1], year, m)
  }

  function Buckets(rows: seq<Row>, year: int): (r: seq<MonthCount>)
    ensures |r| == 12
  {
    seq(12, i requires 0 <= i < 12 => MonthCount(Months[i], CountAt(rows, year, i + 1)))
  }

  /** `Array(12).fill(0).map(...)` then the `forEach` that writes `result[month - 1].count`
      for the rows of the current year. */
  method MonthlyBuckets(rows: seq<Row>, year: int) returns (result: array<MonthCount>)
    requires RowsWellFormed(rows)
    ensures fresh(result)
    ensures result[..] == Buckets(rows, year)
  {
    result := new MonthCount[12](i requires 0 <= i < 12 => MonthCount(Months[i], 0));
    var k := 0;
    while k < |rows|
      invariant k <= |rows|
      invariant result.Length == 12
      invariant forall i :: 0 <= i < 12 ==> result[i] == MonthCount(Months[i], CountAt(rows[..k], year, i + 1))
    {
      var row := rows[k];
      if row.year == year {
        result[row.month - 1] := MonthCount(result[row.month - 1].month, row.count);
      }
      assert rows[..k + 1][..k] == rows[..k];
      k := k + 1;
    }
    assert rows[..|rows|] == rows;
  }

  /** A row of the current year for month `m`. */
  predicate Hit(r: Row, year: int, m: int) {
    r.year == year && r.month == m
  }

  /** `rows[i]` is the last row of the current year for month `m`. */
  predicate LastHit(rows: seq<Row>, year: int, m: int, i: int) {
    0 <= i < |rows| && Hit(rows[i], year, m) && forall j :: i < j < |rows| ==> !Hit(rows[j], year, m)
  }

  /** The buckets are labelled `Jan`…`Déc` in order; a month gets the count of the last
      current-year row for it, and a month without such a row, or any row of another year,
      leaves 0. */
  lemma BucketsMeaning(rows: seq<Row>, year: int, m: int)
    requires 1 <= m <= 12
    ensures Buckets(rows, year)[m - 1].month == Months[m - 1]
    ensures (forall i :: 0 <= i < |rows| ==> !Hit(rows[i], year, m)) ==> Buckets(rows, year)[m - 1].count == 0
    ensures forall i :: LastHit(rows, year, m, i) ==> Buckets(rows, year)[m - 1].count == rows[i].count
  {
    if forall i :: 0 <= i < |rows| ==> !Hit(rows[i], year, m) {
      CountAtMissing(rows, year, m);
    }
    forall i | LastHit(rows, year, m, i) ensures CountAt(rows, year, m) == rows[i].count {
      CountAtLast(rows, year, m, i);
    }
  }

  lemma {:induction false} CountAtMissing(rows: seq<Row>, year: int, m: int)
    requires forall i :: 0 <= i < |rows| ==> !Hit(rows[i], year, m)
    ensures CountAt(rows, year, m) == 0
  {
    if rows != [] {
      var init := rows[..|rows| - 1];
      assert forall i :: 0 <= i < |init| ==> init[i] == rows[i];
      CountAtMissing(init, year, m);
    }
  }

  lemma {:induction false} CountAtLast(rows: seq<Row>, year: int, m: int, i: int)
    requires LastHit(rows, year, m, i)
    ensures CountAt(rows, year, m) == rows[i].count
  {
    if i < |rows| - 1 {
      var init := rows[..|rows| - 1];
      assert forall j :: 0 <= j < |init| ==> init[j] == rows[j];
      assert !Hit(rows[|rows| - 1], year, m);
      CountAtLast(init, year, m, i);
    }
  }

  // ---------------------------------------------------------------- contact list

  /** `(page - 1) * limit` */
  function Skip(page: int, limit: int): int {
    (page - 1) * limit
  }

  /** `Math.ceil(total / limit)`; `None` for a zero limit, whose quotient is not a finite
      number. */
  function TotalPages(total: nat, limit: int): (r: Option<int>)
    ensures r.None? <==> limit == 0
    ensures limit > 0 ==> r.Some? && r.value >= 0 && (r.value == 0 <==> total == 0)
    ensures limit > 0 && total > 0 ==> (r.value - 1) * limit < total <= r.value * limit
    ensures limit < 0 ==> r.Some? && r.value <= 0
  {
    if limit == 0 then None
    else if limit > 0 then Some((total + limit - 1) / limit)
    else Some(-(total / -limit))
  }

  /** With a positive limit, pages `1..pages` each start on an existing record and the page
      after the last starts past them all. */
  lemma PagesCoverRecords(total: nat, limit: int, page: int)
    requires limit > 0 && total > 0
    ensures 1 <= page <= TotalPages(total, limit).value ==> 0 <= Skip(page, limit) < total
    ensures page > TotalPages(total, limit).value ==> Skip(page, limit) >= total
  {
    var pages := TotalPages(total, limit).value;
    if page > pages {
      ScaleMonotone(pages, page - 1, limit);
    }
    if 1 <= page <= pages {
      ScaleMonotone(0, page - 1, limit);
      ScaleMonotone(page - 1, pages - 1, limit);
    }
  }

  /** The `status` and `priority` clauses of the contact filter: a falsy value or `all`
      adds none. */
  function Clause(value: Option<string>): (c: Option<string>)
    ensures c.Some? <==> Truthy(value) && value.value != "all"
    ensures c.Some? ==> c == value
  {
    if Truthy(value) && value.value != "all" then value else None
  }

  /** Asking for `all` is the same as asking for nothing. */
  lemma AllIsNoFilter()
    ensures Clause(Some("all")) == Clause(None) == Clause(Some(""))
  {
  }

  // ---------------------------------------------------------------- contact update

  /** The fields the administrators manage on a contact message. */
  datatype Tracking = Tracking(
    status: string,
    priority: string,
    notes: Option<string>,
    assignedTo: Option<UserId>,
    responseDate: Option<Millis>,
    conversionDate: Option<Millis>)

  /** The body of `PUT /contacts/:id`. `notes` is `None` only when absent; the other `None`s
      are falsy values. */
  datatype ContactBody = ContactBody(status: Option<string>, priority: Option<string>, notes: Option<string>, assignedTo: Option<UserId>)

  /** `updateData` applied by `findByIdAndUpdate`, which runs no validators. */
  function ApplyContactUpdate(t: Tracking, b: ContactBody, now: Millis): (r: Tracking)
    ensures r.status == (if Truthy(b.status) then b.status.value else t.status)
    ensures r.priority == (if Truthy(b.priority) then b.priority.value else t.priority)
    ensures b.notes.Some? ==> r.notes == b.notes
    ensures b.notes.None? ==> r.notes == t.notes
    ensures r.assignedTo == (if b.assignedTo.Some? then b.assignedTo else t.assignedTo)
    ensures r.responseDate == (if b.status == Some("contacted") || b.status == Some("in_progress") then Some(now) else t.responseDate)
    ensures r.conversionDate == (if b.status == Some("converted") then Some(now) else t.conversionDate)
  {
    Tracking(
      if Truthy(b.status) then b.status.value else t.status,
      if Truthy(b.priority) then b.priority.value else t.priority,
      if b.notes.Some? then b.notes else t.notes,
      if b.assignedTo.Some? then b.assignedTo else t.assignedTo,
      if b.status == Some("contacted") || b.status == Some("in_progress") then Some(now) else t.responseDate,
      if b.status == Some("converted") then Some(now) else t.conversionDate)
  }

  /** Notes can be cleared with an empty string, while an empty status or priority keeps the
      stored one; an empty body changes nothing; and with no validators a status outside
      the enum is stored. */
  lemma ContactUpdateRules(t: Tracking, now: Millis)
    ensures ApplyContactUpdate(t, ContactBody(None, None, Some(""), None), now).notes == Some("")
    ensures ApplyContactUpdate(t, ContactBody(Some(""), Some(""), None, None), now) == t
    ensures ApplyContactUpdate(t, ContactBody(Some("archived"), None, None, None), now).status == "archived"
  {
  }

  /** Setting the same body twice at the same time gives the same record. */
  lemma ContactUpdateIdempotent(t: Tracking, b: ContactBody, now: Millis)
    ensures ApplyContactUpdate(ApplyContactUpdate(t, b, now), b, now) == ApplyContactUpdate(t, b, now)
  {
  }

  // ---------------------------------------------------------------- companies

  /** The body of `POST /companies`; `None` is a falsy value. `managerComplete` says that
      `managerData` has a first name, a last name and an email. */
  datatype CompanyBody = CompanyBody(name: Option<string>, siret: Option<string>, email: Option<string>, managerComplete: bool)

  /** `Company.findOne({ $or: [{ email }, { siret: siret || "" }] })`. The Company schema has
      no `email` path; with the filter passed to the database as written (`strictQuery` off),
      no stored company matches on it, and only the siret clause can. */
  predicate SiretClash(companies: map<CompanyId, Company>, siret: Option<string>) {
    exists k :: k in companies && companies[k].siret == Some(if Truthy(siret) then siret.value else "")
  }

  /** The document `new Company({...})` builds: `mainManager` is never set. */
  function NewCompany(b: CompanyBody): (c: Company)
    requires Truthy(b.name)
    ensures c.mainManager.None? && c.status == "active"
  {
    Company(b.name.value, b.siret, "active", None)
  }

  /** As written, `save()` refuses every company the route builds, so the manager-creation
      step after it is never reached. */
  lemma NewCompanyNeverValid(b: CompanyBody)
    requires Truthy(b.name)
    ensures !CompanyValid(NewCompany(b))
  {
  }

  /** `POST /companies`: 400 without name or email, 400 for a clashing siret, then the
      save, which the missing `mainManager` always refuses (500); nothing is stored. */
  method CreateCompany(dir: Directory, b: CompanyBody) returns (reply: Reply<CompanyId>)
    requires dir.Valid()
    modifies dir
    ensures dir.Valid()
    ensures !Truthy(b.name) || !Truthy(b.email) ==> reply == Failure(400)
    ensures Truthy(b.name) && Truthy(b.email) && SiretClash(old(dir.companies), b.siret) ==> reply == Failure(400)
    ensures Truthy(b.name) && Truthy(b.email) && !SiretClash(old(dir.companies), b.siret) ==> reply == Failure(500)
    ensures dir.companies == old(dir.companies) && dir.users == old(dir.users)
  {
    if !Truthy(b.name) || !Truthy(b.email) {
      return Failure(400);
    }
    var clash := FindSiret(dir, if Truthy(b.siret) then b.siret.value else "");
    if clash {
      return Failure(400);
    }
    NewCompanyNeverValid(b);
    var saved := dir.InsertCompany(NewCompany(b));
    match saved
    case None => reply := Failure(500);
  }

  /** Whether some stored company has siret `s`. */
  method FindSiret(dir: Directory, s: string) returns (found: bool)
    ensures found <==> exists k :: k in dir.companies && dir.companies[k].siret == Some(s)
  {
    var ks := dir.companies.Keys;
    found := false;
    while ks != {}
      invariant ks <= dir.companies.Keys
      invariant !found ==> forall k :: k in dir.companies && k !in ks ==> dir.companies[k].siret != Some(s)
      invariant found ==> exists k :: k in dir.companies && dir.companies[k].siret == Some(s)
      decreases ks
    {
      var k :| k in ks;
      if dir.companies[k].siret == Some(s) {
        found := true;
      }
      ks := ks - {k};
    }
  }

  /** `User.countDocuments({ company: id }) > 0` */
  method HasUsers(dir: Directory, id: CompanyId) returns (b: bool)
    ensures b <==> exists u :: u in dir.users && dir.users[u].company == Some(id)
  {
    var ks := dir.users.Keys;
    b := false;
    while ks != {}
      invariant ks <= dir.users.Keys
      invariant !b ==> forall u :: u in dir.users && u !in ks ==> dir.users[u].company != Some(id)
      invariant b ==> exists u :: u in dir.users && dir.users[u].company == Some(id)
      decreases ks
    {
      var u :| u in ks;
      if dir.users[u].company == Some(id) {
        b := true;
      }
      ks := ks - {u};
    }
  }

  /** `Equipment.countDocuments({ company: id }) > 0` */
  method HasEquipment(store: E.EquipmentStore, id: CompanyId) returns (b: bool)
    ensures b <==> exists k :: k in store.items && store.items[k].company == Some(id)
  {
    var ks := store.items.Keys;
    b := false;
    while ks != {}
      invariant ks <= store.items.Keys
      invariant !b ==> forall k :: k in store.items && k !in ks ==> store.items[k].company != Some(id)
      invariant b ==> exists k :: k in store.items && store.items[k].company == Some(id)
      decreases ks
    {
      var k :| k in ks;
      if store.items[k].company == Some(id) {
        b := true;
      }
      ks := ks - {k};
    }
  }

  /** `DELETE /companies/:id`: refused with 400 while any user or equipment belongs to the
      company, 404 for an unknown id, else a soft delete: the record stays, with status
      `deleted`, a value outside the enum (`findByIdAndUpdate` runs no validators). */
  method DeleteCompany(dir: Directory, store: E.EquipmentStore, id: CompanyId) returns (reply: Reply<Company>)
    requires dir.Valid()
    modifies dir
    ensures dir.Valid()
    ensures (exists u :: u in dir.users && dir.users[u].company == Some(id))
            || (exists k :: k in store.items && store.items[k].company == Some(id))
            ==> reply == Failure(400) && dir.companies == old(dir.companies)
    ensures !(exists u :: u in dir.users && dir.users[u].company == Some(id))
            && !(exists k :: k in store.items && store.items[k].company == Some(id))
            ==> (reply.Success? <==> id in old(dir.companies))
    ensures reply == Failure(404) ==> id !in old(dir.companies) && dir.companies == old(dir.companies)
    ensures reply.Success? ==>
              && id in old(dir.companies)
              && reply.body == old(dir.companies)[id].(status := "deleted")
              && dir.companies == old(dir.companies)[id := reply.body]
              && !CompanyValid(reply.body)
    ensures reply.Failure? ==> reply.code in {400, 404}
    ensures dir.users == old(dir.users)
    ensures dir.nextUser == old(dir.nextUser) && dir.nextCompany == old(dir.nextCompany)
  {
    var hasUsers := HasUsers(dir, id);
    var hasEquipment := HasEquipment(store, id);
    if hasUsers || hasEquipment {
      return Failure(400);
    }
    if id !in dir.companies {
      return Failure(404);
    }
    var c := dir.companies[id].(status := "deleted");
    dir.companies := dir.companies[id := c];
    reply := Success(200, c);
  }
}
