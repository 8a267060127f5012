/** The `/api/partnerships` routes: the list filter, the invitation (which provisions a
    placeholder company and user for an unknown name), the single-record accept and reject,
    the partner-equipment listing and the statistics counters. */
module PartnershipRoutes {
  import opened Common
  import opened Text
  import opened Partnerships

  type UserId = nat

  predicate Involves(p: Partnership, c: CompanyId) {
    p.initiator == c || p.partner == c
  }

  /** `GET /`: records where the caller's company is either party, narrowed to one status
      when a non-empty `status` is given. */
  predicate ListMatches(p: Partnership, c: CompanyId, status: Option<string>) {
    Involves(p, c) && (!Truthy(status) || StatusName(p.status) == status.value)
  }

  /** A status filter naming no member of the enum (such as "rejected" or "active") matches
      no stored record; an empty one filters on the parties only. */
  lemma ListFilterDomain(p: Partnership, c: CompanyId, status: Option<string>)
    ensures Truthy(status) && ParseStatus(status.value).None? ==> !ListMatches(p, c, status)
    ensures !Truthy(status) ==> (ListMatches(p, c, status) <==> Involves(p, c))
    ensures Truthy(status) && ParseStatus(status.value).Some? ==>
              (ListMatches(p, c, status) <==> Involves(p, c) && p.status == ParseStatus(status.value).value)
  {
    if Truthy(status) && ParseStatus(status.value).Some? {
      ParseStatusName(p.status);
    }
  }

  // ---------------------------------------------------------------- users and companies

  datatype User = User(
    username: Option<string>,
    firstName: string,
    lastName: string,
    email: string,
    role: string,
    isTemporary: bool,
    company: Option<CompanyId>)

  datatype Company = Company(name: string, siret: Option<string>, status: string, mainManager: Option<UserId>)

  /** The `required` and `enum` validators of the User schema (the password is always a hash). */
  predicate UserValid(u: User) {
    u.firstName != "" && u.lastName != "" && u.email != "" && u.role in ["admin", "manager", "driver", "workshop"]
  }

  /** The `required` and `enum` validators of the Company schema. */
  predicate CompanyValid(c: Company) {
    c.name != "" && c.mainManager.Some? && c.status in ["active", "inactive", "pending_partnership"]
  }

  /** The unique `email` index and the sparse unique `username` index admit `u`. */
  predicate UserIndexFree(users: map<UserId, User>, u: User) {
    forall id | id in users :: users[id].email != u.email && (u.username.Some? ==> users[id].username != u.username)
  }

  ghost predicate UserIndexes(users: map<UserId, User>) {
    forall i, j | i in users && j in users && i != j ::
      users[i].email != users[j].email && (users[i].username.Some? ==> users[i].username != users[j].username)
  }

  predicate NameTaken(companies: map<CompanyId, Company>, name: string) {
    exists id :: id in companies && companies[id].name == name
  }

  /** The User and Company collections. */
  class Directory {
    var users: map<UserId, User>
    var companies: map<CompanyId, Company>
    var nextUser: UserId
    var nextCompany: CompanyId

    /** Every id was handed out and the unique user indexes hold. The validators are not
        part of the invariant: `findByIdAndUpdate` stores documents that would fail them. */
    ghost predicate Valid()
      reads this
    {
      && (forall id | id in users :: id < nextUser)
      && (forall id | id in companies :: id < nextCompany)
      && UserIndexes(users)
    }

    constructor ()
      ensures Valid() && users == map[] && companies == map[]
    {
      users := map[];
      companies := map[];
      nextUser := 0;
      nextCompany := 0;
    }

    /** `Company.findOne({ name })`: some company with that name, if there is one. */
    method FindCompanyByName(name: string) returns (r: Option<CompanyId>)
      ensures r.Some? ==> r.value in companies && companies[r.value].name == name
      ensures r.None? <==> !NameTaken(companies, name)
    {
      var ks := companies.Keys;
      while ks != {}
        invariant ks <= companies.Keys
        invariant forall k | k in companies && k !in ks :: companies[k].name != name
        decreases |ks|
      {
        var k :| k in ks;
        if companies[k].name == name {
          return Some(k);
        }
        ks := ks - {k};
      }
      return None;
    }

    /** `save()` of a new user. */
    method InsertUser(u: User) returns (r: Option<UserId>)
      requires Valid()
      modifies this
      ensures Valid()
      ensures r.Some? <==> UserValid(u) && UserIndexFree(old(users), u)
      ensures r.Some? ==> r.value !in old(users) && users == old(users)[r.value := u]
      ensures r.None? ==> users == old(users)
      ensures companies == old(companies) && nextCompany == old(nextCompany)
    {
      if !UserValid(u) || !UserIndexFree(users, u) {
        return None;
      }
      r := Some(nextUser);
      users := users[nextUser := u];
      nextUser := nextUser + 1;
    }

    /** `save()` of a new company. */
    method InsertCompany(c: Company) returns (r: Option<CompanyId>)
      requires Valid()
      modifies this
      ensures Valid()
      ensures r.Some? <==> CompanyValid(c)
      ensures r.Some? ==> r.value == old(nextCompany) && companies == old(companies)[r.value := c]
      ensures r.None? ==> companies == old(companies)
      ensures users == old(users) && nextCompany >= old(nextCompany)
    {
      if !CompanyValid(c) {
        return None;
      }
      r := Some(nextCompany);
      companies := companies[nextCompany := c];
      nextCompany := nextCompany + 1;
    }

    /** `user.company = c; user.save()` on a loaded user: the save runs the validators
        again; the e-mail and username are unchanged, so the unique indexes still admit it. */
    method LinkUser(id: UserId, c: CompanyId) returns (saved: bool)
      requires Valid() && id in users
      modifies this
      ensures Valid()
      ensures saved <==> UserValid(old(users)[id])
      ensures saved ==> users == old(users)[id := old(users)[id].(company := Some(c))]
      ensures !saved ==> users == old(users)
      ensures companies == old(companies) && nextCompany == old(nextCompany)
    {
      if !UserValid(users[id]) {
        return false;
      }
      users := users[id := users[id].(company := Some(c))];
      saved := true;
    }
  }

  // ---------------------------------------------------------------- invitation

  datatype InviteRequest = InviteRequest(
    targetCompanyName: Option<string>,
    contactEmail: Option<string>,
    contactName: Option<string>,
    siret: Option<string>,
    message: Option<string>,
    contactPhone: Option<string>,
    equipmentAccess: Option<Access>)

  predicate Complete(req: InviteRequest) {
    Truthy(req.targetCompanyName) && Truthy(req.contactEmail) && Truthy(req.contactName)
  }

  /** `contactName.split(" ")[0] || contactName`: the text before the first space, or the
      whole name when that text is empty. */
  function FirstName(name: string): (r: string)
    ensures r == "" <==> name == ""
    ensures ' ' !in name ==> r == name
    ensures |name| > 0 && name[0] == ' ' ==> r == name
    ensures ' ' in name && name[0] != ' ' ==>
              ' ' !in r && 0 < |r| < |name| && name[..|r|] == r && name[|r|] == ' '
  {
    SplitHead(name, ' ');
    var first := Split(name, ' ')[0];
    if first != "" then first else name
  }

  /** `contactName.split(" ")[1] || ""`: the text between the first and the second space,
      and `""` when the name holds no space. */
  function LastName(name: string): (r: string)
    ensures ' ' !in r
    ensures ' ' !in name ==> r == ""
    ensures ' ' in name ==>
              var k := IndexOf(name, ' ');
              && k + 1 + |r| <= |name| && name[k + 1..k + 1 + |r|] == r
              && (k + 1 + |r| == |name| || name[k + 1 + |r|] == ' ')
  {
    SplitHead(name, ' ');
    var pieces := Split(name, ' ');
    if |pieces| > 1 then
      var k := IndexOf(name, ' ');
      var rest := name[k + 1..];
      SplitHead(rest, ' ');
      assert pieces[1] == Split(rest, ' ')[0];
      pieces[1]
    else ""
  }

  /** `temp_<lower-cased name with whitespace runs as "_">_<Date.now()>`: the prefix, then
      the name's slug, then `_` and the decimal timestamp; no whitespace and no upper-case
      letter anywhere. */
  function TempUsername(companyName: string, now: nat): (r: string)
    ensures var d := NatToString(now);
            && |r| == 5 + |ReplaceSpaceRuns(Lower(companyName))| + 1 + |d|
            && r[..5] == "temp_"
            && r[5..|r| - |d| - 1] == ReplaceSpaceRuns(Lower(companyName))
            && r[|r| - |d| - 1..] == "_" + d
    ensures NoSpace(r)
    ensures forall i :: 0 <= i < |r| ==> !IsUpper(r[i])
  {
    var slug := ReplaceSpaceRuns(Lower(companyName));
    var digits := NatToString(now);
    var r := "temp_" + slug + "_" + digits;
    assert r[..5] == "temp_";
    assert r[5..|r| - |digits| - 1] == slug;
    assert r[|r| - |digits| - 1..] == "_" + digits;
    assert forall i | 5 <= i < 5 + |slug| :: r[i] == slug[i - 5];
    assert forall i | 5 + |slug| + 1 <= i < |r| :: r[i] == digits[i - 6 - |slug|];
    r
  }

  /** Position of the last `c` in `s`, or -1. */
  function LastIndex(s: string, c: char): int {
    if |s| == 0 then -1 else if s[|s| - 1] == c then |s| - 1 else LastIndex(s[..|s| - 1], c)
  }

  lemma {:induction false} LastIndexAfter(p: string, d: string, c: char)
    requires |p| > 0 && p[|p| - 1] == c && c !in d
    ensures LastIndex(p + d, c) == |p| - 1
    decreases |d|
  {
    if |d| > 0 {
      assert (p + d)[..|p + d| - 1] == p + d[..|d| - 1];
      LastIndexAfter(p, d[..|d| - 1], c);
    } else {
      assert p + d == p;
    }
  }

  /** Two placeholder usernames can clash only when they were generated in the same
      millisecond: the digits after the last `_` are the timestamp. */
  lemma UsernameDeterminesTime(n1: string, t1: nat, n2: string, t2: nat)
    requires TempUsername(n1, t1) == TempUsername(n2, t2)
    ensures t1 == t2
  {
    var d1, d2 := NatToString(t1), NatToString(t2);
    var p1 := "temp_" + ReplaceSpaceRuns(Lower(n1)) + "_";
    var p2 := "temp_" + ReplaceSpaceRuns(Lower(n2)) + "_";
    var u := TempUsername(n1, t1);
    assert u == p1 + d1 && u == p2 + d2;
    assert '_' !in d1 && '_' !in d2;
    LastIndexAfter(p1, d1, '_');
    LastIndexAfter(p2, d2, '_');
    assert d1 == u[|u| - |d1|..];
    assert d2 == u[|u| - |d2|..];
    NatToStringValue(t1);
    NatToStringValue(t2);
  }

  /** The placeholder manager created for an unknown company. */
  function TempUser(companyName: string, email: string, contactName: string, now: nat): User {
    User(Some(TempUsername(companyName, now)), FirstName(contactName), LastName(contactName), email,
         "manager", true, None)
  }

  /** A one-word contact name gives the placeholder an empty `lastName`, which the
      `required` validator refuses: such an invitation to an unknown company fails. */
  lemma SingleWordContactRefused(companyName: string, email: string, contactName: string, now: nat)
    requires ' ' !in contactName
    ensures !UserValid(TempUser(companyName, email, contactName, now))
  {
  }

  /** With a complete two-word contact the placeholder passes the validators. */
  lemma TwoWordContactAccepted(companyName: string, email: string, first: string, last: string, now: nat)
    requires first != "" && last != "" && email != ""
    requires ' ' !in first && ' ' !in last
    ensures var u := TempUser(companyName, email, first + " " + last, now);
      UserValid(u) && u.firstName == first && u.lastName == last
  {
    var name := first + " " + last;
    assert name[..|first|] == first && name[|first|] == ' ';
    assert IndexOf(name, ' ') == |first|;
    assert name[|first| + 1..] == last;
    assert FirstName(name) == first;
  }

  /** The pending company provisioned for an unknown name, managed by the placeholder user. */
  function Placeholder(name: string, siret: Option<string>, manager: UserId): Company {
    Company(name, siret, "pending_partnership", Some(manager))
  }

  /** The single record a successful invitation stores. */
  function Invited(initiator: CompanyId, target: CompanyId, req: InviteRequest, now: Millis): (p: Partnership)
    requires Complete(req)
    ensures p.initiator == initiator && p.partner == target && p.status == Pending && Required(p)
    ensures p.access == DefaultAccess && p.contact.phone.Some?
  {
    var phone := if Truthy(req.contactPhone) then req.contactPhone.value else "";
    NewPartnership(initiator, target, Contact(req.contactName.value, req.contactEmail.value, Some(phone)),
                   req.message, Some(DefaultAccess), now)
  }

  /** The placeholder user the invitation would save for an unknown company. */
  function InviteTempUser(req: InviteRequest, now: nat): User
    requires Complete(req)
  {
    TempUser(req.targetCompanyName.value, req.contactEmail.value, req.contactName.value, now)
  }

  /** How an invitation resolves its target company, from the collections before
      (`users0`, `companies0`) to those after: a company already carrying the requested name
      is used as it is; otherwise a placeholder manager is saved, a pending company managed by
      it is saved, and the manager is linked to the company. When the placeholder manager is
      refused, nothing is stored and there is no target. */
  ghost predicate Resolved(users0: map<UserId, User>, companies0: map<CompanyId, Company>,
                           users: map<UserId, User>, companies: map<CompanyId, Company>,
                           req: InviteRequest, now: nat, target: Option<CompanyId>)
    requires Complete(req)
  {
    var name := req.targetCompanyName.value;
    var u := InviteTempUser(req, now);
    if NameTaken(companies0, name) then
      && target.Some? && target.value in companies0 && companies0[target.value].name == name
      && users == users0 && companies == companies0
    else if !(UserValid(u) && UserIndexFree(users0, u)) then
      target.None? && users == users0 && companies == companies0
    else
      && target.Some? && target.value !in companies0 && target.value in companies
      && companies[target.value].mainManager.Some?
      && var m := companies[target.value].mainManager.value;
         && companies == companies0[target.value := Placeholder(name, req.siret, m)]
         && m !in users0
         && users == users0[m := u.(company := target)]
  }

  /** The company an invitation is addressed to (`Company.findOne({ name })`, then the
      placeholder manager and company). A provisioned company takes a fresh id. */
  method ResolveTarget(dir: Directory, req: InviteRequest, now: nat) returns (target: Option<CompanyId>)
    requires dir.Valid() && Complete(req)
    modifies dir
    ensures dir.Valid() && dir.nextCompany >= old(dir.nextCompany)
    ensures Resolved(old(dir.users), old(dir.companies), dir.users, dir.companies, req, now, target)
    ensures target.Some? ==> target.value in dir.companies
    ensures target.Some? && target.value !in old(dir.companies) ==> target.value == old(dir.nextCompany)
  {
    var name := req.targetCompanyName.value;
    target := dir.FindCompanyByName(name);
    if target.None? {
      var uid := dir.InsertUser(InviteTempUser(req, now));
      if uid.None? {
        return None;
      }
      var cid := dir.InsertCompany(Placeholder(name, req.siret, uid.value));
      var linked := dir.LinkUser(uid.value, cid.value);
      target := cid;
    }
  }

  /** Every party of a stored partnership is a company id the directory has handed out:
      object ids are never reused, so a newly created company is a party of no record. */
  ghost predicate PartiesKnown(records: map<PartnershipId, Partnership>, nextCompany: CompanyId) {
    forall id | id in records :: records[id].initiator < nextCompany && records[id].partner < nextCompany
  }

  /** `POST /invite`. `caller` is the company id stored on the requesting user; the route
      populates it, so an id naming no company is treated as a missing company. `target` is
      the company the invitation ended up addressed to. */
  method Invite(store: PartnershipStore, dir: Directory, req: InviteRequest, caller: Option<CompanyId>, now: nat)
    returns (reply: Reply<PartnershipId>, target: Option<CompanyId>)
    requires store.Valid() && dir.Valid() && PartiesKnown(store.records, dir.nextCompany)
    modifies store, dir
    ensures store.Valid() && dir.Valid() && PartiesKnown(store.records, dir.nextCompany)
    // missing fields or no company: 400 and nothing changes
    ensures !Complete(req) || caller.None? || caller.value !in old(dir.companies) ==>
              reply == Failure(400) && target.None?
              && store.records == old(store.records) && dir.users == old(dir.users) && dir.companies == old(dir.companies)
    // otherwise the target is resolved as `Resolved` describes
    ensures Complete(req) && caller.Some? && caller.value in old(dir.companies) ==>
              Resolved(old(dir.users), old(dir.companies), dir.users, dir.companies, req, now, target)
    // placeholder user refused: 500
    ensures Complete(req) && caller.Some? && target.None? && caller.value in old(dir.companies) ==> reply == Failure(500)
    // a record in either direction, whatever its status: 409
    ensures reply == Failure(409) <==>
              target.Some? && caller.Some?
              && (HasPair(old(store.records), caller.value, target.value) || HasPair(old(store.records), target.value, caller.value))
    // a provisioned company is a party of no record, so its invitation is never a 409
    ensures target.Some? && target.value !in old(dir.companies) ==> reply.Success?
    // success: exactly one new pending record caller -> target with default access
    ensures reply.Success? <==>
              target.Some? && caller.Some?
              && !HasPair(old(store.records), caller.value, target.value) && !HasPair(old(store.records), target.value, caller.value)
    ensures reply.Success? ==>
              && Complete(req) && caller.Some? && target.Some? && reply.code == 201
              && reply.body !in old(store.records)
              && store.records == old(store.records)[reply.body := Invited(caller.value, target.value, req, now)]
    ensures reply.Failure? ==> store.records == old(store.records)
  {
    if !Complete(req) || caller.None? || caller.value !in dir.companies {
      return Failure(400), None;
    }
    target := ResolveTarget(dir, req, now);
    if target.None? {
      return Failure(500), None;
    }
    var forward := store.FindByPair(caller.value, target.value);
    var backward := store.FindByPair(target.value, caller.value);
    if forward.Some? || backward.Some? {
      return Failure(409), target;
    }
    var id := store.Insert(Invited(caller.value, target.value, req, now));
    reply := Success(201, id.value);
  }

  // ---------------------------------------------------------------- accept and reject

  /** The store after the accept route: the named record alone is accepted. */
  function AcceptOne(m: map<PartnershipId, Partnership>, id: PartnershipId, t: Millis): (r: map<PartnershipId, Partnership>)
    requires id in m
  {
    m[id := WithAccepted(m[id], t)]
  }

  /** `PUT /:id/accept` */
  method RouteAccept(store: PartnershipStore, id: PartnershipId, now: Millis) returns (reply: Reply<Partnership>)
    requires store.Valid()
    modifies store
    ensures store.Valid()
    ensures id !in old(store.records) ==> reply == Failure(404) && store.records == old(store.records)
    ensures id in old(store.records) && old(store.records)[id].status != Pending ==>
              reply == Failure(400) && store.records == old(store.records)
    ensures id in old(store.records) && old(store.records)[id].status == Pending ==>
              reply == Success(200, WithAccepted(old(store.records)[id], now))
              && store.records == AcceptOne(old(store.records), id, now)
  {
    if id !in store.records {
      return Failure(404);
    }
    var p := store.records[id];
    if p.status != Pending {
      return Failure(400);
    }
    p := WithAccepted(p, now);
    store.Update(id, p);
    reply := Success(200, p);
  }

  /** The accept route does not call the model's `accept`: a pending reverse record stays
      pending, where `accept` would have accepted it, so the pair falls out of step. */
  lemma RouteAcceptLeavesReverse(m: map<PartnershipId, Partnership>, id: PartnershipId, k: PartnershipId, t: Millis, tr: Millis)
    requires id in m && k in m && k != id && IsReverse(m[k], m[id]) && m[k].status == Pending
    ensures AcceptOne(m, id, t)[id].status == Accepted && AcceptOne(m, id, t)[k].status == Pending
    ensures AcceptBoth(m, id, t, tr)[k].status == Accepted
  {
  }

  /** The status string the reject route assigns. */
  const RejectedStatus := "rejected"

  /** `PUT /:id/reject`: the route assigns a status outside the enum, so once the record is
      found and pending the enum validator refuses the save and the route answers 500; the
      store never changes. */
  method RouteReject(store: PartnershipStore, id: PartnershipId) returns (reply: Reply<Partnership>)
    ensures id !in store.records ==> reply == Failure(404)
    ensures id in store.records && store.records[id].status != Pending ==> reply == Failure(400)
    ensures id in store.records && store.records[id].status == Pending ==> reply == Failure(500)
  {
    if id !in store.records {
      return Failure(404);
    }
    if store.records[id].status != Pending {
      return Failure(400);
    }
    match ParseStatus(RejectedStatus)
    case None => reply := Failure(500);
  }

  // ---------------------------------------------------------------- partner equipment

  /** The equipment collection as (equipment id, owning company) in store order. */
  type Fleet = seq<(EquipmentId, CompanyId)>

  /** One entry of the `/equipment` answer: the equipment tagged with the partnership it is
      seen through and the company on the other side. */
  datatype Shared = Shared(equipment: EquipmentId, partnershipId: PartnershipId, partnerCompany: CompanyId)

  /** The company on the other side of `p` from `c`. */
  function OtherSide(p: Partnership, c: CompanyId): (o: CompanyId)
    ensures Involves(p, c) ==> Involves(p, o)
    ensures p.initiator == c ==> o == p.partner
    ensures p.initiator != c ==> o == p.initiator
  {
    if p.initiator == c then p.partner else p.initiator
  }

  /** `Equipment.find({ company: o, _id: { $nin: restricted } })`, in store order. */
  function Owned(fleet: Fleet, o: CompanyId, restricted: seq<EquipmentId>): (r: seq<EquipmentId>)
    ensures |r| <= |fleet|
    ensures forall e :: e in r <==> (e, o) in fleet && e !in restricted
  {
    if |fleet| == 0 then []
    else
      var last := fleet[|fleet| - 1];
      assert fleet == fleet[..|fleet| - 1] + [last];
      Owned(fleet[..|fleet| - 1], o, restricted) + (if last.1 == o && last.0 !in restricted then [last.0] else [])
  }

  function Tag(es: seq<EquipmentId>, pid: PartnershipId, o: CompanyId): (r: seq<Shared>)
    ensures |r| == |es|
    ensures forall i :: 0 <= i < |es| ==> r[i] == Shared(es[i], pid, o)
  {
    seq(|es|, i requires 0 <= i < |es| => Shared(es[i], pid, o))
  }

  /** What one accepted partnership adds to the list: nothing unless viewing is allowed,
      otherwise the other side's unrestricted equipment. */
  function Contribution(m: map<PartnershipId, Partnership>, pid: PartnershipId, fleet: Fleet, c: CompanyId): seq<Shared>
    requires pid in m
  {
    var p := m[pid];
    var o := OtherSide(p, c);
    if p.access.allowViewing then Tag(Owned(fleet, o, p.access.restricted), pid, o) else []
  }

  function VisibleSpec(m: map<PartnershipId, Partnership>, found: seq<PartnershipId>, fleet: Fleet, c: CompanyId): seq<Shared>
    requires forall k :: k in found ==> k in m
  {
    if |found| == 0 then []
    else VisibleSpec(m, found[..|found| - 1], fleet, c) + Contribution(m, found[|found| - 1], fleet, c)
  }

  /** `found` lists, once each, exactly the accepted records that involve `c`: what the
      query of the route returns, in whatever order the store yields them. */
  ghost predicate AcceptedInvolving(m: map<PartnershipId, Partnership>, c: CompanyId, found: seq<PartnershipId>) {
    && (forall k :: k in found ==> k in m && m[k].status == Accepted && Involves(m[k], c))
    && (forall k :: k in m && m[k].status == Accepted && Involves(m[k], c) ==> k in found)
    && (forall i, j :: 0 <= i < j < |found| ==> found[i] != found[j])
  }

  /** `GET /equipment` */
  method VisibleEquipment(store: PartnershipStore, caller: Option<CompanyId>, found: seq<PartnershipId>, fleet: Fleet)
    returns (reply: Reply<seq<Shared>>)
    requires caller.Some? ==> AcceptedInvolving(store.records, caller.value, found)
    ensures caller.None? ==> reply == Failure(400)
    ensures caller.Some? ==> reply == Success(200, VisibleSpec(store.records, found, fleet, caller.value))
  {
    if caller.None? {
      return Failure(400);
    }
    var c := caller.value;
    var acc: seq<Shared> := [];
    var i := 0;
    while i < |found|
      invariant 0 <= i <= |found|
      invariant acc == VisibleSpec(store.records, found[..i], fleet, c)
    {
      var pid := found[i];
      var p := store.records[pid];
      var other := if p.initiator == c then p.partner else p.initiator;
      if p.access.allowViewing {
        acc := acc + Tag(Owned(fleet, other, p.access.restricted), pid, other);
      }
      assert found[..i + 1][..i] == found[..i];
      i := i + 1;
    }
    assert found[..|found|] == found;
    reply := Success(200, acc);
  }

  /** An entry is listed exactly when it is unrestricted equipment of the other side of a
      listed partnership that allows viewing. */
  lemma {:induction false} VisibleMembership(m: map<PartnershipId, Partnership>, found: seq<PartnershipId>, fleet: Fleet, c: CompanyId, x: Shared)
    requires forall k :: k in found ==> k in m
    ensures x in VisibleSpec(m, found, fleet, c) <==>
              && x.partnershipId in found
              && m[x.partnershipId].access.allowViewing
              && x.partnerCompany == OtherSide(m[x.partnershipId], c)
              && (x.equipment, x.partnerCompany) in fleet
              && x.equipment !in m[x.partnershipId].access.restricted
  {
    if |found| > 0 {
      var init := found[..|found| - 1];
      var pid := found[|found| - 1];
      VisibleMembership(m, init, fleet, c, x);
      assert found == init + [pid];
      var tail := Contribution(m, pid, fleet, c);
      if x in tail {
        var i :| 0 <= i < |tail| && tail[i] == x;
      }
      if x.partnershipId == pid && m[pid].access.allowViewing && x.partnerCompany == OtherSide(m[pid], c)
         && (x.equipment, x.partnerCompany) in fleet && x.equipment !in m[pid].access.restricted {
        var es := Owned(fleet, OtherSide(m[pid], c), m[pid].access.restricted);
        var i :| 0 <= i < |es| && es[i] == x.equipment;
        assert tail[i] == x;
      }
    }
  }

  // ---------------------------------------------------------------- statistics

  function ActiveCount(m: map<PartnershipId, Partnership>, c: CompanyId): nat {
    |set k | k in m && m[k].status == Accepted && Involves(m[k], c)|
  }

  function PendingReceived(m: map<PartnershipId, Partnership>, c: CompanyId): nat {
    |set k | k in m && m[k].partner == c && m[k].status == Pending|
  }

  function PendingSent(m: map<PartnershipId, Partnership>, c: CompanyId): nat {
    |set k | k in m && m[k].initiator == c && m[k].status == Pending|
  }

  /** `reportsReceivedViaPartners` counts every anomaly reported through a partnership,
      whichever company asks. */
  function CountTrue(flags: seq<bool>): (n: nat)
    ensures n <= |flags|
    ensures n == |flags| <==> forall i :: 0 <= i < |flags| ==> flags[i]
  {
    if |flags| == 0 then 0 else CountTrue(flags[..|flags| - 1]) + (if flags[|flags| - 1] then 1 else 0)
  }

  function Max0(x: int): nat {
    if x > 0 then x else 0
  }

  /** What one accepted partnership adds to `totalSharedEquipment`: the other side's
      equipment count, less the number of restricted ids (floored at zero). */
  function Shares(m: map<PartnershipId, Partnership>, pid: PartnershipId, fleet: Fleet, c: CompanyId): nat
    requires pid in m
  {
    var p := m[pid];
    if !p.access.allowViewing then 0
    else
      var count := |Owned(fleet, OtherSide(p, c), [])|;
      if |p.access.restricted| > 0 then Max0(count - |p.access.restricted|) else count
  }

  function SharedSpec(m: map<PartnershipId, Partnership>, found: seq<PartnershipId>, fleet: Fleet, c: CompanyId): nat
    requires forall k :: k in found ==> k in m
  {
    if |found| == 0 then 0
    else SharedSpec(m, found[..|found| - 1], fleet, c) + Shares(m, found[|found| - 1], fleet, c)
  }

  datatype Stats = Stats(
    activePartnerships: nat,
    pendingInvitations: nat,
    sentInvitations: nat,
    totalSharedEquipment: nat,
    reportsReceivedViaPartners: nat)

  /** `GET /stats`. `viaPartner` holds the `reportedViaPartnership` flag of every anomaly. */
  method PartnershipStats(store: PartnershipStore, caller: Option<CompanyId>, found: seq<PartnershipId>, fleet: Fleet, viaPartner: seq<bool>)
    returns (reply: Reply<Stats>)
    requires caller.Some? ==> AcceptedInvolving(store.records, caller.value, found)
    ensures caller.None? ==> reply == Failure(400)
    ensures caller.Some? ==>
              var c := caller.value;
              reply == Success(200, Stats(ActiveCount(store.records, c), PendingReceived(store.records, c),
                                          PendingSent(store.records, c), SharedSpec(store.records, found, fleet, c),
                                          CountTrue(viaPartner)))
  {
    if caller.None? {
      return Failure(400);
    }
    var c := caller.value;
    var total := 0;
    var i := 0;
    while i < |found|
      invariant 0 <= i <= |found|
      invariant total == SharedSpec(store.records, found[..i], fleet, c)
    {
      var p := store.records[found[i]];
      var other := if p.initiator == c then p.partner else p.initiator;
      if p.access.allowViewing {
        var count := |Owned(fleet, other, [])|;
        if |p.access.restricted| > 0 {
          total := total + Max0(count - |p.access.restricted|);
        } else {
          total := total + count;
        }
      }
      assert found[..i + 1][..i] == found[..i];
      i := i + 1;
    }
    assert found[..|found|] == found;
    reply := Success(200, Stats(ActiveCount(store.records, c), PendingReceived(store.records, c),
                                PendingSent(store.records, c), total, CountTrue(viaPartner)));
  }

  /** `activePartnerships` is the number of partnerships the listing walks through. */
  lemma ActiveCountIsFound(m: map<PartnershipId, Partnership>, c: CompanyId, found: seq<PartnershipId>)
    requires AcceptedInvolving(m, c, found)
    ensures ActiveCount(m, c) == |found|
  {
    assert (set k | k in m && m[k].status == Accepted && Involves(m[k], c)) == Elems(found);
    DistinctCard(found);
  }

  function Elems(s: seq<PartnershipId>): set<PartnershipId> {
    set k | k in s
  }

  lemma {:induction false} DistinctCard(s: seq<PartnershipId>)
    requires forall i, j :: 0 <= i < j < |s| ==> s[i] != s[j]
    ensures |Elems(s)| == |s|
  {
    if |s| > 0 {
      var init := s[..|s| - 1];
      var last := s[|s| - 1];
      DistinctCard(init);
      assert s == init + [last];
      assert last !in init by {
        forall i | 0 <= i < |init| ensures init[i] != last {
          assert init[i] == s[i];
        }
      }
      assert Elems(s) == Elems(init) + {last};
    }
  }

  /** Without restrictions the shared-equipment total is the length of the equipment list. */
  lemma {:induction false} SharedMatchesVisible(m: map<PartnershipId, Partnership>, found: seq<PartnershipId>, fleet: Fleet, c: CompanyId)
    requires forall k :: k in found ==> k in m && m[k].access.restricted == []
    ensures SharedSpec(m, found, fleet, c) == |VisibleSpec(m, found, fleet, c)|
  {
    if |found| > 0 {
      SharedMatchesVisible(m, found[..|found| - 1], fleet, c);
    }
  }
}
