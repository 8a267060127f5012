/** The Partnership collection: directed records `initiator -> partner`, the schema's
    enum, defaults and unique `(initiator, partner)` index, and the three model helpers
    `createBidirectional`, `accept` and `decline`. */
module Partnerships {
  import opened Common

  type CompanyId = nat
  type EquipmentId = nat
  type PartnershipId = nat

  /** The `status` enum of the schema. */
  datatype Status = Pending | Accepted | Declined | Suspended

  function StatusName(s: Status): string {
    match s
    case Pending => "pending"
    case Accepted => "accepted"
    case Declined => "declined"
    case Suspended => "suspended"
  }

  /** The enum validator that `save()` runs: a status string is storable only when it
      names one of the four members. */
  function ParseStatus(x: string): (r: Option<Status>)
    ensures r.Some? ==> StatusName(r.value) == x
    ensures r.None? <==> forall s: Status :: StatusName(s) != x
  {
    if x == "pending" then Some(Pending)
    else if x == "accepted" then Some(Accepted)
    else if x == "declined" then Some(Declined)
    else if x == "suspended" then Some(Suspended)
    else None
  }

  lemma ParseStatusName(s: Status)
    ensures ParseStatus(StatusName(s)) == Some(s)
  {
  }

  datatype Contact = Contact(name: string, email: string, phone: Option<string>)

  /** What the partner may do with the initiator's equipment. */
  datatype Access = Access(allowReporting: bool, allowViewing: bool, restricted: seq<EquipmentId>)

  datatype Metrics = Metrics(reportsReceived: nat, reportsProvided: nat, lastActivity: Millis)

  datatype Partnership = Partnership(
    initiator: CompanyId,
    partner: CompanyId,
    status: Status,
    invitationMessage: Option<string>,
    contact: Contact,
    access: Access,
    metrics: Metrics,
    createdAt: Millis,
    acceptedAt: Option<Millis>,
    suspendedAt: Option<Millis>)

  /** `equipmentAccess` when the document does not set it. */
  const DefaultAccess := Access(true, true, [])

  /** A new document: every field the caller leaves out takes the schema default. */
  function NewPartnership(initiator: CompanyId, partner: CompanyId, contact: Contact,
                          message: Option<string>, access: Option<Access>, now: Millis): (p: Partnership)
    ensures p.status == Pending
    ensures p.metrics.reportsReceived == 0 && p.metrics.reportsProvided == 0
    ensures p.access == (if access.Some? then access.value else DefaultAccess)
    ensures p.acceptedAt.None? && p.suspendedAt.None?
  {
    Partnership(initiator, partner, Pending, message, contact,
                if access.Some? then access.value else DefaultAccess,
                Metrics(0, 0, now), now, None, None)
  }

  /** The `required` validators of `contactPerson.name` and `contactPerson.email`. */
  predicate Required(p: Partnership) {
    p.contact.name != "" && p.contact.email != ""
  }

  predicate SamePair(p: Partnership, q: Partnership) {
    p.initiator == q.initiator && p.partner == q.partner
  }

  /** `q` is the record with initiator and partner swapped. */
  predicate IsReverse(q: Partnership, p: Partnership) {
    q.initiator == p.partner && q.partner == p.initiator
  }

  /** The unique `(initiator, partner)` index. */
  ghost predicate UniquePairs(m: map<PartnershipId, Partnership>) {
    forall i, j :: i in m && j in m && SamePair(m[i], m[j]) ==> i == j
  }

  predicate HasPair(m: map<PartnershipId, Partnership>, a: CompanyId, b: CompanyId) {
    exists id :: id in m && m[id].initiator == a && m[id].partner == b
  }

  function WithStatus(p: Partnership, s: Status): Partnership {
    p.(status := s)
  }

  function WithAccepted(p: Partnership, t: Millis): Partnership {
    p.(status := Accepted, acceptedAt := Some(t))
  }

  /** The store after `accept` on `id`: the record itself is accepted at `t`, and every record
      with swapped parties (at most one under the unique index) is accepted at `tr`. */
  function AcceptBoth(m: map<PartnershipId, Partnership>, id: PartnershipId, t: Millis, tr: Millis): (r: map<PartnershipId, Partnership>)
    requires id in m
  {
    map k | k in m :: if IsReverse(m[k], m[id]) then WithAccepted(m[k], tr)
                      else if k == id then WithAccepted(m[k], t) else m[k]
  }

  /** The store after `decline` on `id`: the record and its reverse become declined. */
  function DeclineBoth(m: map<PartnershipId, Partnership>, id: PartnershipId): (r: map<PartnershipId, Partnership>)
    requires id in m
  {
    map k | k in m :: if k == id || IsReverse(m[k], m[id]) then WithStatus(m[k], Declined) else m[k]
  }

  /** After `accept`, the named record and its reverse agree on `accepted`, whatever their
      prior status, and no other record changes. */
  lemma AcceptBothLockstep(m: map<PartnershipId, Partnership>, id: PartnershipId, t: Millis, tr: Millis)
    requires id in m
    ensures var r := AcceptBoth(m, id, t, tr);
      && r.Keys == m.Keys
      && r[id].status == Accepted && r[id].acceptedAt.Some?
      && (forall k :: k in m && IsReverse(m[k], m[id]) ==> r[k].status == Accepted && r[k].acceptedAt == Some(tr))
      && (forall k :: k in m && k != id && !IsReverse(m[k], m[id]) ==> r[k] == m[k])
      && (forall k :: k in m ==> SamePair(r[k], m[k]))
  {
  }

  /** After `decline`, the named record and its reverse are declined, no timestamp is set and
      no other record changes. */
  lemma DeclineBothLockstep(m: map<PartnershipId, Partnership>, id: PartnershipId)
    requires id in m
    ensures var r := DeclineBoth(m, id);
      && r.Keys == m.Keys
      && r[id].status == Declined
      && (forall k :: k in m && IsReverse(m[k], m[id]) ==> r[k].status == Declined)
      && (forall k :: k in m ==> r[k].acceptedAt == m[k].acceptedAt && SamePair(r[k], m[k]))
      && (forall k :: k in m && k != id && !IsReverse(m[k], m[id]) ==> r[k] == m[k])
  {
  }

  /** Neither helper looks at the prior status: `decline` turns an accepted pair into a
      declined one. */
  lemma DeclineIgnoresPriorStatus(m: map<PartnershipId, Partnership>, id: PartnershipId)
    requires id in m && m[id].status == Accepted
    ensures DeclineBoth(m, id)[id].status == Declined
  {
  }

  /** What `createBidirectional` passes on to the two documents. */
  datatype Invitation = Invitation(contact: Option<Contact>, message: Option<string>, access: Option<Access>)

  /** A missing `contactPerson` leaves both required fields empty. */
  function ContactOf(d: Invitation): Contact {
    if d.contact.Some? then d.contact.value else Contact("", "", None)
  }

  /** The record `a -> b` of a bidirectional pair: the invitation data spread over the defaults. */
  function Forward(a: CompanyId, b: CompanyId, d: Invitation, now: Millis): Partnership {
    NewPartnership(a, b, ContactOf(d), d.message, d.access, now)
  }

  /** The record `b -> a`: pending, with the contact and access of the invitation and a
      generated message naming the contact (or "Unknown"). */
  function Backward(a: CompanyId, b: CompanyId, d: Invitation, now: Millis): (p: Partnership)
    ensures IsReverse(p, Forward(a, b, d, now)) && p.status == Pending
    ensures p.contact == Forward(a, b, d, now).contact && p.access == Forward(a, b, d, now).access
  {
    var who := if ContactOf(d).name != "" then ContactOf(d).name else "Unknown";
    NewPartnership(b, a, ContactOf(d), Some("Partnership invitation from " + who), d.access, now)
  }

  /** Both saves of `createBidirectional` succeed exactly when the contact is complete, no
      record exists in either direction, and the two companies differ (otherwise the second
      document repeats the first one's pair). */
  predicate PairCreatable(m: map<PartnershipId, Partnership>, a: CompanyId, b: CompanyId, d: Invitation) {
    ContactOf(d).name != "" && ContactOf(d).email != "" && !HasPair(m, a, b) && !HasPair(m, b, a) && a != b
  }

  class PartnershipStore {
    var records: map<PartnershipId, Partnership>
    /** Source of fresh document ids. */
    var nextId: PartnershipId

    /** Every id was handed out, the unique index holds and every stored document passed
        the `required` validators. */
    ghost predicate Valid()
      reads this
    {
      && (forall id :: id in records ==> id < nextId)
      && UniquePairs(records)
      && (forall id :: id in records ==> Required(records[id]))
    }

    constructor ()
      ensures Valid() && records == map[]
    {
      records := map[];
      nextId := 0;
    }

    /** `findOne({ initiator: a, partner: b })` */
    method FindByPair(a: CompanyId, b: CompanyId) returns (r: Option<PartnershipId>)
      ensures r.Some? ==> r.value in records && records[r.value].initiator == a && records[r.value].partner == b
      ensures r.None? <==> !HasPair(records, a, b)
    {
      var ks := records.Keys;
      while ks != {}
        invariant ks <= records.Keys
        invariant forall k :: k in records && k !in ks ==> !(records[k].initiator == a && records[k].partner == b)
        decreases |ks|
      {
        var k :| k in ks;
        if records[k].initiator == a && records[k].partner == b {
          return Some(k);
        }
        ks := ks - {k};
      }
      return None;
    }

    /** `save()` of a new document: refused by the `required` validators or by the unique
        index, otherwise stored under a fresh id. */
    method Insert(p: Partnership) returns (r: Option<PartnershipId>)
      requires Valid()
      modifies this
      ensures Valid()
      ensures r.Some? <==> Required(p) && !HasPair(old(records), p.initiator, p.partner)
      ensures r.Some? ==> r.value !in old(records) && records == old(records)[r.value := p]
      ensures old(nextId) <= nextId
      ensures r.None? ==> records == old(records)
    {
      var clash := FindByPair(p.initiator, p.partner);
      if !Required(p) || clash.Some? {
        return None;
      }
      r := Some(nextId);
      records := records[nextId := p];
      nextId := nextId + 1;
    }

    /** `save()` of a loaded document whose parties are unchanged. */
    method Update(id: PartnershipId, p: Partnership)
      requires Valid() && id in records && SamePair(records[id], p) && Required(p)
      modifies this
      ensures Valid()
      ensures records == old(records)[id := p]
    {
      records := records[id := p];
    }

    /** `Partnership.createBidirectional(a, b, d)`: both records are saved inside one
        transaction; if either save fails the transaction aborts and neither is stored. */
    method CreateBidirectional(a: CompanyId, b: CompanyId, d: Invitation, now: Millis)
      returns (r: Option<(PartnershipId, PartnershipId)>)
      requires Valid()
      modifies this
      ensures Valid()
      ensures r.Some? <==> PairCreatable(old(records), a, b, d)
      ensures r.Some? ==> r.value.0 !in old(records) && r.value.1 !in old(records) && r.value.0 != r.value.1
      ensures r.Some? ==> records == old(records)[r.value.0 := Forward(a, b, d, now)][r.value.1 := Backward(a, b, d, now)]
      ensures r.None? ==> records == old(records)
    {
      var before := records;
      var first := Insert(Forward(a, b, d, now));
      if first.None? {
        return None;
      }
      ghost var mid := records;
      assert a != b ==> !HasPair(mid, b, a) == !HasPair(before, b, a) by {
        if a != b && HasPair(mid, b, a) {
          var k :| k in mid && mid[k].initiator == b && mid[k].partner == a;
          assert k in before;
        }
        if HasPair(before, b, a) {
          var k :| k in before && before[k].initiator == b && before[k].partner == a;
          assert k in mid;
        }
      }
      assert HasPair(mid, a, b) by { assert mid[first.value] == Forward(a, b, d, now); }
      var second := Insert(Backward(a, b, d, now));
      if second.None? {
        // abortTransaction: the first write is undone
        assert HasPair(records, b, a) <==> HasPair(before, b, a) || a == b by {
          if a == b { assert records[first.value].initiator == b && records[first.value].partner == a; }
          if HasPair(records, b, a) {
            var k :| k in records && records[k].initiator == b && records[k].partner == a;
            if k != first.value { assert k in before; }
          }
          if HasPair(before, b, a) {
            var k :| k in before && before[k].initiator == b && before[k].partner == a;
            assert k in records;
          }
        }
        records := before;
        return None;
      }
      r := Some((first.value, second.value));
    }

    /** `partnership.accept()`: the record becomes accepted with a timestamp, then the record
        with swapped parties, if one exists, becomes accepted too; a missing reverse is
        ignored. Returns the document as updated in memory. */
    method Accept(id: PartnershipId, now: Millis, nowReverse: Millis) returns (p: Partnership)
      requires Valid() && id in records
      modifies this
      ensures Valid()
      ensures p == WithAccepted(old(records)[id], now)
      ensures records == AcceptBoth(old(records), id, now, nowReverse)
    {
      ghost var m := records;
      p := WithAccepted(records[id], now);
      Update(id, p);
      var rev := FindByPair(p.partner, p.initiator);
      if rev.Some? {
        var q := rev.value;
        assert IsReverse(m[q], m[id]);
        assert forall k :: k in m && IsReverse(m[k], m[id]) ==> k == q;
        Update(q, WithAccepted(records[q], nowReverse));
        assert records == AcceptBoth(m, id, now, nowReverse);
      } else {
        forall k | k in m ensures !IsReverse(m[k], m[id]) {
          assert k in records && records[k].initiator == m[k].initiator && records[k].partner == m[k].partner;
        }
        assert records == AcceptBoth(m, id, now, nowReverse);
      }
    }

    /** `partnership.decline()`: the record and its reverse, if any, become declined. */
    method Decline(id: PartnershipId) returns (p: Partnership)
      requires Valid() && id in records
      modifies this
      ensures Valid()
      ensures p == WithStatus(old(records)[id], Declined)
      ensures records == DeclineBoth(old(records), id)
    {
      ghost var m := records;
      p := WithStatus(records[id], Declined);
      Update(id, p);
      var rev := FindByPair(p.partner, p.initiator);
      if rev.Some? {
        var q := rev.value;
        assert IsReverse(m[q], m[id]);
        assert forall k :: k in m && IsReverse(m[k], m[id]) ==> k == q;
        Update(q, WithStatus(records[q], Declined));
        assert records == DeclineBoth(m, id);
      } else {
        forall k | k in m ensures !IsReverse(m[k], m[id]) {
          assert k in records && records[k].initiator == m[k].initiator && records[k].partner == m[k].partner;
        }
        assert records == DeclineBoth(m, id);
      }
    }
  }
}
