/**
 * CumbriaEAC shelters: checking people in and out of a shelter updates
 * their shelter registration; checking staff in and out moves their
 * site assignment and logs a site event.
 */
module Shelter {
  import opened Wrappers

  /** Shelter status options: Closed, Green, Amber, Red (2, Open, is not offered). */
  const Closed := 1
  const StatusOptions: set<int> := {1, 3, 4, 5}
  /** The default status of a new shelter: Green. */
  const DefaultStatus := 3
  /** The statuses the shelter list shows unless the user changes the filter. */
  const DefaultFilter: set<int> := {3, 4, 5}

  /** The default status is an option, and the default filter hides exactly the closed shelters. */
  lemma StatusDefaults()
    ensures DefaultStatus in StatusOptions
    ensures DefaultFilter == StatusOptions - {Closed}
    ensures forall s :: s in StatusOptions ==> (s in DefaultFilter <==> s != Closed)
  {
  }

  /** Registration statuses written by the check-in/out hooks. */
  const CheckedIn := 2
  const CheckedOut := 3

  /** Site event codes. */
  const EventCheckIn := 3
  const EventCheckOut := 4

  datatype ShelterRow = ShelterRow(id: int, siteId: Option<int>)

  datatype Registration = Registration(id: int, shelterId: int, personId: int, deleted: bool,
                                       status: int, checkInDate: Option<int>, checkOutDate: Option<int>)

  datatype HumanResource = HumanResource(id: int, personId: Option<int>, siteId: Option<int>)

  /** A row of hrm_human_resource_site. */
  datatype HrSite = HrSite(id: int, hrId: int, siteId: Option<int>)

  datatype SiteEvent = SiteEvent(siteId: Option<int>, personId: Option<int>, event: int)

  /** The registration query: a live registration of the person at a shelter with this site. */
  predicate AtSite(shelters: seq<ShelterRow>, r: Registration, siteId: Option<int>, personId: int) {
    && r.personId == personId && !r.deleted
    && exists s :: 0 <= s < |shelters| && shelters[s].siteId == siteId && shelters[s].id == r.shelterId
  }

  function RegistrationIndex(shelters: seq<ShelterRow>, regs: seq<Registration>, siteId: Option<int>, personId: int): Option<nat> {
    FirstIndex(regs, (r: Registration) => AtSite(shelters, r, siteId, personId))
  }

  /** site_check_in (`checkIn`) or site_check_out on the registrations, at time `now`. */
  function CheckSpec(shelters: seq<ShelterRow>, regs: seq<Registration>, siteId: Option<int>, personId: int,
                     now: int, checkIn: bool): seq<Registration>
  {
    match RegistrationIndex(shelters, regs, siteId, personId)
    case None => regs
    case Some(k) =>
      regs[k := if checkIn then regs[k].(checkInDate := Some(now), status := CheckedIn)
                else regs[k].(checkOutDate := Some(now), status := CheckedOut)]
  }

  /**
   * With a registration, the first one found gets the new status and the
   * date (the other date keeps its value) and nothing else changes;
   * without one, nothing changes.
   */
  lemma CheckEffect(shelters: seq<ShelterRow>, regs: seq<Registration>, siteId: Option<int>, personId: int,
                    now: int, checkIn: bool)
    ensures var r := CheckSpec(shelters, regs, siteId, personId, now, checkIn);
            var k := RegistrationIndex(shelters, regs, siteId, personId);
            && |r| == |regs|
            && (k.None? <==> forall j :: 0 <= j < |regs| ==> !AtSite(shelters, regs[j], siteId, personId))
            && (k.None? ==> r == regs)
            && (k.Some? ==>
                  && AtSite(shelters, regs[k.value], siteId, personId)
                  && r[k.value].status == (if checkIn then CheckedIn else CheckedOut)
                  && (checkIn ==> r[k.value] == regs[k.value].(status := CheckedIn, checkInDate := Some(now)))
                  && (!checkIn ==> r[k.value] == regs[k.value].(status := CheckedOut, checkOutDate := Some(now)))
                  && forall j :: 0 <= j < |r| && j != k.value ==> r[j] == regs[j])
  {
  }

  /** Checking in twice at the same time gives the same table as checking in once. */
  lemma CheckIdempotent(shelters: seq<ShelterRow>, regs: seq<Registration>, siteId: Option<int>, personId: int,
                        now: int, checkIn: bool)
    ensures var r := CheckSpec(shelters, regs, siteId, personId, now, checkIn);
            CheckSpec(shelters, r, siteId, personId, now, checkIn) == r
  {
    var p := (r: Registration) => AtSite(shelters, r, siteId, personId);
    var k := RegistrationIndex(shelters, regs, siteId, personId);
    var r := CheckSpec(shelters, regs, siteId, personId, now, checkIn);
    if k.Some? {
      assert forall j :: 0 <= j < |r| ==> (p(r[j]) <==> p(regs[j]));
      assert RegistrationIndex(shelters, r, siteId, personId) == k;
    }
  }

  /** staff_checkout: the link, the staff member and the event that it touches. */
  function CheckoutSpec(db: Db, shelterId: int, linkId: int): Result<Db> {
    match FirstIndex(db.shelters, (s: ShelterRow) => s.id == shelterId)
    case None => Err(NotFound)
    case Some(s) =>
      match StaffOfLink(db, linkId)
      case None => Err(NotFound)
      case Some(h) =>
        var hr := db.hrs[h];
        Ok(db.(links := RemoveLinks(db.links, (l: HrSite) => l.id == linkId),
               hrs := db.hrs[h := hr.(siteId := None)],
               events := db.events + [SiteEvent(db.shelters[s].siteId, hr.personId, EventCheckOut)]))
  }

  /** The staff record of the link `linkId` (the join of the link and the HR table). */
  function StaffOfLink(db: Db, linkId: int): Option<nat> {
    match FirstIndex(db.links, (l: HrSite) => l.id == linkId)
    case None => None
    case Some(l) => FirstIndex(db.hrs, (h: HumanResource) => h.id == db.links[l].hrId)
  }

  /** `db(query).delete()` on the link table. */
  function RemoveLinks(links: seq<HrSite>, p: HrSite -> bool): (r: seq<HrSite>)
    ensures forall l :: l in r <==> l in links && !p(l)
    ensures |r| <= |links|
    decreases |links|
  {
    if links == [] then []
    else
      assert forall l :: l in links <==> l == links[0] || l in links[1..];
      (if p(links[0]) then [] else [links[0]]) + RemoveLinks(links[1..], p)
  }

  /** staff_check_in, called when the link `linkId` (None if the form has no id) to the HR `hrId` is created. */
  function CheckInSpec(db: Db, shelterId: int, hrId: Option<int>, linkId: Option<int>): Result<Db> {
    match FirstIndex(db.shelters, (s: ShelterRow) => s.id == shelterId)
    case None => Err(NotFound)
    case Some(s) =>
      var siteId := db.shelters[s].siteId;
      match FirstIndex(db.hrs, (h: HumanResource) => Some(h.id) == hrId)
      case None => Err(NotFound)
      case Some(h) =>
        var hr := db.hrs[h];
        Ok(db.(hrs := db.hrs[h := hr.(siteId := siteId)],
               links := RemoveLinks(db.links, (l: HrSite) => Replaced(l, hrId, linkId)),
               events := db.events + [SiteEvent(siteId, hr.personId, EventCheckIn)]))
  }

  datatype Db = Db(shelters: seq<ShelterRow>, registrations: seq<Registration>, hrs: seq<HumanResource>,
                   links: seq<HrSite>, events: seq<SiteEvent>)

  /**
   * staff_checkout removes exactly the addressed link, clears the staff
   * member's site, leaves every other staff record, shelter and
   * registration alone and logs one check-out event of that person for
   * the shelter's site; a missing shelter or staff record raises, and
   * nothing is kept.
   */
  lemma CheckoutEffect(db: Db, shelterId: int, linkId: int)
    ensures var r := CheckoutSpec(db, shelterId, linkId);
            && (r.Err? <==> FirstIndex(db.shelters, (s: ShelterRow) => s.id == shelterId).None? || StaffOfLink(db, linkId).None?)
            && (r.Ok? ==>
                  var h := StaffOfLink(db, linkId).value;
                  var db' := r.value;
                  && db'.shelters == db.shelters && db'.registrations == db.registrations
                  && (forall l :: l in db'.links <==> l in db.links && l.id != linkId)
                  && db'.hrs[h].siteId.None?
                  && (forall j :: 0 <= j < |db.hrs| && j != h ==> db'.hrs[j] == db.hrs[j])
                  && |db'.events| == |db.events| + 1 && db'.events[..|db.events|] == db.events
                  && db'.events[|db.events|].event == EventCheckOut
                  && db'.events[|db.events|].personId == db.hrs[h].personId
                  && db'.events[|db.events|].siteId
                     == db.shelters[FirstIndex(db.shelters, (s: ShelterRow) => s.id == shelterId).value].siteId)
  {
    var r := CheckoutSpec(db, shelterId, linkId);
    if r.Ok? {
      var db' := r.value;
      assert db'.events[..|db.events|] == db.events;
    }
  }

  /** A link that staff_check_in deletes: another link of the same staff member. */
  predicate Replaced(l: HrSite, hrId: Option<int>, linkId: Option<int>) {
    Some(l.hrId) == hrId && Some(l.id) != linkId
  }

  /** The links of one staff member. */
  function LinksOf(links: seq<HrSite>, hrId: int): seq<HrSite>
    decreases |links|
  {
    if links == [] then []
    else (if links[0].hrId == hrId then [links[0]] else []) + LinksOf(links[1..], hrId)
  }

  /** The links of `hrId` with id `linkId`. */
  function Matching(links: seq<HrSite>, hrId: int, linkId: int): seq<HrSite>
    decreases |links|
  {
    if links == [] then []
    else (if links[0].hrId == hrId && links[0].id == linkId then [links[0]] else []) + Matching(links[1..], hrId, linkId)
  }

  /**
   * staff_check_in sets the staff member's site to the shelter's, leaves
   * every other staff record, shelter and registration alone and logs a
   * check-in event; when the new link is in the table (with unique ids),
   * it is afterwards the one link of the staff member, and no other staff
   * member's link is removed.
   */
  lemma CheckInEffect(db: Db, shelterId: int, hrId: int, linkId: int)
    requires forall i, j :: 0 <= i < j < |db.links| ==> db.links[i].id != db.links[j].id
    requires exists i :: 0 <= i < |db.links| && db.links[i] == HrSite(linkId, hrId, db.links[i].siteId)
    ensures var r := CheckInSpec(db, shelterId, Some(hrId), Some(linkId));
            r.Ok? ==>
              var s := FirstIndex(db.shelters, (s: ShelterRow) => s.id == shelterId).value;
              var h := FirstIndex(db.hrs, (h: HumanResource) => Some(h.id) == Some(hrId)).value;
              var db' := r.value;
              && db'.shelters == db.shelters && db'.registrations == db.registrations
              && |db'.hrs| == |db.hrs| && db'.hrs[h].siteId == db.shelters[s].siteId
              && (forall j :: 0 <= j < |db.hrs| && j != h ==> db'.hrs[j] == db.hrs[j])
              && |LinksOf(db'.links, hrId)| == 1 && LinksOf(db'.links, hrId)[0].id == linkId
              && (forall l :: l in db.links && l.hrId != hrId ==> l in db'.links)
              && db'.events == db.events + [SiteEvent(db.shelters[s].siteId, db.hrs[h].personId, EventCheckIn)]
  {
    var r := CheckInSpec(db, shelterId, Some(hrId), Some(linkId));
    if r.Ok? {
      var i :| 0 <= i < |db.links| && db.links[i] == HrSite(linkId, hrId, db.links[i].siteId);
      OneLinkLeft(db.links, hrId, linkId, i);
    }
  }

  /** Removing the other links of `hrId` leaves only the link `i`. */
  lemma OneLinkLeft(links: seq<HrSite>, hrId: int, linkId: int, i: nat)
    requires i < |links| && links[i].id == linkId && links[i].hrId == hrId
    requires forall a, b :: 0 <= a < b < |links| ==> links[a].id != links[b].id
    ensures LinksOf(RemoveLinks(links, (l: HrSite) => Replaced(l, Some(hrId), Some(linkId))), hrId) == [links[i]]
  {
    KeptLinks(links, hrId, linkId);
    TheLink(links, hrId, linkId, i);
  }

  /** The links of `hrId` that survive are those with the new link's id. */
  lemma {:induction false} KeptLinks(links: seq<HrSite>, hrId: int, linkId: int)
    ensures LinksOf(RemoveLinks(links, (l: HrSite) => Replaced(l, Some(hrId), Some(linkId))), hrId)
            == Matching(links, hrId, linkId)
    decreases |links|
  {
    if links != [] {
      var p := (l: HrSite) => Replaced(l, Some(hrId), Some(linkId));
      KeptLinks(links[1..], hrId, linkId);
      var head := if p(links[0]) then [] else [links[0]];
      LinksOfAppend(head, RemoveLinks(links[1..], p), hrId);
      assert LinksOf(head, hrId) == if links[0].hrId == hrId && links[0].id == linkId then [links[0]] else [] by {
        if head != [] {
          assert head[1..] == [];
        }
      }
    }
  }

  lemma {:induction false} LinksOfAppend(a: seq<HrSite>, b: seq<HrSite>, hrId: int)
    ensures LinksOf(a + b, hrId) == LinksOf(a, hrId) + LinksOf(b, hrId)
    decreases |a|
  {
    if a == [] {
      assert a + b == b;
    } else {
      var head := if a[0].hrId == hrId then [a[0]] else [];
      assert (a + b)[0] == a[0];
      assert (a + b)[1..] == a[1..] + b;
      LinksOfAppend(a[1..], b, hrId);
      calc {
        LinksOf(a + b, hrId);
        head + LinksOf(a[1..] + b, hrId);
        head + (LinksOf(a[1..], hrId) + LinksOf(b, hrId));
        { assert head + (LinksOf(a[1..], hrId) + LinksOf(b, hrId)) == head + LinksOf(a[1..], hrId) + LinksOf(b, hrId); }
        LinksOf(a, hrId) + LinksOf(b, hrId);
      }
    }
  }

  lemma {:induction false} TheLink(links: seq<HrSite>, hrId: int, linkId: int, i: nat)
    requires i < |links| && links[i].id == linkId && links[i].hrId == hrId
    requires forall a, b :: 0 <= a < b < |links| ==> links[a].id != links[b].id
    ensures Matching(links, hrId, linkId) == [links[i]]
    decreases |links|
  {
    if i == 0 {
      NoOtherMatch(links[1..], hrId, linkId);
    } else {
      TheLink(links[1..], hrId, linkId, i - 1);
    }
  }

  lemma {:induction false} NoOtherMatch(links: seq<HrSite>, hrId: int, linkId: int)
    requires forall k :: 0 <= k < |links| ==> links[k].id != linkId
    ensures Matching(links, hrId, linkId) == []
    decreases |links|
  {
    if links != [] {
      NoOtherMatch(links[1..], hrId, linkId);
    }
  }

  /** The shelter, registration, staff, link and event tables, updated in place. */
  class ShelterDb {
    var shelters: seq<ShelterRow>
    var registrations: seq<Registration>
    var hrs: seq<HumanResource>
    var links: seq<HrSite>
    var events: seq<SiteEvent>

    function State(): Db
      reads this
    {
      Db(shelters, registrations, hrs, links, events)
    }

    constructor (db: Db)
      ensures State() == db
    {
      shelters := db.shelters;
      registrations := db.registrations;
      hrs := db.hrs;
      links := db.links;
      events := db.events;
    }

    /**
     * site_check_in / site_check_out at time `now`. `hasOnaccept` says
     * whether a registration onaccept is configured; `called` is the
     * registration it was called with.
     */
    method SiteCheck(siteId: Option<int>, personId: int, now: int, checkIn: bool, hasOnaccept: bool)
      returns (called: Option<int>)
      modifies this
      ensures State() == old(State()).(registrations := CheckSpec(shelters, old(registrations), siteId, personId, now, checkIn))
      ensures var k := RegistrationIndex(shelters, old(registrations), siteId, personId);
              called == if k.Some? && hasOnaccept then Some(old(registrations)[k.value].id) else None
    {
      var k := RegistrationIndex(shelters, registrations, siteId, personId);
      if k.None? {
        return None;
      }
      var reg := registrations[k.value];
      if checkIn {
        registrations := registrations[k.value := reg.(checkInDate := Some(now), status := CheckedIn)];
      } else {
        registrations := registrations[k.value := reg.(checkOutDate := Some(now), status := CheckedOut)];
      }
      called := if hasOnaccept then Some(reg.id) else None;
    }

    /** staff_checkout; on an error (a missing row raises) the transaction is rolled back. */
    method StaffCheckout(shelterId: int, linkId: int) returns (r: Result<()>)
      modifies this
      ensures var spec := CheckoutSpec(old(State()), shelterId, linkId);
              (r.Ok? <==> spec.Ok?) && State() == if spec.Ok? then spec.value else old(State())
    {
      var s := FirstIndex(shelters, (s: ShelterRow) => s.id == shelterId);
      var h := StaffOfLink(State(), linkId);
      if s.None? || h.None? {
        return Err(NotFound);
      }
      var staff := hrs[h.value];
      links := RemoveLinks(links, (l: HrSite) => l.id == linkId);
      hrs := hrs[h.value := staff.(siteId := None)];
      events := events + [SiteEvent(shelters[s.value].siteId, staff.personId, EventCheckOut)];
      return Ok(());
    }

    /** staff_check_in; on an error (a missing row raises) the transaction is rolled back. */
    method StaffCheckIn(shelterId: int, hrId: Option<int>, linkId: Option<int>) returns (r: Result<()>)
      modifies this
      ensures var spec := CheckInSpec(old(State()), shelterId, hrId, linkId);
              (r.Ok? <==> spec.Ok?) && State() == if spec.Ok? then spec.value else old(State())
    {
      var s := FirstIndex(shelters, (s: ShelterRow) => s.id == shelterId);
      if s.None? {
        return Err(NotFound);
      }
      var siteId := shelters[s.value].siteId;
      var h := FirstIndex(hrs, (h: HumanResource) => Some(h.id) == hrId);
      if h.None? {
        return Err(NotFound);
      }
      var staff := hrs[h.value];
      hrs := hrs[h.value := staff.(siteId := siteId)];
      links := RemoveLinks(links, (l: HrSite) => Replaced(l, hrId, linkId));
      events := events + [SiteEvent(siteId, staff.personId, EventCheckIn)];
      return Ok(());
    }
  }
}
