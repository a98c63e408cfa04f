/** The route handlers' domain logic over an in-memory store: a registry of
    users and a collection of donations, each keyed by an id drawn from a
    counter. Every handler reads a record, checks its guards in the order the
    route does, and either fails with a specific error, leaving the store as
    it was, or writes the record back. The caller's id is what the token check
    yields; a caller id with no user behind it is what `findById` answering
    null looks like to the handler. */
module Server {
  import opened Types
  import opened Sorting
  import opened Listings
  import opened Eta
  import opened Stats

  /** The keys of `m` from 0 up to `n`, ascending: the order in which
      records with counter ids were inserted. */
  function IdsBelow<T>(m: map<int, T>, n: int): (ids: seq<int>)
    ensures forall i :: 0 <= i < |ids| ==> 0 <= ids[i] < n && ids[i] in m
    ensures forall i, j :: 0 <= i < j < |ids| ==> ids[i] < ids[j]
    ensures forall id :: 0 <= id < n && id in m ==> id in ids
    decreases n
  {
    if n <= 0 then []
    else IdsBelow(m, n - 1) + (if n - 1 in m then [n - 1] else [])
  }

  /** The values of `m` at the keys `ids`, in that order. */
  function ValuesAt<T>(m: map<int, T>, ids: seq<int>): (r: seq<T>)
    requires forall i :: 0 <= i < |ids| ==> ids[i] in m
    ensures |r| == |ids| && forall i :: 0 <= i < |r| ==> r[i] == m[ids[i]]
  {
    seq(|ids|, i requires 0 <= i < |ids| => m[ids[i]])
  }

  /** Every value of `m` at a key below `n`, and only those, in key order
      (the i-th is stored under the i-th key of `IdsBelow`); when no value is
      stored twice, each appears once. */
  function InIdOrder<T(==)>(m: map<int, T>, n: int): (r: seq<T>)
    requires forall id :: id in m ==> 0 <= id < n
    ensures forall x :: x in r ==> x in m.Values
    ensures forall x :: x in m.Values ==> x in r
    ensures (forall a, b :: a in m && b in m && m[a] == m[b] ==> a == b) ==> NoDupes(r)
    ensures var ids := IdsBelow(m, n);
            |r| == |ids| && forall i :: 0 <= i < |r| ==> r[i] == m[ids[i]]
  {
    var ids := IdsBelow(m, n);
    var r := ValuesAt(m, ids);
    forall x | x in m.Values ensures x in r {
      var id :| id in m && m[id] == x;
      var i :| 0 <= i < |ids| && ids[i] == id;
      assert r[i] == x;
    }
    r
  }

  /** The first user of `us` registered under `email`, as `findOne` returns it. */
  function FirstWithEmail(us: seq<User>, email: string): (r: Option<User>)
    ensures r.Some? ==> r.value in us && r.value.email == email
    ensures r.Some? ==> exists i :: 0 <= i < |us| && us[i] == r.value && FirstAt(us, email, i)
    ensures r.None? ==> forall i :: 0 <= i < |us| ==> us[i].email != email
  {
    if us == [] then None
    else if us[0].email == email then
      assert FirstAt(us, email, 0);
      Some(us[0])
    else
      var r := FirstWithEmail(us[1..], email);
      if r.Some? then FirstShift(us, email, r.value); r else r
  }

  /** Position `i` holds `email`, and no earlier position does. */
  predicate FirstAt(us: seq<User>, email: string, i: int)
  {
    0 <= i < |us| && us[i].email == email && forall j :: 0 <= j < i ==> us[j].email != email
  }

  /** A first occurrence in the tail, behind a head without the email, is a
      first occurrence in the whole sequence. */
  lemma FirstShift(us: seq<User>, email: string, u: User)
    requires us != [] && us[0].email != email
    requires exists i :: 0 <= i < |us[1..]| && us[1..][i] == u && FirstAt(us[1..], email, i)
    ensures exists i :: 0 <= i < |us| && us[i] == u && FirstAt(us, email, i)
  {
    var i :| 0 <= i < |us[1..]| && us[1..][i] == u && FirstAt(us[1..], email, i);
    forall j | 0 <= j < i + 1 ensures us[j].email != email {
      if j > 0 {
        assert us[j] == us[1..][j - 1];
      }
    }
    assert FirstAt(us, email, i + 1);
  }

  /** What a successful login hands back besides the token. */
  datatype LoginView = LoginView(id: UserId, name: string, email: string, role: Role, status: UserStatus)

  /** What the ETA route answers. */
  datatype EtaView = EtaView(status: DonationStatus, statusUpdatedAt: Millis, etaMinutes: int)

  /** Fields a donation keeps for its whole life once written: the donor
      snapshot and creation time never change, and a worker once assigned
      stays assigned. */
  ghost predicate Kept(before: map<DonationId, Donation>, after: map<DonationId, Donation>)
  {
    forall id :: id in before && id in after ==>
      var d, e := before[id], after[id];
      e.id == d.id && e.donorId == d.donorId && e.donorName == d.donorName
      && e.donorAddress == d.donorAddress && e.donorContact == d.donorContact
      && e.createdAt == d.createdAt
      && (d.worker.Some? ==> e.worker == d.worker)
  }

  class Store {
    var users: map<UserId, User>
    var donations: map<DonationId, Donation>
    var nextUserId: UserId
    var nextDonationId: DonationId

    /** Ids come from the counters and are stored in their records, and no
        two users share an email (the schema's unique index). */
    ghost predicate Valid()
      reads this
    {
      0 <= nextUserId && 0 <= nextDonationId
      && (forall id :: id in users ==> 0 <= id < nextUserId && users[id].id == id)
      && (forall id :: id in donations ==> 0 <= id < nextDonationId && donations[id].id == id)
      && (forall a, b :: a in users && b in users && users[a].email == users[b].email ==> a == b)
    }

    constructor ()
      ensures Valid()
      ensures users == map[] && donations == map[] && nextUserId == 0 && nextDonationId == 0
    {
      users := map[];
      donations := map[];
      nextUserId := 0;
      nextDonationId := 0;
    }

    /** The users in registration order, each once. */
    function UserRecords(): (r: seq<User>)
      reads this
      requires Valid()
      ensures forall u :: u in r <==> u in users.Values
      ensures NoDupes(r)
      ensures forall i, j :: 0 <= i < j < |r| ==> r[i].id < r[j].id
    {
      var r := InIdOrder(users, nextUserId);
      var ids := IdsBelow(users, nextUserId);
      assert forall i :: 0 <= i < |r| ==> r[i].id == ids[i];
      r
    }

    /** The donations in insertion order, each once. */
    function Records(): (r: seq<Donation>)
      reads this
      requires Valid()
      ensures forall d :: d in r <==> d in donations.Values
      ensures NoDupes(r)
      ensures forall i, j :: 0 <= i < j < |r| ==> r[i].id < r[j].id
    {
      var r := InIdOrder(donations, nextDonationId);
      var ids := IdsBelow(donations, nextDonationId);
      assert forall i :: 0 <= i < |r| ==> r[i].id == ids[i];
      r
    }

    /** The user registered under `email`, if any. */
    function FindByEmail(email: string): (r: Option<User>)
      reads this
      requires Valid()
      ensures r.Some? ==> r.value.id in users && users[r.value.id] == r.value && r.value.email == email
      ensures r.None? <==> forall id :: id in users ==> users[id].email != email
    {
      var r := FirstWithEmail(UserRecords(), email);
      if r.None? then
        assert forall id :: id in users ==> users[id] in UserRecords();
        r
      else
        assert r.value in users.Values;
        r
    }

    // -- User routes --

    /** POST /api/users/register. `hashed` is the salted hash the handler
        computes from `password`, whose length is counted in UTF-16 code
        units as JavaScript does. */
    method Register(email: string, password: string, hashed: string, role: Role, profile: Profile)
      returns (r: Result<User>)
      requires Valid()
      modifies this`users, this`nextUserId
      ensures Valid()
      ensures (email == "" || Utf16Length(password) < 6) ==>
                r == Err(ValidationFailed) && users == old(users) && nextUserId == old(nextUserId)
      ensures email != "" && Utf16Length(password) >= 6 && (exists id :: id in old(users) && old(users)[id].email == email) ==>
                r == Err(DuplicateEmail) && users == old(users) && nextUserId == old(nextUserId)
      ensures email != "" && Utf16Length(password) >= 6 && (forall id :: id in old(users) ==> old(users)[id].email != email) ==>
                var first := |old(users)| == 0;
                var u := User(old(nextUserId), email, hashed,
                              if first then Admin else role,
                              if first then Approved else Pending,
                              profile);
                r == Ok(u) && old(nextUserId) !in old(users)
                && users == old(users)[u.id := u] && nextUserId == old(nextUserId) + 1
    {
      if email == "" || Utf16Length(password) < 6 {
        return Err(ValidationFailed);
      }
      var existing := FindByEmail(email);
      if existing.Some? {
        return Err(DuplicateEmail);
      }
      var userRole, userStatus := role, Pending;
      if |users| == 0 {
        userRole, userStatus := Admin, Approved;
      }
      var u := User(nextUserId, email, hashed, userRole, userStatus, profile);
      users := users[nextUserId := u];
      nextUserId := nextUserId + 1;
      r := Ok(u);
    }

    /** POST /api/users/login. `compare` is the password-hash comparison.
        Approval is checked before the password. */
    function Login(email: string, password: string, compare: (string, string) -> bool): (r: Result<LoginView>)
      reads this
      requires Valid()
      ensures r.Ok? <==> exists id :: id in users && users[id].email == email
                                 && users[id].status == Approved && compare(password, users[id].passwordHash)
      ensures r == Err(PendingApproval) <==>
                exists id :: id in users && users[id].email == email && users[id].status != Approved
      ensures r == Err(InvalidCredentials) <==>
                (forall id :: id in users ==> users[id].email != email)
                || exists id :: id in users && users[id].email == email
                             && users[id].status == Approved && !compare(password, users[id].passwordHash)
      ensures r.Err? ==> r.error == PendingApproval || r.error == InvalidCredentials
      ensures r.Ok? ==>
                r.value.id in users
                && (var u := users[r.value.id];
                    u.email == email
                    && r.value == LoginView(u.id, u.profile.contactPerson, u.email, u.role, u.status))
    {
      match FindByEmail(email)
      case None => Err(InvalidCredentials)
      case Some(u) =>
        if u.status != Approved then Err(PendingApproval)
        else if !compare(password, u.passwordHash) then Err(InvalidCredentials)
        else Ok(LoginView(u.id, u.profile.contactPerson, u.email, u.role, u.status))
    }

    /** GET /api/admin/pending-users. A caller id without a user makes the
        role check throw, which the route answers with 500. */
    function PendingUsers(caller: UserId): (r: Result<seq<User>>)
      reads this
      requires Valid()
      ensures caller !in users ==> r == Err(ServerError)
      ensures caller in users && users[caller].role != Admin ==> r == Err(Forbidden)
      ensures r.Ok? <==> caller in users && users[caller].role == Admin
      ensures r.Ok? ==> forall u :: u in r.value <==> u in users.Values && u.status == Pending
      ensures r.Ok? ==> NoDupes(r.value)
    {
      if caller !in users then Err(ServerError)
      else if users[caller].role != Admin then Err(Forbidden)
      else Ok(PendingOf(UserRecords()))
    }

    /** PATCH /api/admin/users/:id/status: an admin overwrites one user's
        status, and nothing else. */
    method SetUserStatus(caller: UserId, target: UserId, status: UserStatus) returns (r: Result<User>)
      requires Valid()
      modifies this`users
      ensures Valid()
      ensures caller !in old(users) ==> r == Err(ServerError) && users == old(users)
      ensures caller in old(users) && old(users)[caller].role != Admin ==> r == Err(Forbidden) && users == old(users)
      ensures caller in old(users) && old(users)[caller].role == Admin && target !in old(users) ==>
                r == Err(NotFound) && users == old(users)
      ensures caller in old(users) && old(users)[caller].role == Admin && target in old(users) ==>
                var u := old(users)[target].(status := status);
                r == Ok(u) && users == old(users)[target := u]
    {
      if caller !in users {
        return Err(ServerError);
      }
      if users[caller].role != Admin {
        return Err(Forbidden);
      }
      if target !in users {
        return Err(NotFound);
      }
      var u := users[target].(status := status);
      users := users[target := u];
      r := Ok(u);
    }

    // -- Donation routes --

    /** The four listing routes: exactly the matching records, each once,
        newest first. */
    function List(f: Filter): (r: seq<Donation>)
      reads this
      requires Valid()
      ensures forall d :: d in r <==> d in donations.Values && Matches(f, d)
      ensures SortedDesc(r, CreatedAt)
      ensures NoDupes(r)
    {
      var ds := Records();
      ListingNoDupes(ds, f);
      Listing(ds, f)
    }

    /** POST /api/donations: any Approved user may post, whatever the role;
        the donor's display fields are copied into the record. */
    method CreateDonation(caller: UserId, input: DonationInput, now: Millis) returns (r: Result<Donation>)
      requires Valid()
      modifies this`donations, this`nextDonationId
      ensures Valid()
      ensures Kept(old(donations), donations)
      ensures (caller !in users || users[caller].status != Approved) ==>
                r == Err(Forbidden) && donations == old(donations) && nextDonationId == old(nextDonationId)
      ensures caller in users && users[caller].status == Approved ==>
                var p := users[caller].profile;
                var d := Donation(old(nextDonationId), input.foodDescription, input.quantity, input.serves,
                                  input.cookingTime, input.pickupLocation, input.contactNumber,
                                  input.specialInstructions, Available, now, caller,
                                  Or(p.businessName, p.contactPerson), p.address, p.contactNumber,
                                  None, None, now);
                r == Ok(d) && old(nextDonationId) !in old(donations)
                && donations == old(donations)[d.id := d] && nextDonationId == old(nextDonationId) + 1
    {
      if caller !in users || users[caller].status != Approved {
        return Err(Forbidden);
      }
      var p := users[caller].profile;
      var d := Donation(nextDonationId, input.foodDescription, input.quantity, input.serves,
                        input.cookingTime, input.pickupLocation, input.contactNumber,
                        input.specialInstructions, Available, now, caller,
                        Or(p.businessName, p.contactPerson), p.address, p.contactNumber,
                        None, None, now);
      donations := donations[nextDonationId := d];
      nextDonationId := nextDonationId + 1;
      r := Ok(d);
    }

    /** The guard shared by edit and delete: the record exists, the caller
        posted it, and it is still Available; checked in that order. */
    function OwnerGuard(caller: UserId, id: DonationId): (r: Option<Error>)
      reads this
      ensures r == None <==>
                id in donations && donations[id].donorId == caller && donations[id].status == Available
      ensures id !in donations ==> r == Some(NotFound)
      ensures id in donations && donations[id].donorId != caller ==> r == Some(Unauthorized)
      ensures id in donations && donations[id].donorId == caller && donations[id].status != Available ==>
                r == Some(InvalidState)
    {
      if id !in donations then Some(NotFound)
      else if donations[id].donorId != caller then Some(Unauthorized)
      else if donations[id].status != Available then Some(InvalidState)
      else None
    }

    /** PUT /api/donations/:id: the owner edits description, quantity and
        serves of an Available donation. */
    method UpdateDonation(caller: UserId, id: DonationId, foodDescription: string, quantity: int, serves: int)
      returns (r: Result<Donation>)
      requires Valid()
      modifies this`donations
      ensures Valid()
      ensures Kept(old(donations), donations)
      ensures old(OwnerGuard(caller, id)).Some? ==>
                r == Err(old(OwnerGuard(caller, id)).value) && donations == old(donations)
      ensures old(OwnerGuard(caller, id)) == None ==>
                var d := old(donations)[id].(foodDescription := foodDescription, quantity := quantity, serves := serves);
                r == Ok(d) && donations == old(donations)[id := d]
    {
      var g := OwnerGuard(caller, id);
      if g.Some? {
        return Err(g.value);
      }
      var d := donations[id].(foodDescription := foodDescription, quantity := quantity, serves := serves);
      donations := donations[id := d];
      r := Ok(d);
    }

    /** DELETE /api/donations/:id: the owner removes an Available donation. */
    method DeleteDonation(caller: UserId, id: DonationId) returns (r: Result<DonationId>)
      requires Valid()
      modifies this`donations
      ensures Valid()
      ensures Kept(old(donations), donations)
      ensures old(OwnerGuard(caller, id)).Some? ==>
                r == Err(old(OwnerGuard(caller, id)).value) && donations == old(donations)
      ensures old(OwnerGuard(caller, id)) == None ==>
                r == Ok(id) && donations == old(donations) - {id}
    {
      var g := OwnerGuard(caller, id);
      if g.Some? {
        return Err(g.value);
      }
      donations := donations - {id};
      r := Ok(id);
    }

    /** PATCH /api/donations/:id/claim: an Approved user, whatever the role,
        claims an Available donation and the charity snapshot is written. A
        caller id without a user makes the approval check throw (400). */
    method Claim(caller: UserId, id: DonationId, purpose: string) returns (r: Result<Donation>)
      requires Valid()
      modifies this`donations
      ensures Valid()
      ensures Kept(old(donations), donations)
      ensures caller !in users ==> r == Err(BadRequest) && donations == old(donations)
      ensures caller in users && users[caller].status != Approved ==> r == Err(Forbidden) && donations == old(donations)
      ensures caller in users && users[caller].status == Approved && id !in old(donations) ==>
                r == Err(NotFound) && donations == old(donations)
      ensures caller in users && users[caller].status == Approved && id in old(donations)
              && old(donations)[id].status != Available ==>
                r == Err(InvalidState) && donations == old(donations)
      ensures caller in users && users[caller].status == Approved && id in old(donations)
              && old(donations)[id].status == Available ==>
                var p := users[caller].profile;
                var d := old(donations)[id].(status := Claimed,
                                             claim := Some(ClaimInfo(caller, Or(p.charityName, p.contactPerson),
                                                                     p.address, purpose)));
                r == Ok(d) && donations == old(donations)[id := d]
    {
      if caller !in users {
        return Err(BadRequest);
      }
      var charity := users[caller];
      if charity.status != Approved {
        return Err(Forbidden);
      }
      if id !in donations {
        return Err(NotFound);
      }
      var d := donations[id];
      if d.status != Available {
        return Err(InvalidState);
      }
      var p := charity.profile;
      d := d.(status := Claimed);
      d := d.(claim := Some(ClaimInfo(caller, Or(p.charityName, p.contactPerson), p.address, purpose)));
      donations := donations[id := d];
      r := Ok(d);
    }

    /** PATCH /api/donations/:id/status: the first caller to advance a
        donation becomes its worker; the requested status and the time are
        written with no check of the caller's role or of the previous status.
        Reading the worker's fields of a caller id without a user throws (400),
        which only matters while no worker is assigned. */
    method AdvanceStatus(caller: UserId, id: DonationId, status: DonationStatus, now: Millis)
      returns (r: Result<Donation>)
      requires Valid()
      modifies this`donations
      ensures Valid()
      ensures Kept(old(donations), donations)
      ensures id !in old(donations) ==> r == Err(NotFound) && donations == old(donations)
      ensures id in old(donations) && old(donations)[id].worker.None? && caller !in users ==>
                r == Err(BadRequest) && donations == old(donations)
      ensures id in old(donations) && (old(donations)[id].worker.Some? || caller in users) ==>
                var d := old(donations)[id];
                var w := if d.worker.Some? then d.worker
                         else Some(WorkerInfo(caller, users[caller].profile.contactPerson,
                                              users[caller].profile.contactNumber));
                var e := d.(worker := w, status := status, statusUpdatedAt := now);
                r == Ok(e) && donations == old(donations)[id := e]
    {
      if id !in donations {
        return Err(NotFound);
      }
      var d := donations[id];
      if d.worker.None? {
        if caller !in users {
          return Err(BadRequest);
        }
        var worker := users[caller];
        d := d.(worker := Some(WorkerInfo(caller, worker.profile.contactPerson, worker.profile.contactNumber)));
      }
      d := d.(status := status);
      d := d.(statusUpdatedAt := now);
      donations := donations[id := d];
      r := Ok(d);
    }

    /** GET /api/donations/:id/eta. Every stored role passes the route's role
        check, so only a caller id without a user (the check throws, 400) and
        a missing donation fail. */
    function EtaOf(caller: UserId, id: DonationId, now: Millis): (r: Result<EtaView>)
      reads this
      ensures caller !in users ==> r == Err(BadRequest)
      ensures caller in users && id !in donations ==> r == Err(NotFound)
      ensures r.Ok? <==> caller in users && id in donations
      ensures r.Ok? ==> var d := donations[id];
                r.value.status == d.status && r.value.statusUpdatedAt == d.statusUpdatedAt
                && r.value.etaMinutes >= 0
                && (d.statusUpdatedAt <= now ==> r.value.etaMinutes <= 60)
                && (d.status == InTransit && d.statusUpdatedAt <= now ==> 5 <= r.value.etaMinutes <= 30)
                && r.value.etaMinutes == EtaMinutes(d.status, Some(d.statusUpdatedAt), now)
    {
      if caller !in users then Err(BadRequest)
      else if id !in donations then Err(NotFound)
      else
        var d := donations[id];
        if d.statusUpdatedAt <= now then
          EtaBounds(d.status, Some(d.statusUpdatedAt), now);
          Ok(EtaView(d.status, d.statusUpdatedAt, EtaMinutes(d.status, Some(d.statusUpdatedAt), now)))
        else
          Ok(EtaView(d.status, d.statusUpdatedAt, EtaMinutes(d.status, Some(d.statusUpdatedAt), now)))
    }

    // -- Stats routes --

    /** GET /api/stats. */
    function Dashboard(): (r: Summary)
      reads this
      requires Valid()
      ensures r.donors <= |users| && r.charities <= |users|
      ensures r.donors == CountApproved(users, Donor) && r.charities == CountApproved(users, Charity)
      ensures r.meals == Meals(Records())
      ensures r.foodKgTenths == 5 * Portions(Records())
      ensures r.donors == 0 <==> forall id :: id in users ==> !ApprovedAs(users[id], Donor)
      ensures r.charities == 0 <==> forall id :: id in users ==> !ApprovedAs(users[id], Charity)
    {
      GlobalStats(users, Records())
    }

    /** GET /api/donations/stats. */
    function DonationStatsOf(): (r: DonationStats)
      reads this
      requires Valid()
      ensures |r.types| <= 5 && |r.monthly| <= 6
      ensures r.types == TypeStats(Records()) && r.monthly == MonthlyData(Records())
    {
      DonationStats(TypeStats(Records()), MonthlyData(Records()))
    }

    /** GET /api/contributors. */
    function ContributorsOf(): (r: Contributors)
      reads this
      requires Valid()
      ensures |r.donors| <= 6 && |r.charities| <= 6
      ensures r.donors == TopDonors(Records()) && r.charities == TopCharities(Records())
    {
      Contributors(TopDonors(Records()), TopCharities(Records()))
    }
  }

  /** The Pending users of `us`, in their order, each once when `us` holds
      no user twice. */
  function PendingOf(us: seq<User>): (r: seq<User>)
    ensures forall u :: u in r <==> u in us && u.status == Pending
    ensures NoDupes(us) ==> NoDupes(r)
  {
    if us == [] then []
    else (if us[0].status == Pending then [us[0]] else []) + PendingOf(us[1..])
  }
}
