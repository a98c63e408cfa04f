/** Request sequences against a fresh store that exhibit the behaviour the
    handlers compose to. */
module Scenarios {
  import opened Types
  import opened Server

  function SomeProfile(name: string): Profile
  {
    Profile(name, "555-0100", "1 Main St", "", "")
  }

  /** A registration that passes validation and uses a new email. */
  method Join(s: Store, email: string, password: string, hashed: string, role: Role, profile: Profile)
    returns (r: Result<User>)
    requires s.Valid() && email != "" && Utf16Length(password) >= 6
    requires forall id :: id in s.users ==> s.users[id].email != email
    modifies s`users, s`nextUserId
    ensures s.Valid()
    ensures var first := |old(s.users)| == 0;
            var u := User(old(s.nextUserId), email, hashed, if first then Admin else role,
                          if first then Approved else Pending, profile);
            r == Ok(u) && s.users == old(s.users)[u.id := u] && s.nextUserId == old(s.nextUserId) + 1
  {
    r := s.Register(email, password, hashed, role, profile);
  }

  /** The first registrant becomes the Approved admin whatever role
      `asked` they ask for; the second is Pending with the role asked for. */
  method TwoRegistrants(password: string, asked: Role) returns (s: Store, first: Result<User>, second: Result<User>)
    requires Utf16Length(password) >= 6
    ensures fresh(s) && s.Valid()
    ensures first == Ok(User(0, "ann@example.org", "hash-a", Admin, Approved, SomeProfile("Ann")))
    ensures second == Ok(User(1, "bo@example.org", "hash-b", Donor, Pending, SomeProfile("Bo")))
    ensures s.users == map[0 := first.value, 1 := second.value]
  {
    s := new Store();
    first := Join(s, "ann@example.org", password, "hash-a", asked, SomeProfile("Ann"));
    assert s.users == map[0 := first.value];
    assert "ann@example.org"[0] != "bo@example.org"[0];
    second := Join(s, "bo@example.org", password, "hash-b", Donor, SomeProfile("Bo"));
  }

  /** Whatever role `asked` the first registrant asks for, they become the
      Approved admin. The second registrant cannot log in until approved,
      whether or not the password matches. After the admin approves them,
      the same login succeeds. */
  method Bootstrap(compare: (string, string) -> bool, password: string, asked: Role)
    returns (first: Result<User>, second: Result<User>, early: Result<LoginView>, late: Result<LoginView>)
    requires Utf16Length(password) >= 6 && compare(password, "hash-b")
    ensures first.Ok? && first.value.id == 0 && first.value.role == Admin && first.value.status == Approved
    ensures second.Ok? && second.value.id == 1 && second.value.role == Donor && second.value.status == Pending
    ensures early == Err(PendingApproval)
    ensures late == Ok(LoginView(1, "Bo", "bo@example.org", Donor, Approved))
  {
    var s;
    s, first, second := TwoRegistrants(password, asked);
    var ann, bo := first.value, second.value;
    early := PendingLogin(s, compare, password);
    var approved := s.SetUserStatus(0, 1, Approved);
    assert s.users == map[0 := ann, 1 := bo.(status := Approved)];
    late := ApprovedLogin(s, compare, password);
  }

  /** With the second registrant still Pending, their login is refused. */
  method PendingLogin(s: Store, compare: (string, string) -> bool, password: string) returns (r: Result<LoginView>)
    requires s.Valid()
    requires s.users == map[0 := User(0, "ann@example.org", "hash-a", Admin, Approved, SomeProfile("Ann")),
                            1 := User(1, "bo@example.org", "hash-b", Donor, Pending, SomeProfile("Bo"))]
    ensures r == Err(PendingApproval)
  {
    r := s.Login("bo@example.org", password, compare);
    assert s.users[1].email == "bo@example.org" && s.users[1].status != Approved;
  }

  /** Once approved, the second registrant logs in with a matching password. */
  method ApprovedLogin(s: Store, compare: (string, string) -> bool, password: string) returns (r: Result<LoginView>)
    requires s.Valid() && compare(password, "hash-b")
    requires s.users == map[0 := User(0, "ann@example.org", "hash-a", Admin, Approved, SomeProfile("Ann")),
                            1 := User(1, "bo@example.org", "hash-b", Donor, Approved, SomeProfile("Bo"))]
    ensures r == Ok(LoginView(1, "Bo", "bo@example.org", Donor, Approved))
  {
    assert s.users[1].email == "bo@example.org" && s.users[1].status == Approved
           && compare(password, s.users[1].passwordHash);
    r := s.Login("bo@example.org", password, compare);
    assert r.Ok?;
    assert r.value.id == 1;
  }

  /** A password of three characters beyond the Basic Multilingual Plane is
      six UTF-16 code units long, so registration accepts it; a password of
      five plain characters is refused. */
  method AstralPassword() returns (short: Result<User>, astral: Result<User>)
    ensures short == Err(ValidationFailed)
    ensures astral.Ok? && astral.value.role == Admin
  {
    var s := new Store();
    short := s.Register("ann@example.org", "abcde", "h0", Donor, SomeProfile("Ann"));
    astral := s.Register("ann@example.org", "\U{1F600}\U{1F600}\U{1F600}", "h0", Donor, SomeProfile("Ann"));
  }

  /** The admin (0) and an approved donor (1). */
  method AdminAndDonor(password: string) returns (s: Store)
    requires Utf16Length(password) >= 6
    ensures fresh(s) && s.Valid()
    ensures s.donations == map[] && s.nextDonationId == 0
    ensures s.users.Keys == {0, 1} && s.nextUserId == 2
    ensures s.users[0].role == Admin && s.users[0].status == Approved && s.users[0].email == "ann@example.org"
    ensures s.users[1].status == Approved && s.users[1].email == "bo@example.org"
  {
    s := new Store();
    var admin := Join(s, "ann@example.org", password, "h0", Admin, SomeProfile("Ann"));
    assert s.users.Keys == {0};
    assert "ann@example.org"[0] != "bo@example.org"[0];
    var donor := Join(s, "bo@example.org", password, "h1", Donor, SomeProfile("Bo"));
    var a1 := s.SetUserStatus(0, 1, Approved);
  }

  /** The admin (0), an approved donor (1) and a charity still Pending (2). */
  method WithCharity(password: string) returns (s: Store)
    requires Utf16Length(password) >= 6
    ensures fresh(s) && s.Valid()
    ensures s.donations == map[] && s.nextDonationId == 0
    ensures s.users.Keys == {0, 1, 2} && s.nextUserId == 3
    ensures s.users[0].role == Admin && s.users[0].status == Approved && s.users[0].email == "ann@example.org"
    ensures s.users[1].status == Approved && s.users[1].email == "bo@example.org"
    ensures s.users[2].email == "cat@example.org"
  {
    s := AdminAndDonor(password);
    assert "ann@example.org"[0] != "cat@example.org"[0] && "bo@example.org"[0] != "cat@example.org"[0];
    var charity := Join(s, "cat@example.org", password, "h2", Charity, SomeProfile("Cat"));
  }

  /** A registry of four users: the admin (0), an approved donor (1), an
      approved charity (2) and a worker still Pending (3). */
  method Registry(password: string) returns (s: Store)
    requires Utf16Length(password) >= 6
    ensures fresh(s) && s.Valid()
    ensures s.donations == map[] && s.nextDonationId == 0
    ensures s.users.Keys == {0, 1, 2, 3}
    ensures s.users[0].role == Admin && s.users[0].status == Approved
    ensures s.users[1].status == Approved && s.users[2].status == Approved
    ensures s.users[3].profile == SomeProfile("Cy") && s.users[3].status == Pending
  {
    s := WithCharity(password);
    assert "cat@example.org"[1] != "cy@example.org"[1];
    assert "ann@example.org"[0] != "cy@example.org"[0] && "bo@example.org"[0] != "cy@example.org"[0];
    var worker := Join(s, "cy@example.org", password, "h3", Worker, SomeProfile("Cy"));
    assert s.users.Keys == {0, 1, 2, 3};
    var a2 := s.SetUserStatus(0, 2, Approved);
  }

  /** A claimed donation is advanced by two callers: the first stays its
      worker, and a Pending worker may advance it. Setting it back to
      Available, which no check prevents, lets another Approved user (here
      the admin) claim it again, replacing the charity snapshot. */
  method ReclaimAfterReset(password: string)
    returns (firstClaim: Result<Donation>, second: Result<Donation>, reclaim: Result<Donation>)
    requires Utf16Length(password) >= 6
    ensures firstClaim.Ok? && firstClaim.value.claim.Some? && firstClaim.value.claim.value.charityId == 2
    ensures second.Ok? && second.value.worker == Some(WorkerInfo(3, "Cy", "555-0100"))
    ensures reclaim.Ok? && reclaim.value.status == Claimed
    ensures reclaim.Ok? && reclaim.value.claim.Some? && reclaim.value.claim.value.charityId == 0
    ensures reclaim.Ok? && reclaim.value.worker == Some(WorkerInfo(3, "Cy", "555-0100"))
  {
    var s := Registry(password);
    var input := DonationInput("rice", 10, 20, None, "1 Main St", "555-0100", "");
    var posted := s.CreateDonation(1, input, 1000);
    assert s.donations.Keys == {0} && s.donations[0].status == Available;
    firstClaim := s.Claim(2, 0, "shelter");
    var moved := s.AdvanceStatus(3, 0, InTransit, 2000);
    second := s.AdvanceStatus(1, 0, InTransit, 3000);
    var reset := s.AdvanceStatus(1, 0, Available, 4000);
    reclaim := s.Claim(0, 0, "kitchen");
  }
}
