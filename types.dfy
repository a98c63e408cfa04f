/** Entities of the food-donation back end: principals (users), donations, and
    the error outcomes of its route handlers. */
module Types {

  type UserId = int
  type DonationId = int

  /** Milliseconds since 1970-01-01T00:00:00Z, as `Date.now()` gives them. */
  type Millis = int

  datatype Role = Donor | Charity | Worker | Admin

  datatype UserStatus = Pending | Approved | Rejected

  datatype DonationStatus = Available | Claimed | InTransit | Delivered

  /** The profile fields a registration carries besides email, password and role.
      A field the request leaves out is the empty string. */
  datatype Profile = Profile(
    contactPerson: string,
    contactNumber: string,
    address: string,
    businessName: string,
    charityName: string)

  datatype User = User(
    id: UserId,
    email: string,
    passwordHash: string,
    role: Role,
    status: UserStatus,
    profile: Profile)

  /** Charity snapshot, captured when the donation is claimed. */
  datatype ClaimInfo = ClaimInfo(
    charityId: UserId,
    charityName: string,
    charityAddress: string,
    purpose: string)

  /** Worker snapshot, captured at the first status advance. */
  datatype WorkerInfo = WorkerInfo(
    workerId: UserId,
    workerName: string,
    workerContact: string)

  /** What a donor submits when posting a donation. */
  datatype DonationInput = DonationInput(
    foodDescription: string,
    quantity: int,
    serves: int,
    cookingTime: Option<int>,
    pickupLocation: string,
    contactNumber: string,
    specialInstructions: string)

  datatype Donation = Donation(
    id: DonationId,
    foodDescription: string,
    quantity: int,
    serves: int,
    cookingTime: Option<int>,
    pickupLocation: string,
    contactNumber: string,
    specialInstructions: string,
    status: DonationStatus,
    statusUpdatedAt: Millis,
    donorId: UserId,
    donorName: string,
    donorAddress: string,
    donorContact: string,
    claim: Option<ClaimInfo>,
    worker: Option<WorkerInfo>,
    createdAt: Millis)

  datatype Option<T> = None | Some(value: T)

  /** The distinct responses a handler can fail with. */
  datatype Error =
    | ValidationFailed     // 400: missing email/password or a short password
    | DuplicateEmail       // 400: email already registered
    | InvalidCredentials   // 400: unknown email or wrong password
    | PendingApproval      // 403: login of an account that is not Approved
    | Forbidden            // 403: caller lacks the role or the approval
    | Unauthorized         // 401: caller does not own the donation
    | NotFound             // 404: the referenced record is absent
    | InvalidState         // 400: the donation is no longer Available
    | BadRequest           // 400: an exception caught by a donation handler
    | ServerError          // 500: an exception caught by an admin handler

  datatype Result<T> = Ok(value: T) | Err(error: Error)

  /** JavaScript's `a || b` on strings: the empty string is falsy, so the
      first operand wins unless it is empty. */
  function Or(a: string, b: string): (r: string)
    ensures r == a || r == b
    ensures a != "" ==> r == a
    ensures r == "" <==> a == "" && b == ""
  {
    if a != "" then a else b
  }

  /** JavaScript's `s.length`: the number of UTF-16 code units, where a
      character beyond the Basic Multilingual Plane takes two. */
  function Utf16Length(s: string): (n: nat)
    ensures |s| <= n <= 2 * |s|
    ensures n == 0 <==> s == ""
  {
    if s == [] then 0
    else (if s[0] as int < 0x1_0000 then 1 else 2) + Utf16Length(s[1..])
  }

  /** A string of Basic Multilingual Plane characters has one code unit per
      character. */
  lemma {:induction false} Utf16LengthBmp(s: string)
    requires forall i :: 0 <= i < |s| ==> s[i] as int < 0x1_0000
    ensures Utf16Length(s) == |s|
  {
    if s != [] {
      Utf16LengthBmp(s[1..]);
    }
  }

  /** Appending strings adds their code-unit lengths. */
  lemma {:induction false} Utf16LengthAppend(a: string, b: string)
    ensures Utf16Length(a + b) == Utf16Length(a) + Utf16Length(b)
  {
    if a != [] {
      assert (a + b)[0] == a[0];
      assert (a + b)[1..] == a[1..] + b;
      Utf16LengthAppend(a[1..], b);
    } else {
      assert a + b == b;
    }
  }
}
