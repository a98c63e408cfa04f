/** The four donation listings: a filter over the donation records followed
    by a sort on `createdAt`, newest first. */
module Listings {
  import opened Types
  import opened Sorting

  /** Which records a listing route asks for. */
  datatype Filter =
    | AvailableOnly               // GET /api/donations/available
    | OfDonor(donor: UserId)      // GET /api/donations/donor, the caller's own
    | OfCharity(charity: UserId)  // GET /api/donations/charity, claimed by the caller
    | ClaimedOrInTransit          // GET /api/donations/claimed

  /** Whether `d` belongs in the listing `f`. The two status listings are
      disjoint and never show a Delivered record; the charity listing goes by
      the claim snapshot alone, whatever the status. */
  predicate Matches(f: Filter, d: Donation): (b: bool)
    ensures f == AvailableOnly && b ==> d.status != Claimed && d.status != InTransit
    ensures f == ClaimedOrInTransit && b ==> d.status != Available
    ensures (f == AvailableOnly || f == ClaimedOrInTransit) && b ==> d.status != Delivered
    ensures f.OfCharity? && b ==> d.claim.Some?
  {
    match f
    case AvailableOnly => d.status == Available
    case OfDonor(u) => d.donorId == u
    case OfCharity(u) => d.claim.Some? && d.claim.value.charityId == u
    case ClaimedOrInTransit => d.status == Claimed || d.status == InTransit
  }

  function CreatedAt(d: Donation): int
  {
    d.createdAt
  }

  /** The records of `ds` that match `f`, in their original order. */
  function Select(ds: seq<Donation>, f: Filter): (r: seq<Donation>)
    ensures forall d :: multiset(r)[d] == if Matches(f, d) then multiset(ds)[d] else 0
    ensures forall d :: d in r <==> d in ds && Matches(f, d)
  {
    if ds == [] then []
    else
      assert ds == [ds[0]] + ds[1..];
      (if Matches(f, ds[0]) then [ds[0]] else []) + Select(ds[1..], f)
  }

  /** A listing: exactly the matching records, each as often as it occurs in
      `ds`, newest `createdAt` first. */
  function Listing(ds: seq<Donation>, f: Filter): (r: seq<Donation>)
    ensures forall d :: multiset(r)[d] == if Matches(f, d) then multiset(ds)[d] else 0
    ensures forall d :: d in r <==> d in ds && Matches(f, d)
    ensures SortedDesc(r, CreatedAt)
  {
    var picked := Select(ds, f);
    var r := SortDesc(picked, CreatedAt);
    PermutationMembers(picked, r);
    r
  }

  /** A listing of records without duplicates has no duplicates. */
  lemma ListingNoDupes(ds: seq<Donation>, f: Filter)
    requires NoDupes(ds)
    ensures NoDupes(Listing(ds, f))
  {
    var r := Listing(ds, f);
    forall i, j | 0 <= i < j < |r| ensures r[i] != r[j] {
      if r[i] == r[j] {
        TwoPositions(r, i, j);
        AtMostOnce(ds, r[i]);
        assert false;
      }
    }
  }
}
