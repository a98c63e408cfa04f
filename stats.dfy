/** The dashboard aggregations, each a function of the user store and of the
    sequence of donation records (the routes /api/stats,
    /api/donations/stats and /api/contributors). Only Delivered donations
    contribute to them. */
module Stats {
  import opened Types
  import opened Sorting
  import opened Grouping
  import opened Calendar

  predicate IsDelivered(d: Donation)
  {
    d.status == Delivered
  }

  function Serves(d: Donation): int
  {
    d.serves
  }

  function Quantity(d: Donation): int
  {
    d.quantity
  }

  /** What `d` adds to a sum of `field` over Delivered records. */
  function Contribution(d: Donation, field: Donation -> int): int
  {
    if IsDelivered(d) then field(d) else 0
  }

  /** Sum of `field` over the Delivered records of `ds`; 0 when there are none,
      as the route substitutes for an empty aggregation result. */
  function SumDelivered(ds: seq<Donation>, field: Donation -> int): (t: int)
    ensures (forall i :: 0 <= i < |ds| ==> !IsDelivered(ds[i])) ==> t == 0
    ensures (forall i :: 0 <= i < |ds| && IsDelivered(ds[i]) ==> field(ds[i]) >= 0) ==> t >= 0
  {
    if ds == [] then 0 else Contribution(ds[0], field) + SumDelivered(ds[1..], field)
  }

  /** People served by delivered donations. */
  function Meals(ds: seq<Donation>): (m: int)
    ensures (forall i :: 0 <= i < |ds| ==> !IsDelivered(ds[i])) ==> m == 0
    ensures (forall i :: 0 <= i < |ds| && IsDelivered(ds[i]) ==> ds[i].serves >= 0) ==> m >= 0
  {
    SumDelivered(ds, Serves)
  }

  /** Portions handed over by delivered donations. */
  function Portions(ds: seq<Donation>): (p: int)
    ensures (forall i :: 0 <= i < |ds| ==> !IsDelivered(ds[i])) ==> p == 0
    ensures (forall i :: 0 <= i < |ds| && IsDelivered(ds[i]) ==> ds[i].quantity >= 0) ==> p >= 0
  {
    SumDelivered(ds, Quantity)
  }

  lemma {:induction false} SumAppend(a: seq<Donation>, b: seq<Donation>, field: Donation -> int)
    ensures SumDelivered(a + b, field) == SumDelivered(a, field) + SumDelivered(b, field)
  {
    if a != [] {
      assert (a + b)[0] == a[0];
      assert (a + b)[1..] == a[1..] + b;
      SumAppend(a[1..], b, field);
    } else {
      assert a + b == b;
    }
  }

  /** Taking out the record at position `i` lowers the sum by exactly what
      that record contributed: its `field` if it is Delivered, else nothing. */
  lemma SumRemove(ds: seq<Donation>, i: int, field: Donation -> int)
    requires 0 <= i < |ds|
    ensures SumDelivered(ds[..i] + ds[i + 1..], field)
            == SumDelivered(ds, field) - Contribution(ds[i], field)
  {
    assert ds == ds[..i] + ([ds[i]] + ds[i + 1..]);
    SumAppend(ds[..i], [ds[i]] + ds[i + 1..], field);
    SumAppend(ds[..i], ds[i + 1..], field);
    assert ([ds[i]] + ds[i + 1..])[1..] == ds[i + 1..];
  }

  /** The sums do not depend on the order in which the records are read. */
  lemma {:induction false} SumPermutation(a: seq<Donation>, b: seq<Donation>, field: Donation -> int)
    requires multiset(a) == multiset(b)
    ensures SumDelivered(a, field) == SumDelivered(b, field)
    decreases |a|
  {
    if a == [] {
      assert |b| == |multiset(b)| == 0;
    } else {
      var x := a[0];
      assert x in multiset(b);
      var i :| 0 <= i < |b| && b[i] == x;
      var b' := b[..i] + b[i + 1..];
      assert b == b[..i] + [b[i]] + b[i + 1..];
      assert multiset(b) == multiset(b[..i]) + multiset{x} + multiset(b[i + 1..]);
      assert multiset(b') == multiset(b[..i]) + multiset(b[i + 1..]);
      assert a == [a[0]] + a[1..];
      assert multiset(a) == multiset{x} + multiset(a[1..]);
      assert multiset(a[1..]) == multiset(a) - multiset{x};
      assert multiset(b') == multiset(b) - multiset{x};
      SumPermutation(a[1..], b', field);
      SumRemove(b, i, field);
    }
  }

  /** JavaScript's `Math.round(num / den)`: the nearest integer, halves
      rounded up. */
  function RoundHalfUp(num: int, den: int): (r: int)
    requires den > 0
    ensures 2 * den * r <= 2 * num + den < 2 * den * r + 2 * den
  {
    (2 * num + den) / (2 * den)
  }

  /** Estimated food in tenths of a kilogram, half a kilogram per portion
      rounded to one decimal: `round(portions * 0.5 * 10)` tenths. */
  function FoodKgTenths(portions: int): (t: int)
    ensures t == 5 * portions
  {
    RoundHalfUp(10 * portions, 2)
  }

  predicate ApprovedAs(u: User, role: Role)
  {
    u.role == role && u.status == Approved
  }

  /** Number of Approved users of `role`. */
  function CountApproved(users: map<UserId, User>, role: Role): (n: nat)
    ensures n <= |users|
    ensures n == 0 <==> forall id :: id in users ==> !ApprovedAs(users[id], role)
  {
    var approved := set id | id in users && ApprovedAs(users[id], role);
    ApprovedSize(users, role, approved);
    |approved|
  }

  /** Registering a user adds one to the count of its role exactly when it
      is Approved in that role. */
  lemma CountApprovedInsert(users: map<UserId, User>, id: UserId, u: User, role: Role)
    requires id !in users
    ensures CountApproved(users[id := u], role) == CountApproved(users, role) + (if ApprovedAs(u, role) then 1 else 0)
  {
    var before := set k | k in users && ApprovedAs(users[k], role);
    var m := users[id := u];
    var after := set k | k in m && ApprovedAs(m[k], role);
    if ApprovedAs(u, role) {
      assert after == before + {id};
    } else {
      assert after == before;
    }
  }

  /** Overwriting a stored user (a status change) moves the count of a role
      by what the old record took away and the new one brings. */
  lemma CountApprovedOverwrite(users: map<UserId, User>, id: UserId, u: User, role: Role)
    requires id in users
    ensures CountApproved(users[id := u], role)
            == CountApproved(users, role) - (if ApprovedAs(users[id], role) then 1 else 0)
               + (if ApprovedAs(u, role) then 1 else 0)
  {
    var rest := users - {id};
    assert users == rest[id := users[id]];
    assert users[id := u] == rest[id := u];
    CountApprovedInsert(rest, id, users[id], role);
    CountApprovedInsert(rest, id, u, role);
  }

  lemma ApprovedSize(users: map<UserId, User>, role: Role, approved: set<UserId>)
    requires approved == set id | id in users && ApprovedAs(users[id], role)
    ensures |approved| <= |users|
    ensures |approved| == 0 <==> forall id :: id in users ==> !ApprovedAs(users[id], role)
  {
    SubsetCard(approved, users.Keys);
    assert |users.Keys| == |users|;
    assert forall id :: id in users && ApprovedAs(users[id], role) ==> id in approved;
    if forall id :: id in users ==> !ApprovedAs(users[id], role) {
      assert approved == {};
    }
  }

  lemma {:induction false} SubsetCard<T>(a: set<T>, b: set<T>)
    requires a <= b
    ensures |a| <= |b|
    decreases |b|
  {
    if a != {} {
      var x :| x in a;
      SubsetCard(a - {x}, b - {x});
    }
  }

  datatype Summary = Summary(donors: nat, charities: nat, meals: int, foodKgTenths: int)

  /** The figures of /api/stats. */
  function GlobalStats(users: map<UserId, User>, ds: seq<Donation>): (r: Summary)
    ensures r.foodKgTenths == 5 * Portions(ds)
    ensures r.donors <= |users| && r.charities <= |users|
    ensures r.donors == CountApproved(users, Donor) && r.charities == CountApproved(users, Charity)
    ensures r.meals == Meals(ds)
  {
    Summary(CountApproved(users, Donor), CountApproved(users, Charity), Meals(ds), FoodKgTenths(Portions(ds)))
  }

  /** The keys of the Delivered records of `ds`, in their order. */
  function DeliveredKeys<K>(ds: seq<Donation>, key: Donation -> K): (r: seq<K>)
    ensures forall i :: 0 <= i < |r| ==>
              exists j :: 0 <= j < |ds| && IsDelivered(ds[j]) && key(ds[j]) == r[i]
    decreases |ds|
  {
    if ds == [] then []
    else
      var init, last := ds[..|ds| - 1], ds[|ds| - 1];
      var r := DeliveredKeys(init, key) + (if IsDelivered(last) then [key(last)] else []);
      assert forall j :: 0 <= j < |init| ==> init[j] == ds[j];
      r
  }

  /** The positions of the Delivered records of `ds` whose key is `y`. */
  ghost function Hits<K>(ds: seq<Donation>, key: Donation -> K, y: K): set<int>
  {
    set i | 0 <= i < |ds| && IsDelivered(ds[i]) && key(ds[i]) == y
  }

  /** The number of Delivered records of `ds` whose key is `y`. */
  ghost function NumDeliveredWith<K>(ds: seq<Donation>, key: Donation -> K, y: K): nat
  {
    |Hits(ds, key, y)|
  }

  /** Appending a record adds its position to the hits exactly when it is
      Delivered with key `y`. */
  lemma HitsStep<K>(init: seq<Donation>, last: Donation, key: Donation -> K, y: K)
    ensures NumDeliveredWith(init + [last], key, y)
            == NumDeliveredWith(init, key, y) + (if IsDelivered(last) && key(last) == y then 1 else 0)
  {
    var ds := init + [last];
    var hit := IsDelivered(last) && key(last) == y;
    var before, after := Hits(init, key, y), Hits(ds, key, y);
    forall i ensures i in after <==> i in before || (hit && i == |init|) {
      if 0 <= i < |init| {
        assert ds[i] == init[i];
      }
    }
    if hit {
      assert after == before + {|init|};
      assert |init| !in before;
    } else {
      assert after == before;
    }
  }

  /** A key occurs in `DeliveredKeys` as often as there are Delivered records
      carrying it. */
  lemma {:induction false} DeliveredKeysCount<K>(ds: seq<Donation>, key: Donation -> K, y: K)
    ensures multiset(DeliveredKeys(ds, key))[y] == NumDeliveredWith(ds, key, y)
    decreases |ds|
  {
    if ds == [] {
      assert Hits(ds, key, y) == {};
    } else {
      var init, last := ds[..|ds| - 1], ds[|ds| - 1];
      DeliveredKeysCount(init, key, y);
      assert ds == init + [last];
      HitsStep(init, last, key, y);
      assert DeliveredKeys(ds, key) == DeliveredKeys(init, key) + (if IsDelivered(last) then [key(last)] else []);
    }
  }

  /** Ranks groups by their count, as `$sort: { count: -1 }` does. */
  function ByCount<K>(g: Group<K>): int
  {
    g.count
  }

  /** Group the Delivered records by `key`, order the groups by non-increasing
      `rank`, keep `k`: exact counts, and no Delivered record's key is left
      out while a lower-ranked group is kept. */
  function TopDeliveredBy<K(==)>(ds: seq<Donation>, key: Donation -> K, k: nat, rank: Group<K> -> int)
    : (r: seq<Group<K>>)
    ensures |r| <= k
    ensures DistinctKeys(r)
    ensures SortedDesc(r, rank)
    ensures forall i :: 0 <= i < |r| ==> r[i].key in DeliveredKeys(ds, key)
    ensures forall i :: 0 <= i < |r| ==>
              r[i].count == NumDeliveredWith(ds, key, r[i].key) && r[i].count >= 1
    ensures forall j :: 0 <= j < |ds| && IsDelivered(ds[j]) && key(ds[j]) !in KeysOf(r) ==>
              |r| == k && forall i :: 0 <= i < |r| ==>
                rank(r[i]) >= rank(Group(key(ds[j]), NumDeliveredWith(ds, key, key(ds[j]))))
  {
    var s := DeliveredKeys(ds, key);
    var r := Top(s, k, rank);
    TopDeliveredCounts(ds, key, k, rank, s, r);
    r
  }

  lemma TopDeliveredCounts<K>(ds: seq<Donation>, key: Donation -> K, k: nat, rank: Group<K> -> int,
                              s: seq<K>, r: seq<Group<K>>)
    requires s == DeliveredKeys(ds, key)
    requires forall i :: 0 <= i < |r| ==> r[i].key in s && r[i].count == multiset(s)[r[i].key]
    requires forall x :: x in s && x !in KeysOf(r) ==>
               |r| == k && forall i :: 0 <= i < |r| ==> rank(r[i]) >= rank(Group(x, multiset(s)[x]))
    ensures forall i :: 0 <= i < |r| ==>
              r[i].count == NumDeliveredWith(ds, key, r[i].key) && r[i].count >= 1
    ensures forall j :: 0 <= j < |ds| && IsDelivered(ds[j]) && key(ds[j]) !in KeysOf(r) ==>
              |r| == k && forall i :: 0 <= i < |r| ==>
                rank(r[i]) >= rank(Group(key(ds[j]), NumDeliveredWith(ds, key, key(ds[j]))))
  {
    forall i | 0 <= i < |r|
      ensures r[i].count == NumDeliveredWith(ds, key, r[i].key) && r[i].count >= 1
    {
      DeliveredKeysCount(ds, key, r[i].key);
    }
    forall j | 0 <= j < |ds| && IsDelivered(ds[j]) && key(ds[j]) !in KeysOf(r)
      ensures |r| == k && forall i :: 0 <= i < |r| ==>
                rank(r[i]) >= rank(Group(key(ds[j]), NumDeliveredWith(ds, key, key(ds[j]))))
    {
      DeliveredKeysCount(ds, key, key(ds[j]));
      DeliveredKeyPresent(ds, key, j);
    }
  }

  /** The `k` keys carried by the most Delivered records, most frequent first. */
  function TopDelivered<K(==)>(ds: seq<Donation>, key: Donation -> K, k: nat): (r: seq<Group<K>>)
    ensures |r| <= k
    ensures DistinctKeys(r)
    ensures forall i, j :: 0 <= i < j < |r| ==> r[i].count >= r[j].count
    ensures forall i :: 0 <= i < |r| ==>
              r[i].count == NumDeliveredWith(ds, key, r[i].key) && r[i].count >= 1
    ensures forall j :: 0 <= j < |ds| && IsDelivered(ds[j]) && key(ds[j]) !in KeysOf(r) ==>
              |r| == k && forall i :: 0 <= i < |r| ==> r[i].count >= NumDeliveredWith(ds, key, key(ds[j]))
  {
    TopDeliveredBy(ds, key, k, ByCount)
  }

  /** The key of a Delivered record occurs in `DeliveredKeys`. */
  lemma DeliveredKeyPresent<K>(ds: seq<Donation>, key: Donation -> K, j: int)
    requires 0 <= j < |ds| && IsDelivered(ds[j])
    ensures key(ds[j]) in DeliveredKeys(ds, key)
  {
    DeliveredKeysCount(ds, key, key(ds[j]));
    assert j in Hits(ds, key, key(ds[j]));
    assert multiset(DeliveredKeys(ds, key))[key(ds[j])] > 0;
  }

  function FoodDescription(d: Donation): string
  {
    d.foodDescription
  }

  function DonorName(d: Donation): string
  {
    d.donorName
  }

  /** The charity snapshot name; a Delivered record never claimed groups
      under the absent name. */
  function CharityName(d: Donation): (n: Option<string>)
    ensures n.Some? <==> d.claim.Some?
    ensures n.Some? ==> n.value == d.claim.value.charityName
  {
    if d.claim.Some? then Some(d.claim.value.charityName) else None
  }

  function CreatedMonth(d: Donation): YearMonth
  {
    YearMonthOf(d.createdAt)
  }

  /** The five most frequent food descriptions among Delivered donations. */
  function TypeStats(ds: seq<Donation>): (r: seq<Group<string>>)
    ensures |r| <= 5
    ensures DistinctKeys(r)
    ensures forall i, j :: 0 <= i < j < |r| ==> r[i].count >= r[j].count
    ensures forall i :: 0 <= i < |r| ==> r[i].count == NumDeliveredWith(ds, FoodDescription, r[i].key) && r[i].count >= 1
    ensures forall j :: 0 <= j < |ds| && IsDelivered(ds[j]) && FoodDescription(ds[j]) !in KeysOf(r) ==>
              |r| == 5 && forall i :: 0 <= i < |r| ==> r[i].count >= NumDeliveredWith(ds, FoodDescription, FoodDescription(ds[j]))
  {
    TopDelivered(ds, FoodDescription, 5)
  }

  /** The six donor names with the most Delivered donations. */
  function TopDonors(ds: seq<Donation>): (r: seq<Group<string>>)
    ensures |r| <= 6
    ensures DistinctKeys(r)
    ensures forall i, j :: 0 <= i < j < |r| ==> r[i].count >= r[j].count
    ensures forall i :: 0 <= i < |r| ==> r[i].count == NumDeliveredWith(ds, DonorName, r[i].key) && r[i].count >= 1
    ensures forall j :: 0 <= j < |ds| && IsDelivered(ds[j]) && DonorName(ds[j]) !in KeysOf(r) ==>
              |r| == 6 && forall i :: 0 <= i < |r| ==> r[i].count >= NumDeliveredWith(ds, DonorName, DonorName(ds[j]))
  {
    TopDelivered(ds, DonorName, 6)
  }

  /** The six charity names with the most Delivered donations. */
  function TopCharities(ds: seq<Donation>): (r: seq<Group<Option<string>>>)
    ensures |r| <= 6
    ensures DistinctKeys(r)
    ensures forall i, j :: 0 <= i < j < |r| ==> r[i].count >= r[j].count
    ensures forall i :: 0 <= i < |r| ==> r[i].count == NumDeliveredWith(ds, CharityName, r[i].key) && r[i].count >= 1
    ensures forall j :: 0 <= j < |ds| && IsDelivered(ds[j]) && CharityName(ds[j]) !in KeysOf(r) ==>
              |r| == 6 && forall i :: 0 <= i < |r| ==> r[i].count >= NumDeliveredWith(ds, CharityName, CharityName(ds[j]))
  {
    TopDelivered(ds, CharityName, 6)
  }

  /** `a` is an earlier calendar month than `b`. */
  predicate Earlier(a: YearMonth, b: YearMonth)
  {
    a.year < b.year || (a.year == b.year && a.month < b.month)
  }

  /** Ranks months so that a higher rank is an earlier month. */
  function ByAge(g: Group<YearMonth>): int
  {
    -(12 * g.key.year + g.key.month)
  }

  /** Delivered donations counted per calendar month of `createdAt`, sorted
      ascending by (year, month) and cut to six: the six OLDEST months. */
  function MonthlyBuckets(ds: seq<Donation>): (r: seq<Group<YearMonth>>)
    ensures |r| <= 6
    ensures forall i, j :: 0 <= i < j < |r| ==> Earlier(r[i].key, r[j].key)
    ensures forall i :: 0 <= i < |r| ==>
              1 <= r[i].key.month <= 12 && r[i].count == NumDeliveredWith(ds, CreatedMonth, r[i].key) && r[i].count >= 1
    ensures forall j :: 0 <= j < |ds| && IsDelivered(ds[j]) && CreatedMonth(ds[j]) !in KeysOf(r) ==>
              |r| == 6 && forall i :: 0 <= i < |r| ==> Earlier(r[i].key, CreatedMonth(ds[j]))
  {
    var r := TopDeliveredBy(ds, CreatedMonth, 6, ByAge);
    MonthlyRange(ds, r);
    MonthlyOrder(ds, r);
    r
  }

  /** Every month a bucket is labelled with is a month from 1 to 12. */
  lemma MonthlyRange(ds: seq<Donation>, r: seq<Group<YearMonth>>)
    requires r == TopDeliveredBy(ds, CreatedMonth, 6, ByAge)
    ensures forall i :: 0 <= i < |r| ==> 1 <= r[i].key.month <= 12
  {
    var s := DeliveredKeys(ds, CreatedMonth);
    forall i | 0 <= i < |r| ensures 1 <= r[i].key.month <= 12 {
      var y := r[i].key;
      assert y in s;
      var i' :| 0 <= i' < |s| && s[i'] == y;
      var j :| 0 <= j < |ds| && IsDelivered(ds[j]) && CreatedMonth(ds[j]) == y;
      MonthOfRecord(ds[j]);
    }
  }

  lemma MonthOfRecord(d: Donation)
    ensures 1 <= CreatedMonth(d).month <= 12
  {
  }

  /** Of two different months, the one with the higher `ByAge` rank is the
      earlier one. */
  lemma AgeOrder(a: YearMonth, b: YearMonth, na: nat, nb: nat)
    requires 1 <= a.month <= 12 && 1 <= b.month <= 12 && a != b
    requires ByAge(Group(a, na)) >= ByAge(Group(b, nb))
    ensures Earlier(a, b)
  {
  }

  /** Buckets ascend by month, and a month left out is later than every
      month kept. */
  lemma MonthlyOrder(ds: seq<Donation>, r: seq<Group<YearMonth>>)
    requires r == TopDeliveredBy(ds, CreatedMonth, 6, ByAge)
    requires forall i :: 0 <= i < |r| ==> 1 <= r[i].key.month <= 12
    ensures forall i, j :: 0 <= i < j < |r| ==> Earlier(r[i].key, r[j].key)
    ensures forall j :: 0 <= j < |ds| && IsDelivered(ds[j]) && CreatedMonth(ds[j]) !in KeysOf(r) ==>
              |r| == 6 && forall i :: 0 <= i < |r| ==> Earlier(r[i].key, CreatedMonth(ds[j]))
  {
    forall i, j | 0 <= i < j < |r| ensures Earlier(r[i].key, r[j].key) {
      AgeOrder(r[i].key, r[j].key, r[i].count, r[j].count);
    }
    forall j | 0 <= j < |ds| && IsDelivered(ds[j]) && CreatedMonth(ds[j]) !in KeysOf(r)
      ensures |r| == 6 && forall i :: 0 <= i < |r| ==> Earlier(r[i].key, CreatedMonth(ds[j]))
    {
      var m := CreatedMonth(ds[j]);
      forall i | 0 <= i < |r| ensures Earlier(r[i].key, m) {
        assert KeysOf(r)[i] == r[i].key;
        AgeOrder(r[i].key, m, r[i].count, NumDeliveredWith(ds, CreatedMonth, m));
      }
    }
  }

  datatype MonthlyEntry = MonthlyEntry(month: string, count: nat)

  /** The monthly buckets labelled with their month's short name. */
  function MonthlyData(ds: seq<Donation>): (r: seq<MonthlyEntry>)
    ensures var b := MonthlyBuckets(ds);
            |r| == |b| && forall i :: 0 <= i < |r| ==>
              r[i].count == b[i].count && r[i].month == MonthNames[b[i].key.month - 1]
  {
    var b := MonthlyBuckets(ds);
    seq(|b|, i requires 0 <= i < |b| => MonthlyEntry(MonthNames[b[i].key.month - 1], b[i].count))
  }

  datatype DonationStats = DonationStats(types: seq<Group<string>>, monthly: seq<MonthlyEntry>)

  datatype Contributors = Contributors(donors: seq<Group<string>>, charities: seq<Group<Option<string>>>)
}
