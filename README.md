# ZeroBite server core in Dafny

ZeroBite connects food donors with charities. Donors post surplus food.
Charities claim it. Workers carry it and advance its status. An admin
approves the accounts. The server keeps two collections, users and
donations. Its route handlers each read one record, check guards in a fixed
order, and then either answer with an error or write the record back. The
dashboards aggregate the Delivered donations.

The model keeps that logic and drops the HTTP and database plumbing:

- `Types` holds the entities: users with a profile, donations with their
  donor, charity and worker snapshots, statuses and roles, and the error
  outcomes of the handlers. JavaScript's `a || b` on strings becomes `Or`.
- `Server.Store` is a class holding `map<UserId, User>`,
  `map<DonationId, Donation>` and two id counters. Each state-changing
  route is a method whose `ensures` gives the whole new state for every
  error path and for the success path. Each method keeps `Valid()`, which
  says ids match their keys, ids lie below the counters, and emails are
  unique. Each donation method also keeps `Kept`: the donor snapshot and
  creation time never change, and an assigned worker stays assigned. The
  read-only routes are functions that read the store.
- `Listings` covers the four donation listings: a filter, then newest
  `createdAt` first.
- `Eta` is the delivery-estimate heuristic.
- `Stats`, `Grouping`, `Sorting` and `Calendar` implement the dashboard
  aggregations over the donation records in id order:
  - sums over Delivered records;
  - the food estimate in tenths of a kilogram;
  - counts of Approved donors and charities;
  - top-k groupings by snapshot name;
  - per-month buckets keyed by the UTC year and month of `createdAt`.

Modelling choices:

- The caller of an authenticated route is its user id.
- A caller id with no user behind it models `findById` returning null.
  Posting a donation tests for it and answers 403 (`Forbidden`). Claiming,
  advancing a donation that has no worker yet, and the ETA route read a
  field of it, throw, and answer 400 (`BadRequest`). The admin routes throw
  the same way and answer 500 (`ServerError`). Listing, editing and
  deleting donations never look the caller up.
- A password's length is counted in UTF-16 code units, as JavaScript's
  `length` counts them: a character beyond the Basic Multilingual Plane
  counts twice.
- The current time and the password hash are parameters.
- The password comparison is a function parameter `compare`.
- Timestamps are integers in milliseconds.
- `foodKg` is an integer number of tenths: `round(portions * 0.5 * 10)`
  tenths, which is exactly `5 * portions`.
- The database's `$group` stage leaves the order of equal-count groups open,
  and so does `$sort`. The model groups in first-appearance order and sorts
  stably. That is one admissible order. The contracts state only what every
  admissible order satisfies.

## Model

| member | source | states |
|---|---|---|
| Server.Store.Register | server/server.js:94-117 | Four cases. (1) Missing email, or a password under 6 UTF-16 code units, gives ValidationFailed. (2) An email already present gives DuplicateEmail. In both error cases the store is unchanged. (3) Otherwise exactly one user is added, under the next id. (4) That user is an Approved Admin iff the registry was empty, and otherwise Pending with the requested role. `Valid()` is kept, so emails stay unique. |
| Types.Utf16Length | server/server.js:97 | `password.length`: at least one and at most two code units per character, and 0 only for the empty string. |
| Types.Utf16LengthBmp | server/server.js:97 | A string without characters beyond the Basic Multilingual Plane has exactly one code unit per character. |
| Types.Utf16LengthAppend | server/server.js:97 | The code-unit length of a concatenation is the sum of the lengths. |
| Server.Store.Login | server/server.js:124-138 | Success iff some user has the email, is Approved, and the password matches. PendingApproval iff the user with the email is not Approved, whatever the password. Otherwise InvalidCredentials. The view carries that user's own id, contact person, email, role and status. |
| Server.Store.FindByEmail | server/server.js:100-101 | The user stored under the email, or None exactly when no user has it. |
| Server.FirstWithEmail | server/server.js:127-128 | `findOne` over a sequence: a user with the email at a position before which no user has it, that is the first one; None exactly when no user has it. |
| Server.Store.PendingUsers | server/server.js:145-151 | A caller id with no user gives ServerError. A non-Admin caller gives Forbidden. An Admin gets exactly the Pending users, each once. |
| Server.PendingOf | server/server.js:150 | Exactly the users whose status is Pending, each once when the input holds no user twice. |
| Server.Store.SetUserStatus | server/server.js:157-168 | ServerError, Forbidden or NotFound, in that order, each leaving the registry unchanged. An Admin's call replaces only the target's `status`. |
| Server.Store.UserRecords | server/server.js:150 | Every stored user and only those, each once, in strictly ascending id order, which is registration order. |
| Server.Store.Records | server/server.js:178 | Every stored donation and only those, each once, in strictly ascending id order, which is insertion order. |
| Server.IdsBelow | server/server.js:178 | The stored ids below the counter, strictly ascending, none missed. |
| Server.InIdOrder | server/server.js:178 | Exactly the values of the map, position i holding the value at the i-th stored key below the counter, which ascend; each value once when no value is stored twice. |
| Server.Store.List | server/server.js:176-210 | Exactly the stored donations matching the listing's filter, each once, newest `createdAt` first. |
| Listings.Matches | server/server.js:178-205 | The four filters: the Available and the Claimed-or-In-Transit listings are disjoint and never show a Delivered donation; a charity's listing shows only claimed donations (by the claim snapshot, whatever the current status). |
| Listings.Select | server/server.js:178 | Keeps every matching record as often as it occurs and drops every other one. |
| Listings.Listing | server/server.js:178 | The same records as `Select`, with the same multiplicities, sorted by non-increasing `createdAt`. |
| Listings.ListingNoDupes | server/server.js:187 | A listing of records without duplicates has no duplicates. |
| Sorting.Insert | server/server.js:178 | Inserting into a sorted sequence keeps it sorted and adds exactly one element. |
| Sorting.SortDesc | server/server.js:178 | A permutation of its input, sorted by non-increasing rank. |
| Sorting.Take | server/server.js:408 | `$limit`: the first `k` elements, or all of them when there are fewer. |
| Sorting.AtMostOnce | server/server.js:178 | In a sequence without duplicates each value occurs at most once. |
| Sorting.PermutationNoDupes | server/server.js:178 | A permutation of a sequence without duplicates has none. |
| Sorting.PermutationMembers | server/server.js:178 | A permutation has the same members. |
| Server.Store.CreateDonation | server/server.js:212-231 | A caller who is missing or not Approved gets Forbidden and nothing is added. Any role counts as long as the caller is Approved. Otherwise exactly one donation is added under the next id. It is Available, has no claim and no worker, and is stamped with `now`. Its donor is the caller. `donorName` is the business name if non-empty, else the contact person. Address and contact are copied from the caller. |
| Types.Or | server/server.js:227 | JavaScript's logical or on strings, as used for the donor name here and the charity name at line 281: the first operand unless it is empty, and the empty string only when both are. |
| Server.Store.OwnerGuard | server/server.js:241-244 | NotFound, then Unauthorized for a non-owner, then InvalidState when not Available. No error iff the caller owns an Available record. |
| Server.Store.UpdateDonation | server/server.js:238-250 | On a guard failure the store is unchanged. Otherwise only `foodDescription`, `quantity` and `serves` of that record change. |
| Server.Store.DeleteDonation | server/server.js:256-264 | On a guard failure the store is unchanged. Otherwise exactly that id is removed. |
| Server.Store.Claim | server/server.js:270-285 | Errors: BadRequest for a caller id with no user, Forbidden if the caller is not Approved, NotFound, then InvalidState if the donation is not Available. Each leaves the store unchanged. On success the status becomes Claimed and the charity snapshot is written: the caller, the charity name if non-empty else the contact person, the address, and the purpose. Nothing else changes. |
| Server.Store.AdvanceStatus | server/server.js:291-308 | A missing donation gives NotFound. With no worker assigned, a caller id with no user gives BadRequest. Otherwise the caller becomes the worker only if none was assigned, since the first caller wins. The status becomes exactly the requested one and `statusUpdatedAt` becomes `now`. The previous status is not checked. |
| Server.Store.EtaOf | server/server.js:315-335 | BadRequest for a caller id with no user, then NotFound. Otherwise the record's status and update time, and exactly the heuristic's estimate for that status and update time at `now`. The estimate is at least 0. Once the update time is not in the future it is at most 60, and for In Transit it lies in [5, 30]. |
| Eta.EtaMinutes | server/server.js:322-334 | The estimate is never negative. |
| Eta.EtaBounds | server/server.js:322-334 | When `since` is not negative the estimate lies in [0, 60], and an In Transit one lies in [5, 30]. |
| Eta.EtaNonIncreasing | server/server.js:327 | The estimate never grows as `now` advances. |
| Eta.InTransitCountdown | server/server.js:327 | In Transit starts at 30, drops one per whole minute, and stays at 5 from minute 25 on. |
| Eta.EtaOtherStatuses | server/server.js:326-329 | Claimed gives 45, Delivered gives 0, Available gives 60, whatever the times. |
| Server.Store.Dashboard | server/server.js:375-395 | The donor and charity counts are the numbers of Approved users of each role, at most the number of users, and each is 0 iff no user is Approved in that role. Meals are the served count summed over Delivered donations, and `foodKg` is 5 tenths per delivered portion. |
| Stats.GlobalStats | server/server.js:377-394 | Donors and charities are the Approved counts of those roles, bounded by the registry. Meals are the delivered `serves` sum, and `foodKg` in tenths is 5 times the delivered portions. |
| Stats.CountApproved | server/server.js:377-378 | At most the number of users, and 0 iff no user is Approved in that role. |
| Stats.CountApprovedInsert | server/server.js:377-378 | Adding a user under a new id raises the count of a role by one exactly when that user is Approved in it. |
| Stats.CountApprovedOverwrite | server/server.js:157-168 | Replacing a stored user, as a status change does, lowers the count by one if the old record was Approved in the role and raises it by one if the new one is. |
| Stats.SumPermutation | server/server.js:379-386 | Meals and portions do not depend on the order of the records. |
| Stats.SumAppend | server/server.js:379-386 | The sum over two runs of records is the sum of their sums. |
| Stats.SumRemove | server/server.js:379-386 | Removing one record lowers the sum by exactly its contribution: its field if Delivered, otherwise 0. |
| Stats.SumDelivered | server/server.js:379-387 | 0 when no record is Delivered, as the route substitutes for an empty aggregation; never negative when no Delivered record has a negative field. |
| Stats.Meals | server/server.js:379-382 | Meals: 0 with no Delivered donation, and never negative when no Delivered donation serves a negative number. |
| Stats.Portions | server/server.js:383-387 | Portions: 0 with no Delivered donation, and never negative when no Delivered quantity is negative. |
| Stats.RoundHalfUp | server/server.js:388 | `Math.round`: the nearest integer, with halves rounded up. |
| Stats.FoodKgTenths | server/server.js:388 | Rounding `portions * 0.5` to one decimal gives exactly `5 * portions` tenths. |
| Stats.DeliveredKeys | server/server.js:405-406 | Every key comes from a Delivered record. |
| Stats.DeliveredKeysCount | server/server.js:405-406 | A key occurs among the Delivered keys exactly as often as there are Delivered records carrying it. |
| Stats.DeliveredKeyPresent | server/server.js:405-406 | The key of every Delivered record is among the Delivered keys. |
| Stats.TopDeliveredBy | server/server.js:404-409 | At most `k` groups with distinct keys, sorted by the rank. Each count is the number of Delivered records with that key, and at least 1. A Delivered key left out means `k` groups were kept, each ranked at least as high as the missing one. |
| Stats.TopDelivered | server/server.js:448-453 | The same with the rank being the count: counts non-increasing, and no left-out key has more Delivered records than a kept one. |
| Stats.TypeStats | server/server.js:404-409 | At most 5 distinct food descriptions in non-increasing count order, each with its exact number of Delivered donations, at least 1. A Delivered description left out means 5 were kept, none with fewer donations. |
| Stats.TopDonors | server/server.js:448-453 | At most 6 distinct donor names in non-increasing count order, each with its exact number of Delivered donations. A Delivered donor left out means 6 were kept, none with fewer. |
| Stats.TopCharities | server/server.js:455-460 | At most 6 distinct charity names in non-increasing count order, each with its exact number of Delivered donations; the absent name groups the never-claimed ones. A Delivered charity left out means 6 were kept, none with fewer. |
| Stats.CharityName | server/server.js:457 | The grouping key is the claim snapshot's charity name, and absent exactly when the donation was never claimed. |
| Stats.MonthlyBuckets | server/server.js:412-425 | At most 6 months, strictly ascending by (year, month). Each month is 1 to 12, with its exact number of Delivered donations. A Delivered donation's month is left out only when 6 months were kept, all of them earlier, so the buckets are the six OLDEST months. |
| Stats.MonthlyData | server/server.js:427-431 | One entry per bucket, in the bucket order, with that bucket's count and the short name of its month. |
| Server.Store.DonationStatsOf | server/server.js:401-439 | The types are the top-5 food descriptions and the monthly data is the labelled six oldest months, so at most 5 types and 6 months. |
| Server.Store.ContributorsOf | server/server.js:446-465 | The donors are the top-6 donor names and the charities the top-6 charity names, so at most 6 of each. |
| Grouping.Tally | server/server.js:406 | One group per distinct key, with that key's exact number of occurrences. |
| Grouping.TallyTotal | server/server.js:406 | The counts of a tally add up to the number of records grouped. |
| Grouping.Bump | server/server.js:406 | One more occurrence of a key: its group's count grows by one, or a group of count 1 is appended. |
| Grouping.Top | server/server.js:406-408 | Group, sort, then limit: distinct keys, exact counts, sorted, and no left-out key outranks a kept group. |
| Calendar.YearMonthOf | server/server.js:417-418 | The UTC month (1 to 12) and year whose days contain the timestamp's day. |
| Calendar.YearOfDay | server/server.js:417 | The year whose first day is on or before the given day, and whose successor's first day is after it. |
| Calendar.MonthFrom | server/server.js:418 | The month of the year that contains the given day of the year. |
| Scenarios.Bootstrap | server/server.js:106-137 | For every password of at least 6 code units and every role the first registrant asks for: from an empty store, that registrant becomes the Approved Admin. The second is Pending with the asked role, and their login gives PendingApproval even with the right password. After an admin approves them, the same login succeeds with their own view. |
| Scenarios.AstralPassword | server/server.js:97 | A five-character password is refused, and one of three characters beyond the Basic Multilingual Plane, six code units long, is accepted. |
| Scenarios.ReclaimAfterReset | server/server.js:270-306 | A claimed donation advanced by two callers keeps the first as its worker, and a worker still Pending may advance it. Once it is set back to Available, which no check prevents, another Approved user (the admin) can claim it again. That claim replaces the charity snapshot and keeps the worker. |

## Left out

- HTTP routing, CORS, JSON bodies, responses and the listening socket
  (server/server.js:1-20, 471-473) are I/O.
- The database connection is I/O. Query and aggregation operators are
  modelled by their results over the records.
- bcrypt is left out. The salted hash is a parameter of `Register`, and the
  comparison is a parameter of `Login`.
- JWT signing, verification and expiry, and the auth middleware
  (server/server.js:78-89), are left out. An authenticated caller is its
  user id.
- Mongoose schema validation of required fields is not modelled: an empty
  or missing field is accepted. This includes an empty `donorAddress` of a
  caller without an address. The real handler then fails at save.
- An out-of-enum `status` in a request is not modelled. An unknown role,
  user status or donation status would be rejected at save; here statuses
  are datatypes.
- Request fields beyond the profile are not kept. These are the licences,
  certificates, employee id and the other optional registration fields.
- A request with no email, or with a non-string body, is not modelled.
- Concurrent requests are not modelled: each handler is one atomic step.
  The real read-then-write of claim and status advance can race.
- Quantities are integers. Floating-point `quantity` and `serves` are not
  modelled.
- The carousel routes (server/server.js:341-372) are not modelled.
- The client application is not modelled.
- A donation set back to Available by `AdvanceStatus` can be claimed again,
  which overwrites the charity snapshot. The model states this as the
  source behaves and does not forbid it.
- The ETA route's role check (server/server.js:318) admits every role a
  user can have, so the model has no branch for it.
