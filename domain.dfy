/**
 * The dashboard's records: users, subscription plans and subscription
 * records, with the lookups every component shares.
 */
module Domain {
  import opened Base
  import opened Dates

  /**
   * A customer. The seed data and most components call the display name
   * `name`; the type declaration and two components call it `companyName`.
   * The model has the one field.
   */
  datatype User = User(id: string, name: string, email: string, phone: string)

  /** A catalogue entry; `duration` is free text such as "30 days" or "Lifetime". */
  datatype Plan = Plan(id: string, name: string, duration: string, price: Option<int>, description: Option<string>)

  datatype Status = Active | Expired | Pending

  /**
   * One subscription record. `id` is optional because the dashboard never
   * sets it; `endDate` is `None` where the record's end date is empty, which
   * the table shows as a lifetime subscription.
   */
  datatype Subscription = Subscription(
    id: Option<string>,
    userId: string,
    planId: string,
    planName: string,
    status: Status,
    startDate: Date,
    endDate: Option<Date>)

  /** `plans.find(p => p.id === planId)`. */
  function FindPlan(plans: seq<Plan>, planId: string): (r: Option<Plan>)
    ensures r.None? <==> forall p :: p in plans ==> p.id != planId
    ensures r.Some? ==> r.value in plans && r.value.id == planId
  {
    if plans == [] then None
    else if plans[0].id == planId then Some(plans[0])
    else FindPlan(plans[1..], planId)
  }

  /** `users.find(user => user.id === id)`. */
  function FindUser(users: seq<User>, id: string): (r: Option<User>)
    ensures r.None? <==> forall u :: u in users ==> u.id != id
    ensures r.Some? ==> r.value in users && r.value.id == id
  {
    if users == [] then None
    else if users[0].id == id then Some(users[0])
    else FindUser(users[1..], id)
  }

  /** Position of the user's first record, or `|subs|` when there is none. */
  function FirstIndex(subs: seq<Subscription>, userId: string): (k: nat)
    ensures k <= |subs|
    ensures k < |subs| ==> subs[k].userId == userId
    ensures forall j :: 0 <= j < k ==> subs[j].userId != userId
  {
    if subs == [] || subs[0].userId == userId then 0 else 1 + FirstIndex(subs[1..], userId)
  }

  /** `subscriptions.find(sub => sub.userId === userId)`: the user's first record. */
  function FirstRecord(subs: seq<Subscription>, userId: string): (r: Option<Subscription>)
    ensures r.None? <==> forall s :: s in subs ==> s.userId != userId
    ensures r.Some? ==> r.value in subs && r.value.userId == userId
    ensures r.Some? ==> exists k :: (0 <= k < |subs| && subs[k] == r.value
      && forall j :: 0 <= j < k ==> subs[j].userId != userId)
  {
    var k := FirstIndex(subs, userId);
    if k < |subs| then Some(subs[k]) else None
  }

  /** The user has a record (`find` returns something). */
  predicate HasRecord(subs: seq<Subscription>, userId: string) {
    exists s :: s in subs && s.userId == userId
  }

  /** The user has a record with the given status. */
  predicate HasRecordWith(subs: seq<Subscription>, userId: string, status: Status) {
    exists s :: s in subs && s.userId == userId && s.status == status
  }

  /** `subscriptions.filter(sub => sub.userId === userId)`: the user's records, in order. */
  function RecordsOf(subs: seq<Subscription>, userId: string): (r: seq<Subscription>)
    ensures forall s :: s in r <==> s in subs && s.userId == userId
    ensures IsSubsequence(r, subs)
  {
    if subs == [] then []
    else
      var rest := RecordsOf(subs[1..], userId);
      assert subs == [subs[0]] + subs[1..];
      if subs[0].userId == userId then
        SubsequenceCons(subs[0], rest, subs[1..]);
        [subs[0]] + rest
      else
        SubsequenceSkip(subs[0], rest, subs[1..]);
        rest
  }

  /** The user's records with the given status, in order (the table's active and expired lists). */
  function RecordsWith(subs: seq<Subscription>, userId: string, status: Status): (r: seq<Subscription>)
    ensures forall s :: s in r <==> s in subs && s.userId == userId && s.status == status
    ensures IsSubsequence(r, subs)
  {
    if subs == [] then []
    else
      var rest := RecordsWith(subs[1..], userId, status);
      assert subs == [subs[0]] + subs[1..];
      if subs[0].userId == userId && subs[0].status == status then
        SubsequenceCons(subs[0], rest, subs[1..]);
        [subs[0]] + rest
      else
        SubsequenceSkip(subs[0], rest, subs[1..]);
        rest
  }
}
