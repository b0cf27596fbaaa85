/**
 * The subscription ledger held by the dashboard page: the window a new
 * subscription gets, the handlers that assign and delete subscriptions, the
 * filtered user list and the four tab counts.
 *
 * Every assignment REPLACES all the records of its user (remove them, then
 * append the new record); nothing is stacked.
 */
module Ledger {
  import opened Base
  import opened Dates
  import opened Text
  import opened Domain

  // ================================================================ dates

  /** The start and end dates `addSubscriptionDates` returns. */
  datatype Window = Window(startDate: Date, endDate: Date)

  /**
   * The offset for a plan's duration text; `None` stands for a plan that was
   * not found (`plan?.duration` is `undefined`).
   */
  function DurationOffset(duration: Option<string>): (o: Offset)
    ensures o.n > 0
    ensures o == Days(30) <==> duration == Some("30 days")
    ensures o == Months(3) <==> duration == Some("3 months")
    ensures o == Years(5) <==> duration == Some("5 years")
    ensures o == Years(100) <==> duration == Some("Lifetime")
    ensures o == Years(1) <==>
      duration !in {Some("30 days"), Some("3 months"), Some("5 years"), Some("Lifetime")}
  {
    if duration == Some("30 days") then Days(30)
    else if duration == Some("3 months") then Months(3)
    else if duration == Some("1 year") then Years(1)
    else if duration == Some("5 years") then Years(5)
    else if duration == Some("Lifetime") then Years(100)
    else Years(1)
  }

  /** `addSubscriptionDates(planId)`, with `today` standing for the clock. */
  function SubscriptionDates(plans: seq<Plan>, planId: string, today: Date): (w: Window)
    ensures w.startDate == today
    ensures Before(today, w.endDate)
    ensures w.endDate == AddOffset(today,
      DurationOffset(if FindPlan(plans, planId).Some? then Some(FindPlan(plans, planId).value.duration) else None))
  {
    var plan := FindPlan(plans, planId);
    var o := DurationOffset(if plan.Some? then Some(plan.value.duration) else None);
    AddOffsetAfter(today, o);
    Window(today, AddOffset(today, o))
  }

  /** A plan that is not in the catalogue gets one year, like a "1 year" plan. */
  lemma UnknownPlanGetsOneYear(plans: seq<Plan>, planId: string, today: Date)
    requires FindPlan(plans, planId).None?
    ensures SubscriptionDates(plans, planId, today) == Window(today, AddYears(today, 1))
  {
  }

  // ================================================================ records

  /** The record every handler appends: active, with the plan's id and name. */
  function NewRecord(userId: string, plan: Plan, w: Window): (s: Subscription)
    ensures s.userId == userId && s.planId == plan.id && s.planName == plan.name
    ensures s.status == Active && s.startDate == w.startDate && s.endDate == Some(w.endDate)
  {
    Subscription(None, userId, plan.id, plan.name, Active, w.startDate, Some(w.endDate))
  }

  /** `prev.filter(sub => sub.userId !== userId)`. */
  function Without(subs: seq<Subscription>, userId: string): (r: seq<Subscription>)
    ensures forall s :: s in r <==> s in subs && s.userId != userId
    ensures |r| <= |subs|
    ensures IsSubsequence(r, subs)
  {
    if subs == [] then []
    else
      var rest := Without(subs[1..], userId);
      assert subs == [subs[0]] + subs[1..];
      if subs[0].userId != userId then
        SubsequenceCons(subs[0], rest, subs[1..]);
        [subs[0]] + rest
      else
        SubsequenceSkip(subs[0], rest, subs[1..]);
        rest
  }

  /** The records of none of the given users, in their original order. */
  function WithoutAll(subs: seq<Subscription>, userIds: seq<string>): (r: seq<Subscription>)
    ensures forall s :: s in r <==> s in subs && s.userId !in userIds
    ensures IsSubsequence(r, subs)
  {
    if subs == [] then []
    else
      var rest := WithoutAll(subs[1..], userIds);
      assert subs == [subs[0]] + subs[1..];
      if subs[0].userId !in userIds then
        SubsequenceCons(subs[0], rest, subs[1..]);
        [subs[0]] + rest
      else
        SubsequenceSkip(subs[0], rest, subs[1..]);
        rest
  }

  /** One replace step of a handler: drop the user's records, append the new one. */
  function Assign(subs: seq<Subscription>, rec: Subscription): seq<Subscription> {
    Without(subs, rec.userId) + [rec]
  }

  /** The replace steps for `recs`, one after the other. */
  function AssignAll(subs: seq<Subscription>, recs: seq<Subscription>): seq<Subscription> {
    if recs == [] then subs
    else Assign(AssignAll(subs, recs[..|recs| - 1]), recs[|recs| - 1])
  }

  function UserIds(recs: seq<Subscription>): (ids: seq<string>)
    ensures |ids| == |recs|
    ensures forall i :: 0 <= i < |recs| ==> ids[i] == recs[i].userId
  {
    seq(|recs|, i requires 0 <= i < |recs| => recs[i].userId)
  }

  /** The last record in `recs` for the user, which is the one that survives. */
  function LastFor(recs: seq<Subscription>, userId: string): (r: Option<Subscription>)
    ensures r.None? <==> userId !in UserIds(recs)
    ensures r.Some? ==> r.value in recs && r.value.userId == userId
    ensures r.Some? ==> exists k :: (0 <= k < |recs| && recs[k] == r.value
      && forall j :: k < j < |recs| ==> recs[j].userId != userId)
  {
    if recs == [] then None
    else if recs[|recs| - 1].userId == userId then Some(recs[|recs| - 1])
    else
      var prefix := recs[..|recs| - 1];
      var r := LastFor(prefix, userId);
      assert UserIds(recs) == UserIds(prefix) + [recs[|recs| - 1].userId];
      assert forall j :: 0 <= j < |prefix| ==> prefix[j] == recs[j];
      r
  }

  // ---------------------------------------------------------------- lemmas about the filters

  /** `RecordsOf` on a list split into its head and the rest. */
  lemma RecordsOfCons(x: Subscription, rest: seq<Subscription>, u: string)
    ensures RecordsOf([x] + rest, u) == (if x.userId == u then [x] else []) + RecordsOf(rest, u)
  {
    var s := [x] + rest;
    assert s[0] == x && s[1..] == rest;
  }

  lemma {:induction false} RecordsOfConcat(a: seq<Subscription>, b: seq<Subscription>, u: string)
    ensures RecordsOf(a + b, u) == RecordsOf(a, u) + RecordsOf(b, u)
  {
    if a == [] {
      assert a + b == b;
    } else {
      var x := a[0];
      var t := a[1..];
      RecordsOfConcat(t, b, u);
      assert a == [x] + t;
      ConsConcat(x, t, b);
      RecordsOfCons(x, t + b, u);
      RecordsOfCons(x, t, u);
      ConcatAssoc(if x.userId == u then [x] else [], RecordsOf(t, u), RecordsOf(b, u));
    }
  }

  /** Removing a user's records empties that user and leaves every other user's records as they were. */
  lemma {:induction false} RecordsOfWithout(subs: seq<Subscription>, w: string, u: string)
    ensures RecordsOf(Without(subs, w), u) == if u == w then [] else RecordsOf(subs, u)
  {
    if subs != [] {
      RecordsOfWithout(subs[1..], w, u);
    }
  }

  /** `Without` on a list split into its head and the rest. */
  lemma WithoutCons(x: Subscription, rest: seq<Subscription>, u: string)
    ensures Without([x] + rest, u) == (if x.userId != u then [x] else []) + Without(rest, u)
  {
    var s := [x] + rest;
    assert s[0] == x && s[1..] == rest;
  }

  lemma {:induction false} WithoutConcat(a: seq<Subscription>, b: seq<Subscription>, u: string)
    ensures Without(a + b, u) == Without(a, u) + Without(b, u)
  {
    if a == [] {
      assert a + b == b;
    } else {
      var x := a[0];
      var t := a[1..];
      WithoutConcat(t, b, u);
      assert a == [x] + t;
      ConsConcat(x, t, b);
      WithoutCons(x, t + b, u);
      WithoutCons(x, t, u);
      ConcatAssoc(if x.userId != u then [x] else [], Without(t, u), Without(b, u));
    }
  }

  lemma {:induction false} WithoutAbsent(subs: seq<Subscription>, u: string)
    requires forall s :: s in subs ==> s.userId != u
    ensures Without(subs, u) == subs
  {
    if subs != [] {
      WithoutAbsent(subs[1..], u);
    }
  }

  lemma {:induction false} WithoutAllSnoc(subs: seq<Subscription>, ids: seq<string>, u: string)
    ensures Without(WithoutAll(subs, ids), u) == WithoutAll(subs, ids + [u])
  {
    if subs != [] {
      WithoutAllSnoc(subs[1..], ids, u);
    }
  }

  /** Removing a user twice is removing once. */
  lemma {:induction false} WithoutIdempotent(subs: seq<Subscription>, u: string)
    ensures Without(Without(subs, u), u) == Without(subs, u)
  {
    if subs != [] {
      WithoutIdempotent(subs[1..], u);
    }
  }

  // ---------------------------------------------------------------- lemmas about the replace steps

  /** After the replace steps, a user has exactly the last new record given for them, or else their old records. */
  lemma {:induction false} AssignAllRecordsOf(subs: seq<Subscription>, recs: seq<Subscription>, u: string)
    ensures RecordsOf(AssignAll(subs, recs), u) ==
      match LastFor(recs, u)
      case Some(x) => [x]
      case None => RecordsOf(subs, u)
    decreases |recs|
  {
    if recs != [] {
      var prefix := recs[..|recs| - 1];
      var r := recs[|recs| - 1];
      var before := AssignAll(subs, prefix);
      AssignAllRecordsOf(subs, prefix, u);
      AssignAllLast(subs, recs);
      RecordsOfConcat(Without(before, r.userId), [r], u);
      RecordsOfWithout(before, r.userId, u);
      RecordsOfCons(r, [], u);
      assert [r] + [] == [r];
      if r.userId == u {
        assert RecordsOf(AssignAll(subs, recs), u) == [] + [r];
      } else {
        assert RecordsOf(AssignAll(subs, recs), u) == RecordsOf(before, u) + [];
      }
    }
  }

  /**
   * The replace steps split the ledger in two: first the surviving old
   * records, in their old order, then the new records (replayed on an empty
   * ledger).
   */
  lemma {:induction false} AssignAllSplits(subs: seq<Subscription>, recs: seq<Subscription>)
    ensures AssignAll(subs, recs) == WithoutAll(subs, UserIds(recs)) + AssignAll([], recs)
    decreases |recs|
  {
    if recs == [] {
      assert UserIds(recs) == [];
      WithoutAllNone(subs);
    } else {
      var prefix := recs[..|recs| - 1];
      var r := recs[|recs| - 1];
      AssignAllSplits(subs, prefix);
      assert recs == prefix + [r];
      AssignAllSplitsStep(subs, prefix, r);
    }
  }

  lemma AssignAllSplitsStep(subs: seq<Subscription>, prefix: seq<Subscription>, r: Subscription)
    requires AssignAll(subs, prefix) == WithoutAll(subs, UserIds(prefix)) + AssignAll([], prefix)
    ensures AssignAll(subs, prefix + [r]) == WithoutAll(subs, UserIds(prefix + [r])) + AssignAll([], prefix + [r])
  {
    var recs := prefix + [r];
    var kept := WithoutAll(subs, UserIds(prefix));
    var added := AssignAll([], prefix);
    assert recs[..|recs| - 1] == prefix && recs[|recs| - 1] == r;
    AssignAllLast(subs, recs);
    assert AssignAll(subs, recs) == Without(kept + added, r.userId) + [r];
    WithoutConcat(kept, added, r.userId);
    ConcatAssoc(Without(kept, r.userId), Without(added, r.userId), [r]);
    AssignAllLast([], recs);
    UserIdsSnoc(prefix, r);
    WithoutAllSnoc(subs, UserIds(prefix), r.userId);
  }

  lemma UserIdsSnoc(prefix: seq<Subscription>, r: Subscription)
    ensures UserIds(prefix + [r]) == UserIds(prefix) + [r.userId]
  {
  }

  lemma {:induction false} WithoutAllNone(subs: seq<Subscription>)
    ensures WithoutAll(subs, []) == subs
  {
    if subs != [] {
      WithoutAllNone(subs[1..]);
    }
  }

  /** When no user appears twice among the new records, all of them are appended, in input order. */
  lemma {:induction false} AssignAllFreshDistinct(recs: seq<Subscription>)
    requires NoDuplicates(UserIds(recs))
    ensures AssignAll([], recs) == recs
    decreases |recs|
  {
    if recs != [] {
      var prefix := recs[..|recs| - 1];
      var r := recs[|recs| - 1];
      FreshDistinctPrefix(recs);
      AssignAllFreshDistinct(prefix);
      WithoutAbsent(prefix, r.userId);
      AssignAllLast([], recs);
      SnocLast(recs);
    }
  }

  /** The last replace step, taken apart. */
  lemma AssignAllLast(subs: seq<Subscription>, recs: seq<Subscription>)
    requires recs != []
    ensures AssignAll(subs, recs) == Assign(AssignAll(subs, recs[..|recs| - 1]), recs[|recs| - 1])
  {
  }

  /** Without repeated users, the prefix has none either and the last user is not in it. */
  lemma FreshDistinctPrefix(recs: seq<Subscription>)
    requires recs != [] && NoDuplicates(UserIds(recs))
    ensures NoDuplicates(UserIds(recs[..|recs| - 1]))
    ensures forall s :: s in recs[..|recs| - 1] ==> s.userId != recs[|recs| - 1].userId
  {
    var prefix := recs[..|recs| - 1];
    var ids := UserIds(recs);
    assert UserIds(prefix) == ids[..|recs| - 1];
    forall s | s in prefix
      ensures s.userId != recs[|recs| - 1].userId
    {
      var i :| 0 <= i < |prefix| && prefix[i] == s;
      assert ids[i] != ids[|recs| - 1];
    }
  }

  // ================================================================ handlers as functions of the ledger

  /** A `(userId, planId)` pair of an individual assignment. */
  datatype Entry = Entry(userId: string, planId: string)

  /** One new record per selected user, all with the batch's single window. */
  function BulkRecords(userIds: seq<string>, plan: Plan, w: Window): (recs: seq<Subscription>)
    ensures |recs| == |userIds| && UserIds(recs) == userIds
    ensures forall i :: 0 <= i < |recs| ==> recs[i] == NewRecord(userIds[i], plan, w)
  {
    seq(|userIds|, i requires 0 <= i < |userIds| => NewRecord(userIds[i], plan, w))
  }

  /** `handleBulkSubscription(planId, selectedUserIds)`. */
  function BulkAssign(subs: seq<Subscription>, plans: seq<Plan>, planId: string, userIds: seq<string>, today: Date): seq<Subscription> {
    match FindPlan(plans, planId)
    case None => subs
    case Some(plan) => AssignAll(subs, BulkRecords(userIds, plan, SubscriptionDates(plans, planId, today)))
  }

  /** The records an individual assignment appends: one per entry whose plan is known, in order. */
  function IndividualRecords(plans: seq<Plan>, entries: seq<Entry>, today: Date): seq<Subscription> {
    if entries == [] then []
    else
      var e := entries[|entries| - 1];
      var earlier := IndividualRecords(plans, entries[..|entries| - 1], today);
      match FindPlan(plans, e.planId)
      case None => earlier
      case Some(plan) => earlier + [NewRecord(e.userId, plan, SubscriptionDates(plans, e.planId, today))]
  }

  /** `handleIndividualSubscriptions(subscriptions)`. */
  function IndividualAssign(subs: seq<Subscription>, plans: seq<Plan>, entries: seq<Entry>, today: Date): seq<Subscription> {
    AssignAll(subs, IndividualRecords(plans, entries, today))
  }

  /** `handleUpdateSubscription(userId, planId)`. */
  function UpdateAssign(subs: seq<Subscription>, plans: seq<Plan>, userId: string, planId: string, today: Date): seq<Subscription> {
    match FindPlan(plans, planId)
    case None => subs
    case Some(plan) => Assign(subs, NewRecord(userId, plan, SubscriptionDates(plans, planId, today)))
  }

  /** The last entry for the user whose plan is in the catalogue. */
  function LastKnownEntry(plans: seq<Plan>, entries: seq<Entry>, userId: string): (r: Option<Entry>)
    ensures r.Some? ==> r.value in entries && r.value.userId == userId && FindPlan(plans, r.value.planId).Some?
    ensures r.None? <==> forall e :: e in entries && e.userId == userId ==> FindPlan(plans, e.planId).None?
    ensures r.Some? ==> exists k :: (0 <= k < |entries| && entries[k] == r.value
      && forall j :: k < j < |entries| && entries[j].userId == userId ==> FindPlan(plans, entries[j].planId).None?)
  {
    if entries == [] then None
    else
      var e := entries[|entries| - 1];
      var prefix := entries[..|entries| - 1];
      assert entries == prefix + [e];
      assert forall j :: 0 <= j < |prefix| ==> prefix[j] == entries[j];
      if e.userId == userId && FindPlan(plans, e.planId).Some? then Some(e)
      else LastKnownEntry(plans, prefix, userId)
  }

  lemma {:induction false} IndividualRecordsLastFor(plans: seq<Plan>, entries: seq<Entry>, today: Date, u: string)
    ensures LastFor(IndividualRecords(plans, entries, today), u) ==
      match LastKnownEntry(plans, entries, u)
      case None => None
      case Some(e) => Some(NewRecord(u, FindPlan(plans, e.planId).value, SubscriptionDates(plans, e.planId, today)))
    decreases |entries|
  {
    if entries != [] {
      var e := entries[|entries| - 1];
      var earlier := IndividualRecords(plans, entries[..|entries| - 1], today);
      IndividualRecordsLastFor(plans, entries[..|entries| - 1], today, u);
      match FindPlan(plans, e.planId)
      case None =>
      case Some(plan) =>
        var rec := NewRecord(e.userId, plan, SubscriptionDates(plans, e.planId, today));
        var recs := earlier + [rec];
        assert recs[..|recs| - 1] == earlier && recs[|recs| - 1] == rec;
        assert LastFor(recs, u) == if rec.userId == u then Some(rec) else LastFor(earlier, u);
    }
  }

  // ---------------------------------------------------------------- the handlers' promises

  /**
   * Bulk assignment with a known plan: every selected user ends up with
   * exactly one record, active, for that plan, with the window computed once
   * for the batch; every other user keeps their records; the ledger is the
   * other users' records in their old order followed by the new records,
   * which are in selection order when no user is selected twice.
   */
  lemma BulkAssignKnownPlan(subs: seq<Subscription>, plans: seq<Plan>, planId: string, userIds: seq<string>, today: Date)
    requires FindPlan(plans, planId).Some?
    ensures var plan := FindPlan(plans, planId).value;
      var w := SubscriptionDates(plans, planId, today);
      var r := BulkAssign(subs, plans, planId, userIds, today);
      && (forall u :: u in userIds ==> RecordsOf(r, u) == [NewRecord(u, plan, w)])
      && (forall u :: u !in userIds ==> RecordsOf(r, u) == RecordsOf(subs, u))
      && r == WithoutAll(subs, userIds) + AssignAll([], BulkRecords(userIds, plan, w))
      && (NoDuplicates(userIds) ==> r == WithoutAll(subs, userIds) + BulkRecords(userIds, plan, w))
  {
    var plan := FindPlan(plans, planId).value;
    var w := SubscriptionDates(plans, planId, today);
    var recs := BulkRecords(userIds, plan, w);
    forall u
      ensures RecordsOf(AssignAll(subs, recs), u) ==
        if u in userIds then [NewRecord(u, plan, w)] else RecordsOf(subs, u)
    {
      AssignAllRecordsOf(subs, recs, u);
      var last := LastFor(recs, u);
      if last.Some? {
        var i :| 0 <= i < |recs| && recs[i] == last.value;
      }
    }
    AssignAllSplits(subs, recs);
    if NoDuplicates(userIds) {
      AssignAllFreshDistinct(recs);
    }
  }

  /**
   * Individual assignment: a user ends up with one record for their last
   * entry whose plan is known; a user none of whose entries has a known plan
   * (or who has no entry) keeps their records; the other users' records come
   * first, in their old order.
   */
  lemma IndividualAssignOutcome(subs: seq<Subscription>, plans: seq<Plan>, entries: seq<Entry>, today: Date, u: string)
    ensures var r := IndividualAssign(subs, plans, entries, today);
      && RecordsOf(r, u) ==
        (match LastKnownEntry(plans, entries, u)
         case None => RecordsOf(subs, u)
         case Some(e) => [NewRecord(u, FindPlan(plans, e.planId).value, SubscriptionDates(plans, e.planId, today))])
      && r == WithoutAll(subs, UserIds(IndividualRecords(plans, entries, today)))
              + AssignAll([], IndividualRecords(plans, entries, today))
  {
    AssignAllRecordsOf(subs, IndividualRecords(plans, entries, today), u);
    IndividualRecordsLastFor(plans, entries, today, u);
    AssignAllSplits(subs, IndividualRecords(plans, entries, today));
  }

  /** Updating is an individual assignment of one entry. */
  lemma UpdateIsOneEntry(subs: seq<Subscription>, plans: seq<Plan>, userId: string, planId: string, today: Date)
    ensures UpdateAssign(subs, plans, userId, planId, today) == IndividualAssign(subs, plans, [Entry(userId, planId)], today)
  {
    var entries := [Entry(userId, planId)];
    assert entries[..0] == [];
    match FindPlan(plans, planId)
    case None =>
      assert IndividualRecords(plans, entries, today) == [];
    case Some(plan) =>
      var rec := NewRecord(userId, plan, SubscriptionDates(plans, planId, today));
      assert entries[0] == Entry(userId, planId);
      assert IndividualRecords(plans, entries[..0], today) == [];
      assert IndividualRecords(plans, entries, today) == [rec];
      assert [rec][..0] == [];
      assert AssignAll(subs, [rec]) == Assign(subs, rec);
  }

  /** Deleting removes every record of the user, keeps every other record in order, and is idempotent. */
  lemma DeleteOutcome(subs: seq<Subscription>, userId: string, u: string)
    ensures RecordsOf(Without(subs, userId), userId) == []
    ensures u != userId ==> RecordsOf(Without(subs, userId), u) == RecordsOf(subs, u)
    ensures Without(Without(subs, userId), userId) == Without(subs, userId)
  {
    RecordsOfWithout(subs, userId, userId);
    RecordsOfWithout(subs, userId, u);
    WithoutIdempotent(subs, userId);
  }

  // ================================================================ one record per user

  /** No user has two records: true of the seed data and kept by every handler. */
  predicate OneRecordPerUser(subs: seq<Subscription>) {
    forall i, j :: 0 <= i < j < |subs| ==> subs[i].userId != subs[j].userId
  }

  lemma {:induction false} WithoutKeepsOneRecordPerUser(subs: seq<Subscription>, u: string)
    requires OneRecordPerUser(subs)
    ensures OneRecordPerUser(Without(subs, u))
  {
    if subs != [] {
      var t := subs[1..];
      OneRecordTail(subs);
      WithoutKeepsOneRecordPerUser(t, u);
      var rest := Without(t, u);
      assert subs == [subs[0]] + t;
      WithoutCons(subs[0], t, u);
      if subs[0].userId != u {
        OneRecordCons(subs[0], rest);
      }
    }
  }

  /** The tail of a ledger with one record per user has the same property, and not the head's user. */
  lemma OneRecordTail(subs: seq<Subscription>)
    requires subs != [] && OneRecordPerUser(subs)
    ensures OneRecordPerUser(subs[1..])
    ensures forall s :: s in subs[1..] ==> s.userId != subs[0].userId
  {
    var t := subs[1..];
    forall i, j | 0 <= i < j < |t|
      ensures t[i].userId != t[j].userId
    {
      assert t[i] == subs[i + 1] && t[j] == subs[j + 1];
    }
    forall s | s in t
      ensures s.userId != subs[0].userId
    {
      var i :| 0 <= i < |t| && t[i] == s;
      assert subs[i + 1] == s;
    }
  }

  /** A record whose user is new can go in front. */
  lemma OneRecordCons(x: Subscription, rest: seq<Subscription>)
    requires OneRecordPerUser(rest)
    requires forall s :: s in rest ==> s.userId != x.userId
    ensures OneRecordPerUser([x] + rest)
  {
    var r := [x] + rest;
    forall i, j | 0 <= i < j < |r|
      ensures r[i].userId != r[j].userId
    {
      if i == 0 {
        assert r[j] == rest[j - 1];
      } else {
        assert r[i] == rest[i - 1] && r[j] == rest[j - 1];
      }
    }
  }

  lemma AssignKeepsOneRecordPerUser(subs: seq<Subscription>, rec: Subscription)
    requires OneRecordPerUser(subs)
    ensures OneRecordPerUser(Assign(subs, rec))
  {
    WithoutKeepsOneRecordPerUser(subs, rec.userId);
    var kept := Without(subs, rec.userId);
    var r := kept + [rec];
    forall i, j | 0 <= i < j < |r|
      ensures r[i].userId != r[j].userId
    {
      if j == |kept| {
        assert r[i] in kept;
      } else {
        assert r[i] == kept[i] && r[j] == kept[j];
      }
    }
  }

  lemma {:induction false} AssignAllKeepsOneRecordPerUser(subs: seq<Subscription>, recs: seq<Subscription>)
    requires OneRecordPerUser(subs)
    ensures OneRecordPerUser(AssignAll(subs, recs))
    decreases |recs|
  {
    if recs != [] {
      AssignAllKeepsOneRecordPerUser(subs, recs[..|recs| - 1]);
      AssignKeepsOneRecordPerUser(AssignAll(subs, recs[..|recs| - 1]), recs[|recs| - 1]);
    }
  }

  /** With one record per user, the first record is the only one. */
  lemma FirstRecordIsOnly(subs: seq<Subscription>, u: string, s: Subscription)
    requires OneRecordPerUser(subs) && s in subs && s.userId == u
    ensures FirstRecord(subs, u) == Some(s)
  {
    var i :| 0 <= i < |subs| && subs[i] == s;
  }

  // ================================================================ list and tabs

  datatype UserFilter = FilterAll | FilterActive | FilterExpired | FilterNone

  /** The dashboard search: name, email and id case-insensitively, phone as typed. */
  predicate SearchMatches(u: User, term: string) {
    Contains(Lower(u.name), Lower(term)) || Contains(Lower(u.email), Lower(term))
    || Contains(Lower(u.id), Lower(term)) || Contains(u.phone, term)
  }

  /** The status filter, which looks only at the user's FIRST record. */
  predicate StatusMatches(subs: seq<Subscription>, u: User, filter: UserFilter) {
    var first := FirstRecord(subs, u.id);
    match filter
    case FilterAll => true
    case FilterActive => first.Some? && first.value.status == Active
    case FilterExpired => first.Some? && first.value.status == Expired
    case FilterNone => first.None?
  }

  predicate Listed(subs: seq<Subscription>, u: User, filter: UserFilter, term: string) {
    (term == "" || SearchMatches(u, term)) && (filter == FilterAll || StatusMatches(subs, u, filter))
  }

  /** `filteredUsers`: the users that pass the search and the status filter, in order. */
  function FilteredUsers(users: seq<User>, subs: seq<Subscription>, filter: UserFilter, term: string): (r: seq<User>)
    ensures forall u :: u in r <==> u in users && Listed(subs, u, filter, term)
    ensures IsSubsequence(r, users)
    ensures filter == FilterAll && term == "" ==> r == users
    ensures filter == FilterNone && term == "" ==> forall u :: u in r <==> u in users && !HasRecord(subs, u.id)
  {
    if users == [] then []
    else
      var rest := FilteredUsers(users[1..], subs, filter, term);
      assert users == [users[0]] + users[1..];
      if Listed(subs, users[0], filter, term) then
        SubsequenceCons(users[0], rest, users[1..]);
        [users[0]] + rest
      else
        SubsequenceSkip(users[0], rest, users[1..]);
        rest
  }

  /** Number of users with a record of the given status (`users.filter(...find(...)).length`). */
  function CountWith(users: seq<User>, subs: seq<Subscription>, status: Status): (n: nat)
    ensures n <= |users|
  {
    if users == [] then 0
    else (if HasRecordWith(subs, users[0].id, status) then 1 else 0) + CountWith(users[1..], subs, status)
  }

  /** Number of users without any record. */
  function CountWithout(users: seq<User>, subs: seq<Subscription>): (n: nat)
    ensures n <= |users|
  {
    if users == [] then 0
    else (if HasRecord(subs, users[0].id) then 0 else 1) + CountWithout(users[1..], subs)
  }

  datatype TabCounts = TabCounts(active: nat, expired: nat, none: nat, all: nat)

  /** A user with a record of some status is not counted as having none. */
  lemma {:induction false} CountWithPlusWithout(users: seq<User>, subs: seq<Subscription>, status: Status)
    ensures CountWith(users, subs, status) + CountWithout(users, subs) <= |users|
  {
    if users != [] {
      CountWithPlusWithout(users[1..], subs, status);
    }
  }

  /** The four tab counts. */
  function Counts(users: seq<User>, subs: seq<Subscription>): (c: TabCounts)
    ensures c.all == |users|
    ensures c.active + c.none <= c.all && c.expired + c.none <= c.all
  {
    CountWithPlusWithout(users, subs, Active);
    CountWithPlusWithout(users, subs, Expired);
    TabCounts(CountWith(users, subs, Active), CountWith(users, subs, Expired), CountWithout(users, subs), |users|)
  }

  /**
   * With one record per user, each tab's count is the length of the list
   * that tab shows for an empty search.
   */
  lemma {:induction false} TabCountsMatchLists(users: seq<User>, subs: seq<Subscription>)
    requires OneRecordPerUser(subs)
    ensures |FilteredUsers(users, subs, FilterActive, "")| == Counts(users, subs).active
    ensures |FilteredUsers(users, subs, FilterExpired, "")| == Counts(users, subs).expired
    ensures |FilteredUsers(users, subs, FilterNone, "")| == Counts(users, subs).none
    ensures |FilteredUsers(users, subs, FilterAll, "")| == Counts(users, subs).all
  {
    if users != [] {
      TabCountsMatchLists(users[1..], subs);
      StatusMatchesIff(subs, users[0]);
    }
  }

  /** With one record per user, the status filters agree with "has a record with that status". */
  lemma StatusMatchesIff(subs: seq<Subscription>, u: User)
    requires OneRecordPerUser(subs)
    ensures StatusMatches(subs, u, FilterActive) <==> HasRecordWith(subs, u.id, Active)
    ensures StatusMatches(subs, u, FilterExpired) <==> HasRecordWith(subs, u.id, Expired)
    ensures StatusMatches(subs, u, FilterNone) <==> !HasRecord(subs, u.id)
  {
    if HasRecord(subs, u.id) {
      var s :| s in subs && s.userId == u.id;
      FirstRecordIsOnly(subs, u.id, s);
      if HasRecordWith(subs, u.id, Active) {
        var t :| t in subs && t.userId == u.id && t.status == Active;
        FirstRecordIsOnly(subs, u.id, t);
      }
      if HasRecordWith(subs, u.id, Expired) {
        var t :| t in subs && t.userId == u.id && t.status == Expired;
        FirstRecordIsOnly(subs, u.id, t);
      }
    }
  }

  /** The edit dialog's lookups: nothing for a missing or empty id, else the user's first record. */
  function EditingSubscription(subs: seq<Subscription>, editingUserId: Option<string>): (r: Option<Subscription>)
    ensures editingUserId.None? || editingUserId == Some("") ==> r.None?
    ensures r.Some? ==> r.value in subs && r.value.userId == editingUserId.value
    ensures r.None? <==> (editingUserId.None? || editingUserId.value == ""
      || forall s :: s in subs ==> s.userId != editingUserId.value)
    ensures r.Some? ==> exists k :: (0 <= k < |subs| && subs[k] == r.value
      && forall j :: 0 <= j < k ==> subs[j].userId != editingUserId.value)
  {
    if editingUserId.None? || editingUserId.value == "" then None else FirstRecord(subs, editingUserId.value)
  }

  function EditingUser(users: seq<User>, editingUserId: Option<string>): (r: Option<User>)
    ensures editingUserId.None? || editingUserId == Some("") ==> r.None?
    ensures r.Some? ==> r.value in users && r.value.id == editingUserId.value
    ensures r.None? <==> (editingUserId.None? || editingUserId.value == ""
      || forall u :: u in users ==> u.id != editingUserId.value)
  {
    if editingUserId.None? || editingUserId.value == "" then None else FindUser(users, editingUserId.value)
  }

  /** After an update with a known plan, the edit dialog finds exactly the new record. */
  lemma UpdateThenEditLookup(subs: seq<Subscription>, plans: seq<Plan>, userId: string, planId: string, today: Date)
    requires FindPlan(plans, planId).Some? && userId != ""
    ensures EditingSubscription(UpdateAssign(subs, plans, userId, planId, today), Some(userId))
      == Some(NewRecord(userId, FindPlan(plans, planId).value, SubscriptionDates(plans, planId, today)))
  {
    var rec := NewRecord(userId, FindPlan(plans, planId).value, SubscriptionDates(plans, planId, today));
    var kept := Without(subs, userId);
    var r := kept + [rec];
    assert rec in r;
  }

  // ================================================================ the page's state

  /** The dashboard page: the ledger and the list controls it holds in state. */
  class Dashboard {
    const users: seq<User>
    const plans: seq<Plan>
    var subscriptions: seq<Subscription>
    var filter: UserFilter
    var searchTerm: string
    var editingUserId: Option<string>
    var showEditModal: bool

    constructor (users: seq<User>, plans: seq<Plan>, seed: seq<Subscription>)
      ensures this.users == users && this.plans == plans && subscriptions == seed
      ensures filter == FilterActive && searchTerm == ""
      ensures editingUserId == None && !showEditModal
    {
      this.users := users;
      this.plans := plans;
      subscriptions := seed;
      filter := FilterActive;
      searchTerm := "";
      editingUserId := None;
      showEditModal := false;
    }

    /** The list the table receives. */
    function ShownUsers(): (r: seq<User>)
      reads this
      ensures IsSubsequence(r, users)
    {
      FilteredUsers(users, subscriptions, filter, searchTerm)
    }

    function Tabs(): (c: TabCounts)
      reads this
      ensures c.all == |users|
    {
      Counts(users, subscriptions)
    }

    method SetFilter(f: UserFilter)
      modifies this`filter
      ensures filter == f
    {
      filter := f;
    }

    method SetSearchTerm(term: string)
      modifies this`searchTerm
      ensures searchTerm == term
    {
      searchTerm := term;
    }

    /** `handleBulkSubscription`: one replace step per selected user, all with one window. */
    method HandleBulkSubscription(planId: string, selectedUserIds: seq<string>, today: Date)
      modifies this`subscriptions
      ensures subscriptions == BulkAssign(old(subscriptions), plans, planId, selectedUserIds, today)
      ensures FindPlan(plans, planId).None? ==> subscriptions == old(subscriptions)
      ensures OneRecordPerUser(old(subscriptions)) ==> OneRecordPerUser(subscriptions)
    {
      var plan := FindPlan(plans, planId);
      if plan.None? {
        return;
      }
      var w := SubscriptionDates(plans, planId, today);
      ghost var recs := BulkRecords(selectedUserIds, plan.value, w);
      var i := 0;
      while i < |selectedUserIds|
        invariant 0 <= i <= |selectedUserIds|
        invariant subscriptions == AssignAll(old(subscriptions), recs[..i])
      {
        var userId := selectedUserIds[i];
        subscriptions := Without(subscriptions, userId);
        var rec := NewRecord(userId, plan.value, w);
        subscriptions := subscriptions + [rec];
        assert recs[..i + 1][..i] == recs[..i];
        i := i + 1;
      }
      assert recs[..|selectedUserIds|] == recs;
      if OneRecordPerUser(old(subscriptions)) {
        AssignAllKeepsOneRecordPerUser(old(subscriptions), recs);
      }
    }

    /** `handleIndividualSubscriptions`: one replace step per entry whose plan is known. */
    method HandleIndividualSubscriptions(entries: seq<Entry>, today: Date)
      modifies this`subscriptions
      ensures subscriptions == IndividualAssign(old(subscriptions), plans, entries, today)
      ensures OneRecordPerUser(old(subscriptions)) ==> OneRecordPerUser(subscriptions)
    {
      var i := 0;
      while i < |entries|
        invariant 0 <= i <= |entries|
        invariant subscriptions == AssignAll(old(subscriptions), IndividualRecords(plans, entries[..i], today))
      {
        var e := entries[i];
        assert entries[..i + 1][..i] == entries[..i];
        var plan := FindPlan(plans, e.planId);
        if plan.Some? {
          var w := SubscriptionDates(plans, e.planId, today);
          subscriptions := Without(subscriptions, e.userId);
          var rec := NewRecord(e.userId, plan.value, w);
          subscriptions := subscriptions + [rec];
          ghost var earlier := IndividualRecords(plans, entries[..i], today);
          assert (earlier + [rec])[..|earlier|] == earlier;
        }
        i := i + 1;
      }
      assert entries[..|entries|] == entries;
      if OneRecordPerUser(old(subscriptions)) {
        AssignAllKeepsOneRecordPerUser(old(subscriptions), IndividualRecords(plans, entries, today));
      }
    }

    /** `handleUpdateSubscription`. */
    method HandleUpdateSubscription(userId: string, planId: string, today: Date)
      modifies this`subscriptions
      ensures subscriptions == UpdateAssign(old(subscriptions), plans, userId, planId, today)
      ensures FindPlan(plans, planId).None? ==> subscriptions == old(subscriptions)
      ensures OneRecordPerUser(old(subscriptions)) ==> OneRecordPerUser(subscriptions)
    {
      var plan := FindPlan(plans, planId);
      if plan.None? {
        return;
      }
      var w := SubscriptionDates(plans, planId, today);
      subscriptions := Without(subscriptions, userId);
      var rec := NewRecord(userId, plan.value, w);
      subscriptions := subscriptions + [rec];
      if OneRecordPerUser(old(subscriptions)) {
        AssignKeepsOneRecordPerUser(old(subscriptions), rec);
      }
    }

    /** `handleDeleteSubscription`. */
    method HandleDeleteSubscription(userId: string)
      modifies this`subscriptions
      ensures subscriptions == Without(old(subscriptions), userId)
      ensures OneRecordPerUser(old(subscriptions)) ==> OneRecordPerUser(subscriptions)
    {
      subscriptions := Without(subscriptions, userId);
      if OneRecordPerUser(old(subscriptions)) {
        WithoutKeepsOneRecordPerUser(old(subscriptions), userId);
      }
    }

    /** `handleEditUser`: remember the user and open the edit dialog. */
    method HandleEditUser(userId: string)
      modifies this`editingUserId, this`showEditModal
      ensures editingUserId == Some(userId) && showEditModal
    {
      editingUserId := Some(userId);
      showEditModal := true;
    }

    function EditedUser(): Option<User>
      reads this
    {
      EditingUser(users, editingUserId)
    }

    function EditedSubscription(): Option<Subscription>
      reads this
    {
      EditingSubscription(subscriptions, editingUserId)
    }
  }
}
