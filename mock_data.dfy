/** The seed data the dashboard starts from, and what the tabs and the table show for it. */
module MockData {
  import opened Base
  import opened Dates
  import opened Domain
  import opened Ledger
  import opened UserTable

  function MockUsers(): seq<User> {
    [ User("U-1138", "Anya Sharma", "anya.s@email.com", "0812-3456-7890"),
      User("U-8752", "Fajar Nugraha", "fajar.n@email.com", "0877-5555-4321"),
      User("U-2847", "Budi Hartono", "budi.h@email.com", "0821-9876-5432"),
      User("U-9163", "Chandra Wijaya", "chandra.w@email.com", "0813-1111-2222"),
      User("U-5739", "Dita Lestari", "dita.l@email.com", "0856-3333-4444"),
      User("U-4821", "Clark Kent", "clark.k@dailyplanet.com", "0877-9999-8888"),
      User("U-6492", "Maya Putri", "maya.p@email.com", "0818-7777-6666"),
      User("U-7531", "Rudi Santoso", "rudi.s@email.com", "0823-5555-3333") ]
  }

  function MockPlans(): seq<Plan> {
    [ Plan("plan-trial", "Paper+ Trial", "30 days", Some(0), Some("Free trial period")),
      Plan("plan-onboarding", "Paper+ Onboarding Promo", "3 months", Some(50000), Some("Special onboarding offer")),
      Plan("plan-1year", "Paper+ One Year", "1 year", Some(250000), Some("Annual subscription")),
      Plan("plan-5year", "Paper+ Five Years", "5 years", Some(1000000), Some("Long-term subscription")),
      Plan("plan-lifetime", "Paper+ Lifetime", "Lifetime", Some(2500000), Some("One-time lifetime access")) ]
  }

  function MockSubscriptions(): seq<Subscription> {
    [ Subscription(None, "U-1138", "plan-1year", "Paper+ One Year", Active, Ymd(2025, 8, 5), Some(Ymd(2026, 8, 5))),
      Subscription(None, "U-8752", "plan-5year", "Paper+ Five Years", Active, Ymd(2025, 8, 5), Some(Ymd(2030, 8, 5))),
      Subscription(None, "U-2847", "plan-trial", "Paper+ Trial", Expired, Ymd(2025, 6, 1), Some(Ymd(2025, 7, 1))),
      Subscription(None, "U-9163", "plan-onboarding", "Paper+ Onboarding Promo", Active, Ymd(2025, 7, 1), Some(Ymd(2025, 10, 1))) ]
  }

  /** The seed has one record per user, so every handler keeps that. */
  lemma SeedHasOneRecordPerUser()
    ensures OneRecordPerUser(MockSubscriptions())
  {
  }

  /** The tabs over the seed read Active 3, Expired 1, No Subscription 4, All 8. */
  lemma SeedCounts()
    ensures Counts(MockUsers(), MockSubscriptions()) == TabCounts(3, 1, 4, 8)
  {
    var users := MockUsers();
    var subs := MockSubscriptions();
    forall i | 0 <= i < 8
      ensures HasRecordWith(subs, users[i].id, Active) <==> (i == 0 || i == 1 || i == 3)
      ensures HasRecordWith(subs, users[i].id, Expired) <==> i == 2
      ensures HasRecord(subs, users[i].id) <==> i < 4
    {
      if i < 4 {
        SeedRecordWith(i, subs[i].status);
        if subs[i].status != Active { SeedNoRecordWith(i, Active); }
        if subs[i].status != Expired { SeedNoRecordWith(i, Expired); }
      } else {
        NoRecordFor(users[i].id);
      }
    }
    CountsFromFacts(users, subs);
  }

  /** The counting itself, over any eight users whose records are as in the seed. */
  lemma CountsFromFacts(users: seq<User>, subs: seq<Subscription>)
    requires |users| == 8
    requires forall i :: 0 <= i < 8 ==> (HasRecordWith(subs, users[i].id, Active) <==> (i == 0 || i == 1 || i == 3))
    requires forall i :: 0 <= i < 8 ==> (HasRecordWith(subs, users[i].id, Expired) <==> i == 2)
    requires forall i :: 0 <= i < 8 ==> (HasRecord(subs, users[i].id) <==> i < 4)
    ensures Counts(users, subs) == TabCounts(3, 1, 4, 8)
  {
    CountStep(users, subs, 7);
    CountStep(users, subs, 6);
    CountStep(users, subs, 5);
    CountStep(users, subs, 4);
    CountStep(users, subs, 3);
    CountStep(users, subs, 2);
    CountStep(users, subs, 1);
    CountStep(users, subs, 0);
    assert users[8..] == [];
    assert users[0..] == users;
  }

  predicate CountStepHolds(users: seq<User>, subs: seq<Subscription>, k: int)
    requires 0 <= k < |users|
  {
    && CountWith(users[k..], subs, Active) == (if HasRecordWith(subs, users[k].id, Active) then 1 else 0) + CountWith(users[k + 1..], subs, Active)
    && CountWith(users[k..], subs, Expired) == (if HasRecordWith(subs, users[k].id, Expired) then 1 else 0) + CountWith(users[k + 1..], subs, Expired)
    && CountWithout(users[k..], subs) == (if HasRecord(subs, users[k].id) then 0 else 1) + CountWithout(users[k + 1..], subs)
  }

  lemma CountStep(users: seq<User>, subs: seq<Subscription>, k: int)
    requires 0 <= k < |users|
    ensures CountStepHolds(users, subs, k)
  {
    assert users[k..][0] == users[k] && users[k..][1..] == users[k + 1..];
  }

  lemma SeedRecordWith(i: int, st: Status)
    requires 0 <= i < 4 && MockSubscriptions()[i].status == st
    ensures HasRecordWith(MockSubscriptions(), MockUsers()[i].id, st)
    ensures HasRecord(MockSubscriptions(), MockUsers()[i].id)
  {
    assert MockSubscriptions()[i] in MockSubscriptions();
  }

  lemma SeedNoRecordWith(i: int, st: Status)
    requires 0 <= i < 4 && MockSubscriptions()[i].status != st
    ensures !HasRecordWith(MockSubscriptions(), MockUsers()[i].id, st)
  {
    var subs := MockSubscriptions();
    forall s | s in subs && s.userId == MockUsers()[i].id
      ensures s.status != st
    {
      var j :| 0 <= j < 4 && subs[j] == s;
    }
  }

  lemma NoRecordFor(id: string)
    requires id in {"U-5739", "U-4821", "U-6492", "U-7531"}
    ensures !HasRecord(MockSubscriptions(), id)
  {
    var subs := MockSubscriptions();
    forall s | s in subs
      ensures s.userId != id
    {
      var i :| 0 <= i < 4 && subs[i] == s;
    }
  }

  /**
   * Every seed record's window is what its plan's duration gives from its
   * start date: one year, five years, thirty days and three months.
   */
  lemma SeedWindowsMatchPlans()
    ensures forall i :: 0 <= i < 4 ==> SeedWindowMatches(i)
  {
    forall i | 0 <= i < 4
      ensures SeedWindowMatches(i)
    {
      if i == 0 { SeedWindow0(); }
      else if i == 1 { SeedWindow1(); }
      else if i == 2 { SeedWindow2(); }
      else { SeedWindow3(); }
    }
  }

  predicate SeedWindowMatches(i: int)
    requires 0 <= i < 4
  {
    var r := MockSubscriptions()[i];
    r.endDate == Some(SubscriptionDates(MockPlans(), r.planId, r.startDate).endDate)
  }

  lemma SeedWindow0()
    ensures SeedWindowMatches(0)
  {
    OneYearPlanOffset();
    OneYearFromAugustFifth();
  }

  lemma SeedWindow1()
    ensures SeedWindowMatches(1)
  {
    FiveYearPlanOffset();
    FiveYearsFromAugustFifth();
  }

  lemma SeedWindow2()
    ensures SeedWindowMatches(2)
  {
    var plans := MockPlans();
    assert FindPlan(plans, "plan-trial") == Some(plans[0]);
    ThirtyDaysFromFirstOfJune(2025);
  }

  lemma SeedWindow3()
    ensures SeedWindowMatches(3)
  {
    OnboardingPlanOffset();
    ThreeMonthsFromJulyFirst();
  }

  lemma OneYearPlanOffset()
    ensures SubscriptionDates(MockPlans(), "plan-1year", Ymd(2025, 8, 5)).endDate == AddYears(Ymd(2025, 8, 5), 1)
  {
    var plans := MockPlans();
    assert FindPlan(plans, "plan-1year") == Some(plans[2]);
  }

  lemma OneYearFromAugustFifth()
    ensures AddYears(Ymd(2025, 8, 5), 1) == Ymd(2026, 8, 5)
  {
    assert DaysInMonth(2026, 8) == 31;
    AddYearsExact(Ymd(2025, 8, 5), 1);
  }

  lemma FiveYearPlanOffset()
    ensures SubscriptionDates(MockPlans(), "plan-5year", Ymd(2025, 8, 5)).endDate == AddYears(Ymd(2025, 8, 5), 5)
  {
    var plans := MockPlans();
    assert FindPlan(plans, "plan-5year") == Some(plans[3]);
  }

  lemma FiveYearsFromAugustFifth()
    ensures AddYears(Ymd(2025, 8, 5), 5) == Ymd(2030, 8, 5)
  {
    assert DaysInMonth(2030, 8) == 31;
    AddYearsExact(Ymd(2025, 8, 5), 5);
  }

  lemma OnboardingPlanOffset()
    ensures SubscriptionDates(MockPlans(), "plan-onboarding", Ymd(2025, 7, 1)).endDate == AddMonths(Ymd(2025, 7, 1), 3)
  {
    var plans := MockPlans();
    assert FindPlan(plans, "plan-onboarding") == Some(plans[1]);
  }

  lemma ThreeMonthsFromJulyFirst()
    ensures AddMonths(Ymd(2025, 7, 1), 3) == Ymd(2025, 10, 1)
  {
    AddMonthsExact(Ymd(2025, 7, 1), 3);
  }

  /** A 30-day plan bought on 1 June runs to 1 July. */
  lemma ThirtyDaysFromFirstOfJune(y: int)
    ensures AddDays(Ymd(y, 6, 1), 30) == Ymd(y, 7, 1)
  {
    AddDaysWithinMonth(Ymd(y, 6, 1), 29);
  }
}
