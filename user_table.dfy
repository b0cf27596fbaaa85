/**
 * The user table: the page of users it shows, the page buttons, and for
 * each user the subscription cell — the active branch (primary plan,
 * "(+N)" count and the latest end date), the expired branch, or
 * "No Subscription".
 */
module UserTable {
  import opened Base
  import opened Dates
  import opened Text
  import opened Domain
  import opened Ledger

  // ================================================================ pagination

  /** The sizes the "Show … per page" select offers. */
  predicate PageSizeOption(k: int) {
    k == 5 || k == 10 || k == 20 || k == 50 || k == 100
  }

  /** `Math.ceil(n / k)`: the fewest pages of `k` that hold `n` users. */
  function TotalPages(n: nat, k: nat): (t: nat)
    requires k > 0
    ensures n <= t * k && t * k < n + k
    ensures t == 0 <==> n == 0
  {
    var q := (n + k - 1) / k;
    assert (n + k - 1) == q * k + (n + k - 1) % k;
    q
  }

  /** JavaScript's index for `slice`: a negative index counts from the end, and both are clamped to `[0, n]`. */
  function SliceIndex(i: int, n: nat): (j: nat)
    ensures j <= n
    ensures 0 <= i <= n ==> j == i
    ensures i > n ==> j == n
  {
    if i < 0 then (if n + i < 0 then 0 else n + i)
    else if i > n then n
    else i
  }

  /** `s.slice(start, end)`. */
  function Slice<T>(s: seq<T>, start: int, end: int): (r: seq<T>)
    ensures 0 <= start <= end ==> r == s[Min(start, |s|)..Min(end, |s|)]
  {
    var a := SliceIndex(start, |s|);
    var b := SliceIndex(end, |s|);
    if a < b then s[a..b] else []
  }

  function Min(a: int, b: int): int {
    if a <= b then a else b
  }

  /** Index of the first user on page `page` (`startIndex`). */
  function StartIndex(page: int, k: nat): (i: int)
    ensures page >= 1 ==> i >= 0
  {
    if page >= 1 then MulNonNegative(page - 1, k); (page - 1) * k else (page - 1) * k
  }

  /** Page `page` starts `k` before the end of the first `page` pages. */
  lemma StartIndexNext(page: int, k: nat)
    requires page >= 1
    ensures StartIndex(page, k) + k == page * k
  {
  }

  /** A page up to the last one starts before the end of the last page. */
  lemma StartIndexBounds(page: int, k: nat, t: nat)
    requires 1 <= page <= t
    ensures StartIndex(page, k) + k <= t * k
  {
    StartIndexNext(page, k);
    MulMonotone(page, t, k);
  }

  /** `paginatedUsers`: the users on page `page` of size `k`. */
  function Page<T>(users: seq<T>, page: int, k: nat): seq<T> {
    Slice(users, StartIndex(page, k), StartIndex(page, k) + k)
  }

  /** A page holds at most `k` users, and every page from 1 to the last one holds at least one. */
  lemma PageSize<T>(users: seq<T>, page: int, k: nat)
    requires k > 0 && page >= 1
    ensures |Page(users, page, k)| <= k
    ensures page <= TotalPages(|users|, k) ==> |Page(users, page, k)| > 0
    ensures page <= TotalPages(|users|, k) ==>
      Page(users, page, k) == users[StartIndex(page, k)..Min(StartIndex(page, k) + k, |users|)]
  {
    var t := TotalPages(|users|, k);
    if page <= t {
      StartIndexBounds(page, k, t);
    }
  }

  lemma MulNonNegative(a: int, b: int)
    requires a >= 0 && b >= 0
    ensures a * b >= 0
  {
  }

  lemma MulMonotone(a: int, b: int, k: int)
    requires 0 <= a <= b && k >= 0
    ensures a * k <= b * k
  {
    assert b * k == a * k + (b - a) * k;
    MulNonNegative(b - a, k);
  }

  /** Pages 1 to `m`, one after the other. */
  function PagesUpTo<T>(users: seq<T>, k: nat, m: nat): seq<T> {
    if m == 0 then [] else PagesUpTo(users, k, m - 1) + Page(users, m, k)
  }

  /** Pages 1 to `m` are exactly the first `m * k` users. */
  lemma {:induction false} PagesUpToPrefix<T>(users: seq<T>, k: nat, m: nat)
    requires k > 0
    ensures PagesUpTo(users, k, m) == users[..Min(m * k, |users|)]
  {
    if m > 0 {
      PagesUpToPrefix(users, k, m - 1);
      var start := StartIndex(m, k);
      assert start == (m - 1) * k;
      StartIndexNext(m, k);
      var a := Min(start, |users|);
      var b := Min(start + k, |users|);
      assert Page(users, m, k) == users[a..b];
      assert users[..a] + users[a..b] == users[..b];
    }
  }

  /** Nothing is lost or repeated by paging: pages 1 to `totalPages` concatenate to the whole list. */
  lemma PagesCoverUsers<T>(users: seq<T>, k: nat)
    requires k > 0
    ensures PagesUpTo(users, k, TotalPages(|users|, k)) == users
  {
    PagesUpToPrefix(users, k, TotalPages(|users|, k));
  }

  /** "Showing {startIndex + 1} to {min(endIndex, n)} of {n} users". */
  datatype RangeLabel = RangeLabel(first: int, last: int, total: nat)

  function Range(n: nat, page: int, k: nat): RangeLabel {
    RangeLabel(StartIndex(page, k) + 1, Min(StartIndex(page, k) + k, n), n)
  }

  /** On a page that exists, the label names the positions of exactly the users shown. */
  lemma RangeLabelMatchesPage<T>(users: seq<T>, page: int, k: nat)
    requires k > 0 && 1 <= page <= TotalPages(|users|, k)
    ensures Range(|users|, page, k).first == StartIndex(page, k) + 1
    ensures Range(|users|, page, k).last - Range(|users|, page, k).first + 1 == |Page(users, page, k)|
    ensures page == TotalPages(|users|, k) ==> Range(|users|, page, k).last == |users|
  {
    PageSize(users, page, k);
    var start := StartIndex(page, k);
    var n := |users|;
    assert |Page(users, page, k)| == Min(start + k, n) - start;
    if page == TotalPages(n, k) {
      StartIndexNext(page, k);
    }
  }

  // ================================================================ page buttons

  /** A button is shown for the first page, the last page, and the current page with its two neighbours. */
  predicate ButtonShown(p: int, total: int, current: int) {
    p == 1 || p == total || -1 <= p - current <= 1
  }

  predicate StrictlyIncreasing(s: seq<int>) {
    forall i, j :: 0 <= i < j < |s| ==> s[i] < s[j]
  }

  /** The pages `1..m` whose button is shown, in ascending order. */
  function ButtonsUpTo(m: nat, total: int, current: int): (r: seq<int>)
    ensures forall p :: p in r <==> 1 <= p <= m && ButtonShown(p, total, current)
    ensures StrictlyIncreasing(r)
  {
    if m == 0 then []
    else
      var r := ButtonsUpTo(m - 1, total, current);
      if ButtonShown(m, total, current) then
        assert forall i :: 0 <= i < |r| ==> r[i] in r;
        r + [m]
      else r
  }

  /** `Array.from({ length: totalPages }, (_, i) => i + 1).filter(...)`. */
  function ShownPages(total: nat, current: int): (r: seq<int>)
    ensures forall p :: p in r <==> 1 <= p <= total && ButtonShown(p, total, current)
    ensures StrictlyIncreasing(r)
  {
    ButtonsUpTo(total, total, current)
  }

  /** `showEllipsis`: there is a previous shown page and the gap to it is more than one. */
  predicate Ellipsis(pages: seq<int>, i: int)
    requires 0 <= i < |pages|
  {
    i > 0 && pages[i] - pages[i - 1] > 1
  }

  /** An ellipsis stands before a button exactly when some page between it and the previous button is hidden. */
  lemma EllipsisMarksHiddenPages(total: nat, current: int, i: int)
    requires 0 <= i < |ShownPages(total, current)|
    ensures var pages := ShownPages(total, current);
      Ellipsis(pages, i) <==>
        i > 0 && exists q :: pages[i - 1] < q < pages[i] && 1 <= q <= total && q !in pages
  {
    var pages := ShownPages(total, current);
    if Ellipsis(pages, i) {
      var q := pages[i - 1] + 1;
      assert pages[i - 1] in pages && pages[i] in pages;
      BetweenNeighboursAbsent(pages, i, q);
      assert pages[i - 1] < q < pages[i] && 1 <= q <= total && q !in pages;
    }
  }

  /** Nothing lies strictly between two neighbours of a strictly increasing sequence. */
  lemma BetweenNeighboursAbsent(s: seq<int>, i: int, q: int)
    requires StrictlyIncreasing(s) && 0 < i < |s| && s[i - 1] < q < s[i]
    ensures q !in s
  {
    forall j | 0 <= j < |s|
      ensures s[j] != q
    {
      if j < i {
        assert s[j] <= s[i - 1];
      } else {
        assert s[i] <= s[j];
      }
    }
  }

  /** A strictly increasing sequence inside a set is no longer than the set is large. */
  lemma {:induction false} IncreasingWithin(s: seq<int>, bound: set<int>)
    requires StrictlyIncreasing(s)
    requires forall i :: 0 <= i < |s| ==> s[i] in bound
    ensures |s| <= |bound|
  {
    if s != [] {
      var x := s[|s| - 1];
      var init := s[..|s| - 1];
      forall i | 0 <= i < |init|
        ensures init[i] in bound - {x}
      {
        assert init[i] == s[i] && s[i] < x;
      }
      IncreasingWithin(init, bound - {x});
    }
  }

  /** At most five page buttons are ever shown. */
  lemma AtMostFiveButtons(total: nat, current: int)
    ensures |ShownPages(total, current)| <= 5
  {
    var pages := ShownPages(total, current);
    var bound := {1, total, current - 1, current, current + 1};
    forall i | 0 <= i < |pages|
      ensures pages[i] in bound
    {
      assert pages[i] in pages;
    }
    IncreasingWithin(pages, bound);
  }

  /** The Prev button is disabled on page 1. */
  predicate PrevDisabled(current: int) {
    current == 1
  }

  /** The Next button is disabled on the last page. */
  predicate NextDisabled(current: int, total: int) {
    current == total
  }

  // ================================================================ per-user aggregation

  /** `calculateStackedEndDate`: the latest end date of the records, records without one skipped. */
  function StackedEnd(recs: seq<Subscription>): (r: Option<Date>)
    ensures r.None? <==> forall s :: s in recs ==> s.endDate.None?
    ensures r.Some? ==> exists s :: s in recs && s.endDate == Some(r.value)
    ensures r.Some? ==> forall s :: s in recs && s.endDate.Some? ==> NotAfter(s.endDate.value, r.value)
  {
    if recs == [] then None
    else
      var latest := StackedEnd(recs[..|recs| - 1]);
      var s := recs[|recs| - 1];
      assert recs == recs[..|recs| - 1] + [s];
      if s.endDate.None? then latest
      else if latest.None? || Before(latest.value, s.endDate.value) then s.endDate
      else latest
  }

  /** The latest end date does not depend on the order of the records, so sorting them first changes nothing. */
  lemma StackedEndIgnoresOrder(a: seq<Subscription>, b: seq<Subscription>)
    requires multiset(a) == multiset(b)
    ensures StackedEnd(a) == StackedEnd(b)
  {
    assert forall s :: s in a <==> s in b by {
      forall s
        ensures s in a <==> s in b
      {
        assert s in a <==> s in multiset(a);
        assert s in b <==> s in multiset(b);
      }
    }
    var x := StackedEnd(a);
    var y := StackedEnd(b);
    if x.Some? && y.Some? {
      var sa :| sa in a && sa.endDate == Some(x.value);
      var sb :| sb in b && sb.endDate == Some(y.value);
      assert NotAfter(x.value, y.value) && NotAfter(y.value, x.value);
    }
  }

  /**
   * Position of the record `getPrimarySubscription` returns: the first
   * element of a stable sort by start date, that is the earliest start and,
   * among records starting the same day, the first in input order.
   */
  function PrimaryIndex(recs: seq<Subscription>): (k: nat)
    requires recs != []
    ensures k < |recs|
    ensures forall j :: 0 <= j < |recs| ==> NotAfter(recs[k].startDate, recs[j].startDate)
    ensures forall j :: 0 <= j < k ==> Before(recs[k].startDate, recs[j].startDate)
  {
    if |recs| == 1 then 0
    else
      var k := PrimaryIndex(recs[..|recs| - 1]);
      var last := |recs| - 1;
      if Before(recs[last].startDate, recs[k].startDate) then last else k
  }

  /** The primary record is the only one meeting the order conditions: an independent characterisation. */
  lemma PrimaryIndexUnique(recs: seq<Subscription>, i: nat)
    requires i < |recs|
    requires forall j :: 0 <= j < |recs| ==> NotAfter(recs[i].startDate, recs[j].startDate)
    requires forall j :: 0 <= j < i ==> Before(recs[i].startDate, recs[j].startDate)
    ensures PrimaryIndex(recs) == i
  {
    var k := PrimaryIndex(recs);
  }

  /** `getPrimarySubscription`: null for no records. */
  function Primary(recs: seq<Subscription>): (r: Option<Subscription>)
    ensures r.None? <==> recs == []
    ensures r.Some? ==> r.value in recs && forall s :: s in recs ==> NotAfter(r.value.startDate, s.startDate)
  {
    if recs == [] then None else Some(recs[PrimaryIndex(recs)])
  }

  /** ` (+N)` after a plan name, nothing for zero. */
  function CountSuffix(n: nat): string {
    if n > 0 then " (+" + NatToString(n) + ")" else ""
  }

  /** What `formatSubscriptionDisplay` returns. */
  datatype Display = Display(displayName: string, subscriptions: seq<Subscription>)

  /** `formatSubscriptionDisplay`: the primary plan's name and how many more records there are. */
  function FormatSubscriptionDisplay(recs: seq<Subscription>): (r: Option<Display>)
    ensures r.None? <==> recs == []
    ensures r.Some? ==> r.value.subscriptions == recs
    ensures |recs| == 1 ==> r == Some(Display(recs[0].planName, recs))
    ensures |recs| > 1 ==> r.value.displayName == Primary(recs).value.planName + " (+" + NatToString(|recs| - 1) + ")"
  {
    match Primary(recs)
    case None => None
    case Some(p) =>
      assert |recs| == 1 ==> p == recs[0] && CountSuffix(|recs| - 1) == "";
      assert p.planName + "" == p.planName;
      Some(Display(p.planName + CountSuffix(|recs| - 1), recs))
  }

  /** The number in the label reads back as the count of the other records. */
  lemma DisplayCountReadsBack(recs: seq<Subscription>)
    requires |recs| > 1
    ensures exists d :: (FormatSubscriptionDisplay(recs).value.displayName == Primary(recs).value.planName + " (+" + d + ")"
      && (forall i :: 0 <= i < |d| ==> '0' <= d[i] <= '9')
      && DecimalValue(d) == |recs| - 1)
  {
    var p := Primary(recs).value;
    var d := NatToString(|recs| - 1);
    DecimalValueOfNatToString(|recs| - 1);
    assert FormatSubscriptionDisplay(recs).value.displayName == p.planName + " (+" + d + ")";
  }

  // ================================================================ rows

  /** The "Ends:" text: a date, or "Lifetime" when no active record has an end date. */
  datatype EndsLabel = Lifetime | EndsOn(date: Date)

  /**
   * The subscription cell of a row. `expiredOn` is the first expired
   * record's end date, `None` where that record has none.
   */
  datatype Row =
    | ActiveRow(caption: string, ends: EndsLabel, active: seq<Subscription>)
    | ExpiredRow(caption: string, expiredOn: Option<Date>)
    | NoSubscriptionRow

  function EndsText(end: Option<Date>): (l: EndsLabel)
    ensures l.Lifetime? <==> end.None?
    ensures end.Some? ==> l == EndsOn(end.value)
  {
    if end.Some? then EndsOn(end.value) else Lifetime
  }

  /** The row for a user: the active branch if any record is active, else the expired branch, else none. */
  function RowFor(subs: seq<Subscription>, userId: string): Row {
    var active := RecordsWith(subs, userId, Active);
    var expired := RecordsWith(subs, userId, Expired);
    if active != [] then
      ActiveRow(FormatSubscriptionDisplay(active).value.displayName, EndsText(StackedEnd(active)), active)
    else if expired != [] then
      ExpiredRow(expired[0].planName + CountSuffix(|expired| - 1), expired[0].endDate)
    else NoSubscriptionRow
  }

  /**
   * Active beats expired beats none: the active branch exactly when the user
   * has an active record (expired ones or not), the expired branch exactly
   * when they have an expired and no active record, otherwise "No Subscription".
   */
  lemma RowClassification(subs: seq<Subscription>, userId: string)
    ensures RowFor(subs, userId).ActiveRow? <==> HasRecordWith(subs, userId, Active)
    ensures RowFor(subs, userId).ExpiredRow? <==>
      !HasRecordWith(subs, userId, Active) && HasRecordWith(subs, userId, Expired)
    ensures RowFor(subs, userId).NoSubscriptionRow? <==>
      !HasRecordWith(subs, userId, Active) && !HasRecordWith(subs, userId, Expired)
  {
    var active := RecordsWith(subs, userId, Active);
    var expired := RecordsWith(subs, userId, Expired);
    if HasRecordWith(subs, userId, Active) {
      var s :| s in subs && s.userId == userId && s.status == Active;
      assert s in active;
    }
    if HasRecordWith(subs, userId, Expired) {
      var s :| s in subs && s.userId == userId && s.status == Expired;
      assert s in expired;
    }
    if active != [] {
      assert active[0] in active;
    }
    if expired != [] {
      assert expired[0] in expired;
    }
  }

  /**
   * A user whose records are all pending is shown as "No Subscription",
   * although the "No Subscription" tab does not list them.
   */
  lemma PendingOnlyShowsNoSubscription(users: seq<User>, subs: seq<Subscription>, u: User)
    requires u in users && HasRecord(subs, u.id)
    requires forall s :: s in subs && s.userId == u.id ==> s.status == Pending
    ensures RowFor(subs, u.id) == NoSubscriptionRow
    ensures u !in FilteredUsers(users, subs, FilterNone, "")
  {
    RowClassification(subs, u.id);
  }

  /** The row's active (expired) label and dates come from the user's active (expired) records only. */
  lemma {:induction false} RecordsWithConcat(a: seq<Subscription>, b: seq<Subscription>, u: string, st: Status)
    ensures RecordsWith(a + b, u, st) == RecordsWith(a, u, st) + RecordsWith(b, u, st)
  {
    if a == [] {
      assert a + b == b;
    } else {
      var x := a[0];
      var t := a[1..];
      RecordsWithConcat(t, b, u, st);
      assert a == [x] + t;
      ConsConcat(x, t, b);
      RecordsWithCons(x, t + b, u, st);
      RecordsWithCons(x, t, u, st);
      ConcatAssoc(if x.userId == u && x.status == st then [x] else [], RecordsWith(t, u, st), RecordsWith(b, u, st));
    }
  }

  lemma RecordsWithCons(x: Subscription, rest: seq<Subscription>, u: string, st: Status)
    ensures RecordsWith([x] + rest, u, st) ==
      (if x.userId == u && x.status == st then [x] else []) + RecordsWith(rest, u, st)
  {
    var s := [x] + rest;
    assert s[0] == x && s[1..] == rest;
  }

  lemma RecordsWithNone(subs: seq<Subscription>, u: string, st: Status)
    requires forall s :: s in subs ==> s.userId != u
    ensures RecordsWith(subs, u, st) == []
  {
  }

  /** After an update with a known plan, the user's row shows that plan's name and the new end date. */
  lemma UpdateThenRow(subs: seq<Subscription>, plans: seq<Plan>, userId: string, planId: string, today: Date)
    requires FindPlan(plans, planId).Some?
    ensures var plan := FindPlan(plans, planId).value;
      var w := SubscriptionDates(plans, planId, today);
      RowFor(UpdateAssign(subs, plans, userId, planId, today), userId)
        == ActiveRow(plan.name, EndsOn(w.endDate), [NewRecord(userId, plan, w)])
  {
    var plan := FindPlan(plans, planId).value;
    var w := SubscriptionDates(plans, planId, today);
    var rec := NewRecord(userId, plan, w);
    var kept := Without(subs, userId);
    RecordsWithConcat(kept, [rec], userId, Active);
    RecordsWithNone(kept, userId, Active);
    assert [rec][1..] == [];
    var active := RecordsWith(kept + [rec], userId, Active);
    assert active == [rec];
    assert PrimaryIndex(active) == 0;
  }

  /** After a delete, the user's row shows "No Subscription". */
  lemma DeleteThenRow(subs: seq<Subscription>, userId: string)
    ensures RowFor(Without(subs, userId), userId) == NoSubscriptionRow
  {
    RecordsWithNone(Without(subs, userId), userId, Active);
    RecordsWithNone(Without(subs, userId), userId, Expired);
  }

  /** With one record per user, a row never carries a "(+N)" count: its label is the one record's plan name. */
  lemma {:induction false} AtMostOneWith(subs: seq<Subscription>, u: string, st: Status)
    requires OneRecordPerUser(subs)
    ensures |RecordsWith(subs, u, st)| <= 1
  {
    if subs != [] {
      var tail := subs[1..];
      assert OneRecordPerUser(tail) by {
        forall i, j | 0 <= i < j < |tail|
          ensures tail[i].userId != tail[j].userId
        {
          assert tail[i] == subs[i + 1] && tail[j] == subs[j + 1];
        }
      }
      AtMostOneWith(tail, u, st);
      if subs[0].userId == u {
        forall s | s in tail
          ensures s.userId != u
        {
          var j :| 0 <= j < |tail| && tail[j] == s;
          assert subs[j + 1] == s;
        }
        RecordsWithNone(tail, u, st);
      }
    }
  }

  lemma OneRecordRowLabel(subs: seq<Subscription>, userId: string)
    requires OneRecordPerUser(subs) && HasRecordWith(subs, userId, Active)
    ensures exists s :: (s in subs && s.userId == userId && s.status == Active
      && RowFor(subs, userId) == ActiveRow(s.planName, EndsText(s.endDate), [s]))
  {
    AtMostOneWith(subs, userId, Active);
    var active := RecordsWith(subs, userId, Active);
    RowClassification(subs, userId);
    var s := active[0];
    assert active == [s];
    assert PrimaryIndex(active) == 0;
    assert s in active;
  }

  /** The hover tooltip lists the active records; it appears only for the hovered user with more than one. */
  predicate TooltipShown(hovered: Option<string>, userId: string, activeCount: nat) {
    hovered == Some(userId) && activeCount > 1
  }

  // ================================================================ the table's state

  /** The table's own state: the page, the page size and the hovered user. */
  class Pager {
    var currentPage: int
    var itemsPerPage: int
    var hoveredUser: Option<string>

    constructor ()
      ensures currentPage == 1 && itemsPerPage == 10 && hoveredUser == None
    {
      currentPage := 1;
      itemsPerPage := 10;
      hoveredUser := None;
    }

    /** A page size from the select and, for a non-empty list, a page that exists. */
    predicate Valid(n: nat)
      reads this
    {
      PageSizeOption(itemsPerPage) && 1 <= currentPage
      && (n > 0 ==> currentPage <= TotalPages(n, itemsPerPage))
    }

    /** The users of the current page. */
    function Shown<T>(users: seq<T>): (r: seq<T>)
      reads this
      requires Valid(|users|)
      ensures |r| <= itemsPerPage
      ensures users != [] ==> 0 < |r|
    {
      PageSize(users, currentPage, itemsPerPage);
      Page(users, currentPage, itemsPerPage)
    }

    /** `handlePageChange`. */
    method HandlePageChange(page: int)
      modifies this`currentPage
      ensures currentPage == page
    {
      currentPage := page;
    }

    /** `handleItemsPerPageChange`: a new page size, back to page 1. */
    method HandleItemsPerPageChange(value: int, n: nat)
      modifies this`itemsPerPage, this`currentPage
      ensures itemsPerPage == value && currentPage == 1
      ensures PageSizeOption(value) ==> Valid(n)
    {
      itemsPerPage := value;
      currentPage := 1;
      assert PageSizeOption(value) && n > 0 ==> TotalPages(n, itemsPerPage) >= 1;
    }

    /** The reset to page 1 whenever the list's length or the page size changes. */
    method ResetPage(n: nat)
      modifies this`currentPage
      ensures currentPage == 1
      ensures PageSizeOption(itemsPerPage) ==> Valid(n)
    {
      currentPage := 1;
    }

    /** The Prev button: back one page unless on page 1. */
    method ClickPrevious(n: nat)
      modifies this`currentPage
      ensures currentPage == if PrevDisabled(old(currentPage)) then old(currentPage) else old(currentPage) - 1
      ensures old(Valid(n)) ==> Valid(n)
    {
      if !PrevDisabled(currentPage) {
        HandlePageChange(currentPage - 1);
      }
    }

    /** The Next button: forward one page unless on the last page. */
    method ClickNext(n: nat)
      requires PageSizeOption(itemsPerPage)
      modifies this`currentPage
      ensures var total := TotalPages(n, itemsPerPage);
        currentPage == if NextDisabled(old(currentPage), total) then old(currentPage) else old(currentPage) + 1
      ensures n > 0 && old(Valid(n)) ==> Valid(n)
    {
      if !NextDisabled(currentPage, TotalPages(n, itemsPerPage)) {
        HandlePageChange(currentPage + 1);
      }
    }

    /** A numbered page button: every shown page exists, so the state stays valid. */
    method ClickPage(n: nat, page: int)
      requires PageSizeOption(itemsPerPage) && page in ShownPages(TotalPages(n, itemsPerPage), currentPage)
      modifies this`currentPage
      ensures currentPage == page && Valid(n)
    {
      HandlePageChange(page);
    }

    /** Mouse enter / leave on the plan name. */
    method SetHovered(userId: Option<string>)
      modifies this`hoveredUser
      ensures hoveredUser == userId
    {
      hoveredUser := userId;
    }
  }
}
