/**
 * The "Add Individual Subscriptions" dialog: a search over chosen fields
 * with several `;`-separated terms, a selection list in which every user
 * gets a plan, and the guarded confirm that hands the `(userId, planId)`
 * pairs to the dashboard.
 */
module IndividualModal {
  import opened Base
  import opened Text
  import opened Domain
  import Ledger

  // ================================================================ search

  /** One term as the search uses it: trimmed, then lower-cased. */
  function Normalize(t: string): (r: string)
    ensures Lower(r) == r
    ensures r != [] ==> !IsSpace(r[0]) && !IsSpace(r[|r| - 1])
  {
    var trimmed := Trim(t);
    LowerIdempotent(trimmed);
    Lower(trimmed)
  }

  /** `.map(term => term.trim().toLowerCase()).filter(term => term.length > 0)`. */
  function NonEmptyNormalized(parts: seq<string>): (r: seq<string>)
    ensures forall t :: t in r <==> t != "" && exists p :: p in parts && Normalize(p) == t
    ensures |r| <= |parts|
  {
    if parts == [] then []
    else
      var rest := NonEmptyNormalized(parts[1..]);
      assert parts == [parts[0]] + parts[1..];
      var t := Normalize(parts[0]);
      if t != "" then [t] + rest else rest
  }

  /** The search terms of the search box: its `;`-separated pieces, normalised, empty ones dropped. */
  function SearchTerms(searchTerm: string): (terms: seq<string>)
    ensures forall t :: t in terms ==> t != "" && ';' !in t && Lower(t) == t
    ensures forall t :: t in terms <==> t != "" && exists p :: p in Split(searchTerm, ';') && Normalize(p) == t
  {
    var parts := Split(searchTerm, ';');
    var r := NonEmptyNormalized(parts);
    forall t | t in r
      ensures ';' !in t
    {
      var p :| p in parts && Normalize(p) == t;
      NormalizeKeepsOut(p, ';');
    }
    r
  }

  /** Trimming and lower-casing never introduce a `;`. */
  lemma NormalizeKeepsOut(p: string, c: char)
    requires c !in p && !('a' <= c <= 'z')
    ensures c !in Normalize(p)
  {
    var trimmed := Trim(p);
    var a, b :| 0 <= a <= b <= |p| && trimmed == p[a..b];
    forall i | 0 <= i < |trimmed|
      ensures Lower(trimmed)[i] != c
    {
      assert trimmed[i] == p[a + i];
    }
  }

  /** A box without `;` is a single term, or none when it is blank. */
  lemma SingleTerm(searchTerm: string)
    requires ';' !in searchTerm
    ensures SearchTerms(searchTerm) == if Normalize(searchTerm) == "" then [] else [Normalize(searchTerm)]
  {
    assert IndexOf(searchTerm, ';') == |searchTerm|;
    assert Split(searchTerm, ';') == [searchTerm];
    assert Split(searchTerm, ';')[1..] == [];
  }

  /** The `searchBy` switch: email, name and id lower-cased; phone as typed; any other field matches. */
  predicate MatchesField(u: User, searchBy: string, term: string) {
    if searchBy == "email" then Contains(Lower(u.email), term)
    else if searchBy == "name" then Contains(Lower(u.name), term)
    else if searchBy == "id" then Contains(Lower(u.id), term)
    else if searchBy == "phone" then Contains(u.phone, term)
    else true
  }

  /** An entry of the selection list. */
  datatype SelectedUser = SelectedUser(user: User, planId: string)

  predicate IsSelected(selected: seq<SelectedUser>, userId: string) {
    exists su :: su in selected && su.user.id == userId
  }

  /** A user is listed when not selected yet and some term matches the chosen field. */
  predicate Listed(u: User, selected: seq<SelectedUser>, searchBy: string, searchTerm: string) {
    !IsSelected(selected, u.id) && exists t :: t in SearchTerms(searchTerm) && MatchesField(u, searchBy, t)
  }

  /** `filteredUsers` of the dialog. */
  function FilteredUsers(users: seq<User>, selected: seq<SelectedUser>, searchBy: string, searchTerm: string): (r: seq<User>)
    ensures forall u :: u in r <==> u in users && Listed(u, selected, searchBy, searchTerm)
    ensures IsSubsequence(r, users)
    ensures SearchTerms(searchTerm) == [] ==> r == []
  {
    if users == [] then []
    else
      var rest := FilteredUsers(users[1..], selected, searchBy, searchTerm);
      assert users == [users[0]] + users[1..];
      if Listed(users[0], selected, searchBy, searchTerm) then
        SubsequenceCons(users[0], rest, users[1..]);
        [users[0]] + rest
      else
        SubsequenceSkip(users[0], rest, users[1..]);
        rest
  }

  // ================================================================ the selection list

  function SelectedIds(selected: seq<SelectedUser>): (ids: seq<string>)
    ensures |ids| == |selected|
    ensures forall i :: 0 <= i < |selected| ==> ids[i] == selected[i].user.id
  {
    seq(|selected|, i requires 0 <= i < |selected| => selected[i].user.id)
  }

  /** `addUser`: append the user, with no plan chosen yet. */
  function AfterAdd(selected: seq<SelectedUser>, u: User): (r: seq<SelectedUser>)
    ensures IsSelected(r, u.id)
    ensures SelectedIds(r) == SelectedIds(selected) + [u.id]
    ensures r[..|selected|] == selected && r[|selected|].planId == ""
    ensures |r| == |selected| + 1 && r[|selected|] == SelectedUser(u, "")
    ensures !IsSelected(selected, u.id) && NoDuplicates(SelectedIds(selected)) ==> NoDuplicates(SelectedIds(r))
  {
    selected + [SelectedUser(u, "")]
  }

  /** Adding a listed user keeps the selection free of repeated users, and the user leaves the list. */
  lemma AddListedUser(users: seq<User>, selected: seq<SelectedUser>, searchBy: string, searchTerm: string, u: User)
    requires NoDuplicates(SelectedIds(selected))
    requires u in FilteredUsers(users, selected, searchBy, searchTerm)
    ensures NoDuplicates(SelectedIds(AfterAdd(selected, u)))
    ensures u !in FilteredUsers(users, AfterAdd(selected, u), searchBy, searchTerm)
  {
    var r := AfterAdd(selected, u);
    var ids := SelectedIds(r);
    forall i, j | 0 <= i < j < |ids|
      ensures ids[i] != ids[j]
    {
      if j == |selected| {
        assert selected[i] in selected;
      } else {
        assert ids[i] == SelectedIds(selected)[i] && ids[j] == SelectedIds(selected)[j];
      }
    }
    assert r[|selected|] in r;
  }

  /** `removeUser`: drop the entries of that user. */
  function AfterRemove(selected: seq<SelectedUser>, userId: string): (r: seq<SelectedUser>)
    ensures forall su :: su in r <==> su in selected && su.user.id != userId
    ensures IsSubsequence(r, selected)
    ensures !IsSelected(r, userId)
  {
    if selected == [] then []
    else
      var rest := AfterRemove(selected[1..], userId);
      assert selected == [selected[0]] + selected[1..];
      if selected[0].user.id != userId then
        SubsequenceCons(selected[0], rest, selected[1..]);
        [selected[0]] + rest
      else
        SubsequenceSkip(selected[0], rest, selected[1..]);
        rest
  }

  /** Removing a user that was just added restores the selection. */
  lemma RemoveAfterAdd(selected: seq<SelectedUser>, u: User)
    requires !IsSelected(selected, u.id)
    ensures AfterRemove(AfterAdd(selected, u), u.id) == selected
  {
    RemoveAfterAppend(selected, SelectedUser(u, ""));
  }

  /** Removing the user of an entry appended to a selection without them restores the selection. */
  lemma {:induction false} RemoveAfterAppend(selected: seq<SelectedUser>, x: SelectedUser)
    requires !IsSelected(selected, x.user.id)
    ensures AfterRemove(selected + [x], x.user.id) == selected
  {
    if selected == [] {
      assert AfterRemove([x], x.user.id) == AfterRemove([x][1..], x.user.id);
      assert [x][1..] == [];
    } else {
      var tail := selected[1..];
      assert !IsSelected(tail, x.user.id) by {
        forall su | su in tail
          ensures su.user.id != x.user.id
        {
          assert su in selected;
        }
      }
      RemoveAfterAppend(tail, x);
      var added := selected + [x];
      assert added[0] == selected[0] && added[1..] == tail + [x];
      assert selected[0] in selected;
      assert selected == [selected[0]] + tail;
    }
  }

  /** `updateUserPlan`: the matching entries get the plan, every other entry stays. */
  function AfterUpdatePlan(selected: seq<SelectedUser>, userId: string, planId: string): (r: seq<SelectedUser>)
    ensures |r| == |selected| && SelectedIds(r) == SelectedIds(selected)
    ensures forall i :: 0 <= i < |selected| && selected[i].user.id != userId ==> r[i] == selected[i]
    ensures forall i :: 0 <= i < |selected| && selected[i].user.id == userId ==> r[i] == SelectedUser(selected[i].user, planId)
  {
    seq(|selected|, i requires 0 <= i < |selected| =>
      if selected[i].user.id == userId then SelectedUser(selected[i].user, planId) else selected[i])
  }

  /** Setting a plan twice is setting it once, and the last choice wins. */
  lemma UpdateUserPlanTwice(selected: seq<SelectedUser>, userId: string, p: string, q: string)
    ensures AfterUpdatePlan(AfterUpdatePlan(selected, userId, p), userId, q) == AfterUpdatePlan(selected, userId, q)
  {
  }

  // ================================================================ confirm

  /** The `(userId, planId)` pair of every entry, in selection order. */
  function EntriesOf(selected: seq<SelectedUser>): (es: seq<Ledger.Entry>)
    ensures |es| == |selected|
    ensures forall i :: 0 <= i < |selected| ==> es[i] == Ledger.Entry(selected[i].user.id, selected[i].planId)
  {
    seq(|selected|, i requires 0 <= i < |selected| => Ledger.Entry(selected[i].user.id, selected[i].planId))
  }

  /** `validSubscriptions.map(...)`: the pairs of the entries that have a plan, in selection order. */
  function Payload(selected: seq<SelectedUser>): (r: seq<Ledger.Entry>)
    ensures forall e :: e in r <==> e in EntriesOf(selected) && e.planId != ""
    ensures IsSubsequence(r, EntriesOf(selected))
  {
    if selected == [] then []
    else
      var rest := Payload(selected[1..]);
      var es := EntriesOf(selected);
      assert es == [es[0]] + EntriesOf(selected[1..]);
      if selected[0].planId != "" then
        SubsequenceCons(es[0], rest, EntriesOf(selected[1..]));
        [es[0]] + rest
      else
        SubsequenceSkip(es[0], rest, EntriesOf(selected[1..]));
        rest
  }

  /** The Subscribe button's disabled rule (while not processing). */
  predicate ConfirmDisabled(selected: seq<SelectedUser>) {
    |selected| == 0 || exists su :: su in selected && su.planId == ""
  }

  /** The count in "Subscribe (N Users)": the entries that have a plan. */
  function SubscribeCount(selected: seq<SelectedUser>): (n: nat)
    ensures n <= |selected|
    ensures n == |Payload(selected)|
  {
    if selected == [] then 0
    else (if selected[0].planId != "" then 1 else 0) + SubscribeCount(selected[1..])
  }

  /** When every entry has a plan the payload is every entry. */
  lemma {:induction false} PayloadAllPlanned(selected: seq<SelectedUser>)
    requires forall su :: su in selected ==> su.planId != ""
    ensures Payload(selected) == EntriesOf(selected)
  {
    if selected != [] {
      assert selected[0] in selected;
      forall su | su in selected[1..]
        ensures su.planId != ""
      {
        assert su in selected;
      }
      PayloadAllPlanned(selected[1..]);
      var es := EntriesOf(selected);
      assert es == [es[0]] + EntriesOf(selected[1..]);
    }
  }

  /** An enabled Subscribe button sends one pair per selected user, and the label counts them all. */
  lemma EnabledConfirmSendsAll(selected: seq<SelectedUser>)
    requires !ConfirmDisabled(selected)
    ensures Payload(selected) == EntriesOf(selected)
    ensures |Payload(selected)| == |selected| > 0
    ensures SubscribeCount(selected) == |selected|
  {
    PayloadAllPlanned(selected);
  }

  // ================================================================ the dialog's state

  class Dialog {
    var searchBy: string
    var searchTerm: string
    var selected: seq<SelectedUser>

    constructor ()
      ensures searchBy == "email" && searchTerm == "" && selected == []
    {
      searchBy := "email";
      searchTerm := "";
      selected := [];
    }

    /** No user is in the selection twice. */
    predicate Valid()
      reads this
    {
      NoDuplicates(SelectedIds(selected))
    }

    function Listing(users: seq<User>): seq<User>
      reads this
    {
      FilteredUsers(users, selected, searchBy, searchTerm)
    }

    method SetSearchBy(field: string)
      modifies this`searchBy
      ensures searchBy == field
    {
      searchBy := field;
    }

    method SetSearchTerm(term: string)
      modifies this`searchTerm
      ensures searchTerm == term
    {
      searchTerm := term;
    }

    /** The Add button of a listed user; the search term stays. */
    method AddUser(users: seq<User>, u: User)
      modifies this`selected
      ensures selected == old(selected) + [SelectedUser(u, "")]
      ensures old(Valid()) && u in old(Listing(users)) ==> Valid()
    {
      if Valid() && u in Listing(users) {
        AddListedUser(users, selected, searchBy, searchTerm, u);
      }
      selected := AfterAdd(selected, u);
    }

    method RemoveUser(userId: string)
      modifies this`selected
      ensures selected == AfterRemove(old(selected), userId)
      ensures old(Valid()) ==> Valid()
    {
      var r := AfterRemove(selected, userId);
      if Valid() {
        RemoveKeepsDistinct(selected, userId);
      }
      selected := r;
    }

    method UpdateUserPlan(userId: string, planId: string)
      modifies this`selected
      ensures selected == AfterUpdatePlan(old(selected), userId, planId)
      ensures old(Valid()) ==> Valid()
    {
      selected := AfterUpdatePlan(selected, userId, planId);
    }

    /**
     * `handleConfirm`, with the progress animation left out: when some entry
     * has a plan, send the pairs of those entries and clear the selection and
     * the search; otherwise nothing happens.
     */
    method HandleConfirm() returns (sent: Option<seq<Ledger.Entry>>)
      modifies this`selected, this`searchTerm
      ensures sent.Some? <==> |Payload(old(selected))| > 0
      ensures sent.Some? ==> sent.value == Payload(old(selected)) && selected == [] && searchTerm == ""
      ensures sent.None? ==> selected == old(selected) && searchTerm == old(searchTerm)
    {
      var valid := Payload(selected);
      if |valid| > 0 {
        sent := Some(valid);
        selected := [];
        searchTerm := "";
      } else {
        sent := None;
      }
    }

    /** `handleClose`: the selection and the search are cleared. */
    method HandleClose()
      modifies this`selected, this`searchTerm
      ensures selected == [] && searchTerm == ""
    {
      selected := [];
      searchTerm := "";
    }
  }

  /** Removing entries keeps the selection free of repeated users. */
  lemma RemoveKeepsDistinct(selected: seq<SelectedUser>, userId: string)
    requires NoDuplicates(SelectedIds(selected))
    ensures NoDuplicates(SelectedIds(AfterRemove(selected, userId)))
  {
    SelectedIdsSubsequence(AfterRemove(selected, userId), selected);
    DistinctSubsequence(SelectedIds(AfterRemove(selected, userId)), SelectedIds(selected));
  }

  /** Dropping entries from a selection drops the matching ids, keeping the order of the rest. */
  lemma {:induction false} SelectedIdsSubsequence(a: seq<SelectedUser>, b: seq<SelectedUser>)
    requires IsSubsequence(a, b)
    ensures IsSubsequence(SelectedIds(a), SelectedIds(b))
    decreases |b|
  {
    if a != [] {
      var id := b[0].user.id;
      assert SelectedIds(b) == [id] + SelectedIds(b[1..]);
      if a[0] == b[0] {
        SelectedIdsSubsequence(a[1..], b[1..]);
        assert SelectedIds(a) == [id] + SelectedIds(a[1..]);
        SubsequenceCons(id, SelectedIds(a[1..]), SelectedIds(b[1..]));
      } else {
        SelectedIdsSubsequence(a, b[1..]);
        SubsequenceSkip(id, SelectedIds(a), SelectedIds(b[1..]));
      }
    }
  }
}
