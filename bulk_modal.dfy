/**
 * The "Add Manual Subscription" dialog: one plan for a set of users picked
 * with checkboxes from a name-or-email search.
 */
module BulkModal {
  import opened Base
  import opened Text
  import opened Domain

  /** `filteredUsers` of the dialog: name or email contains the term, ignoring case. */
  function ListedUsers(users: seq<User>, searchTerm: string): (r: seq<User>)
    ensures forall u :: u in r <==> (u in users
      && (Contains(Lower(u.name), Lower(searchTerm)) || Contains(Lower(u.email), Lower(searchTerm))))
    ensures IsSubsequence(r, users)
    ensures searchTerm == "" ==> r == users
  {
    if users == [] then []
    else
      var rest := ListedUsers(users[1..], searchTerm);
      var u := users[0];
      assert users == [u] + users[1..];
      ContainsEmpty(Lower(u.name));
      if Contains(Lower(u.name), Lower(searchTerm)) || Contains(Lower(u.email), Lower(searchTerm)) then
        SubsequenceCons(u, rest, users[1..]);
        [u] + rest
      else
        SubsequenceSkip(u, rest, users[1..]);
        rest
  }

  /** `prev.filter(id => id !== userId)`. */
  function RemoveId(ids: seq<string>, id: string): (r: seq<string>)
    ensures forall x :: x in r <==> x in ids && x != id
    ensures IsSubsequence(r, ids)
  {
    if ids == [] then []
    else
      var rest := RemoveId(ids[1..], id);
      assert ids == [ids[0]] + ids[1..];
      if ids[0] != id then
        SubsequenceCons(ids[0], rest, ids[1..]);
        [ids[0]] + rest
      else
        SubsequenceSkip(ids[0], rest, ids[1..]);
        rest
  }

  /** `handleUserToggle`: remove the id when it is selected, append it otherwise. */
  function Toggle(selected: seq<string>, id: string): (r: seq<string>)
    ensures id in r <==> id !in selected
    ensures forall x :: x != id ==> (x in r <==> x in selected)
    ensures id !in selected ==> |r| == |selected| + 1 && r[..|selected|] == selected && r[|selected|] == id
    ensures id in selected ==> IsSubsequence(r, selected)
  {
    if id in selected then RemoveId(selected, id) else selected + [id]
  }

  /** Removing an id that is absent changes nothing. */
  lemma {:induction false} RemoveAbsent(ids: seq<string>, id: string)
    requires id !in ids
    ensures RemoveId(ids, id) == ids
  {
    if ids != [] {
      RemoveAbsent(ids[1..], id);
      assert ids == [ids[0]] + ids[1..];
    }
  }

  /** Removing an id just appended restores the list. */
  lemma {:induction false} RemoveLastAppended(ids: seq<string>, id: string)
    requires id !in ids
    ensures RemoveId(ids + [id], id) == ids
  {
    if ids == [] {
      assert RemoveId([id], id) == RemoveId([id][1..], id);
      assert [id][1..] == [];
    } else {
      var t := ids[1..];
      assert (ids + [id])[0] == ids[0] && (ids + [id])[1..] == t + [id];
      RemoveLastAppended(t, id);
      assert ids == [ids[0]] + t;
    }
  }

  /** The multiset of ids left after removing one: that id's count drops to zero. */
  lemma {:induction false} RemoveIdMultiset(ids: seq<string>, id: string)
    ensures multiset(RemoveId(ids, id)) == multiset(ids)[id := 0]
  {
    if ids != [] {
      RemoveIdMultiset(ids[1..], id);
      assert ids == [ids[0]] + ids[1..];
      assert multiset(ids) == multiset{ids[0]} + multiset(ids[1..]);
    }
  }

  /** The checkbox list never holds an id twice. */
  lemma ToggleKeepsDistinct(selected: seq<string>, id: string)
    requires NoDuplicates(selected)
    ensures NoDuplicates(Toggle(selected, id))
  {
    if id in selected {
      DistinctSubsequence(RemoveId(selected, id), selected);
    } else {
      var r := selected + [id];
      forall i, j | 0 <= i < j < |r|
        ensures r[i] != r[j]
      {
        if j == |selected| {
          assert r[i] == selected[i];
        }
      }
    }
  }

  /** Toggling twice: the list is restored when the id was absent, and holds the same ids when it was present. */
  lemma ToggleTwice(selected: seq<string>, id: string)
    requires NoDuplicates(selected)
    ensures id !in selected ==> Toggle(Toggle(selected, id), id) == selected
    ensures multiset(Toggle(Toggle(selected, id), id)) == multiset(selected)
  {
    if id !in selected {
      RemoveLastAppended(selected, id);
    } else {
      var removed := RemoveId(selected, id);
      RemoveIdMultiset(selected, id);
      CountOfDistinct(selected, id);
      assert Toggle(removed, id) == removed + [id];
      assert multiset(removed + [id]) == multiset(removed) + multiset{id};
    }
  }

  /** In a list without repeats, a member occurs exactly once. */
  lemma {:induction false} CountOfDistinct(s: seq<string>, id: string)
    requires NoDuplicates(s) && id in s
    ensures multiset(s)[id] == 1
  {
    assert s == [s[0]] + s[1..];
    assert multiset(s) == multiset{s[0]} + multiset(s[1..]);
    var t := s[1..];
    assert NoDuplicates(t) by {
      forall i, j | 0 <= i < j < |t|
        ensures t[i] != t[j]
      {
        assert t[i] == s[i + 1] && t[j] == s[j + 1];
      }
    }
    if s[0] == id {
      assert id !in t by {
        forall i | 0 <= i < |t|
          ensures t[i] != id
        {
          assert s[i + 1] == t[i] && s[0] != s[i + 1];
        }
      }
    } else {
      CountOfDistinct(t, id);
    }
  }

  /** The Confirm button's disabled rule. */
  predicate ConfirmDisabled(selectedPlan: string, selectedUsers: seq<string>) {
    selectedPlan == "" || |selectedUsers| == 0
  }

  /** What Confirm hands to the dashboard. */
  datatype Request = Request(planId: string, userIds: seq<string>)

  class Dialog {
    var selectedPlan: string
    var selectedUsers: seq<string>
    var searchTerm: string

    constructor ()
      ensures selectedPlan == "" && selectedUsers == [] && searchTerm == ""
    {
      selectedPlan := "";
      selectedUsers := [];
      searchTerm := "";
    }

    predicate Valid()
      reads this
    {
      NoDuplicates(selectedUsers)
    }

    function Listing(users: seq<User>): seq<User>
      reads this
    {
      ListedUsers(users, searchTerm)
    }

    method SetPlan(planId: string)
      modifies this`selectedPlan
      ensures selectedPlan == planId
    {
      selectedPlan := planId;
    }

    /** Typing in the search box; the selection stays as it is. */
    method SetSearchTerm(term: string)
      modifies this`searchTerm
      ensures searchTerm == term
      ensures selectedUsers == old(selectedUsers) && selectedPlan == old(selectedPlan)
    {
      searchTerm := term;
    }

    /** A checkbox. */
    method HandleUserToggle(userId: string)
      modifies this`selectedUsers
      ensures selectedUsers == Toggle(old(selectedUsers), userId)
      ensures old(Valid()) ==> Valid()
    {
      if Valid() {
        ToggleKeepsDistinct(selectedUsers, userId);
      }
      selectedUsers := Toggle(selectedUsers, userId);
    }

    /**
     * `handleConfirm`: with a plan and at least one user — exactly when the
     * button is enabled — send them and clear the dialog; otherwise nothing.
     */
    method HandleConfirm() returns (sent: Option<Request>)
      modifies this`selectedPlan, this`selectedUsers, this`searchTerm
      ensures sent.Some? <==> !ConfirmDisabled(old(selectedPlan), old(selectedUsers))
      ensures sent.Some? ==> (sent.value == Request(old(selectedPlan), old(selectedUsers))
        && selectedPlan == "" && selectedUsers == [] && searchTerm == "")
      ensures sent.Some? && old(Valid()) ==> NoDuplicates(sent.value.userIds)
      ensures sent.None? ==> (selectedPlan == old(selectedPlan) && selectedUsers == old(selectedUsers)
        && searchTerm == old(searchTerm))
    {
      if selectedPlan != "" && |selectedUsers| > 0 {
        sent := Some(Request(selectedPlan, selectedUsers));
        selectedPlan := "";
        selectedUsers := [];
        searchTerm := "";
      } else {
        sent := None;
      }
    }

    /** `handleClose` (Cancel, or closing the dialog). */
    method HandleClose()
      modifies this`selectedPlan, this`selectedUsers, this`searchTerm
      ensures selectedPlan == "" && selectedUsers == [] && searchTerm == ""
    {
      selectedPlan := "";
      selectedUsers := [];
      searchTerm := "";
    }
  }
}
