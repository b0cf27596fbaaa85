/**
 * The "Edit User Subscription" dialog: it shows the user's current record,
 * offers a plan to change to (or to add), and guards Save and Delete.
 */
module EditModal {
  import opened Base
  import opened Domain

  /** The `selectedPlan` the effect sets: the current record's plan, or nothing. */
  function InitialPlan(current: Option<Subscription>): (p: string)
    ensures current.Some? ==> p == current.value.planId
    ensures current.None? ==> p == ""
  {
    if current.Some? then current.value.planId else ""
  }

  /**
   * The disabled rule of the dialog's confirm button: "Save Changes" (with a
   * current record) is disabled when no plan is chosen or the chosen plan is
   * the current one; "Add Subscription" (without) only when no plan is chosen.
   */
  predicate SaveDisabled(current: Option<Subscription>, selectedPlan: string) {
    if current.Some? then selectedPlan == "" || selectedPlan == current.value.planId
    else selectedPlan == ""
  }

  /** Right after the record changes the effect's reset leaves the button disabled: nothing has been picked yet. */
  lemma DisabledUntilChanged(current: Option<Subscription>)
    ensures SaveDisabled(current, InitialPlan(current))
  {
  }

  /** The badge classes of `getStatusColor`. */
  const ActiveClass := "bg-status-active text-white"
  const ExpiredClass := "bg-status-expired text-white"
  const PendingClass := "bg-status-pending text-white"
  const NoneClass := "bg-status-none text-white"

  /** The status text a record carries. */
  function StatusName(s: Status): (name: string)
    ensures name in {"active", "expired", "pending"}
  {
    match s
    case Active => "active"
    case Expired => "expired"
    case Pending => "pending"
  }

  /** `getStatusColor(status?)`: a class per known status, the "none" class for anything else. */
  function StatusColor(status: Option<string>): (c: string)
    ensures status == Some("active") ==> c == ActiveClass
    ensures status == Some("expired") ==> c == ExpiredClass
    ensures status == Some("pending") ==> c == PendingClass
    ensures c == NoneClass <==> status !in {Some("active"), Some("expired"), Some("pending")}
  {
    if status == Some("active") then ActiveClass
    else if status == Some("expired") then ExpiredClass
    else if status == Some("pending") then PendingClass
    else NoneClass
  }

  /** Every record's status gets a colour of its own, never the "none" one. */
  lemma StatusColorsDistinct(a: Status, b: Status)
    ensures StatusColor(Some(StatusName(a))) != NoneClass
    ensures StatusColor(Some(StatusName(a))) == StatusColor(Some(StatusName(b))) <==> a == b
  {
  }

  /** `onUpdateSubscription(user.id, selectedPlan)`. */
  datatype Update = Update(userId: string, planId: string)

  /** The dialog for one user; `user` and `current` are the props, `selectedPlan` its state. */
  class Dialog {
    var user: Option<User>
    var current: Option<Subscription>
    var selectedPlan: string

    constructor ()
      ensures user == None && current == None && selectedPlan == ""
    {
      user := None;
      current := None;
      selectedPlan := "";
    }

    /** The dialog renders nothing without a user. */
    predicate Renders()
      reads this
    {
      user.Some?
    }

    /**
     * New props. The effect depends on `currentSubscription` alone: it resets
     * the chosen plan only when the record differs from the previous one, so
     * a pick left behind by Cancel survives a reopen with the same record.
     */
    method Receive(u: Option<User>, cur: Option<Subscription>)
      modifies this
      ensures user == u && current == cur
      ensures cur != old(current) ==> selectedPlan == InitialPlan(cur) && SaveDisabled(current, selectedPlan)
      ensures cur == old(current) ==> selectedPlan == old(selectedPlan)
    {
      if cur != current {
        selectedPlan := InitialPlan(cur);
      }
      user := u;
      current := cur;
    }

    /** Choosing in the plan select. */
    method SelectPlan(planId: string)
      modifies this`selectedPlan
      ensures selectedPlan == planId
    {
      selectedPlan := planId;
    }

    /** `handleSave`: an update for a present user and a chosen plan, nothing otherwise. */
    method HandleSave() returns (sent: Option<Update>)
      ensures sent.Some? <==> user.Some? && selectedPlan != ""
      ensures sent.Some? ==> sent.value == Update(user.value.id, selectedPlan)
      ensures user.Some? && !SaveDisabled(current, selectedPlan) ==> sent.Some?
    {
      if user.Some? && selectedPlan != "" {
        sent := Some(Update(user.value.id, selectedPlan));
      } else {
        sent := None;
      }
    }

    /** `handleDelete`: the user's id when a user is present. */
    method HandleDelete() returns (sent: Option<string>)
      ensures sent.Some? <==> user.Some?
      ensures sent.Some? ==> sent.value == user.value.id
    {
      if user.Some? {
        sent := Some(user.value.id);
      } else {
        sent := None;
      }
    }
  }
}
