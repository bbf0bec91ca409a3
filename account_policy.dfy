/**
 * `AccountPolicy`: which administrative actions on an account a user may
 * take, from the acting user's roles and the roles of the user owning the
 * account (none for a remote account).
 *
 * `staff?` and `admin?` are roles given as booleans; how a user comes to
 * have them is not part of this model.
 */
module AccountPolicy {
  import opened Wrappers

  datatype Roles = Roles(staff: bool, admin: bool)

  datatype Action =
    | Index | Show | Halt | Restore | Silence | Unsilence
    | Redownload | Subscribe | Unsubscribe | Memorialize

  /** `record.user&.staff?` */
  predicate TargetStaff(target: Option<Roles>) {
    target.Some? && target.value.staff
  }

  /** `record.user&.admin?` */
  predicate TargetAdmin(target: Option<Roles>) {
    target.Some? && target.value.admin
  }

  /** The actions that look at the target account at all. */
  predicate LooksAtTarget(a: Action) {
    a.Halt? || a.Silence? || a.Memorialize?
  }

  /** The policy's predicates, one per action. */
  function Permitted(a: Action, actor: Roles, target: Option<Roles>): (r: bool)
    ensures r ==> actor.staff || actor.admin
    ensures (a.Halt? || a.Silence?) ==> (r <==> actor.staff && !TargetStaff(target))
    ensures a.Memorialize? ==> (r <==> actor.admin && !TargetAdmin(target))
    ensures !LooksAtTarget(a) ==> (r <==> if a.Redownload? || a.Subscribe? || a.Unsubscribe? then actor.admin else actor.staff)
  {
    match a
    case Index => actor.staff
    case Show => actor.staff
    case Halt => actor.staff && !TargetStaff(target)
    case Restore => actor.staff
    case Silence => actor.staff && !TargetStaff(target)
    case Unsilence => actor.staff
    case Redownload => actor.admin
    case Subscribe => actor.admin
    case Unsubscribe => actor.admin
    case Memorialize => actor.admin && !TargetAdmin(target)
  }

  /** Every action but halting, silencing and memorializing ignores the target account. */
  lemma TargetIrrelevant(a: Action, actor: Roles, t1: Option<Roles>, t2: Option<Roles>)
    requires !LooksAtTarget(a)
    ensures Permitted(a, actor, t1) == Permitted(a, actor, t2)
  {
  }

  /** A remote account (no local user) can be halted and silenced by any staff member. */
  lemma RemoteAccountHaltable(actor: Roles)
    requires actor.staff
    ensures Permitted(Halt, actor, None) && Permitted(Silence, actor, None)
    ensures actor.admin ==> Permitted(Memorialize, actor, None)
  {
  }

  /** Staff never halt or silence staff, and admins never memorialize admins. */
  lemma NoActionOnPeers(actor: Roles, target: Roles)
    ensures target.staff ==> !Permitted(Halt, actor, Some(target)) && !Permitted(Silence, actor, Some(target))
    ensures target.admin ==> !Permitted(Memorialize, actor, Some(target))
  {
  }
}
