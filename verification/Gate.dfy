/** The object gate (crates/api/src/caller.rs): an action's rank floor against the caller's effective rank. */
module Gate {
  import opened Prelude
  import opened Registry
  import opened Rbac

  datatype Action = View | Create | Edit | Delete

  function Floor(td: TypeDef, action: Action): int {
    match action
    case View => 1
    case Create => 2
    case Edit => 2
    case Delete => if td.DeleteMinRole() == "owner" then 4 else 3
  }

  /** Admins pass, and so does a request without an object; otherwise the rank must meet the floor. */
  predicate RequireAction(a: Access, caller: Caller, td: TypeDef, obj: Option<Id>, action: Action) {
    || caller.admin
    || obj.None?
    || (var rank := EffectiveRank(a, caller.actor, obj.value); rank.Some? && rank.value >= Floor(td, action))
  }

  /** The gate for an entity whose type is looked up; an unknown entity or type is no reach. */
  predicate ReachAction(a: Access, registry: map<string, TypeDef>, caller: Caller, id: Id, action: Action) {
    id in a.types && a.types[id] in registry && RequireAction(a, caller, registry[a.types[id]], Some(id), action)
  }
}
