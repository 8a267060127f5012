/** The role gate placed in front of protected routers: a role is admitted when the list
    of allowed roles names it, either as is or under its French alias. */
module RoleGate {
  import opened Common

  /** What the gate does with a request. */
  datatype Gate =
    | Pass
    | Unauthenticated                                   // 401
    | Forbidden(required: seq<string>, current: string) // 403 with the list and the role

  /** `roleMap[role] || role`: the English roles `manager` and `workshop` have French
      aliases; every other role stands for itself. */
  function MapRole(role: string): (m: string)
    ensures role == "manager" ==> m == "gestionnaire"
    ensures role == "workshop" ==> m == "atelier"
    ensures role != "manager" && role != "workshop" ==> m == role
  {
    if role == "manager" then "gestionnaire"
    else if role == "workshop" then "atelier"
    else role
  }

  /** Mapping an alias again changes nothing. */
  lemma MapRoleIdempotent(role: string)
    ensures MapRole(MapRole(role)) == MapRole(role)
  {
  }

  /** `requireRole(allowed)` applied to a request whose authenticated user has role `user`
      (`None` when no user is attached). */
  function RequireRole(allowed: seq<string>, user: Option<string>): (g: Gate)
    ensures user.None? ==> g == Unauthenticated
    ensures user.Some? ==> (g == Pass <==> user.value in allowed || MapRole(user.value) in allowed)
    ensures user.Some? && g != Pass ==> g == Forbidden(allowed, user.value)
  {
    if user.None? then Unauthenticated
    else if !(user.value in allowed) && !(MapRole(user.value) in allowed) then Forbidden(allowed, user.value)
    else Pass
  }

  /** Allowing more roles never turns an admission into a refusal. */
  lemma RequireRoleMonotone(allowed: seq<string>, more: seq<string>, user: Option<string>)
    requires forall r :: r in allowed ==> r in more
    ensures RequireRole(allowed, user) == Pass ==> RequireRole(more, user) == Pass
  {
  }

  /** Naming a French alias also admits the English role it stands for. */
  lemma AliasAdmitsEnglish(allowed: seq<string>)
    ensures "gestionnaire" in allowed ==> RequireRole(allowed, Some("manager")) == Pass
    ensures "atelier" in allowed ==> RequireRole(allowed, Some("workshop")) == Pass
  {
  }

  function RequireAdmin(user: Option<string>): (g: Gate)
    ensures user.Some? ==> (g == Pass <==> user.value == "admin")
    ensures user.None? ==> g == Unauthenticated
  {
    RequireRole(["admin"], user)
  }

  function RequireWorkshop(user: Option<string>): (g: Gate)
    ensures user.Some? ==> (g == Pass <==> user.value in {"workshop", "atelier", "admin"})
    ensures user.None? ==> g == Unauthenticated
  {
    RequireRole(["workshop", "atelier", "admin"], user)
  }

  function RequireManager(user: Option<string>): (g: Gate)
    ensures user.Some? ==> (g == Pass <==> user.value in {"manager", "gestionnaire", "admin"})
    ensures user.None? ==> g == Unauthenticated
  {
    RequireRole(["manager", "gestionnaire", "admin"], user)
  }

  /** The gate of the workshop router, which lists `workshop` and `admin` but not the alias. */
  function WorkshopRouterGate(user: Option<string>): (g: Gate)
    ensures user.Some? ==> (g == Pass <==> user.value in {"workshop", "admin"})
    ensures user.None? ==> g == Unauthenticated
  {
    RequireRole(["workshop", "admin"], user)
  }

  /** A user whose role is the alias `atelier` passes `requireWorkshop` but is refused by
      the workshop router: the alias only helps in the English-to-French direction. */
  lemma AtelierRefusedByWorkshopRouter()
    ensures RequireWorkshop(Some("atelier")) == Pass
    ensures WorkshopRouterGate(Some("atelier")) == Forbidden(["workshop", "admin"], "atelier")
  {
  }
}
