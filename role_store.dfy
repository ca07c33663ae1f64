/** The client-side role store of frontend/src/stores/roleStore.ts: one
    list of numeric roles that two actions overwrite and one query reads. */
module RoleStore {
  import Seqs

  class RoleStore {
    var roles: seq<int>

    /** Line 11: the store starts with no roles. */
    constructor ()
      ensures roles == []
    {
      roles := [];
    }

    /** Line 12: the list is replaced wholesale. */
    method SetRoles(r: seq<int>)
      modifies this
      ensures roles == r
    {
      roles := r;
    }

    /** Line 13: the list is emptied, after which no role is held. */
    method ClearRoles()
      modifies this
      ensures roles == []
      ensures forall target :: !HasRole(target)
    {
      roles := [];
    }

    /** Line 14: `get().roles.includes(target)`; it only reads the store. */
    function HasRole(target: int): (b: bool)
      reads this
      ensures b <==> target in roles
    {
      Seqs.Includes(roles, target)
    }
  }

  /** A caller's view of the store: what `setRoles` stores is what
      `hasRole` reports, until `clearRoles`. */
  method StoreScenario(r: seq<int>, x: int) returns (before: bool, during: bool, after: bool)
    ensures !before
    ensures during <==> x in r
    ensures !after
  {
    var store := new RoleStore();
    before := store.HasRole(x);
    store.SetRoles(r);
    during := store.HasRole(x);
    store.ClearRoles();
    after := store.HasRole(x);
  }
}
