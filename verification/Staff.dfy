/**
 * Who works here: roles, per-user grants, and the rule that somebody always holds
 * `staff.manage`. Here each operation runs alone; `StaffRaces` lets them overlap.
 */
module Staff {
  type UserId = nat
  type Role = string
  type Key = string

  const STAFF_MANAGE: Key := "staff.manage"

  /** The permission catalogue in the code; a key the database knows and the code does not grants nothing. */
  predicate InCatalog(key: Key) {
    key in {"products.read", "products.create", "products.update", "products.delete",
            "orders.read", "orders.update_status", "orders.cancel", "orders.refund",
            "customers.read",
            "coupons.read", "coupons.create", "coupons.update", "coupons.delete",
            "reports.read",
            STAFF_MANAGE,
            "integrations.read", "integrations.manage"}
  }

  /** `grants` maps a granted key to whoever granted it first. */
  datatype Account = Account(role: Role, grants: map<Key, UserId>)

  datatype Store = Store(roles: map<Role, set<Key>>, permissions: set<Key>, accounts: map<UserId, Account>)

  datatype Result = Done | UnknownRole | NoPermissionRow | NoAccount | NoSuchGrant | OnYourself | LastHolder

  datatype Operation =
    | Register(user: UserId, role: Role)
    | ChangeRole(caller: UserId, target: UserId, role: Role)
    | Grant(caller: UserId, target: UserId, key: Key)
    | Revoke(caller: UserId, target: UserId, key: Key)

  // ---------- Effective permissions ----------

  function RoleKeys(s: Store, role: Role): set<Key> {
    if role in s.roles then s.roles[role] else {}
  }

  function Resolved(roleKeys: set<Key>, grantKeys: set<Key>): set<Key> {
    set k | k in roleKeys + grantKeys && InCatalog(k)
  }

  function Effective(s: Store, u: UserId): set<Key> {
    if u !in s.accounts then {} else Resolved(RoleKeys(s, s.accounts[u].role), s.accounts[u].grants.Keys)
  }

  /** resolveEffectivePermissions, over the key lists as they are read. */
  method ResolveEffectivePermissions(roleKeys: seq<Key>, grantKeys: seq<Key>) returns (effective: set<Key>)
    ensures effective == Resolved(set k | k in roleKeys, set k | k in grantKeys)
  {
    effective := {};
    var keys := roleKeys + grantKeys;
    for i := 0 to |keys|
      invariant forall k :: k in effective <==> k in keys[..i] && InCatalog(k)
    {
      if InCatalog(keys[i]) {
        effective := effective + {keys[i]};
      }
    }
    assert keys[..|keys|] == keys;
  }

  /** The rows lockHolders selects: two EXISTS, one over the role's permissions and one over the grants. */
  function Holders(s: Store): set<UserId> {
    set u | u in s.accounts &&
            (STAFF_MANAGE in RoleKeys(s, s.accounts[u].role) || STAFF_MANAGE in s.accounts[u].grants)
  }

  /** The locked set is exactly who the access token would resolve the permission for. */
  lemma {:induction false} HoldersAreResolved(s: Store, u: UserId)
    ensures u in Holders(s) <==> STAFF_MANAGE in Effective(s, u)
  {
    assert InCatalog(STAFF_MANAGE);
  }

  // ---------- The operations ----------

  /** The row an operation would write, guards aside. */
  function Written(s: Store, op: Operation): Store {
    match op
    case Register(u, role) =>
      if u in s.accounts || role !in s.roles then s
      else s.(accounts := s.accounts[u := Account(role, map[])])
    case ChangeRole(_, u, role) =>
      if u !in s.accounts then s else s.(accounts := s.accounts[u := s.accounts[u].(role := role)])
    case Grant(caller, u, key) =>
      if u !in s.accounts || key in s.accounts[u].grants then s
      else s.(accounts := s.accounts[u := s.accounts[u].(grants := s.accounts[u].grants[key := caller])])
    case Revoke(_, u, key) =>
      if u !in s.accounts then s
      else s.(accounts := s.accounts[u := s.accounts[u].(grants := s.accounts[u].grants - {key})])
  }

  /** assertStoreKeepsAnAdministrator, passing. */
  predicate KeepsAnAdministrator(holders: set<UserId>, target: UserId, effectiveAfter: set<Key>) {
    STAFF_MANAGE in effectiveAfter || target !in holders || exists u :: u in holders && u != target
  }

  /** What the target would hold once the operation lands, on the account as it is read. */
  function EffectiveAfter(s: Store, op: Operation): set<Key>
    requires op.ChangeRole? || op.Revoke?
    requires op.target in s.accounts && (op.ChangeRole? ==> op.role in s.roles)
  {
    var account := s.accounts[op.target];
    if op.ChangeRole? then Resolved(s.roles[op.role], account.grants.Keys)
    else Resolved(RoleKeys(s, account.role), account.grants.Keys - {op.key})
  }

  /** The checks, in the order the service makes them. */
  ghost function Verdict(s: Store, op: Operation): Result {
    match op
    case Register(u, role) => Done
    case ChangeRole(caller, u, role) =>
      if u == caller then OnYourself
      else if role !in s.roles then UnknownRole
      else if u !in s.accounts then NoAccount
      else if !KeepsAnAdministrator(Holders(s), u, EffectiveAfter(s, op)) then LastHolder
      else Done
    case Grant(caller, u, key) =>
      if u == caller then OnYourself
      else if key !in s.permissions then NoPermissionRow
      else if u !in s.accounts then NoAccount
      else Done
    case Revoke(caller, u, key) =>
      if key !in s.permissions then NoPermissionRow
      else if u !in s.accounts then NoAccount
      else if key !in s.accounts[u].grants then NoSuchGrant
      else if !KeepsAnAdministrator(Holders(s), u, EffectiveAfter(s, op)) then LastHolder
      else Done
  }

  ghost function Serve(s: Store, op: Operation): Store {
    if Verdict(s, op) == Done then Written(s, op) else s
  }

  ghost function ServeAll(s: Store, ops: seq<Operation>): Store {
    if ops == [] then s else Serve(ServeAll(s, ops[..|ops| - 1]), ops[|ops| - 1])
  }

  // ---------- The quorum ----------

  /** A write to one account leaves every other holder a holder. */
  lemma OtherHoldersStay(s: Store, op: Operation, u: UserId)
    requires op.Register? || u != op.target
    ensures op.Register? && u in Holders(s) ==> u in Holders(Written(s, op))
    ensures !op.Register? ==> (u in Holders(s) <==> u in Holders(Written(s, op)))
  {
  }

  lemma {:induction false} TargetAfter(s: Store, op: Operation)
    requires op.ChangeRole? || op.Revoke?
    requires op.target in s.accounts && (op.ChangeRole? ==> op.role in s.roles)
    ensures op.target in Holders(Written(s, op)) <==> STAFF_MANAGE in EffectiveAfter(s, op)
  {
    assert InCatalog(STAFF_MANAGE);
  }

  /**
   * Judged on the holders as they are, the last-holder refusal comes exactly when the
   * write would leave nobody: the target of a role change or a revocation that passed
   * every other check.
   */
  lemma RefusedIffItWouldEmpty(s: Store, op: Operation)
    requires (op.ChangeRole? || op.Revoke?) && Holders(s) != {}
    requires Verdict(s, op) == Done || Verdict(s, op) == LastHolder
    ensures Verdict(s, op) == LastHolder <==> Holders(Written(s, op)) == {}
  {
    TargetAfter(s, op);
    var t := op.target;
    if u :| u in Holders(s) && u != t {
      OtherHoldersStay(s, op, u);
    }
    if u :| u in Holders(Written(s, op)) {
      if u != t { OtherHoldersStay(s, op, u); }
    }
  }

  lemma StepKeepsAHolder(s: Store, op: Operation)
    requires Holders(s) != {}
    ensures Holders(Serve(s, op)) != {}
  {
    if Verdict(s, op) == Done {
      if op.ChangeRole? || op.Revoke? {
        RefusedIffItWouldEmpty(s, op);
      } else {
        var u :| u in Holders(s);
        if op.Register? || u != op.target {
          OtherHoldersStay(s, op, u);
        } else {
          assert u in Holders(Written(s, op));
        }
      }
    }
  }

  /** One at a time, operations never leave the store without an account that can manage access. */
  lemma {:induction false} NeverRunsOutOfHolders(s: Store, ops: seq<Operation>)
    requires Holders(s) != {}
    ensures Holders(ServeAll(s, ops)) != {}
    decreases |ops|
  {
    if ops != [] {
      NeverRunsOutOfHolders(s, ops[..|ops| - 1]);
      StepKeepsAHolder(ServeAll(s, ops[..|ops| - 1]), ops[|ops| - 1]);
    }
  }

  // ---------- No escalation ----------

  /** What `u` does, and what is aimed at somebody else. */
  predicate ByItselfOrElsewhere(op: Operation, u: UserId) {
    op.Register? || op.caller == u || op.target != u
  }

  /** The two operations nobody may aim at themselves. */
  predicate NotAtItself(op: Operation) {
    op.ChangeRole? || op.Grant? ==> op.target != op.caller
  }

  lemma OwnWriteNeverRaises(s: Store, op: Operation, u: UserId)
    requires u in s.accounts && ByItselfOrElsewhere(op, u) && NotAtItself(op)
    ensures u in Written(s, op).accounts && Effective(Written(s, op), u) <= Effective(s, u)
  {
  }

  // ---------- What each operation means ----------

  /** One account differs, and roles and catalogue rows are as they were. */
  predicate OnlyAccount(s: Store, s': Store, u: UserId) {
    && s'.roles == s.roles && s'.permissions == s.permissions
    && u in s.accounts && s'.accounts.Keys == s.accounts.Keys
    && forall v :: v in s.accounts && v != u ==> s'.accounts[v] == s.accounts[v]
  }

  /** The grants other than `key` are there as they were, each with whoever made it. */
  ghost predicate OtherGrantsKept(before: Account, after: Account, key: Key) {
    forall k :: k != key ==> (k in after.grants <==> k in before.grants) && (k in before.grants ==> after.grants[k] == before.grants[k])
  }

  /** The grant is gone, nothing else moved, and the account can no longer do that unless its role lets it. */
  ghost predicate GrantTaken(s: Store, s': Store, u: UserId, key: Key) {
    && OnlyAccount(s, s', u) && key !in s'.accounts[u].grants && OtherGrantsKept(s.accounts[u], s'.accounts[u], key)
    && s'.accounts[u].role == s.accounts[u].role
    && forall k :: k in Effective(s', u) <==> k in Effective(s, u) && (k != key || k in RoleKeys(s, s.accounts[u].role))
  }

  /** The grant is there, made by whoever made it first, nothing else moved, and the account can do that if the code knows the key. */
  ghost predicate GrantGiven(s: Store, s': Store, u: UserId, key: Key, caller: UserId) {
    && OnlyAccount(s, s', u) && key in s'.accounts[u].grants && OtherGrantsKept(s.accounts[u], s'.accounts[u], key)
    && s'.accounts[u].grants[key] == (if key in s.accounts[u].grants then s.accounts[u].grants[key] else caller)
    && s'.accounts[u].role == s.accounts[u].role
    && forall k :: k in Effective(s', u) <==> k in Effective(s, u) || (k == key && InCatalog(k))
  }

  /** The role is the new one, every grant is as it was, and the account can do what that role and its grants let it. */
  ghost predicate RoleMoved(s: Store, s': Store, u: UserId, role: Role) {
    && OnlyAccount(s, s', u) && s'.accounts[u].role == role && s'.accounts[u].grants == s.accounts[u].grants
    && role in s.roles
    && forall k :: k in Effective(s', u) <==> InCatalog(k) && (k in s.roles[role] || k in s.accounts[u].grants)
  }

  // ---------- The service as an object ----------

  /** Whoever resolves the permission, judged by who would hold it afterwards: the guard on the holders. */
  lemma JudgedAlike(s: Store, holders: set<UserId>, target: UserId, effectiveAfter: set<Key>)
    requires forall u :: u in holders <==> STAFF_MANAGE in Effective(s, u)
    ensures var afterwards := holders - {target} + (if STAFF_MANAGE in effectiveAfter then {target} else {});
      KeepsAnAdministrator(Holders(s), target, effectiveAfter) <==> target !in holders || afterwards != {}
  {
    forall u ensures u in Holders(s) <==> u in holders { HoldersAreResolved(s, u); }
    var afterwards := holders - {target} + (if STAFF_MANAGE in effectiveAfter then {target} else {});
    if u :| u in Holders(s) && u != target { assert u in afterwards; }
    if u :| u in afterwards { assert u != target ==> u in Holders(s); }
  }

  class StaffService {
    const roles: map<Role, set<Key>>
    const permissions: set<Key>
    var accounts: map<UserId, Account>

    ghost function Model(): Store
      reads this
    {
      Store(roles, permissions, accounts)
    }

    method LockHolders() returns (holders: set<UserId>)
      ensures forall u :: u in holders <==> STAFF_MANAGE in Effective(Model(), u)
    {
      holders := set u | u in accounts &&
                         ((accounts[u].role in roles && STAFF_MANAGE in roles[accounts[u].role]) ||
                          STAFF_MANAGE in accounts[u].grants);
      assert InCatalog(STAFF_MANAGE);
    }

    method AssertStoreKeepsAnAdministrator(holders: set<UserId>, target: UserId, effectiveAfter: set<Key>)
      returns (keeps: bool)
      ensures var afterwards := holders - {target} + (if STAFF_MANAGE in effectiveAfter then {target} else {});
        keeps <==> target !in holders || afterwards != {}
    {
      if STAFF_MANAGE in effectiveAfter {
        return true;
      }
      if target !in holders {
        return true;
      }
      assert forall u :: u in holders && u != target <==> u in holders - {target};
      return exists u :: u in holders && u != target;
    }

    method ChangeRole(caller: UserId, target: UserId, role: Role) returns (r: Result)
      modifies this
      ensures r == Verdict(old(Model()), Operation.ChangeRole(caller, target, role))
      ensures Model() == Serve(old(Model()), Operation.ChangeRole(caller, target, role))
      ensures r == OnYourself <==> target == caller
      ensures r == UnknownRole <==> target != caller && role !in roles
      ensures r == NoAccount <==> target != caller && role in roles && target !in old(accounts)
      ensures r in {OnYourself, UnknownRole, NoAccount, LastHolder, Done}
      ensures if r == Done then RoleMoved(old(Model()), Model(), target, role) else accounts == old(accounts)
    {
      if target == caller {
        return OnYourself;
      }
      if role !in roles {
        return UnknownRole;
      }
      var holders := LockHolders();
      if target !in accounts {
        return NoAccount;
      }
      var account := accounts[target];
      var keeps := AssertStoreKeepsAnAdministrator(holders, target, Resolved(roles[role], account.grants.Keys));
      JudgedAlike(Model(), holders, target, Resolved(roles[role], account.grants.Keys));
      if !keeps {
        return LastHolder;
      }
      accounts := accounts[target := account.(role := role)];
      return Done;
    }

    /** The upsert updates nothing when the grant is there. */
    method Grant(caller: UserId, target: UserId, key: Key) returns (r: Result)
      modifies this
      ensures r == Verdict(old(Model()), Operation.Grant(caller, target, key))
      ensures Model() == Serve(old(Model()), Operation.Grant(caller, target, key))
      ensures r == OnYourself <==> target == caller
      ensures r == NoPermissionRow <==> target != caller && key !in permissions
      ensures r == NoAccount <==> target != caller && key in permissions && target !in old(accounts)
      ensures r in {OnYourself, NoPermissionRow, NoAccount, Done}
      ensures if r == Done then GrantGiven(old(Model()), Model(), target, key, caller) else accounts == old(accounts)
    {
      if target == caller {
        return OnYourself;
      }
      if key !in permissions {
        return NoPermissionRow;
      }
      if target !in accounts {
        return NoAccount;
      }
      var account := accounts[target];
      if key !in account.grants {
        accounts := accounts[target := account.(grants := account.grants[key := caller])];
      }
      return Done;
    }

    method Revoke(caller: UserId, target: UserId, key: Key) returns (r: Result)
      modifies this
      ensures r == Verdict(old(Model()), Operation.Revoke(caller, target, key))
      ensures Model() == Serve(old(Model()), Operation.Revoke(caller, target, key))
      ensures r == NoPermissionRow <==> key !in permissions
      ensures r == NoAccount <==> key in permissions && target !in old(accounts)
      ensures r == NoSuchGrant <==> key in permissions && target in old(accounts) && key !in old(accounts)[target].grants
      ensures r in {NoPermissionRow, NoAccount, NoSuchGrant, LastHolder, Done}
      ensures if r == Done then GrantTaken(old(Model()), Model(), target, key) else accounts == old(accounts)
    {
      if key !in permissions {
        return NoPermissionRow;
      }
      var holders := LockHolders();
      if target !in accounts {
        return NoAccount;
      }
      var account := accounts[target];
      if key !in account.grants {
        return NoSuchGrant;
      }
      var roleKeys := if account.role in roles then roles[account.role] else {};
      var keeps := AssertStoreKeepsAnAdministrator(holders, target, Resolved(roleKeys, account.grants.Keys - {key}));
      JudgedAlike(Model(), holders, target, Resolved(roleKeys, account.grants.Keys - {key}));
      if !keeps {
        return LastHolder;
      }
      accounts := accounts[target := account.(grants := account.grants - {key})];
      return Done;
    }
  }
}
