/**
 * Role records and role-user pairs, the part shared by the domain, subdomain and
 * tree transforms: for every role field a block carries, one role record, and one
 * (role key, user) pair per role string the user cache resolves.
 */
module Roles {
  import opened Options
  import opened Blocks
  import opened Names

  /** What a role belongs to, with the natural key fields the role dict carries. */
  datatype Owner =
    | DomainOwner(domainName: string)
    | SubDomainOwner(subdomainName: string, domainName: string)
    | TreeOwner(gitpath: string)

  /** The role dict used as the key of a role-user pair: the role code and its owner. */
  datatype RoleKey = RoleKey(role: string, owner: Owner)

  /** A role record: the key fields plus the role's display name. */
  datatype Role = Role(key: RoleKey, name: string)

  /** The display name of a role: rolename for domains and trees, subrolename for subdomains. */
  function RoleKeyName(k: RoleKey): string {
    match k.owner
    case DomainOwner(d) => RoleName(k.role, d)
    case SubDomainOwner(s, d) => SubRoleName(k.role, d, s)
    case TreeOwner(p) => RoleName(k.role, p)
  }

  /** One role record per role in `present`, in order. */
  function RoleRecords(present: seq<string>, owner: Owner): (r: seq<Role>)
    ensures |r| == |present|
  {
    if present == [] then []
    else
      var k := RoleKey(present[|present| - 1], owner);
      RoleRecords(present[..|present| - 1], owner) + [Role(k, RoleKeyName(k))]
  }

  /** The (key, user) pairs for the role strings `lookup` resolves; the others are skipped. */
  function Resolve<U>(key: RoleKey, ustrings: seq<string>, lookup: string -> Option<U>): (r: seq<(RoleKey, U)>)
    ensures |r| <= |ustrings|
    ensures forall i :: 0 <= i < |r| ==> r[i].0 == key
  {
    if ustrings == [] then []
    else
      var found := lookup(ustrings[|ustrings| - 1]);
      Resolve(key, ustrings[..|ustrings| - 1], lookup) + (if found.Some? then [(key, found.value)] else [])
  }

  /**
   * The role-user pairs of one block, role by role in the order of `present`:
   * every pair is keyed by this owner and one of the present roles.
   */
  function RoleUsers<U>(b: Block, present: seq<string>, owner: Owner, lookup: string -> Option<U>): (r: seq<(RoleKey, U)>)
    requires forall r :: r in present ==> r in b
    ensures forall i :: 0 <= i < |r| ==> r[i].0.owner == owner && r[i].0.role in present
  {
    if present == [] then []
    else
      var role := present[|present| - 1];
      RoleUsers(b, present[..|present| - 1], owner, lookup) + Resolve(RoleKey(role, owner), Elements(b[role]), lookup)
  }

  /**
   * The role loops of one block: `for role in ROLES & set(data.keys())`, a role
   * record each, then `for ustring in data[role]` a pair per resolved user.
   */
  method TransRoles<U>(b: Block, roles: seq<string>, owner: Owner, lookup: string -> Option<U>)
    returns (records: seq<Role>, users: seq<(RoleKey, U)>)
    ensures records == RoleRecords(PresentRoles(roles, b), owner)
    ensures users == RoleUsers(b, PresentRoles(roles, b), owner, lookup)
  {
    records, users := [], [];
    var i := 0;
    assert roles[..0] == [];
    while i < |roles|
      invariant 0 <= i <= |roles|
      invariant records == RoleRecords(PresentRoles(roles[..i], b), owner)
      invariant users == RoleUsers(b, PresentRoles(roles[..i], b), owner, lookup)
    {
      var role := roles[i];
      TransRolesStep(b, roles, i, owner, lookup);
      if role in b {
        var key := RoleKey(role, owner);
        records := records + [Role(key, RoleKeyName(key))];
        var found := ResolveUsers(key, Elements(b[role]), lookup);
        users := users + found;
      }
      i := i + 1;
    }
    assert roles[..i] == roles;
  }

  /** The loop `for ustring in data[role]`: a pair for each role string `uc.get` resolves. */
  method ResolveUsers<U>(key: RoleKey, ustrings: seq<string>, lookup: string -> Option<U>)
    returns (pairs: seq<(RoleKey, U)>)
    ensures pairs == Resolve(key, ustrings, lookup)
  {
    pairs := [];
    var j := 0;
    assert ustrings[..0] == [];
    while j < |ustrings|
      invariant 0 <= j <= |ustrings|
      invariant pairs == Resolve(key, ustrings[..j], lookup)
    {
      ResolveStep(key, ustrings, j, lookup);
      var user := lookup(ustrings[j]);
      if user.Some? {
        pairs := pairs + [(key, user.value)];
      }
      j := j + 1;
    }
    assert ustrings[..j] == ustrings;
  }

  /** One turn of the role loop extends the records and pairs of the roles visited so far. */
  lemma TransRolesStep<U>(b: Block, roles: seq<string>, i: nat, owner: Owner, lookup: string -> Option<U>)
    requires i < |roles|
    ensures var (before, after) := (PresentRoles(roles[..i], b), PresentRoles(roles[..i + 1], b));
      var key := RoleKey(roles[i], owner);
      if roles[i] in b then
        && RoleRecords(after, owner) == RoleRecords(before, owner) + [Role(key, RoleKeyName(key))]
        && RoleUsers(b, after, owner, lookup) == RoleUsers(b, before, owner, lookup) + Resolve(key, Elements(b[roles[i]]), lookup)
      else
        after == before
  {
    var present := PresentRoles(roles[..i], b);
    PresentRolesStep(roles, i, b);
    if roles[i] in b {
      RoleRecordsSnoc(present, roles[i], owner);
      RoleUsersSnoc(b, present, roles[i], owner, lookup);
    }
  }

  lemma PresentRolesStep(roles: seq<string>, i: nat, b: Block)
    requires i < |roles|
    ensures PresentRoles(roles[..i + 1], b)
         == PresentRoles(roles[..i], b) + (if roles[i] in b then [roles[i]] else [])
  {
    assert roles[..i + 1][..i] == roles[..i];
  }

  lemma ResolveStep<U>(key: RoleKey, ustrings: seq<string>, j: nat, lookup: string -> Option<U>)
    requires j < |ustrings|
    ensures Resolve(key, ustrings[..j + 1], lookup) == Resolve(key, ustrings[..j], lookup)
      + (if lookup(ustrings[j]).Some? then [(key, lookup(ustrings[j]).value)] else [])
  {
    assert ustrings[..j + 1][..j] == ustrings[..j];
  }

  lemma RoleRecordsSnoc(present: seq<string>, role: string, owner: Owner)
    ensures RoleRecords(present + [role], owner)
         == RoleRecords(present, owner) + [Role(RoleKey(role, owner), RoleKeyName(RoleKey(role, owner)))]
  {
    assert (present + [role])[..|present|] == present;
  }

  lemma RoleUsersSnoc<U>(b: Block, present: seq<string>, role: string, owner: Owner, lookup: string -> Option<U>)
    requires forall r :: r in present ==> r in b
    requires role in b
    ensures RoleUsers(b, present + [role], owner, lookup)
         == RoleUsers(b, present, owner, lookup) + Resolve(RoleKey(role, owner), Elements(b[role]), lookup)
  {
    assert (present + [role])[..|present|] == present;
  }

  /**
   * Each role of the configured set that the block carries gets exactly one role
   * record, owned by the block's target and named after the role and the target.
   */
  lemma {:induction false} RoleRecordsExactlyOnce(roles: seq<string>, b: Block, owner: Owner)
    requires Distinct(roles)
    ensures var rs := RoleRecords(PresentRoles(roles, b), owner);
      && (forall role :: (exists i :: 0 <= i < |rs| && rs[i].key.role == role) <==> role in roles && role in b)
      && (forall i, j :: 0 <= i < j < |rs| ==> rs[i].key.role != rs[j].key.role)
      && (forall i :: 0 <= i < |rs| ==> rs[i].key.owner == owner && rs[i].name == RoleKeyName(rs[i].key))
  {
    var present := PresentRoles(roles, b);
    var rs := RoleRecords(present, owner);
    PresentRolesDistinct(roles, b);
    RoleRecordsAt(present, owner);
    forall role | role in roles && role in b
      ensures exists i :: 0 <= i < |rs| && rs[i].key.role == role
    {
      var i :| 0 <= i < |present| && present[i] == role;
      assert rs[i].key.role == role;
    }
    forall i | 0 <= i < |rs|
      ensures rs[i].key.role in roles && rs[i].key.role in b
    {
      assert rs[i].key.role == present[i] && present[i] in present;
    }
  }

  /** The i-th role record is that of the i-th present role. */
  lemma {:induction false} RoleRecordsAt(present: seq<string>, owner: Owner)
    ensures forall i :: 0 <= i < |present| ==>
      RoleRecords(present, owner)[i] == Role(RoleKey(present[i], owner), RoleKeyName(RoleKey(present[i], owner)))
  {
    if present != [] {
      var init := present[..|present| - 1];
      RoleRecordsAt(init, owner);
    }
  }

  /** A role record is listed iff it is the record of a present role on this owner. */
  lemma RoleRecordsMembers(present: seq<string>, owner: Owner, r: Role)
    ensures r in RoleRecords(present, owner) <==>
      r.key.owner == owner && r.key.role in present && r.name == RoleKeyName(r.key)
  {
    RoleRecordsAt(present, owner);
    if r.key.owner == owner && r.key.role in present && r.name == RoleKeyName(r.key) {
      var i :| 0 <= i < |present| && present[i] == r.key.role;
      assert RoleRecords(present, owner)[i] == r;
    }
  }

  /**
   * A pair is emitted exactly for the role strings the lookup resolves: (k, u) is
   * among the pairs iff k is the role's key and some role string resolves to u.
   */
  lemma {:induction false} ResolveMembers<U>(key: RoleKey, ustrings: seq<string>, lookup: string -> Option<U>, k: RoleKey, u: U)
    ensures (k, u) in Resolve(key, ustrings, lookup) <==>
      k == key && exists j :: 0 <= j < |ustrings| && lookup(ustrings[j]) == Some(u)
  {
    if ustrings != [] {
      var init := ustrings[..|ustrings| - 1];
      ResolveMembers(key, init, lookup, k, u);
      if k == key && exists j :: 0 <= j < |ustrings| && lookup(ustrings[j]) == Some(u) {
        var j :| 0 <= j < |ustrings| && lookup(ustrings[j]) == Some(u);
        if j < |init| {
          assert init[j] == ustrings[j];
        }
      }
    }
  }

  /** Unresolved strings are skipped silently: one pair per role string iff every string resolves. */
  lemma {:induction false} ResolveAll<U>(key: RoleKey, ustrings: seq<string>, lookup: string -> Option<U>)
    ensures |Resolve(key, ustrings, lookup)| == |ustrings| <==> forall j :: 0 <= j < |ustrings| ==> lookup(ustrings[j]).Some?
    ensures |Resolve(key, ustrings, lookup)| == 0 <==> forall j :: 0 <= j < |ustrings| ==> lookup(ustrings[j]).None?
  {
    if ustrings != [] {
      var init := ustrings[..|ustrings| - 1];
      ResolveAll(key, init, lookup);
      assert forall j :: 0 <= j < |init| ==> init[j] == ustrings[j];
    }
  }

  /**
   * The role-user pairs of a block: (k, u) is one of them iff k is the key of a
   * present role on this owner and one of that role's strings resolves to u.
   */
  lemma {:induction false} RoleUsersMembers<U>(b: Block, present: seq<string>, owner: Owner, lookup: string -> Option<U>, k: RoleKey, u: U)
    requires forall r :: r in present ==> r in b
    ensures (k, u) in RoleUsers(b, present, owner, lookup) <==>
      && k.owner == owner && k.role in present
      && exists j :: 0 <= j < |Elements(b[k.role])| && lookup(Elements(b[k.role])[j]) == Some(u)
  {
    if present != [] {
      var init := present[..|present| - 1];
      var role := present[|present| - 1];
      RoleUsersMembers(b, init, owner, lookup, k, u);
      ResolveMembers(RoleKey(role, owner), Elements(b[role]), lookup, k, u);
      assert present == init + [role];
    }
  }
}
