/**
 * build_user_cache: every role string of every domain block and then of every
 * tree block is handed to the user cache's update, in block order.
 */
module Cache {
  import opened Options
  import opened Blocks
  import opened Roles

  /**
   * The user cache, seen through its update calls only: `updates` is the log of
   * the role strings handed to `update`, oldest first. How the cache parses a
   * string and which user `get` returns for it is the `lookup` parameter of the
   * transforms.
   */
  class UserCache {
    var updates: seq<string>

    constructor ()
      ensures updates == []
    {
      updates := [];
    }

    method Update(ustring: string)
      modifies this
      ensures updates == old(updates) + [ustring]
    {
      updates := updates + [ustring];
    }
  }

  /**
   * The role strings of one block: for each configured role the block carries, in
   * the configured order, the strings that role lists.
   */
  function BlockRoleStrings(b: Block, roles: seq<string>): seq<string> {
    if roles == [] then []
    else
      var role := roles[|roles| - 1];
      BlockRoleStrings(b, roles[..|roles| - 1]) + (if role in b then Elements(b[role]) else [])
  }

  /** The role strings of a list of blocks, block by block. */
  function CacheStrings(bs: seq<Block>, roles: seq<string>): seq<string> {
    FlatMapBlocks(bs, b => BlockRoleStrings(b, roles))
  }

  /**
   * build_user_cache: a fresh cache updated with every role string of the domain
   * blocks, then with every role string of the tree blocks.
   */
  method BuildUserCache(domainsData: seq<Block>, treesData: seq<Block>, roles: seq<string>)
    returns (uc: UserCache)
    ensures fresh(uc)
    ensures uc.updates == CacheStrings(domainsData, roles) + CacheStrings(treesData, roles)
  {
    uc := new UserCache();
    UpdateBlocks(uc, domainsData, roles);
    assert uc.updates == CacheStrings(domainsData, roles);
    UpdateBlocks(uc, treesData, roles);
  }

  /** One of the two block loops of build_user_cache. */
  method UpdateBlocks(uc: UserCache, bs: seq<Block>, roles: seq<string>)
    modifies uc
    ensures uc.updates == old(uc.updates) + CacheStrings(bs, roles)
  {
    var i := 0;
    assert bs[..0] == [];
    while i < |bs|
      invariant 0 <= i <= |bs|
      invariant uc.updates == old(uc.updates) + CacheStrings(bs[..i], roles)
    {
      assert bs[..i + 1][..i] == bs[..i];
      UpdateBlock(uc, bs[i], roles);
      i := i + 1;
    }
    assert bs[..i] == bs;
  }

  /** The loop `for role in ROLES & set(data.keys())` of one block. */
  method UpdateBlock(uc: UserCache, b: Block, roles: seq<string>)
    modifies uc
    ensures uc.updates == old(uc.updates) + BlockRoleStrings(b, roles)
  {
    ghost var start := uc.updates;
    var i := 0;
    assert roles[..0] == [];
    while i < |roles|
      invariant 0 <= i <= |roles|
      invariant uc.updates == start + BlockRoleStrings(b, roles[..i])
    {
      UpdateBlockStep(b, roles, i);
      if roles[i] in b {
        UpdateStrings(uc, Elements(b[roles[i]]));
      }
      i := i + 1;
    }
    assert roles[..i] == roles;
  }

  /** The loop `for ustring in data[role]`: one update per role string, in order. */
  method UpdateStrings(uc: UserCache, ustrings: seq<string>)
    modifies uc
    ensures uc.updates == old(uc.updates) + ustrings
  {
    var j := 0;
    while j < |ustrings|
      invariant 0 <= j <= |ustrings|
      invariant uc.updates == old(uc.updates) + ustrings[..j]
    {
      assert ustrings[..j + 1] == ustrings[..j] + [ustrings[j]];
      uc.Update(ustrings[j]);
      j := j + 1;
    }
    assert ustrings[..j] == ustrings;
  }

  /** One turn of the role loop adds the strings of the role, if the block carries it. */
  lemma UpdateBlockStep(b: Block, roles: seq<string>, i: nat)
    requires i < |roles|
    ensures BlockRoleStrings(b, roles[..i + 1]) ==
      BlockRoleStrings(b, roles[..i]) + (if roles[i] in b then Elements(b[roles[i]]) else [])
  {
    assert roles[..i + 1][..i] == roles[..i];
  }

  /** Whether one of the configured roles that block `b` carries lists `s`. */
  predicate ListedIn(b: Block, roles: seq<string>, s: string) {
    exists role :: role in roles && role in b && s in Elements(b[role])
  }

  /** A block's role strings are exactly the strings its configured role fields list. */
  lemma {:induction false} BlockRoleStringsMembers(b: Block, roles: seq<string>, s: string)
    ensures s in BlockRoleStrings(b, roles) <==> ListedIn(b, roles, s)
  {
    if roles != [] {
      var init := roles[..|roles| - 1];
      var role := roles[|roles| - 1];
      BlockRoleStringsMembers(b, init, s);
      assert roles == init + [role];
      if ListedIn(b, roles, s) && !(role in b && s in Elements(b[role])) {
        var r :| r in roles && r in b && s in Elements(b[r]);
        assert r in init;
      }
    }
  }

  /**
   * The cache is updated with exactly the role strings of the blocks: s is among
   * them iff it is a role string of some block.
   */
  lemma CacheStringsMembers(bs: seq<Block>, roles: seq<string>, s: string)
    ensures s in CacheStrings(bs, roles) <==> exists i :: 0 <= i < |bs| && s in BlockRoleStrings(bs[i], roles)
  {
    FlatMapBlocksMembers(bs, b => BlockRoleStrings(b, roles), s);
  }

  /**
   * Every user of a role-user pair of block i was looked up from a string the
   * cache was updated with.
   */
  lemma PairFromCachedString<U>(bs: seq<Block>, roles: seq<string>, i: nat, owner: Owner,
                                lookup: string -> Option<U>, k: RoleKey, u: U)
    requires i < |bs|
    requires (k, u) in RoleUsers(bs[i], PresentRoles(roles, bs[i]), owner, lookup)
    ensures exists s :: s in CacheStrings(bs, roles) && lookup(s) == Some(u)
  {
    var b := bs[i];
    RoleUsersMembers(b, PresentRoles(roles, b), owner, lookup, k, u);
    var j :| 0 <= j < |Elements(b[k.role])| && lookup(Elements(b[k.role])[j]) == Some(u);
    var s := Elements(b[k.role])[j];
    BlockRoleStringsMembers(b, roles, s);
    CacheStringsMembers(bs, roles, s);
  }
}
