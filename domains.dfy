/**
 * transform_domains: domain blocks become the Domain and SubDomain lists, their
 * role records and their role-user pairs. A block with a PARENT field describes a
 * subdomain, any other block a domain.
 */
module Domains {
  import opened Options
  import opened Blocks
  import opened Names
  import opened Roles

  datatype Domain = Domain(name: string)
  datatype SubDomain = SubDomain(name: string, domainName: string)

  /** Both closures read DOMAIN as one string: a missing key or a list fails in the source. */
  predicate DomainBlock(b: Block) {
    DomainField in b && b[DomainField].Text?
  }

  predicate DomainBlocks(bs: seq<Block>) {
    forall b :: b in bs ==> DomainBlock(b)
  }

  function DomainName(b: Block): string
    requires DomainBlock(b)
  {
    b[DomainField].text
  }

  /** The subdomain a PARENT block describes: its DOMAIN value split by parse_name. */
  function SubDomainOf(b: Block): SubDomain
    requires DomainBlock(b)
  {
    var (dname, sname) := ParseName(DomainName(b));
    SubDomain(sname, dname)
  }

  /** What the roles of a block belong to: its subdomain if it has a PARENT, else its domain. */
  function OwnerOf(b: Block): Owner
    requires DomainBlock(b)
  {
    if ParentField in b then
      var s := SubDomainOf(b);
      SubDomainOwner(s.name, s.domainName)
    else DomainOwner(DomainName(b))
  }

  /** The domain a block without PARENT adds; a PARENT block adds none. */
  function DomainEntry(b: Block): seq<Domain>
    requires DomainBlock(b)
  {
    if ParentField in b then [] else [Domain(DomainName(b))]
  }

  /** The subdomain a PARENT block adds; a block without PARENT adds none. */
  function SubdomainEntry(b: Block): seq<SubDomain>
    requires DomainBlock(b)
  {
    if ParentField in b then [SubDomainOf(b)] else []
  }

  /** The role records of a block, when it is on the side `parent` selects. */
  function BlockRecords(b: Block, roles: seq<string>, parent: bool): seq<Role>
    requires DomainBlock(b)
  {
    if (ParentField in b) == parent then RoleRecords(PresentRoles(roles, b), OwnerOf(b)) else []
  }

  /** The role-user pairs of a block, when it is on the side `parent` selects. */
  function BlockPairs<U>(b: Block, roles: seq<string>, lookup: string -> Option<U>, parent: bool): seq<(RoleKey, U)>
    requires DomainBlock(b)
  {
    if (ParentField in b) == parent then RoleUsers(b, PresentRoles(roles, b), OwnerOf(b), lookup) else []
  }

  /** The domains of the blocks without PARENT, in input order. */
  function DomainEntries(bs: seq<Block>): seq<Domain>
    requires DomainBlocks(bs)
  {
    FlatMapBlocks(bs, DomainEntry)
  }

  /** The subdomains of the blocks with PARENT, in input order. */
  function SubdomainEntries(bs: seq<Block>): seq<SubDomain>
    requires DomainBlocks(bs)
  {
    FlatMapBlocks(bs, SubdomainEntry)
  }

  /** The role records of the subdomain blocks (`parent`) or of the domain blocks (not `parent`). */
  function BlockRoles(bs: seq<Block>, roles: seq<string>, parent: bool): seq<Role>
    requires DomainBlocks(bs)
  {
    FlatMapBlocks(bs, b requires DomainBlock(b) => BlockRecords(b, roles, parent))
  }

  /** The role-user pairs of the subdomain blocks (`parent`) or of the domain blocks. */
  function BlockRoleUsers<U>(bs: seq<Block>, roles: seq<string>, lookup: string -> Option<U>, parent: bool): seq<(RoleKey, U)>
    requires DomainBlocks(bs)
  {
    FlatMapBlocks(bs, b requires DomainBlock(b) => BlockPairs(b, roles, lookup, parent))
  }

  /** One "Uncategorized" subdomain per domain, in the order of the domains. */
  function Uncategorized(ds: seq<Domain>): seq<SubDomain> {
    if ds == [] then []
    else Uncategorized(ds[..|ds| - 1]) + [SubDomain(NoName, ds[|ds| - 1].name)]
  }

  /** The closure `_trans_domain`: the block's domain, its role records and role-user pairs. */
  method TransDomain<U>(b: Block, roles: seq<string>, lookup: string -> Option<U>)
    returns (domain: Domain, records: seq<Role>, users: seq<(RoleKey, U)>)
    requires DomainBlock(b) && ParentField !in b
    ensures domain == Domain(b[DomainField].text)
    ensures OwnerOf(b) == DomainOwner(domain.name)
    ensures records == RoleRecords(PresentRoles(roles, b), OwnerOf(b))
    ensures users == RoleUsers(b, PresentRoles(roles, b), OwnerOf(b), lookup)
  {
    var name := b[DomainField].text;
    domain := Domain(name);
    records, users := TransRoles(b, roles, DomainOwner(name), lookup);
  }

  /**
   * The closure `_trans_subdomain`: the subdomain named by parse_name of DOMAIN,
   * its role records and role-user pairs.
   */
  method TransSubdomain<U>(b: Block, roles: seq<string>, lookup: string -> Option<U>)
    returns (subdomain: SubDomain, records: seq<Role>, users: seq<(RoleKey, U)>)
    requires DomainBlock(b) && ParentField in b
    ensures (subdomain.domainName, subdomain.name) == ParseName(b[DomainField].text)
    ensures OwnerOf(b) == SubDomainOwner(subdomain.name, subdomain.domainName)
    ensures records == RoleRecords(PresentRoles(roles, b), OwnerOf(b))
    ensures users == RoleUsers(b, PresentRoles(roles, b), OwnerOf(b), lookup)
  {
    var (dname, sname) := ParseName(b[DomainField].text);
    subdomain := SubDomain(sname, dname);
    records, users := TransRoles(b, roles, SubDomainOwner(sname, dname), lookup);
  }

  /**
   * transform_domains. The domains are "Uncategorized" followed by the domain
   * blocks' domains; the subdomains are the PARENT blocks' subdomains followed by
   * an "Uncategorized" subdomain of every domain.
   */
  method TransformDomains<U>(bs: seq<Block>, roles: seq<string>, lookup: string -> Option<U>)
    returns (domains: seq<Domain>, subdomains: seq<SubDomain>,
             domainRoles: seq<Role>, subdomainRoles: seq<Role>,
             domainRoleUsers: seq<(RoleKey, U)>, subdomainRoleUsers: seq<(RoleKey, U)>)
    requires DomainBlocks(bs)
    ensures domains == [Domain(NoName)] + DomainEntries(bs)
    ensures subdomains == SubdomainEntries(bs) + Uncategorized(domains)
    ensures domainRoles == BlockRoles(bs, roles, false)
    ensures subdomainRoles == BlockRoles(bs, roles, true)
    ensures domainRoleUsers == BlockRoleUsers(bs, roles, lookup, false)
    ensures subdomainRoleUsers == BlockRoleUsers(bs, roles, lookup, true)
    ensures forall d :: d in domains ==> SubDomain(NoName, d.name) in subdomains
  {
    domains, subdomains := [Domain(NoName)], [];
    domainRoles, subdomainRoles := [], [];
    domainRoleUsers, subdomainRoleUsers := [], [];
    var i := 0;
    assert bs[..0] == [];
    while i < |bs|
      invariant 0 <= i <= |bs|
      invariant domains == [Domain(NoName)] + DomainEntries(bs[..i])
      invariant subdomains == SubdomainEntries(bs[..i])
      invariant domainRoles == BlockRoles(bs[..i], roles, false)
      invariant subdomainRoles == BlockRoles(bs[..i], roles, true)
      invariant domainRoleUsers == BlockRoleUsers(bs[..i], roles, lookup, false)
      invariant subdomainRoleUsers == BlockRoleUsers(bs[..i], roles, lookup, true)
    {
      var b := bs[i];
      TransformDomainsStep(bs, i, roles, lookup);
      if ParentField in b {
        var subdomain, records, users := TransSubdomain(b, roles, lookup);
        subdomains := subdomains + [subdomain];
        subdomainRoles := subdomainRoles + records;
        subdomainRoleUsers := subdomainRoleUsers + users;
      } else {
        var domain, records, users := TransDomain(b, roles, lookup);
        domains := domains + [domain];
        domainRoles := domainRoles + records;
        domainRoleUsers := domainRoleUsers + users;
      }
      i := i + 1;
    }
    assert bs[..i] == bs;
    var defaults := UncategorizedSubdomains(domains);
    subdomains := subdomains + defaults;
  }

  /**
   * The loop `for domain in domains`: an "Uncategorized" subdomain for every
   * domain, so that every domain has at least that subdomain.
   */
  method UncategorizedSubdomains(domains: seq<Domain>) returns (subdomains: seq<SubDomain>)
    ensures subdomains == Uncategorized(domains)
    ensures forall d :: d in domains ==> SubDomain(NoName, d.name) in subdomains
  {
    subdomains := [];
    var j := 0;
    while j < |domains|
      invariant 0 <= j <= |domains|
      invariant subdomains == Uncategorized(domains[..j])
    {
      assert domains[..j + 1][..j] == domains[..j];
      subdomains := subdomains + [SubDomain(NoName, domains[j].name)];
      j := j + 1;
    }
    assert domains[..j] == domains;
    UncategorizedAt(domains);
    forall d | d in domains ensures SubDomain(NoName, d.name) in subdomains {
      var k :| 0 <= k < |domains| && domains[k] == d;
      assert subdomains[k] == SubDomain(NoName, d.name);
    }
  }

  /** One turn of the block loop extends each list by the block's own contribution. */
  lemma TransformDomainsStep<U>(bs: seq<Block>, i: nat, roles: seq<string>, lookup: string -> Option<U>)
    requires i < |bs| && DomainBlocks(bs)
    ensures var (before, after, b) := (bs[..i], bs[..i + 1], bs[i]);
      && DomainEntries(after) == DomainEntries(before) + (if ParentField in b then [] else [Domain(DomainName(b))])
      && SubdomainEntries(after) == SubdomainEntries(before) + (if ParentField in b then [SubDomainOf(b)] else [])
      && var records := RoleRecords(PresentRoles(roles, b), OwnerOf(b));
      && var users := RoleUsers(b, PresentRoles(roles, b), OwnerOf(b), lookup);
      && BlockRoles(after, roles, false) == BlockRoles(before, roles, false) + (if ParentField in b then [] else records)
      && BlockRoles(after, roles, true) == BlockRoles(before, roles, true) + (if ParentField in b then records else [])
      && BlockRoleUsers(after, roles, lookup, false) == BlockRoleUsers(before, roles, lookup, false) + (if ParentField in b then [] else users)
      && BlockRoleUsers(after, roles, lookup, true) == BlockRoleUsers(before, roles, lookup, true) + (if ParentField in b then users else [])
  {
    assert bs[..i + 1][..i] == bs[..i];
  }

  /** The k-th "Uncategorized" subdomain belongs to the k-th domain. */
  lemma {:induction false} UncategorizedAt(ds: seq<Domain>)
    ensures |Uncategorized(ds)| == |ds|
    ensures forall k :: 0 <= k < |ds| ==> Uncategorized(ds)[k] == SubDomain(NoName, ds[k].name)
  {
    if ds != [] {
      UncategorizedAt(ds[..|ds| - 1]);
    }
  }

  /** A domain is listed iff some block without PARENT names it. */
  lemma DomainEntriesMembers(bs: seq<Block>, d: Domain)
    requires DomainBlocks(bs)
    ensures d in DomainEntries(bs) <==>
      exists i :: 0 <= i < |bs| && ParentField !in bs[i] && d == Domain(DomainName(bs[i]))
  {
    FlatMapBlocksMembers(bs, DomainEntry, d);
  }

  /** A subdomain is listed before the defaults iff some PARENT block describes it. */
  lemma SubdomainEntriesMembers(bs: seq<Block>, s: SubDomain)
    requires DomainBlocks(bs)
    ensures s in SubdomainEntries(bs) <==>
      exists i :: 0 <= i < |bs| && ParentField in bs[i] && s == SubDomainOf(bs[i])
  {
    FlatMapBlocksMembers(bs, SubdomainEntry, s);
  }

  /** Input order is kept: the entries of two runs of blocks are those of each, concatenated. */
  lemma EntriesAppend(a: seq<Block>, c: seq<Block>)
    requires DomainBlocks(a) && DomainBlocks(c)
    ensures DomainBlocks(a + c)
    ensures DomainEntries(a + c) == DomainEntries(a) + DomainEntries(c)
    ensures SubdomainEntries(a + c) == SubdomainEntries(a) + SubdomainEntries(c)
  {
    FlatMapBlocksAppend(a, c, DomainEntry);
    FlatMapBlocksAppend(a, c, SubdomainEntry);
  }

  /** Every block is either a domain or a subdomain, never both. */
  lemma {:induction false} EntriesPartition(bs: seq<Block>)
    requires DomainBlocks(bs)
    ensures |DomainEntries(bs)| + |SubdomainEntries(bs)| == |bs|
  {
    if bs != [] {
      var init := bs[..|bs| - 1];
      EntriesPartition(init);
      FlatMapBlocksStep(bs, |bs| - 1, DomainEntry);
      FlatMapBlocksStep(bs, |bs| - 1, SubdomainEntry);
      assert bs[..|bs| - 1 + 1] == bs;
    }
  }

  /**
   * Whether `r` is the record of a configured role that block `b`, on the side
   * `parent` selects, carries: owned by the block's target and named after both.
   */
  predicate RoleOfBlock(b: Block, roles: seq<string>, parent: bool, r: Role)
    requires DomainBlock(b)
  {
    && (ParentField in b) == parent && r.key.owner == OwnerOf(b)
    && r.key.role in roles && r.key.role in b && r.name == RoleKeyName(r.key)
  }

  /** A role record of either side is listed iff it is the record of a role of a block of that side. */
  lemma BlockRolesMembers(bs: seq<Block>, roles: seq<string>, parent: bool, r: Role)
    requires DomainBlocks(bs)
    ensures r in BlockRoles(bs, roles, parent) <==> exists i :: 0 <= i < |bs| && RoleOfBlock(bs[i], roles, parent, r)
  {
    var f := b requires DomainBlock(b) => BlockRecords(b, roles, parent);
    FlatMapBlocksMembers(bs, f, r);
    forall i | 0 <= i < |bs| ensures r in f(bs[i]) <==> RoleOfBlock(bs[i], roles, parent, r) {
      RoleRecordsMembers(PresentRoles(roles, bs[i]), OwnerOf(bs[i]), r);
    }
  }
}
