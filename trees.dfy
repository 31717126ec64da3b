/**
 * transform_trees: tree blocks become GitTree records keyed by their path, the
 * tree-license pairs, and the tree role records and role-user pairs.
 */
module Trees {
  import opened Options
  import opened Text
  import opened Blocks
  import opened Names
  import opened Roles

  /** A GitTree record: its path and the subdomain (with its domain) it belongs to. */
  datatype GitTree = GitTree(gitpath: string, subdomainName: string, domainName: string)

  /** The partial keys of a tree-license pair: `{'gitpath': path}` and `{'shortname': licence}`. */
  datatype TreeRef = TreeRef(gitpath: string)
  datatype LicenseRef = LicenseRef(shortname: string)

  /** The separator between domain and subdomain in a tree's DOMAIN value. */
  const Separator := " / "

  /** The domain name of a tree without a DOMAIN value. */
  const NoDomain := NoName + Separator + NoName

  /**
   * What the loop body reads without failing: a TREE PATH string, and a DOMAIN
   * value with a first element when DOMAIN is present.
   */
  predicate TreeBlock(b: Block) {
    && TreePathField in b && b[TreePathField].Text?
    && (DomainField in b ==> |Elements(b[DomainField])| > 0)
  }

  predicate TreeBlocks(bs: seq<Block>) {
    forall b :: b in bs ==> TreeBlock(b)
  }

  function TreePath(b: Block): string
    requires TreeBlock(b)
  {
    b[TreePathField].text
  }

  /** `data.get('DOMAIN', [no_domain])[0]`. */
  function DomainValue(b: Block): string
    requires TreeBlock(b)
  {
    if DomainField in b then Elements(b[DomainField])[0] else NoDomain
  }

  /**
   * A tree's domain name after the defaults: an empty value becomes the default
   * name, a name with the separator is kept, and any other name gets the default
   * subdomain appended. Either way the result contains the separator.
   */
  function DefaultedName(first: string): (name: string)
    ensures Contains(name, Separator)
    ensures first == "" ==> name == NoDomain
    ensures first != "" && Contains(first, Separator) ==> name == first
    ensures first != "" && !Contains(first, Separator) ==> name == first + Separator + NoName
  {
    assert NoDomain[|NoName|..|NoName| + 3] == Separator;
    OccursThenContains(NoDomain, Separator, |NoName|);
    var name := if first == "" then NoDomain else first;
    if Contains(name, Separator) then name
    else
      OccursThenContains(name + Separator + NoName, Separator, |name|);
      name + Separator + NoName
  }

  function TreeDomainName(b: Block): (name: string)
    requires TreeBlock(b)
  {
    DefaultedName(DomainValue(b))
  }

  /** The tree's (domain, subdomain): the two sides of the first separator in its domain name. */
  function TreeDomainSplit(b: Block): (r: (string, string))
    requires TreeBlock(b)
    ensures r.0 + Separator + r.1 == TreeDomainName(b)
    ensures forall j: nat :: j < |r.0| ==> !OccursAt(TreeDomainName(b), Separator, j)
  {
    SplitFirst(TreeDomainName(b), Separator).value
  }

  /** The GitTree record of one tree block. */
  function TreeOf(b: Block): (r: GitTree)
    requires TreeBlock(b)
    ensures r.gitpath == TreePath(b)
    ensures r.domainName + Separator + r.subdomainName == TreeDomainName(b)
    ensures forall j: nat :: j < |r.domainName| ==> !OccursAt(TreeDomainName(b), Separator, j)
  {
    var (dname, sname) := TreeDomainSplit(b);
    GitTree(TreePath(b), sname, dname)
  }

  /** One (tree, licence) pair per licence, in order. */
  function LicensePairs(path: string, licenses: seq<string>): (r: seq<(TreeRef, LicenseRef)>)
    ensures |r| == |licenses|
  {
    if licenses == [] then []
    else LicensePairs(path, licenses[..|licenses| - 1]) + [(TreeRef(path), LicenseRef(licenses[|licenses| - 1]))]
  }

  /** `data.get('LICENSES', ())`: the block's licences, none when the field is absent. */
  function Licenses(b: Block): seq<string> {
    if LicensesField in b then Elements(b[LicensesField]) else []
  }

  function Trees(bs: seq<Block>): (r: seq<GitTree>)
    requires TreeBlocks(bs)
    ensures |r| == |bs|
  {
    MapBlocks(bs, TreeOf)
  }

  /** The licence pairs of a block: its path with each of its licences. */
  function BlockLicenses(b: Block): seq<(TreeRef, LicenseRef)>
    requires TreeBlock(b)
  {
    LicensePairs(TreePath(b), Licenses(b))
  }

  /** The role records of a tree block, owned by its path. */
  function TreeRecords(b: Block, roles: seq<string>): seq<Role>
    requires TreeBlock(b)
  {
    RoleRecords(PresentRoles(roles, b), TreeOwner(TreePath(b)))
  }

  /** The role-user pairs of a tree block, owned by its path. */
  function TreePairs<U>(b: Block, roles: seq<string>, lookup: string -> Option<U>): seq<(RoleKey, U)>
    requires TreeBlock(b)
  {
    RoleUsers(b, PresentRoles(roles, b), TreeOwner(TreePath(b)), lookup)
  }

  function TreeLicenses(bs: seq<Block>): seq<(TreeRef, LicenseRef)>
    requires TreeBlocks(bs)
  {
    FlatMapBlocks(bs, BlockLicenses)
  }

  function TreeRoles(bs: seq<Block>, roles: seq<string>): seq<Role>
    requires TreeBlocks(bs)
  {
    FlatMapBlocks(bs, b requires TreeBlock(b) => TreeRecords(b, roles))
  }

  function TreeRoleUsers<U>(bs: seq<Block>, roles: seq<string>, lookup: string -> Option<U>): seq<(RoleKey, U)>
    requires TreeBlocks(bs)
  {
    FlatMapBlocks(bs, b requires TreeBlock(b) => TreePairs(b, roles, lookup))
  }

  /** The body of the block loop of transform_trees, for one block. */
  method TransTree<U>(b: Block, roles: seq<string>, lookup: string -> Option<U>)
    returns (tree: GitTree, licenses: seq<(TreeRef, LicenseRef)>, records: seq<Role>, users: seq<(RoleKey, U)>)
    requires TreeBlock(b)
    ensures tree == TreeOf(b) && tree.gitpath == b[TreePathField].text
    ensures licenses == LicensePairs(tree.gitpath, Licenses(b))
    ensures records == RoleRecords(PresentRoles(roles, b), TreeOwner(tree.gitpath))
    ensures users == RoleUsers(b, PresentRoles(roles, b), TreeOwner(tree.gitpath), lookup)
  {
    var path := b[TreePathField].text;
    var name := if DomainField in b then Elements(b[DomainField])[0] else NoDomain;
    if name == "" {
      name := NoDomain;
    }
    if !Contains(name, Separator) {
      name := name + Separator + NoName;
    }
    assert name == DefaultedName(DomainValue(b));
    var split := SplitFirst(name, Separator);
    var (dname, sname) := split.value;
    tree := GitTree(path, sname, dname);

    licenses := TransLicenses(path, Licenses(b));
    records, users := TransRoles(b, roles, TreeOwner(path), lookup);
  }

  /** The loop `for licen in data.get('LICENSES', ())`: one pair per licence, in order. */
  method TransLicenses(path: string, lics: seq<string>) returns (licenses: seq<(TreeRef, LicenseRef)>)
    ensures licenses == LicensePairs(path, lics)
  {
    licenses := [];
    var k := 0;
    while k < |lics|
      invariant 0 <= k <= |lics|
      invariant licenses == LicensePairs(path, lics[..k])
    {
      assert lics[..k + 1][..k] == lics[..k];
      licenses := licenses + [(TreeRef(path), LicenseRef(lics[k]))];
      k := k + 1;
    }
    assert lics[..k] == lics;
  }

  /**
   * transform_trees: one GitTree per block, the blocks' licence pairs, role
   * records and role-user pairs, each list in input order.
   */
  method TransformTrees<U>(bs: seq<Block>, roles: seq<string>, lookup: string -> Option<U>)
    returns (trees: seq<GitTree>, treeLicenses: seq<(TreeRef, LicenseRef)>,
             treeRoles: seq<Role>, treeRoleUsers: seq<(RoleKey, U)>)
    requires TreeBlocks(bs)
    ensures trees == Trees(bs)
    ensures treeLicenses == TreeLicenses(bs)
    ensures treeRoles == TreeRoles(bs, roles)
    ensures treeRoleUsers == TreeRoleUsers(bs, roles, lookup)
  {
    trees, treeLicenses, treeRoles, treeRoleUsers := [], [], [], [];
    var i := 0;
    assert bs[..0] == [];
    while i < |bs|
      invariant 0 <= i <= |bs|
      invariant trees == Trees(bs[..i])
      invariant treeLicenses == TreeLicenses(bs[..i])
      invariant treeRoles == TreeRoles(bs[..i], roles)
      invariant treeRoleUsers == TreeRoleUsers(bs[..i], roles, lookup)
    {
      TransformTreesStep(bs, i, roles, lookup);
      var tree, licenses, records, users := TransTree(bs[i], roles, lookup);
      trees := trees + [tree];
      treeLicenses := treeLicenses + licenses;
      treeRoles := treeRoles + records;
      treeRoleUsers := treeRoleUsers + users;
      i := i + 1;
    }
    assert bs[..i] == bs;
  }

  /** One turn of the block loop extends each list by the block's own contribution. */
  lemma TransformTreesStep<U>(bs: seq<Block>, i: nat, roles: seq<string>, lookup: string -> Option<U>)
    requires i < |bs| && TreeBlocks(bs)
    ensures var (before, after, b) := (bs[..i], bs[..i + 1], bs[i]);
      && Trees(after) == Trees(before) + [TreeOf(b)]
      && TreeLicenses(after) == TreeLicenses(before) + LicensePairs(TreePath(b), Licenses(b))
      && TreeRoles(after, roles) == TreeRoles(before, roles) + RoleRecords(PresentRoles(roles, b), TreeOwner(TreePath(b)))
      && TreeRoleUsers(after, roles, lookup)
         == TreeRoleUsers(before, roles, lookup) + RoleUsers(b, PresentRoles(roles, b), TreeOwner(TreePath(b)), lookup)
  {
    assert bs[..i + 1][..i] == bs[..i];
  }

  /** Exactly one tree per block, in input order: the k-th tree is that of the k-th block. */
  lemma {:induction false} TreeAt(bs: seq<Block>, k: nat)
    requires TreeBlocks(bs) && k < |bs|
    ensures Trees(bs)[k] == TreeOf(bs[k])
  {
    MapBlocksAt(bs, TreeOf, k);
  }

  /** The k-th licence pair of a tree names the tree and its k-th licence. */
  lemma {:induction false} LicensePairsAt(path: string, licenses: seq<string>)
    ensures forall k :: 0 <= k < |licenses| ==>
      LicensePairs(path, licenses)[k] == (TreeRef(path), LicenseRef(licenses[k]))
  {
    if licenses != [] {
      LicensePairsAt(path, licenses[..|licenses| - 1]);
    }
  }

  /** A tree-licence pair is emitted iff some block with that path lists that licence. */
  lemma TreeLicensesMembers(bs: seq<Block>, t: TreeRef, l: LicenseRef)
    requires TreeBlocks(bs)
    ensures (t, l) in TreeLicenses(bs) <==>
      exists i :: 0 <= i < |bs| && t.gitpath == TreePath(bs[i]) && l.shortname in Licenses(bs[i])
  {
    FlatMapBlocksMembers(bs, BlockLicenses, (t, l));
    forall i | 0 <= i < |bs|
      ensures (t, l) in BlockLicenses(bs[i]) <==> t.gitpath == TreePath(bs[i]) && l.shortname in Licenses(bs[i])
    {
      LicensePairsMembers(TreePath(bs[i]), Licenses(bs[i]), t, l);
    }
  }

  /** A block's licence pairs are exactly its path paired with each of its licences. */
  lemma LicensePairsMembers(path: string, licenses: seq<string>, t: TreeRef, l: LicenseRef)
    ensures (t, l) in LicensePairs(path, licenses) <==> t.gitpath == path && l.shortname in licenses
  {
    LicensePairsAt(path, licenses);
    if t.gitpath == path && l.shortname in licenses {
      var k :| 0 <= k < |licenses| && licenses[k] == l.shortname;
      assert LicensePairs(path, licenses)[k] == (t, l);
    }
  }

  /** A block without LICENSES contributes no licence pair. */
  lemma NoLicenses(b: Block)
    requires TreeBlock(b) && LicensesField !in b
    ensures LicensePairs(TreePath(b), Licenses(b)) == []
  {
  }

  /** The default name splits into the default domain and the default subdomain. */
  lemma NoDomainSplit()
    ensures DefaultedName("") == NoDomain && DefaultedName(NoDomain) == NoDomain
    ensures SplitFirst(NoDomain, Separator) == Some((NoName, NoName))
  {
    var s := NoName + Separator + NoName;
    assert s[..|NoName|] == NoName;
    NoOccurrenceIn(s, Separator, NoName);
    SplitFirstAt(s, Separator, NoName, NoName);
  }

  /** A missing or empty first DOMAIN value files the tree under Uncategorized / Uncategorized. */
  lemma TreeDomainDefault(b: Block)
    requires TreeBlock(b) && (DomainField !in b || DomainValue(b) == "")
    ensures TreeDomainSplit(b) == (NoName, NoName)
  {
    NoDomainSplit();
  }

  /**
   * A name without the separator, once the default subdomain is appended, splits
   * back into itself and the default subdomain, as long as it does not end in " /"
   * (whose slash would pair with the appended separator).
   */
  lemma {:induction false} PlainNameSplit(v: string)
    requires v != "" && !Contains(v, Separator) && !EndsWith(v, " /")
    ensures SplitFirst(DefaultedName(v), Separator) == Some((v, NoName))
  {
    var s := v + Separator + NoName;
    forall j: nat | j < |v| ensures !OccursAt(s, Separator, j) {
      if j + 3 <= |v| && OccursAt(v, Separator, j) {
        OccursThenContains(v, Separator, j);
      }
      NoSeparatorBefore(v, j);
    }
    SplitFirstAt(s, Separator, v, NoName);
  }

  /** Appending the separator to a name without one creates no earlier occurrence. */
  lemma NoSeparatorBefore(v: string, j: nat)
    requires j < |v| && (j + 3 <= |v| ==> !OccursAt(v, Separator, j)) && !EndsWith(v, " /")
    ensures !OccursAt(v + Separator + NoName, Separator, j)
  {
    var s := v + Separator + NoName;
    if j + 3 <= |v| {
      assert s[j..j + 3] == v[j..j + 3];
    } else if j == |v| - 1 {
      assert s[j + 1] == ' ' && s[j..j + 3][1] == s[j + 1];
    } else {
      assert v[|v| - 2..] == [s[j], s[j + 1]];
    }
  }

  /** A tree whose first DOMAIN value has no separator is filed under that domain's default subdomain. */
  lemma TreeDomainPlain(b: Block)
    requires TreeBlock(b) && DomainField in b
    requires DomainValue(b) != "" && !Contains(DomainValue(b), Separator) && !EndsWith(DomainValue(b), " /")
    ensures TreeDomainSplit(b) == (DomainValue(b), NoName)
  {
    PlainNameSplit(DomainValue(b));
  }

  /** A name ending in " /" splits inside itself: "Base /" gives domain "Base", subdomain "/ Uncategorized". */
  lemma TrailingSlashSplit()
    ensures SplitFirst(DefaultedName("Base /"), Separator) == Some(("Base", "/ " + NoName))
  {
    var v := "Base /";
    var s := v + Separator + NoName;
    assert v[..4] == "Base";
    NoOccurrenceIn(v, Separator, "Base");
    assert !Contains(v, Separator);
    assert s == "Base" + Separator + ("/ " + NoName);
    assert s[..4] == "Base";
    NoOccurrenceIn(s, Separator, "Base");
    SplitFirstAt(s, Separator, "Base", "/ " + NoName);
  }
}
