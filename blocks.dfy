/**
 * Parsed blocks as the transform layer receives them: a mapping from the long
 * field name (after the short-code table) to the field's value.
 */
module Blocks {

  /** A field value: one string, or the ordered list a repeatable field collects. */
  datatype Value = Text(text: string) | Items(items: seq<string>)

  type Block = map<string, Value>

  const DomainField := "DOMAIN"
  const ParentField := "PARENT"
  const LicensesField := "LICENSES"
  const TreePathField := "TREE PATH"

  /**
   * What a Python `for x in value` visits: the items of a list, or the
   * one-character strings of a string.
   */
  function Elements(v: Value): seq<string> {
    match v
    case Items(vs) => vs
    case Text(s) => seq(|s|, i requires 0 <= i < |s| => [s[i]])
  }

  /**
   * The role fields a block carries, `ROLES & set(data.keys())`, visited in the
   * order of the configured role list.
   */
  function PresentRoles(roles: seq<string>, b: Block): (r: seq<string>)
    ensures |r| <= |roles|
    ensures forall x :: x in r <==> x in roles && x in b
  {
    if roles == [] then []
    else
      var last := roles[|roles| - 1];
      PresentRoles(roles[..|roles| - 1], b) + (if last in b then [last] else [])
  }

  /** No value occurs twice. */
  predicate Distinct(xs: seq<string>) {
    forall i, j :: 0 <= i < j < |xs| ==> xs[i] != xs[j]
  }

  /** Filtering a set of roles by the block's keys keeps them distinct. */
  lemma {:induction false} PresentRolesDistinct(roles: seq<string>, b: Block)
    requires Distinct(roles)
    ensures Distinct(PresentRoles(roles, b))
  {
    if roles != [] {
      var init := roles[..|roles| - 1];
      assert Distinct(init);
      PresentRolesDistinct(init, b);
      assert roles[|roles| - 1] !in init;
    }
  }

  /** Applies `f` to every block, in order, as a loop appending one result per block does. */
  function MapBlocks<T>(bs: seq<Block>, f: Block --> T): (r: seq<T>)
    requires forall b :: b in bs ==> f.requires(b)
    ensures |r| == |bs|
  {
    if bs == [] then [] else MapBlocks(bs[..|bs| - 1], f) + [f(bs[|bs| - 1])]
  }

  lemma {:induction false} MapBlocksAt<T>(bs: seq<Block>, f: Block --> T, k: nat)
    requires k < |bs| && forall b :: b in bs ==> f.requires(b)
    ensures MapBlocks(bs, f)[k] == f(bs[k])
  {
    var init := bs[..|bs| - 1];
    if k < |init| {
      MapBlocksAt(init, f, k);
      assert init[k] == bs[k];
    }
  }

  /** The results of `f` on every block, concatenated in block order. */
  function FlatMapBlocks<T>(bs: seq<Block>, f: Block --> seq<T>): seq<T>
    requires forall b :: b in bs ==> f.requires(b)
  {
    if bs == [] then [] else FlatMapBlocks(bs[..|bs| - 1], f) + f(bs[|bs| - 1])
  }

  /** One more block adds its own results at the end. */
  lemma FlatMapBlocksStep<T>(bs: seq<Block>, i: nat, f: Block --> seq<T>)
    requires i < |bs| && forall b :: b in bs ==> f.requires(b)
    ensures FlatMapBlocks(bs[..i + 1], f) == FlatMapBlocks(bs[..i], f) + f(bs[i])
  {
    assert bs[..i + 1][..i] == bs[..i];
  }

  /** An element is in the concatenation iff it is in the results of some block. */
  lemma {:induction false} FlatMapBlocksMembers<T>(bs: seq<Block>, f: Block --> seq<T>, x: T)
    requires forall b :: b in bs ==> f.requires(b)
    ensures x in FlatMapBlocks(bs, f) <==> exists i :: 0 <= i < |bs| && x in f(bs[i])
  {
    if bs != [] {
      var init := bs[..|bs| - 1];
      FlatMapBlocksMembers(init, f, x);
      if x in FlatMapBlocks(init, f) {
        var i :| 0 <= i < |init| && x in f(init[i]);
        assert init[i] == bs[i];
      } else if x !in f(bs[|bs| - 1]) {
        forall i | 0 <= i < |bs| ensures x !in f(bs[i]) {
          if i < |init| {
            assert init[i] == bs[i];
          }
        }
      }
    }
  }

  /** The results of two runs of blocks are those of each run, concatenated. */
  lemma {:induction false} FlatMapBlocksAppend<T>(a: seq<Block>, c: seq<Block>, f: Block --> seq<T>)
    requires forall b :: b in a + c ==> f.requires(b)
    ensures FlatMapBlocks(a + c, f) == FlatMapBlocks(a, f) + FlatMapBlocks(c, f)
  {
    if c == [] {
      assert a + c == a;
    } else {
      var init := c[..|c| - 1];
      FlatMapBlocksAppend(a, init, f);
      assert (a + c)[..|a + c| - 1] == a + init;
    }
  }
}
