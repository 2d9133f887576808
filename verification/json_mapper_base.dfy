/**
  The older copy of the binary-name walk (`MapperBase.getClassName` in the
  json package), written as a recursion over the enclosing chain.
 */
module JsonMapperBase {
  import opened Lang
  import MapperBase

  /** Prepends the part of each enclosing element to `acc`, innermost first. */
  function Walk(chain: seq<MapperBase.Enclosing>, acc: string): (r: string)
    ensures |r| >= |acc| && r[|r| - |acc|..] == acc
    decreases |chain|
  {
    if |chain| == 0 then acc
    else
      var next := MapperBase.Contribution(chain[0]) + acc;
      var r := Walk(chain[1..], next);
      assert r[|r| - |acc|..] == r[|r| - |next|..][|next| - |acc|..];
      r
  }

  /** The json copy of `getClassName`: ends with the element's own simple name. */
  function GetClassName(simple: Identifier, chain: seq<MapperBase.Enclosing>): (r: string)
    ensures |r| >= |simple| && r[|r| - |simple|..] == simple
  {
    Walk(chain, simple)
  }

  lemma {:induction false} PrefixSplit(chain: seq<MapperBase.Enclosing>)
    requires |chain| > 0
    ensures MapperBase.Prefix(chain) == MapperBase.Prefix(chain[1..]) + MapperBase.Contribution(chain[0])
    decreases |chain|
  {
    if |chain| > 1 {
      var last := |chain| - 1;
      assert chain[..last][1..] == chain[1..][..|chain[1..]| - 1];
      assert chain[1..][|chain[1..]| - 1] == chain[last];
      PrefixSplit(chain[..last]);
      assert chain[..last][0] == chain[0];
    } else {
      assert chain[..0] == [] && chain[1..] == [];
    }
  }

  lemma {:induction false} WalkIsPrefix(chain: seq<MapperBase.Enclosing>, acc: string)
    ensures Walk(chain, acc) == MapperBase.Prefix(chain) + acc
    decreases |chain|
  {
    if |chain| > 0 {
      PrefixSplit(chain);
      WalkIsPrefix(chain[1..], MapperBase.Contribution(chain[0]) + acc);
    }
  }

  /** Both package generations compute the same name for every element. */
  lemma SameAsKilauea(simple: Identifier, chain: seq<MapperBase.Enclosing>)
    ensures GetClassName(simple, chain) == MapperBase.BinaryName(simple, chain)
  {
    WalkIsPrefix(chain, simple);
  }

  /** Enclosing types are joined with '$'. */
  lemma EnclosingTypeJoined(simple: Identifier, outer: Identifier, rest: seq<MapperBase.Enclosing>)
    ensures GetClassName(simple, [MapperBase.TypeEl(outer)] + rest) == GetClassName(outer + "$" + simple, rest)
  {
    var chain := [MapperBase.TypeEl(outer)] + rest;
    assert chain[1..] == rest;
    assert MapperBase.Contribution(chain[0]) + simple == outer + "$" + simple;
    assert Walk(chain, simple) == Walk(chain[1..], MapperBase.Contribution(chain[0]) + simple);
  }

  /** A named package puts its qualified name and '.' in front; the unnamed package adds nothing. */
  lemma PackageContribution(simple: Identifier, pkgSimple: string, pkg: string)
    ensures GetClassName(simple, [MapperBase.PackageEl(pkgSimple, pkg)]) ==
            if pkgSimple == "" then simple else pkg + "." + simple
  {
    var chain := [MapperBase.PackageEl(pkgSimple, pkg)];
    assert chain[1..] == [];
    assert Walk(chain, simple) == MapperBase.Contribution(chain[0]) + simple;
    assert "" + simple == simple;
  }
}
