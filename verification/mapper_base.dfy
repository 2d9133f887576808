/**
  The binary class name of a type element (`MapperBase.getClassName` in the
  kilauea package): the walk up the chain of enclosing elements, and the
  lookup of an annotation member by name.
 */
module MapperBase {
  import opened Lang

  /** An element enclosing a class: another class, a package, or anything else (a method, a module). */
  datatype Enclosing =
    | TypeEl(simpleName: Identifier)
    | PackageEl(packageSimpleName: string, qualifiedName: string)
    | OtherEl

  /** What one enclosing element puts in front of the name built so far. */
  function Contribution(e: Enclosing): string {
    match e
    case TypeEl(n) => n + "$"
    case PackageEl(n, q) => if n == "" then "" else q + "."
    case OtherEl => ""
  }

  /**
    Reference meaning: the contributions of the enclosing elements, outermost
    first. `chain` lists the enclosing elements innermost first, as the walk
    meets them.
   */
  function Prefix(chain: seq<Enclosing>): string {
    if |chain| == 0 then "" else Contribution(chain[|chain| - 1]) + Prefix(chain[..|chain| - 1])
  }

  /** The name of the class with simple name `simple` enclosed by `chain`. */
  function BinaryName(simple: Identifier, chain: seq<Enclosing>): string {
    Prefix(chain) + simple
  }

  /** The `while (getEnclosingElement() != null)` loop that prepends each enclosing element's part. */
  method GetClassName(simple: Identifier, chain: seq<Enclosing>) returns (result: string)
    ensures result == BinaryName(simple, chain)
    ensures |result| >= |simple| && result[|result| - |simple|..] == simple
  {
    result := simple;
    var k := 0;
    while k < |chain|
      invariant 0 <= k <= |chain|
      invariant result == Prefix(chain[..k]) + simple
    {
      var e := chain[k];
      ghost var before := result;
      match e {
        case TypeEl(n) =>
          result := n + "$" + result;
        case PackageEl(n, q) =>
          if n != "" {
            result := q + "." + result;
          }
        case OtherEl =>
      }
      assert result == Contribution(e) + before;
      PrefixStep(chain, k, simple);
      k := k + 1;
    }
    assert chain[..k] == chain;
    assert result == Prefix(chain) + simple;
    assert result[|Prefix(chain)|..] == simple;
  }

  lemma PrefixStep(chain: seq<Enclosing>, k: nat, simple: string)
    requires k < |chain|
    ensures Prefix(chain[..k + 1]) + simple == Contribution(chain[k]) + (Prefix(chain[..k]) + simple)
  {
    assert chain[..k + 1][..k] == chain[..k];
  }

  /** A top-level class in a named package is `package.Simple`. */
  lemma TopLevelName(simple: Identifier, pkgSimple: string, pkg: string)
    requires pkgSimple != ""
    ensures BinaryName(simple, [PackageEl(pkgSimple, pkg)]) == pkg + "." + simple
  {
    var chain := [PackageEl(pkgSimple, pkg)];
    assert chain[..0] == [];
    assert Prefix(chain) == pkg + "." + "";
  }

  /** Each enclosing class is joined with '$': `package.Outer$Inner`. */
  lemma NestedName(simple: Identifier, outer: Identifier, pkgSimple: string, pkg: string)
    requires pkgSimple != ""
    ensures BinaryName(simple, [TypeEl(outer), PackageEl(pkgSimple, pkg)]) == pkg + "." + outer + "$" + simple
  {
    var chain := [TypeEl(outer), PackageEl(pkgSimple, pkg)];
    assert chain[..1] == [TypeEl(outer)];
    assert chain[..1][..0] == [];
    assert Prefix(chain[..1]) == outer + "$" + "";
    assert Prefix(chain) == pkg + "." + (outer + "$");
  }

  /** The unnamed package contributes nothing: `Outer$Inner`. */
  lemma UnnamedPackageName(simple: Identifier, outer: Identifier)
    ensures BinaryName(simple, [TypeEl(outer), PackageEl("", "")]) == outer + "$" + simple
  {
    var chain := [TypeEl(outer), PackageEl("", "")];
    assert chain[..1] == [TypeEl(outer)];
    assert chain[..1][..0] == [];
    assert Prefix(chain[..1]) == outer + "$" + "";
    assert Prefix(chain) == "" + (outer + "$");
  }

  /** One member of an annotation mirror: the simple name of its element and its value. */
  datatype AnnotationEntry<V> = AnnotationEntry(key: string, value: V)

  /** `getAnnotationValue`: the value of the first entry whose key is `key`, or `null`. */
  method GetAnnotationValue<V>(entries: seq<AnnotationEntry<V>>, key: string) returns (r: Option<V>)
    ensures r.None? <==> forall i :: 0 <= i < |entries| ==> entries[i].key != key
    ensures r.Some? ==> exists i :: 0 <= i < |entries| && entries[i].key == key && entries[i].value == r.value &&
                                    (forall j :: 0 <= j < i ==> entries[j].key != key)
  {
    var i := 0;
    while i < |entries|
      invariant 0 <= i <= |entries|
      invariant forall j :: 0 <= j < i ==> entries[j].key != key
    {
      if entries[i].key == key {
        return Some(entries[i].value);
      }
      i := i + 1;
    }
    return None;
  }
}
