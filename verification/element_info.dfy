/**
  The information collected for one `@Mapped` occurrence and handed to a
  generator (`ElementInfo`).
 */
module Info {
  import opened Lang
  import opened Annotation
  import opened JavaModel

  /**
    The collected configuration. `gtype` is `None` for a `null` generator type.
    `element` stands for the annotated type element through its class name.
   */
  datatype ElementInfo = ElementInfo(
    gtype: Option<GeneratorType>,
    className: Identifier,
    packageName: string,
    subpackageName: string,
    prefix: string,
    element: ClassName,
    chainedSetters: bool,
    fluentAccessors: bool,
    inheritFields: bool,
    jsonInclude: Include,
    fields: seq<FieldDecl>,
    interfaces: seq<ClassName>,
    superclass: Option<ClassName>,
    useLombok: bool,
    datePattern: string,
    dateTimePattern: string,
    xmlns: string
  )

  /** The builder: every attribute set explicitly except `interfaces`, which starts empty. */
  function Build(
    gtype: Option<GeneratorType>, className: Identifier, packageName: string, subpackageName: string,
    prefix: string, element: ClassName, chainedSetters: bool, fluentAccessors: bool, inheritFields: bool,
    jsonInclude: Include, fields: seq<FieldDecl>, superclass: Option<ClassName>, useLombok: bool,
    datePattern: string, dateTimePattern: string, xmlns: string): (r: ElementInfo)
    ensures r.interfaces == []
    ensures r.className == className && r.fields == fields && r.superclass == superclass
    ensures r.gtype == gtype && r.prefix == prefix && r.packageName == packageName
    ensures r.subpackageName == subpackageName && r.element == element && r.xmlns == xmlns
  {
    ElementInfo(gtype, className, packageName, subpackageName, prefix, element, chainedSetters,
                fluentAccessors, inheritFields, jsonInclude, fields, [], superclass, useLombok,
                datePattern, dateTimePattern, xmlns)
  }

  /** `addInterface`: appends at the end, without checking for duplicates. */
  function AddInterface(info: ElementInfo, c: ClassName): (r: ElementInfo)
    ensures |r.interfaces| == |info.interfaces| + 1
    ensures r.interfaces[..|info.interfaces|] == info.interfaces
    ensures r.interfaces[|info.interfaces|] == c
    ensures r.(interfaces := info.interfaces) == info
  {
    info.(interfaces := info.interfaces + [c])
  }

  /** Past a head with another canonical name, a match in the list is a match in its tail. */
  lemma CanonicalInTail(interfaces: seq<ClassName>, target: string)
    requires |interfaces| > 0 && CanonicalName(interfaces[0]) != target
    ensures (exists i :: 0 <= i < |interfaces| && CanonicalName(interfaces[i]) == target) <==>
            (exists j :: 0 <= j < |interfaces[1..]| && CanonicalName(interfaces[1..][j]) == target)
  {
    if exists i :: 0 <= i < |interfaces| && CanonicalName(interfaces[i]) == target {
      var i :| 0 <= i < |interfaces| && CanonicalName(interfaces[i]) == target;
      assert interfaces[1..][i - 1] == interfaces[i];
    }
    if exists j :: 0 <= j < |interfaces[1..]| && CanonicalName(interfaces[1..][j]) == target {
      var j :| 0 <= j < |interfaces[1..]| && CanonicalName(interfaces[1..][j]) == target;
      assert interfaces[j + 1] == interfaces[1..][j];
    }
  }

  /** True iff some interface in the list has the canonical name of `c`. */
  function ContainsCanonical(interfaces: seq<ClassName>, c: ClassName): (b: bool)
    ensures b <==> exists i :: 0 <= i < |interfaces| && CanonicalName(interfaces[i]) == CanonicalName(c)
  {
    if |interfaces| == 0 then false
    else if CanonicalName(interfaces[0]) == CanonicalName(c) then true
    else
      var rest := ContainsCanonical(interfaces[1..], c);
      CanonicalInTail(interfaces, CanonicalName(c));
      rest
  }

  /** `hasInterface`: compares canonical names, not object identity. */
  function HasInterface(info: ElementInfo, c: ClassName): (b: bool)
    ensures b <==> exists i :: 0 <= i < |info.interfaces| && CanonicalName(info.interfaces[i]) == CanonicalName(c)
  {
    ContainsCanonical(info.interfaces, c)
  }

  /** After `addInterface(c)`, `hasInterface(d)` holds iff it held before or `d` has `c`'s canonical name. */
  lemma AddThenHas(info: ElementInfo, c: ClassName, d: ClassName)
    ensures HasInterface(AddInterface(info, c), c)
    ensures HasInterface(AddInterface(info, c), d) <==> HasInterface(info, d) || CanonicalName(d) == CanonicalName(c)
  {
    var r := AddInterface(info, c);
    assert r.interfaces[|info.interfaces|] == c;
    if HasInterface(info, d) {
      var i :| 0 <= i < |info.interfaces| && CanonicalName(info.interfaces[i]) == CanonicalName(d);
      assert r.interfaces[i] == info.interfaces[i];
    }
  }

  /** Adding the same interface twice keeps both entries. */
  lemma AddInterfaceKeepsDuplicates(info: ElementInfo, c: ClassName)
    ensures |AddInterface(AddInterface(info, c), c).interfaces| == |info.interfaces| + 2
  {
  }
}
