/**
  The kilauea annotation processor (`Mapper`): it collects one `ElementInfo`
  per `@Mapped` occurrence on a class, merging the fields of the superclass
  chain and resolving the configured superclass and interfaces, and then
  runs one generator per collected `ElementInfo`.
 */
module Mapper {
  import opened Lang
  import opened Annotation
  import opened JavaModel
  import opened StringUtil
  import opened Info
  import opened GeneratorFactory
  import opened Generation

  // ---------------------------------------------------------------------
  // Merging fields by name

  predicate HasName(fields: seq<FieldDecl>, name: string) {
    exists i :: 0 <= i < |fields| && fields[i].name == name
  }

  predicate NamesDistinct(fields: seq<FieldDecl>) {
    forall i, j :: 0 <= i < j < |fields| ==> fields[i].name != fields[j].name
  }

  /**
    Appends the fields of `extra`, in order, that have no name in the list
    collected so far; the list grows while it is scanned, as the filter of
    the source's stream sees every field added before.
   */
  function MergeByName(fields: seq<FieldDecl>, extra: seq<FieldDecl>): (r: seq<FieldDecl>)
    ensures |fields| <= |r| && r[..|fields|] == fields
    decreases |extra|
  {
    if |extra| == 0 then fields
    else
      var next := if HasName(fields, extra[0].name) then fields else fields + [extra[0]];
      var r := MergeByName(next, extra[1..]);
      assert r[..|fields|] == r[..|next|][..|fields|];
      r
  }

  lemma HasNameAppend(fields: seq<FieldDecl>, f: FieldDecl, name: string)
    ensures HasName(fields + [f], name) <==> HasName(fields, name) || f.name == name
  {
    if HasName(fields, name) {
      var i :| 0 <= i < |fields| && fields[i].name == name;
      assert (fields + [f])[i] == fields[i];
    }
    assert (fields + [f])[|fields|] == f;
  }

  /** A name is in the merged list iff it is among the fields or the extra ones. */
  lemma {:induction false} MergeNames(fields: seq<FieldDecl>, extra: seq<FieldDecl>, name: string)
    ensures HasName(MergeByName(fields, extra), name) <==> HasName(fields, name) || HasName(extra, name)
    decreases |extra|
  {
    if |extra| > 0 {
      var next := if HasName(fields, extra[0].name) then fields else fields + [extra[0]];
      MergeNames(next, extra[1..], name);
      HasNameAppend(fields, extra[0], name);
      HasNameAppend([extra[0]], extra[0], name);
      assert extra == [extra[0]] + extra[1..];
      HasNameConcat([extra[0]], extra[1..], name);
    }
  }

  lemma HasNameConcat(a: seq<FieldDecl>, b: seq<FieldDecl>, name: string)
    ensures HasName(a + b, name) <==> HasName(a, name) || HasName(b, name)
  {
    if HasName(a + b, name) {
      var i :| 0 <= i < |a + b| && (a + b)[i].name == name;
      if i >= |a| {
        assert b[i - |a|] == (a + b)[i];
      }
    }
    if HasName(a, name) {
      var i :| 0 <= i < |a| && a[i].name == name;
      assert (a + b)[i] == a[i];
    }
    if HasName(b, name) {
      var i :| 0 <= i < |b| && b[i].name == name;
      assert (a + b)[|a| + i] == b[i];
    }
  }

  /** Merging keeps names distinct: a field of the subclass is never shadowed by a superclass field. */
  lemma {:induction false} MergeDistinct(fields: seq<FieldDecl>, extra: seq<FieldDecl>)
    requires NamesDistinct(fields)
    ensures NamesDistinct(MergeByName(fields, extra))
    decreases |extra|
  {
    if |extra| > 0 {
      if HasName(fields, extra[0].name) {
        MergeDistinct(fields, extra[1..]);
      } else {
        var next := fields + [extra[0]];
        forall i, j | 0 <= i < j < |next|
          ensures next[i].name != next[j].name
        {
          if j == |fields| {
            assert next[i] == fields[i];
          }
        }
        MergeDistinct(next, extra[1..]);
      }
    }
  }

  /** Every merged field is one of the fields or one of the extra ones. */
  lemma {:induction false} MergeSources(fields: seq<FieldDecl>, extra: seq<FieldDecl>)
    ensures forall f :: f in MergeByName(fields, extra) ==> f in fields || f in extra
    decreases |extra|
  {
    if |extra| > 0 {
      var next := if HasName(fields, extra[0].name) then fields else fields + [extra[0]];
      MergeSources(next, extra[1..]);
      assert forall f :: f in extra[1..] ==> f in extra;
    }
  }

  /**
    For a name the fields do not have, the first extra field of that name is
    the one merged: the nearest superclass wins.
   */
  lemma {:induction false} MergeFirstWins(fields: seq<FieldDecl>, extra: seq<FieldDecl>, j: nat)
    requires j < |extra| && !HasName(fields, extra[j].name)
    requires forall k :: 0 <= k < j ==> extra[k].name != extra[j].name
    ensures extra[j] in MergeByName(fields, extra)
    decreases |extra|
  {
    var next := if HasName(fields, extra[0].name) then fields else fields + [extra[0]];
    if j == 0 {
      assert next[|fields|] == extra[0];
      assert extra[0] in MergeByName(next, extra[1..])[..|next|];
    } else {
      HasNameAppend(fields, extra[0], extra[j].name);
      assert extra[1..][j - 1] == extra[j];
      MergeFirstWins(next, extra[1..], j - 1);
    }
  }

  /** Merging in two steps is merging the concatenation. */
  lemma {:induction false} MergeConcat(fields: seq<FieldDecl>, a: seq<FieldDecl>, b: seq<FieldDecl>)
    ensures MergeByName(MergeByName(fields, a), b) == MergeByName(fields, a + b)
    decreases |a|
  {
    if |a| > 0 {
      var next := if HasName(fields, a[0].name) then fields else fields + [a[0]];
      assert MergeByName(fields, a) == MergeByName(next, a[1..]);
      assert (a + b)[0] == a[0] && (a + b)[1..] == a[1..] + b;
      assert MergeByName(fields, a + b) == MergeByName(next, a[1..] + b);
      MergeConcat(next, a[1..], b);
    } else {
      assert a + b == b;
    }
  }

  // ---------------------------------------------------------------------
  // The superclass chain

  /**
    What `getTypeElement(superclass.toString())` finds for a class whose
    superclass is a declared type; `None` when the walk stops there.
   */
  function SuperDecl(env: Env, cls: ClassDecl): (r: Option<ClassDecl>)
    ensures r.Some? ==> cls.superclass.Some? && cls.superclass.value.Declared? && Text(cls.superclass.value) in env
  {
    match cls.superclass
    case None => None
    case Some(sc) => if sc.Declared? then ResolveName(env, Text(sc)) else None
  }

  /** The resolved superclass of `cls` sits lower in the hierarchy. */
  predicate SuperBelow(env: Env, cls: ClassDecl) {
    SuperDecl(env, cls).Some? ==> SuperDecl(env, cls).value.depth < cls.depth
  }

  /** The class hierarchy the compiler accepted has no cycles: every resolvable superclass is lower. */
  predicate Acyclic(env: Env) {
    forall n :: n in env ==> SuperBelow(env, env[n])
  }

  /**
    `addSuperclassFields`: walks the superclass chain nearest-first and
    merges each superclass's fields by name; it stops at a missing or
    non-declared superclass and at one the element utilities cannot find.
   */
  function AddSuperclassFields(env: Env, cls: ClassDecl, fields: seq<FieldDecl>): (r: seq<FieldDecl>)
    requires Acyclic(env) && SuperBelow(env, cls)
    ensures |fields| <= |r| && r[..|fields|] == fields
    decreases cls.depth
  {
    match SuperDecl(env, cls)
    case None => fields
    case Some(d) =>
      var r := AddSuperclassFields(env, d, MergeByName(fields, d.fields));
      assert r[..|fields|] == r[..|MergeByName(fields, d.fields)|][..|fields|];
      r
  }

  /** The superclasses the walk visits, nearest first. */
  function SuperChain(env: Env, cls: ClassDecl): (r: seq<ClassDecl>)
    requires Acyclic(env) && SuperBelow(env, cls)
    ensures r == [] <==> SuperDecl(env, cls).None?
    decreases cls.depth
  {
    match SuperDecl(env, cls)
    case None => []
    case Some(d) => [d] + SuperChain(env, d)
  }

  /** The fields of the visited superclasses, nearest superclass first. */
  function ChainFields(chain: seq<ClassDecl>): seq<FieldDecl> {
    if |chain| == 0 then [] else chain[0].fields + ChainFields(chain[1..])
  }

  /** The walk merges exactly the fields of the chain, nearest superclass first. */
  lemma {:induction false} AddSuperclassFieldsMergesChain(env: Env, cls: ClassDecl, fields: seq<FieldDecl>)
    requires Acyclic(env) && SuperBelow(env, cls)
    ensures AddSuperclassFields(env, cls, fields) == MergeByName(fields, ChainFields(SuperChain(env, cls)))
    decreases cls.depth
  {
    match SuperDecl(env, cls)
    case None =>
    case Some(d) =>
      AddSuperclassFieldsMergesChain(env, d, MergeByName(fields, d.fields));
      MergeConcat(fields, d.fields, ChainFields(SuperChain(env, d)));
      assert SuperChain(env, cls) == [d] + SuperChain(env, d);
      assert ([d] + SuperChain(env, d))[1..] == SuperChain(env, d);
  }

  /**
    The collected fields: the class's own fields unchanged and first, then
    every superclass field whose name is new; names stay distinct, and a name
    is present iff the class or some superclass declares it.
   */
  lemma InheritedFields(env: Env, cls: ClassDecl, name: string)
    requires Acyclic(env) && SuperBelow(env, cls) && NamesDistinct(cls.fields)
    ensures var r := AddSuperclassFields(env, cls, cls.fields);
            NamesDistinct(r) &&
            (HasName(r, name) <==> HasName(cls.fields, name) || HasName(ChainFields(SuperChain(env, cls)), name)) &&
            (forall f :: f in r ==> f in cls.fields || f in ChainFields(SuperChain(env, cls)))
  {
    var extra := ChainFields(SuperChain(env, cls));
    AddSuperclassFieldsMergesChain(env, cls, cls.fields);
    MergeDistinct(cls.fields, extra);
    MergeNames(cls.fields, extra, name);
    MergeSources(cls.fields, extra);
  }

  // ---------------------------------------------------------------------
  // createElementInfo

  /** The names in order of first occurrence, each once, as the keys of the interface map. */
  function FirstOccurrences(names: seq<string>): (r: seq<string>)
    ensures forall n :: n in r <==> n in names
    ensures forall i, j :: 0 <= i < j < |r| ==> r[i] != r[j]
  {
    if |names| == 0 then []
    else
      var rest := FirstOccurrences(names[..|names| - 1]);
      var last := names[|names| - 1];
      assert names == names[..|names| - 1] + [last];
      if last in rest then rest else rest + [last]
  }

  /** The classes of the names the element utilities can find, in the order given; the others are dropped. */
  function ResolvedClasses(env: Env, names: seq<string>): (r: seq<ClassName>)
    ensures forall c :: c in r <==> exists n :: n in names && n in env && env[n].name == c
  {
    if |names| == 0 then []
    else
      var rest := ResolvedClasses(env, names[1..]);
      assert forall n :: n in names <==> n == names[0] || n in names[1..];
      match ResolveName(env, names[0])
      case None => rest
      case Some(d) => [d.name] + rest
  }

  /** `addInterface` for each class in turn. */
  function AddInterfaces(info: ElementInfo, classes: seq<ClassName>): (r: ElementInfo)
    ensures r == info.(interfaces := info.interfaces + classes)
    decreases |classes|
  {
    if |classes| == 0 then info
    else
      var next := AddInterface(info, classes[0]);
      assert next.interfaces + classes[1..] == info.interfaces + classes;
      AddInterfaces(next, classes[1..])
  }

  /** The sub-package of the generated class: the configured one, or the lower-case type name when blank. */
  function SubpackageOf(m: Mapped): (r: string)
    ensures !Blank(m.subpackageName) ==> r == m.subpackageName
    ensures Blank(m.subpackageName) ==> r == LowerTypeName(m.gtype)
  {
    if Blank(m.subpackageName) then LowerTypeName(m.gtype) else m.subpackageName
  }

  /** The class-name prefix: the configured one, or the upper-case type name when blank. */
  function PrefixOf(m: Mapped): (r: string)
    ensures !Blank(m.prefix) ==> r == m.prefix
    ensures Blank(m.prefix) ==> r == TypeName(m.gtype)
  {
    if Blank(m.prefix) then TypeName(m.gtype) else m.prefix
  }

  /**
    `createElementInfo`: the annotation's attributes with the defaulted
    sub-package and prefix, the collected fields, the superclass when it was
    found, and every configured interface the element utilities can find.
   */
  function CreateElementInfo(env: Env, m: Mapped, decl: ClassDecl, fields: seq<FieldDecl>, superClassElement: Option<ClassDecl>): (r: ElementInfo)
    ensures r.gtype == Some(m.gtype) && r.element == decl.name && r.className == decl.name.simpleName && r.fields == fields
    ensures r.packageName == m.packageName && r.subpackageName == SubpackageOf(m) && r.prefix == PrefixOf(m)
    ensures r.superclass.Some? <==> superClassElement.Some?
    ensures superClassElement.Some? ==> r.superclass == Some(superClassElement.value.name)
    ensures forall c :: c in r.interfaces <==> exists n :: n in m.interfaces && n in env && env[n].name == c
    ensures r.useLombok == m.useLombok && r.fluentAccessors == m.fluentAccessors && r.chainedSetters == m.chainedSetters
    ensures r.inheritFields == m.inheritFields && r.jsonInclude == m.jsonInclude && r.xmlns == m.xmlns
    ensures r.datePattern == m.datePattern && r.dateTimePattern == m.dateTimePattern
  {
    var superclass := match superClassElement case None => None case Some(d) => Some(d.name);
    var info := Build(Some(m.gtype), decl.name.simpleName, m.packageName, SubpackageOf(m), PrefixOf(m), decl.name,
                      m.chainedSetters, m.fluentAccessors, m.inheritFields, m.jsonInclude, fields, superclass,
                      m.useLombok, m.datePattern, m.dateTimePattern, m.xmlns);
    var interfaces := ResolvedClasses(env, FirstOccurrences(m.interfaces));
    AddInterfaces(info, interfaces)
  }

  lemma TypeNamesNotBlank(t: GeneratorType)
    ensures !Blank(TypeName(t)) && !Blank(LowerTypeName(t))
  {
    assert !IsWhitespace(TypeName(t)[0]) && !IsWhitespace(LowerTypeName(t)[0]);
  }

  /**
    With `@Mapped(type = t)` and every other attribute left at its default,
    the companion of `p.Name` is `p.<t in lower case>.<T>Name`, e.g.
    `p.json.JSONName`.
   */
  lemma DefaultNaming(env: Env, t: GeneratorType, decl: ClassDecl, fields: seq<FieldDecl>, superClassElement: Option<ClassDecl>)
    requires decl.name.packageName != ""
    ensures var info := CreateElementInfo(env, WithType(t), decl, fields, superClassElement);
            ClassGenerator.GeneratePackageName(decl.name, info) == decl.name.packageName + "." + LowerTypeName(t) &&
            info.prefix + info.className == TypeName(t) + decl.name.simpleName
  {
    TypeNamesNotBlank(t);
    assert Blank("");
  }

  /**
    Two `@Mapped` occurrences on one class that give only the type get
    different companions: the package and the class name differ exactly when
    the types do, so the generators never write the same file.
   */
  lemma DefaultCompanionsDistinct(env: Env, t1: GeneratorType, t2: GeneratorType, decl: ClassDecl, fields: seq<FieldDecl>, superClassElement: Option<ClassDecl>)
    requires decl.name.packageName != ""
    ensures var i1 := CreateElementInfo(env, WithType(t1), decl, fields, superClassElement);
            var i2 := CreateElementInfo(env, WithType(t2), decl, fields, superClassElement);
            (ClassGenerator.GeneratePackageName(decl.name, i1) == ClassGenerator.GeneratePackageName(decl.name, i2) <==> t1 == t2) &&
            (i1.prefix + i1.className == i2.prefix + i2.className <==> t1 == t2)
  {
    DefaultNaming(env, t1, decl, fields, superClassElement);
    DefaultNaming(env, t2, decl, fields, superClassElement);
    HeadCancels(decl.name.packageName + ".", LowerTypeName(t1), LowerTypeName(t2));
    TailCancels(TypeName(t1), TypeName(t2), decl.name.simpleName);
    assert LowerTypeName(t1) == LowerTypeName(t2) ==> t1 == t2 by {
      match t1 case POJO => {} case JSON => {} case XML => {}
    }
    assert TypeName(t1) == TypeName(t2) ==> t1 == t2 by {
      match t1 case POJO => {} case JSON => {} case XML => {}
    }
  }

  /** A common head cancels from both sides of an equation between strings. */
  lemma HeadCancels(head: string, x: string, y: string)
    ensures head + x == head + y <==> x == y
  {
    if head + x == head + y {
      assert (head + x)[|head|..] == x && (head + y)[|head|..] == y;
    }
  }

  /** A common tail cancels from both sides of an equation between strings. */
  lemma TailCancels(x: string, y: string, tail: string)
    ensures x + tail == y + tail <==> x == y
  {
    if x + tail == y + tail {
      assert (x + tail)[..|x|] == x && (y + tail)[..|y|] == y;
    }
  }

  // ---------------------------------------------------------------------
  // Collecting the annotated classes

  /**
    What the collection pass gathers: for every class that got an entry, in
    the order the entries were created, the `ElementInfo`s of its `@Mapped`
    occurrences; and the annotated elements that are not classes, each of
    which draws a warning.
   */
  datatype Collected = Collected(order: seq<ClassName>, infos: map<ClassName, seq<ElementInfo>>, warnings: seq<ClassName>)

  /** The order lists every key of the map exactly once. */
  predicate WellFormed(c: Collected) {
    (forall k :: k in c.order ==> k in c.infos) && (forall k :: k in c.infos ==> k in c.order) &&
    (forall i, j :: 0 <= i < j < |c.order| ==> c.order[i] != c.order[j])
  }

  const NothingCollected := Collected([], map[], [])

  /** Appends one `ElementInfo` to the list of `key`, creating the list first when the class has none. */
  function AppendInfo(c: Collected, key: ClassName, info: ElementInfo): (r: Collected)
    requires WellFormed(c)
    ensures WellFormed(r) && r.warnings == c.warnings
    ensures r.order == (if key in c.infos then c.order else c.order + [key])
    ensures forall k :: k in c.infos && k != key ==> k in r.infos && r.infos[k] == c.infos[k]
    ensures forall k :: k in r.infos ==> k in c.infos || k == key
    ensures key in r.infos && r.infos[key] == (if key in c.infos then c.infos[key] else []) + [info]
  {
    var c1 := if key !in c.infos then c.(order := c.order + [key], infos := c.infos[key := []]) else c;
    c1.(infos := c1.infos[key := c1.infos[key] + [info]])
  }

  /**
    The `ElementInfo` of one `@Mapped` occurrence: the class's own fields,
    merged with the superclass chain's when `inheritFields` is set, and the
    superclass the configured name resolves to.
   */
  function InfoFor(env: Env, decl: ClassDecl, m: Mapped): (r: ElementInfo)
    requires Acyclic(env) && SuperBelow(env, decl)
    ensures r.gtype == Some(m.gtype) && r.element == decl.name
    ensures !m.inheritFields ==> r.fields == decl.fields
    ensures m.inheritFields ==> r.fields == AddSuperclassFields(env, decl, decl.fields)
    ensures r.superclass.Some? <==> m.superclass in env
  {
    var fields := if m.inheritFields then AddSuperclassFields(env, decl, decl.fields) else decl.fields;
    CreateElementInfo(env, m, decl, fields, ResolveName(env, m.superclass))
  }

  lemma AppendAssociative<T>(a: seq<T>, b: seq<T>, c: seq<T>)
    ensures (a + b) + c == a + (b + c)
  {
  }

  /** The `ElementInfo`s of the occurrences, in order. */
  function InfosFor(env: Env, decl: ClassDecl, annotations: seq<Mapped>): (r: seq<ElementInfo>)
    requires Acyclic(env) && SuperBelow(env, decl)
    ensures |r| == |annotations|
    ensures forall i :: 0 <= i < |annotations| ==> r[i] == InfoFor(env, decl, annotations[i])
  {
    seq(|annotations|, i requires 0 <= i < |annotations| => InfoFor(env, decl, annotations[i]))
  }

  /** `AppendInfo` for each `ElementInfo` in turn. */
  function AppendAll(c: Collected, key: ClassName, infos: seq<ElementInfo>): (r: Collected)
    requires WellFormed(c)
    ensures WellFormed(r) && r.warnings == c.warnings
    ensures forall k :: k in c.infos && k != key ==> k in r.infos && r.infos[k] == c.infos[k]
    ensures forall k :: k in r.infos ==> k in c.infos || k == key
    decreases |infos|
  {
    if |infos| == 0 then c else AppendAll(AppendInfo(c, key, infos[0]), key, infos[1..])
  }

  /** Appending one by one appends the whole sequence, after the list the class had, if any. */
  lemma {:induction false} AppendAllAppends(c: Collected, key: ClassName, infos: seq<ElementInfo>)
    requires WellFormed(c)
    ensures var r := AppendAll(c, key, infos);
            var before := if key in c.infos then c.infos[key] else [];
            (key in r.infos <==> key in c.infos || |infos| > 0) &&
            (key in r.infos ==> r.infos[key] == before + infos) &&
            r.order == (if key in c.infos || |infos| == 0 then c.order else c.order + [key])
    decreases |infos|
  {
    var before := if key in c.infos then c.infos[key] else [];
    if |infos| > 0 {
      var c1 := AppendInfo(c, key, infos[0]);
      AppendAllAppends(c1, key, infos[1..]);
      AppendAssociative(before, [infos[0]], infos[1..]);
      assert [infos[0]] + infos[1..] == infos;
    } else {
      assert before + infos == before;
    }
  }

  /**
    `generateClassInformation` for every `@Mapped` occurrence of a class, in
    order: the class gets a list if it has none, and each occurrence appends
    its `ElementInfo`.
   */
  function CollectAnnotations(env: Env, c: Collected, decl: ClassDecl, annotations: seq<Mapped>): (r: Collected)
    requires Acyclic(env) && SuperBelow(env, decl)
    requires WellFormed(c)
    ensures WellFormed(r) && r.warnings == c.warnings
    ensures forall k :: k in c.infos && k != decl.name ==> k in r.infos && r.infos[k] == c.infos[k]
    ensures forall k :: k in r.infos ==> k in c.infos || k == decl.name
  {
    AppendAll(c, decl.name, InfosFor(env, decl, annotations))
  }

  /** An annotated element: a class is collected, anything else draws a warning and is skipped. */
  function CollectElement(env: Env, c: Collected, decl: ClassDecl): (r: Collected)
    requires Acyclic(env) && SuperBelow(env, decl)
    requires WellFormed(c)
    ensures WellFormed(r)
    ensures decl.kind != ClassKind ==> r == c.(warnings := c.warnings + [decl.name])
    ensures decl.kind == ClassKind ==> r == CollectAnnotations(env, c, decl, decl.annotations)
  {
    if decl.kind != ClassKind then c.(warnings := c.warnings + [decl.name])
    else CollectAnnotations(env, c, decl, decl.annotations)
  }

  /** `processMappedClasses`: every annotated element in turn. */
  function ProcessMappedClasses(env: Env, c: Collected, elements: seq<ClassDecl>): (r: Collected)
    requires Acyclic(env) && forall e :: e in elements ==> SuperBelow(env, e)
    requires WellFormed(c)
    ensures WellFormed(r)
    ensures forall k :: k in c.infos && (forall e :: e in elements ==> e.name != k) ==> k in r.infos && r.infos[k] == c.infos[k]
    ensures forall k :: k in r.infos ==> k in c.infos || exists e :: e in elements && e.name == k
    decreases |elements|
  {
    if |elements| == 0 then c
    else
      assert forall e :: e in elements[1..] ==> e in elements;
      ProcessMappedClasses(env, CollectElement(env, c, elements[0]), elements[1..])
  }

  predicate NamesUnique(elements: seq<ClassDecl>) {
    forall i, j :: 0 <= i < j < |elements| ==> elements[i].name != elements[j].name
  }

  lemma NamesUniqueTail(elements: seq<ClassDecl>)
    requires NamesUnique(elements) && |elements| > 0
    ensures NamesUnique(elements[1..])
  {
    var rest := elements[1..];
    forall a, b | 0 <= a < b < |rest|
      ensures rest[a].name != rest[b].name
    {
      assert rest[a] == elements[a + 1] && rest[b] == elements[b + 1];
    }
  }

  /** The entry the collection pass leaves for an element: the `ElementInfo`s of its `@Mapped` occurrences when it is a class that has some, and none otherwise. */
  predicate EntryFor(env: Env, r: Collected, e: ClassDecl)
    requires Acyclic(env) && SuperBelow(env, e)
  {
    (e.name in r.infos <==> e.kind == ClassKind && |e.annotations| > 0) &&
    (e.name in r.infos ==> r.infos[e.name] == InfosFor(env, e, e.annotations))
  }

  /** The elements after the first have other names than the first and than anything collected from it. */
  lemma RestNamesFresh(env: Env, c: Collected, elements: seq<ClassDecl>)
    requires Acyclic(env) && (forall e :: e in elements ==> SuperBelow(env, e)) && WellFormed(c)
    requires NamesUnique(elements) && |elements| > 0 && forall e :: e in elements ==> e.name !in c.infos
    ensures forall e :: e in elements[1..] ==> e.name != elements[0].name && e.name !in CollectElement(env, c, elements[0]).infos
  {
    var rest := elements[1..];
    forall e | e in rest
      ensures e.name != elements[0].name && e in elements
    {
      var j :| 0 <= j < |rest| && rest[j] == e;
      assert elements[j + 1] == e;
    }
  }

  /** The first element's entry is made by its own step and left alone by the later ones. */
  lemma CollectsFirst(env: Env, c: Collected, elements: seq<ClassDecl>)
    requires Acyclic(env) && (forall e :: e in elements ==> SuperBelow(env, e)) && WellFormed(c)
    requires NamesUnique(elements) && |elements| > 0 && forall e :: e in elements ==> e.name !in c.infos
    ensures EntryFor(env, ProcessMappedClasses(env, c, elements), elements[0])
  {
    var e0 := elements[0];
    RestNamesFresh(env, c, elements);
    if e0.kind == ClassKind {
      AppendAllAppends(c, e0.name, InfosFor(env, e0, e0.annotations));
    }
  }

  /**
    What the collection pass yields for annotated elements with distinct
    names that had no entry yet: a class with `@Mapped` occurrences gets the
    list of their `ElementInfo`s, in annotation order; any other element gets
    no entry.
   */
  lemma {:induction false} ProcessMappedClassesCollects(env: Env, c: Collected, elements: seq<ClassDecl>, i: nat)
    requires Acyclic(env) && (forall e :: e in elements ==> SuperBelow(env, e)) && WellFormed(c)
    requires NamesUnique(elements) && forall e :: e in elements ==> e.name !in c.infos
    requires i < |elements|
    ensures EntryFor(env, ProcessMappedClasses(env, c, elements), elements[i])
    decreases |elements|
  {
    var e0 := elements[0];
    var c1 := CollectElement(env, c, e0);
    var rest := elements[1..];
    assert forall e :: e in rest ==> e in elements;
    RestNamesFresh(env, c, elements);
    if i == 0 {
      CollectsFirst(env, c, elements);
    } else {
      assert rest[i - 1] == elements[i];
      NamesUniqueTail(elements);
      ProcessMappedClassesCollects(env, c1, rest, i - 1);
      assert ProcessMappedClasses(env, c, elements) == ProcessMappedClasses(env, c1, rest);
      assert EntryFor(env, ProcessMappedClasses(env, c1, rest), rest[i - 1]);
    }
  }

  /** Every annotated element that is not a class draws a warning. */
  lemma {:induction false} ProcessMappedClassesWarns(env: Env, c: Collected, elements: seq<ClassDecl>, i: nat)
    requires Acyclic(env) && (forall e :: e in elements ==> SuperBelow(env, e)) && WellFormed(c)
    requires i < |elements| && elements[i].kind != ClassKind
    ensures elements[i].name in ProcessMappedClasses(env, c, elements).warnings
    decreases |elements|
  {
    var c1 := CollectElement(env, c, elements[0]);
    assert forall e :: e in elements[1..] ==> e in elements;
    if i == 0 {
      WarningsKept(env, c1, elements[1..], elements[0].name);
    } else {
      assert elements[1..][i - 1] == elements[i];
      ProcessMappedClassesWarns(env, c1, elements[1..], i - 1);
    }
  }

  /** Later elements keep the warnings already drawn. */
  lemma {:induction false} WarningsKept(env: Env, c: Collected, elements: seq<ClassDecl>, n: ClassName)
    requires Acyclic(env) && (forall e :: e in elements ==> SuperBelow(env, e)) && WellFormed(c)
    requires n in c.warnings
    ensures n in ProcessMappedClasses(env, c, elements).warnings
    decreases |elements|
  {
    if |elements| > 0 {
      assert forall e :: e in elements[1..] ==> e in elements;
      var c1 := CollectElement(env, c, elements[0]);
      assert n in c1.warnings;
      WarningsKept(env, c1, elements[1..], n);
    }
  }

  // ---------------------------------------------------------------------
  // process

  /** The jobs of one class: its key with each of its `ElementInfo`s. */
  function JobsOfClass(key: ClassName, infos: seq<ElementInfo>): (r: seq<Job>)
    ensures |r| == |infos|
    ensures forall i :: 0 <= i < |infos| ==> r[i] == Job(key, infos[i])
  {
    seq(|infos|, i requires 0 <= i < |infos| => Job(key, infos[i]))
  }

  /** The collected input in iteration order: class by class, and within a class in list order. */
  function JobsOf(order: seq<ClassName>, infos: map<ClassName, seq<ElementInfo>>): (r: seq<Job>)
    requires forall k :: k in order ==> k in infos
    ensures forall j :: j in r ==> j.key in order && j.info in infos[j.key]
    ensures forall k, info :: k in order && k in infos && info in infos[k] ==> Job(k, info) in r
  {
    if |order| == 0 then []
    else
      var first := JobsOfClass(order[0], infos[order[0]]);
      var rest := JobsOf(order[1..], infos);
      assert forall k :: k in order ==> k == order[0] || k in order[1..];
      assert forall k, info :: k == order[0] && info in infos[k] ==> Job(k, info) in first by {
        forall k, info | k == order[0] && info in infos[k]
          ensures Job(k, info) in first
        {
          var i :| 0 <= i < |infos[k]| && infos[k][i] == info;
          assert first[i] == Job(k, info);
        }
      }
      first + rest
  }

  /** A `null` generator type is treated as POJO. */
  function TypeOrPojo(t: Option<GeneratorType>): (r: GeneratorType)
    ensures t.Some? ==> r == t.value
    ensures t.None? ==> r == POJO
  {
    match t
    case None => POJO
    case Some(v) => v
  }

  /**
    One generator per job, in iteration order, from the factory: the job's
    type (POJO for `null`), its `ElementInfo`, its class, and the whole input.
   */
  function GeneratorsFor(env: Env, input: seq<Job>): (r: seq<Generator>)
    ensures |r| == |input|
    ensures forall i :: 0 <= i < |input| ==>
              Variant(r[i]) == TypeOrPojo(input[i].info.gtype) && r[i].env == env &&
              r[i].info == input[i].info && r[i].annotatedClass == input[i].key && r[i].input == input
  {
    seq(|input|, i requires 0 <= i < |input| =>
      GetClassGenerator(TypeOrPojo(input[i].info.gtype), env, input[i].info, input[i].key, input))
  }

  /** The collected `ElementInfo`s carry the type of their annotation, so the `null` fallback never applies to them. */
  lemma CollectedTypesPresent(env: Env, decl: ClassDecl, annotations: seq<Mapped>, i: nat)
    requires Acyclic(env) && SuperBelow(env, decl) && i < |annotations|
    ensures InfosFor(env, decl, annotations)[i].gtype.Some?
    ensures TypeOrPojo(InfosFor(env, decl, annotations)[i].gtype) == annotations[i].gtype
  {
  }

  /** A generator creates every class of its input without an exception. */
  predicate Succeeds(g: Generator) {
    forall i :: 0 <= i < |g.input| ==> GenerateOne(g, g.input[i]).Ok?
  }

  /** `f` is the class a generator creates for some job of its input. */
  predicate Produces(g: Generator, f: GeneratedFile) {
    exists i :: 0 <= i < |g.input| && GenerateOne(g, g.input[i]) == Ok(f)
  }

  /** `generate` of one generator, seen through what it succeeds at and what it produces. */
  lemma GenerateOutcome(g: Generator)
    ensures Generate(g).1.None? <==> Succeeds(g)
    ensures Generate(g).1.None? ==> |Generate(g).0| == |g.input|
    ensures forall f :: f in Generate(g).0 ==> Produces(g, f)
  {
    var files := Generate(g).0;
    forall f | f in files
      ensures Produces(g, f)
    {
      var i :| 0 <= i < |files| && files[i] == f;
      assert GenerateOne(g, g.input[i]) == Ok(f);
    }
  }

  /**
    Runs `run` on each generator in order and stops at the first that fails,
    keeping what that one wrote; `ok` and `made` are what each run is known
    to say about success and about the files it writes.
   */
  method RunAll<G, T>(gens: seq<G>, run: G -> (seq<T>, Option<Failure>), ok: G -> bool, made: (G, T) -> bool, n: nat)
    returns (written: seq<T>, failure: Option<Failure>)
    requires forall a :: 0 <= a < |gens| ==> (run(gens[a]).1.None? <==> ok(gens[a]))
    requires forall a :: 0 <= a < |gens| ==> (run(gens[a]).1.None? ==> |run(gens[a]).0| == n)
    requires forall a, f :: 0 <= a < |gens| && f in run(gens[a]).0 ==> made(gens[a], f)
    ensures failure.None? <==> forall a :: 0 <= a < |gens| ==> ok(gens[a])
    ensures failure.None? ==> |written| == |gens| * n
    ensures forall f :: f in written ==> exists a :: 0 <= a < |gens| && made(gens[a], f)
  {
    written := [];
    var a := 0;
    while a < |gens|
      invariant a <= |gens|
      invariant |written| == a * n
      invariant forall b :: 0 <= b < a ==> ok(gens[b])
      invariant forall f :: f in written ==> exists b :: 0 <= b < a && made(gens[b], f)
    {
      var files := run(gens[a]).0;
      var fail := run(gens[a]).1;
      if fail.Some? {
        written := written + files;
        return written, fail;
      }
      written := written + files;
      assert (a + 1) * n == a * n + n;
      a := a + 1;
    }
    failure := None;
  }

  /**
    `process`: collects the annotated elements, then runs one generator per
    collected `ElementInfo` over the whole collected input. The warnings are
    those of the collection pass.
   */
  method Process(env: Env, elements: seq<ClassDecl>) returns (written: seq<GeneratedFile>, warnings: seq<ClassName>, failure: Option<Failure>)
    requires Acyclic(env) && forall e :: e in elements ==> SuperBelow(env, e)
    ensures var c := ProcessMappedClasses(env, NothingCollected, elements);
            var input := JobsOf(c.order, c.infos);
            var gens := GeneratorsFor(env, input);
            warnings == c.warnings &&
            (failure.None? <==> forall a :: 0 <= a < |gens| ==> Succeeds(gens[a])) &&
            (failure.None? ==> |written| == |input| * |input|) &&
            (forall f :: f in written ==> exists a :: 0 <= a < |gens| && Produces(gens[a], f))
  {
    var c := ProcessMappedClasses(env, NothingCollected, elements);
    var input := JobsOf(c.order, c.infos);
    var gens := GeneratorsFor(env, input);
    forall a | 0 <= a < |gens|
      ensures Generate(gens[a]).1.None? <==> Succeeds(gens[a])
      ensures Generate(gens[a]).1.None? ==> |Generate(gens[a]).0| == |input|
      ensures forall f :: f in Generate(gens[a]).0 ==> Produces(gens[a], f)
    {
      GenerateOutcome(gens[a]);
    }
    written, failure := RunAll(gens, Generate, Succeeds, Produces, |input|);
    warnings := c.warnings;
  }
}
