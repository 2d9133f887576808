/**
  The logic every generator shares (`ClassGenerator`): accessor names, the
  package of a generated class, the companion type of a mapped class, the
  container substitution of collection types, and the plans of the
  constructor, setter, getter and `toString` methods.
 */
module ClassGenerator {
  import opened Lang
  import opened Annotation
  import opened JavaModel
  import opened StringUtil
  import opened Info
  import opened CodeModel

  /** The compiler view a generator works against, and the generator type its mapped checks look for. */
  datatype Ctx = Ctx(env: Env, variant: GeneratorType)

  /** `fieldIsMapped(field)`: the field's type is a class carrying `@Mapped` of the generator's type. */
  predicate FieldIsMapped(ctx: Ctx, f: FieldDecl) {
    FieldTypeIsMapped(ctx.env, f.ftype, ctx.variant)
  }

  // ---------------------------------------------------------------------
  // Names

  /** `generateGetterName`; `isBoolean` is a `Boolean` and may be `null`, which counts as false. */
  function GetterName(info: ElementInfo, fieldName: string, isBoolean: Option<bool>): (r: string)
    ensures info.fluentAccessors ==> r == Uncapitalise(fieldName)
    ensures !info.fluentAccessors ==>
              var prefix := if isBoolean == Some(true) then "is" else "get";
              |r| == |prefix| + |fieldName| && r[..|prefix|] == prefix && r[|prefix|..] == Capitalise(fieldName)
  {
    if info.fluentAccessors then Uncapitalise(fieldName)
    else (if isBoolean == Some(true) then "is" else "get") + Capitalise(fieldName)
  }

  /** `generateSetterName`. */
  function SetterName(info: ElementInfo, fieldName: string): (r: string)
    ensures info.fluentAccessors ==> r == Uncapitalise(fieldName)
    ensures !info.fluentAccessors ==> |r| == 3 + |fieldName| && r[..3] == "set" && r[3..] == Capitalise(fieldName)
  {
    if info.fluentAccessors then Uncapitalise(fieldName) else "set" + Capitalise(fieldName)
  }

  /** The property name comes back from either accessor name of a field that starts lower-case. */
  lemma AccessorNameRoundTrip(info: ElementInfo, fieldName: Identifier, isBoolean: Option<bool>)
    requires !IsUpper(fieldName[0])
    ensures var g := GetterName(info, fieldName, isBoolean);
            var k := if info.fluentAccessors then 0 else if isBoolean == Some(true) then 2 else 3;
            Uncapitalise(g[k..]) == fieldName
    ensures var s := SetterName(info, fieldName);
            Uncapitalise(if info.fluentAccessors then s else s[3..]) == fieldName
  {
    UncapitaliseCapitalise(fieldName);
    assert Uncapitalise(fieldName) == fieldName;
  }

  /** Getter and setter of a field share their name exactly when accessors are fluent. */
  lemma AccessorNamesCollideIffFluent(info: ElementInfo, fieldName: string, isBoolean: Option<bool>)
    ensures GetterName(info, fieldName, isBoolean) == SetterName(info, fieldName) <==> info.fluentAccessors
  {
    if !info.fluentAccessors {
      var g, s := GetterName(info, fieldName, isBoolean), SetterName(info, fieldName);
      assert g[0] != s[0];
    }
  }

  // ---------------------------------------------------------------------
  // Packages and companion types

  /** `generatePackageName`: an explicit package wins; otherwise the original package, extended by a non-blank sub-package. */
  function GeneratePackageName(key: ClassName, info: ElementInfo): (r: string)
    ensures !Blank(info.packageName) ==> r == info.packageName
    ensures Blank(info.packageName) ==>
              |r| >= |key.packageName| && r[..|key.packageName|] == key.packageName &&
              (r == key.packageName <==> Blank(info.subpackageName)) &&
              (!Blank(info.subpackageName) ==> r[|key.packageName|..] == "." + info.subpackageName)
  {
    if !Blank(info.packageName) then info.packageName
    else if !Blank(info.subpackageName) then key.packageName + "." + info.subpackageName
    else key.packageName
  }

  /** The sub-package only matters when no explicit package is given. */
  lemma ExplicitPackageIgnoresSubpackage(key: ClassName, info: ElementInfo, sub: string)
    requires !Blank(info.packageName)
    ensures GeneratePackageName(key, info.(subpackageName := sub)) == GeneratePackageName(key, info)
    ensures GeneratePackageName(key, info) == GeneratePackageName(ClassName(sub, key.simpleName), info)
  {
  }

  /** The generated class of a mapped class: prefix + simple name, in the generated package. */
  function Companion(info: ElementInfo, c: ClassName): (r: ClassName)
    ensures r.packageName == GeneratePackageName(c, info)
    ensures |r.simpleName| == |info.prefix| + |c.simpleName|
    ensures r.simpleName[..|info.prefix|] == info.prefix && r.simpleName[|info.prefix|..] == c.simpleName
  {
    ClassName(GeneratePackageName(c, info), info.prefix + c.simpleName)
  }

  /** Two classes of one package get the same companion only if they are the same class. */
  lemma CompanionInjective(info: ElementInfo, a: ClassName, b: ClassName)
    requires a.packageName == b.packageName
    requires Companion(info, a) == Companion(info, b)
    ensures a == b
  {
    var ra, rb := Companion(info, a), Companion(info, b);
    assert a.simpleName == ra.simpleName[|info.prefix|..] == rb.simpleName[|info.prefix|..] == b.simpleName;
  }

  /** The type that stands for `t` in the companion: the companion of a mapped class, `t` itself otherwise. */
  function CollectType(ctx: Ctx, info: ElementInfo, t: TypeRef): (r: TypeRef)
    ensures FieldTypeIsMapped(ctx.env, t, ctx.variant) ==> r == Plain(Companion(info, t.cls))
    ensures !FieldTypeIsMapped(ctx.env, t, ctx.variant) ==> r == t
  {
    if FieldTypeIsMapped(ctx.env, t, ctx.variant) then Plain(Companion(info, t.cls)) else t
  }

  /**
    `collectTypes`: every type argument that names a mapped class is replaced
    by its companion; all others stay as they are.
   */
  function CollectTypes(ctx: Ctx, info: ElementInfo, args: seq<TypeRef>): (r: seq<TypeRef>)
    ensures |r| == |args|
    ensures forall i :: 0 <= i < |args| ==> r[i] == CollectType(ctx, info, args[i])
  {
    seq(|args|, i requires 0 <= i < |args| => CollectType(ctx, info, args[i]))
  }

  /** With no mapped argument the arguments are kept as they are. */
  lemma CollectTypesUnmapped(ctx: Ctx, info: ElementInfo, args: seq<TypeRef>)
    requires forall i :: 0 <= i < |args| ==> !FieldTypeIsMapped(ctx.env, args[i], ctx.variant)
    ensures CollectTypes(ctx, info, args) == args
  {
  }

  // ---------------------------------------------------------------------
  // Modifiers

  /** `isMethodFinalPrivateStatic`: the field is a constant and gets no member in the companion. */
  predicate IsConstant(f: FieldDecl) {
    Final in f.modifiers && Private in f.modifiers && Static in f.modifiers
  }

  // ---------------------------------------------------------------------
  // Container classification

  /** Which container interface a declared type is assignable to, in the order the generators test them. */
  datatype ContainerKind = CollectionLike | SetLike | MapLike | NotContainer

  function ContainerOf(t: TypeRef): (k: ContainerKind)
    ensures k == CollectionLike <==> AssignableTo(t, CollectionName)
    ensures k == SetLike <==> !AssignableTo(t, CollectionName) && AssignableTo(t, SetName)
    ensures k == MapLike <==> !AssignableTo(t, CollectionName) && !AssignableTo(t, SetName) && AssignableTo(t, MapName)
  {
    if AssignableTo(t, CollectionName) then CollectionLike
    else if AssignableTo(t, SetName) then SetLike
    else if AssignableTo(t, MapName) then MapLike
    else NotContainer
  }

  /** Every `Set` is a `Collection`, so the Set branch is never taken: Sets are handled as Lists. */
  lemma SetBranchUnreachable(t: TypeRef)
    requires HierarchyConsistent(t)
    ensures ContainerOf(t) != SetLike
    ensures AssignableTo(t, SetName) ==> ContainerOf(t) == CollectionLike
  {
  }

  /**
    `checkFieldTypeForCollections`: a Collection (and so a Set) becomes
    `List<T'>`, a Map `Map<K',V'>` with the collected type arguments; every
    other type keeps `fieldType`. A raw container has too few type arguments,
    and `get(0)`/`get(1)` throws.
   */
  function CheckFieldTypeForCollections(ctx: Ctx, info: ElementInfo, t: TypeRef, fieldType: TypeRef): (r: Result<TypeRef>)
    ensures !t.Declared? ==> r == Ok(fieldType)
    ensures t.Declared? && ContainerOf(t) == NotContainer ==> r == Ok(fieldType)
    ensures t.Declared? && ContainerOf(t) in {CollectionLike, SetLike} ==>
              (r.Err? <==> |t.args| == 0) &&
              (r.Ok? ==> r.value.Declared? && r.value.args == [CollectTypes(ctx, info, t.args)[0]] &&
                         r.value.cls == (if ContainerOf(t) == CollectionLike then ListClass else SetClass))
    ensures t.Declared? && ContainerOf(t) == MapLike ==>
              (r.Err? <==> |t.args| < 2) &&
              (r.Ok? ==> r.value.Declared? && r.value.cls == MapClass && r.value.args == CollectTypes(ctx, info, t.args)[..2])
    ensures r.Err? ==> r.failure == IndexOutOfBounds
  {
    if !t.Declared? then Ok(fieldType)
    else
      var dest := CollectTypes(ctx, info, t.args);
      match ContainerOf(t)
      case CollectionLike => if |dest| < 1 then Err(IndexOutOfBounds) else Ok(Declared(ListClass, [dest[0]], {}))
      case SetLike => if |dest| < 1 then Err(IndexOutOfBounds) else Ok(Declared(SetClass, [dest[0]], {}))
      case MapLike =>
        if |dest| < 2 then Err(IndexOutOfBounds)
        else
          assert dest[..2] == [dest[0], dest[1]];
          Ok(Declared(MapClass, [dest[0], dest[1]], {}))
      case NotContainer => Ok(fieldType)
  }

  /** A Set field gets a List type in the companion (the JDK hierarchy makes every Set a Collection). */
  lemma SetFieldBecomesList(ctx: Ctx, info: ElementInfo, t: TypeRef, fieldType: TypeRef)
    requires t.Declared? && |t.args| > 0 && HierarchyConsistent(t) && AssignableTo(t, SetName)
    ensures CheckFieldTypeForCollections(ctx, info, t, fieldType).Ok?
    ensures CheckFieldTypeForCollections(ctx, info, t, fieldType).value.cls == ListClass
  {
    SetBranchUnreachable(t);
  }

  /** A list of mapped elements is typed with the companion: `List<Foo>` becomes `List<PFoo>`. */
  lemma MappedElementsRetyped(ctx: Ctx, info: ElementInfo, t: TypeRef, fieldType: TypeRef)
    requires t.Declared? && |t.args| == 1 && AssignableTo(t, CollectionName)
    requires FieldTypeIsMapped(ctx.env, t.args[0], ctx.variant)
    ensures CheckFieldTypeForCollections(ctx, info, t, fieldType) ==
            Ok(Declared(ListClass, [Plain(Companion(info, t.args[0].cls))], {}))
  {
  }

  /**
    The type a non-transient field is stored with, as every `createFieldSpec`
    computes it: the companion when the field is mapped, then the container
    substitution of its declared type.
   */
  function StoredFieldType(ctx: Ctx, info: ElementInfo, f: FieldDecl, fieldClass: TypeRef, fieldIsMapped: bool): (r: Result<TypeRef>)
    ensures fieldIsMapped && f.ftype.Declared? ==>
              r == CheckFieldTypeForCollections(ctx, info, f.ftype, Plain(Companion(info, f.ftype.cls)))
    ensures !(fieldIsMapped && f.ftype.Declared?) ==> r == CheckFieldTypeForCollections(ctx, info, f.ftype, fieldClass)
  {
    var fieldType := if fieldIsMapped && f.ftype.Declared? then Plain(Companion(info, f.ftype.cls)) else fieldClass;
    CheckFieldTypeForCollections(ctx, info, f.ftype, fieldType)
  }

  /** A mapped field of a plain class type is stored with its companion type. */
  lemma MappedFieldStoredAsCompanion(ctx: Ctx, info: ElementInfo, f: FieldDecl, fieldClass: TypeRef)
    requires FieldIsMapped(ctx, f) && ContainerOf(f.ftype) == NotContainer
    ensures StoredFieldType(ctx, info, f, fieldClass, true) == Ok(Plain(Companion(info, f.ftype.cls)))
  {
  }

  // ---------------------------------------------------------------------
  // Member plans

  /** The no-argument constructor, stored under "_constructor". */
  function NoArgsConstructor(methods: Methods): (r: Methods)
    ensures "_constructor" in r && r["_constructor"].params == [] && r["_constructor"].body == []
    ensures forall k :: k in methods && k != "_constructor" ==> k in r && r[k] == methods[k]
    ensures r.Keys == methods.Keys + {"_constructor"}
  {
    methods["_constructor" := MethodSpec("_constructor", false, [], None, [], [])]
  }

  /** The kinds for which a setter copies nothing: package, module, error, executable, union and null types. */
  predicate NoValueKind(t: TypeRef) {
    t.Other? && t.kind in {PackageKind, ModuleKind, ErrorKind, ExecutableKind, UnionKind, NullKind}
  }

  /** The assignment part of a setter body. */
  function SetterAssignments(ctx: Ctx, info: ElementInfo, f: FieldDecl): (r: Result<seq<Stmt>>)
    ensures r.Err? <==> f.ftype.Declared? && |f.ftype.args| > 0 && !AllResolve(ctx.env, f.ftype.args)
    ensures r.Err? ==> r.failure == NullPointer
    ensures f.ftype.ArrayOf? ==> r == Ok([AssignField(f.name, CloneOf(f.name))])
    ensures NoValueKind(f.ftype) ==> r == Ok([])
    ensures (f.ftype.Primitive? || (f.ftype.Other? && !NoValueKind(f.ftype)) || (f.ftype.Declared? && f.ftype.args == [])) ==>
              r == Ok([AssignField(f.name, Var(f.name))])
    ensures f.ftype.Declared? && |f.ftype.args| > 0 && r.Ok? ==>
              var created := NewContainer(ArrayListImpl, CollectTypes(ctx, info, f.ftype.args));
              match ContainerOf(f.ftype)
              case CollectionLike => r.value == [AssignField(f.name, created), AddAll(f.name, f.name)]
              case SetLike => r.value == [AssignField(f.name, created.(impl := HashSetImpl)), AddAll(f.name, f.name)]
              case MapLike => r.value == [AssignField(f.name, created.(impl := HashMapImpl)), PutAll(f.name, f.name)]
              case NotContainer => r.value == []
  {
    var t := f.ftype;
    var n := f.name;
    match t
    case Declared(_, args, _) =>
      if |args| == 0 then Ok([AssignField(n, Var(n))])
      else
        var _ :- ArgumentsMapped(ctx.env, args, ctx.variant);
        var typeArgs := CollectTypes(ctx, info, args);
        (match ContainerOf(t)
         case CollectionLike => Ok([AssignField(n, NewContainer(ArrayListImpl, typeArgs)), AddAll(n, n)])
         case SetLike => Ok([AssignField(n, NewContainer(HashSetImpl, typeArgs)), AddAll(n, n)])
         case MapLike => Ok([AssignField(n, NewContainer(HashMapImpl, typeArgs)), PutAll(n, n)])
         case NotContainer => Ok([]))
    case ArrayOf(_) => Ok([AssignField(n, CloneOf(n))])
    case Primitive(_) => Ok([AssignField(n, Var(n))])
    case Other(_, _) => if NoValueKind(t) then Ok([]) else Ok([AssignField(n, Var(n))])
  }

  /** The type a chained setter returns: the generated class in the configured package, as written. */
  function ChainedReturnType(info: ElementInfo): (r: TypeRef)
    ensures r == Plain(ClassName(info.packageName, info.prefix + info.className))
  {
    Plain(ClassName(info.packageName, info.prefix + info.className))
  }

  /**
    `createSetterMethodSpec`: the parameter has the container-adjusted type,
    the body stores the value, and chained setters end with `return this`.
   */
  function SetterPlan(ctx: Ctx, info: ElementInfo, f: FieldDecl, fieldTypeName: TypeRef): (r: Result<MethodSpec>)
    ensures r.Ok? <==> CheckFieldTypeForCollections(ctx, info, f.ftype, fieldTypeName).Ok? && SetterAssignments(ctx, info, f).Ok?
    ensures r.Err? && CheckFieldTypeForCollections(ctx, info, f.ftype, fieldTypeName).Err? ==> r.failure == IndexOutOfBounds
    ensures r.Ok? ==>
              var m := r.value;
              m.name == SetterName(info, f.name) && !m.isStatic &&
              m.params == [Param(CheckFieldTypeForCollections(ctx, info, f.ftype, fieldTypeName).value, f.name)] &&
              (info.chainedSetters ==> m.body == SetterAssignments(ctx, info, f).value + [ReturnThis] &&
                                       m.returnType == Some(ChainedReturnType(info))) &&
              (!info.chainedSetters ==> m.body == SetterAssignments(ctx, info, f).value && m.returnType.None?)
  {
    var paramType :- CheckFieldTypeForCollections(ctx, info, f.ftype, fieldTypeName);
    var body :- SetterAssignments(ctx, info, f);
    if info.chainedSetters then
      Ok(MethodSpec(SetterName(info, f.name), false, [Param(paramType, f.name)], Some(ChainedReturnType(info)), body + [ReturnThis], []))
    else
      Ok(MethodSpec(SetterName(info, f.name), false, [Param(paramType, f.name)], None, body, []))
  }

  /** A chained setter's last statement is `return this`; an unchained one never contains it. */
  lemma ChainedSetterReturnsThis(ctx: Ctx, info: ElementInfo, f: FieldDecl, fieldTypeName: TypeRef)
    requires SetterPlan(ctx, info, f, fieldTypeName).Ok?
    ensures var m := SetterPlan(ctx, info, f, fieldTypeName).value;
            (info.chainedSetters ==> |m.body| > 0 && m.body[|m.body| - 1] == ReturnThis) &&
            (!info.chainedSetters ==> ReturnThis !in m.body)
  {
    var m := SetterPlan(ctx, info, f, fieldTypeName).value;
    var a := SetterAssignments(ctx, info, f).value;
    if info.chainedSetters {
      assert m.body == a + [ReturnThis];
    } else {
      AssignmentsNeverReturn(ctx, info, f);
    }
  }

  /** The copy statements of a setter only assign and fill fields. */
  lemma AssignmentsNeverReturn(ctx: Ctx, info: ElementInfo, f: FieldDecl)
    requires SetterAssignments(ctx, info, f).Ok?
    ensures ReturnThis !in SetterAssignments(ctx, info, f).value
  {
    var a := SetterAssignments(ctx, info, f).value;
    var t := f.ftype;
    var n := f.name;
    if t.Declared? && |t.args| > 0 {
      assert |a| == 0 || a[0].AssignField?;
      assert |a| == 0 || a == [a[0], AddAll(n, n)] || a == [a[0], PutAll(n, n)];
    } else {
      assert a == [] || a == [AssignField(n, CloneOf(n))] || a == [AssignField(n, Var(n))];
    }
  }

  /** Only `java.lang.Boolean` takes the "is" form; a primitive `boolean` gets "get". */
  predicate IsBoxedBoolean(fieldTypeName: TypeRef) {
    Text(fieldTypeName) == "java.lang.Boolean"
  }

  /** `createGetterMethodSpec`: returns the field, typed like the setter's parameter. */
  function GetterPlan(ctx: Ctx, info: ElementInfo, f: FieldDecl, fieldTypeName: TypeRef): (r: Result<MethodSpec>)
    ensures r.Ok? <==> CheckFieldTypeForCollections(ctx, info, f.ftype, fieldTypeName).Ok?
    ensures r.Err? ==> r.failure == IndexOutOfBounds
    ensures r.Ok? ==>
              r.value.name == GetterName(info, f.name, Some(IsBoxedBoolean(fieldTypeName))) &&
              r.value.params == [] && r.value.body == [Return(Var(f.name))] &&
              r.value.returnType == Some(CheckFieldTypeForCollections(ctx, info, f.ftype, fieldTypeName).value)
  {
    var returnType :- CheckFieldTypeForCollections(ctx, info, f.ftype, fieldTypeName);
    Ok(MethodSpec(GetterName(info, f.name, Some(IsBoxedBoolean(fieldTypeName))), false, [], Some(returnType),
                  [Return(Var(f.name))], []))
  }

  /** The getter returns the type the setter accepts. */
  lemma GetterMatchesSetter(ctx: Ctx, info: ElementInfo, f: FieldDecl, fieldTypeName: TypeRef)
    requires SetterPlan(ctx, info, f, fieldTypeName).Ok?
    ensures GetterPlan(ctx, info, f, fieldTypeName).Ok?
    ensures GetterPlan(ctx, info, f, fieldTypeName).value.returnType ==
            Some(SetterPlan(ctx, info, f, fieldTypeName).value.params[0].ptype)
  {
  }

  // ---------------------------------------------------------------------
  // toString

  /** The text a `toString` body produces, given the text of each field's value. */
  function RenderAppends(appends: seq<Stmt>, value: string -> string): string {
    if |appends| == 0 then ""
    else
      var head := match appends[0]
                  case StringRepAppend(n, sep) => n + "=" + value(n) + (if sep then ", " else "")
                  case _ => "";
      head + RenderAppends(appends[1..], value)
  }

  function RenderToString(className: string, body: seq<Stmt>, value: string -> string): string
    requires |body| >= 3
  {
    className + "(" + RenderAppends(body[1..|body| - 2], value) + ")"
  }

  /** The "name=value" entries joined by ", ": what a `toString` over these fields means to print. */
  function Entries(names: seq<string>, value: string -> string): seq<string> {
    seq(|names|, i requires 0 <= i < |names| => names[i] + "=" + value(names[i]))
  }

  /** The fields `toString` covers: every field that is not a constant, in declaration order. */
  function NonConstant(fields: seq<FieldDecl>): (r: seq<FieldDecl>)
    ensures |r| <= |fields|
    ensures forall g :: g in r <==> g in fields && !IsConstant(g)
  {
    if |fields| == 0 then []
    else
      var rest := NonConstant(fields[1..]);
      assert forall g :: g in fields <==> g == fields[0] || g in fields[1..];
      if IsConstant(fields[0]) then rest else [fields[0]] + rest
  }

  /**
    The appends as written: a field gets the ", " separator unless it is the
    last field of the unfiltered list.
   */
  function AppendsAsWritten(fields: seq<FieldDecl>, last: FieldDecl): (r: seq<Stmt>)
    ensures |r| == |NonConstant(fields)|
    ensures forall i :: 0 <= i < |r| ==> r[i] == StringRepAppend(NonConstant(fields)[i].name, NonConstant(fields)[i] != last)
  {
    if |fields| == 0 then []
    else
      var rest := AppendsAsWritten(fields[1..], last);
      if IsConstant(fields[0]) then rest
      else [StringRepAppend(fields[0].name, fields[0] != last)] + rest
  }

  /** `createToString` as written. */
  function ToStringAsWritten(info: ElementInfo): (m: MethodSpec)
    ensures m.name == "toString" && m.params == [] && |m.body| == |NonConstant(info.fields)| + 3
    ensures m.body[0] == StringRepStart && m.body[|m.body| - 2] == StringRepClose
  {
    var appends := if |info.fields| == 0 then [] else AppendsAsWritten(info.fields, info.fields[|info.fields| - 1]);
    MethodSpec("toString", false, [], Some(Plain(ClassName("java.lang", "String"))),
               [StringRepStart] + appends + [StringRepClose, Return(Var("stringRep"))], [])
  }

  /**
    As written, a constant declared last leaves a dangling separator: every
    covered field is followed by ", ", so the method prints the entries of the
    covered fields joined by ", " and one more ", " before ")" (for fields `a`
    and a constant `K`, "C(a=v, )").
   */
  lemma ToStringTrailingSeparator(info: ElementInfo, className: string, value: string -> string)
    requires |info.fields| > 0 && IsConstant(info.fields[|info.fields| - 1])
    requires |NonConstant(info.fields)| > 0
    ensures RenderToString(className, ToStringAsWritten(info).body, value) ==
            className + "(" + Join(Entries(Names(NonConstant(info.fields)), value), ", ") + ", " + ")"
  {
    var last := info.fields[|info.fields| - 1];
    var body := ToStringAsWritten(info).body;
    assert body[1..|body| - 2] == AppendsAsWritten(info.fields, last);
    AsWrittenAllSeparated(info.fields, last);
    RenderSeparated(Names(NonConstant(info.fields)), value);
  }

  /** When the last declared field is a constant, no covered field is it, so every append carries the separator. */
  lemma AsWrittenAllSeparated(fields: seq<FieldDecl>, last: FieldDecl)
    requires IsConstant(last)
    ensures AppendsAsWritten(fields, last) == Separated(Names(NonConstant(fields)))
  {
    var covered := NonConstant(fields);
    var appends := AppendsAsWritten(fields, last);
    forall i | 0 <= i < |covered| ensures appends[i] == Separated(Names(covered))[i] {
      assert covered[i] in covered;
    }
  }

  /** Every entry followed by the separator, as the appends as written are when the last declared field is a constant. */
  function Separated(names: seq<string>): (r: seq<Stmt>)
    ensures |r| == |names| && forall i :: 0 <= i < |names| ==> r[i] == StringRepAppend(names[i], true)
  {
    seq(|names|, i requires 0 <= i < |names| => StringRepAppend(names[i], true))
  }

  /** Appends that all carry the separator print the joined entries and a trailing ", ". */
  lemma {:induction false} RenderSeparated(names: seq<string>, value: string -> string)
    requires |names| > 0
    ensures RenderAppends(Separated(names), value) == Join(Entries(names, value), ", ") + ", "
    decreases |names|
  {
    var a := Separated(names);
    var e := Entries(names, value);
    if |names| == 1 {
      assert a[1..] == [];
      assert RenderAppends(a, value) == e[0] + ", " + RenderAppends(a[1..], value);
    } else {
      assert a[1..] == Separated(names[1..]);
      assert e[1..] == Entries(names[1..], value);
      RenderSeparated(names[1..], value);
      assert RenderAppends(a, value) == e[0] + ", " + RenderAppends(a[1..], value);
      assert Join(e, ", ") == e[0] + ", " + Join(e[1..], ", ");
    }
  }

  lemma RenderSingle(n: string, sep: bool, value: string -> string)
    ensures RenderAppends([StringRepAppend(n, sep)], value) == n + "=" + value(n) + (if sep then ", " else "")
  {
    assert [StringRepAppend(n, sep)][1..] == [];
  }

  /** The corrected appends: the separator follows every covered field except the last covered one. */
  function Appends(names: seq<string>): (r: seq<Stmt>)
    ensures |r| == |names|
    ensures forall i :: 0 <= i < |r| ==> r[i] == StringRepAppend(names[i], i != |names| - 1)
  {
    if |names| == 0 then []
    else if |names| == 1 then [StringRepAppend(names[0], false)]
    else [StringRepAppend(names[0], true)] + Appends(names[1..])
  }

  function Names(fields: seq<FieldDecl>): (r: seq<string>)
    ensures |r| == |fields| && forall i :: 0 <= i < |r| ==> r[i] == fields[i].name
  {
    seq(|fields|, i requires 0 <= i < |fields| => fields[i].name)
  }

  /** `createToString` with the separator placed between covered fields only. */
  function ToString(info: ElementInfo): (m: MethodSpec)
    ensures m.name == "toString" && m.params == [] && |m.body| == |NonConstant(info.fields)| + 3
    ensures m.body[0] == StringRepStart && m.body[|m.body| - 2] == StringRepClose
    ensures m.body[|m.body| - 1] == Return(Var("stringRep"))
  {
    MethodSpec("toString", false, [], Some(Plain(ClassName("java.lang", "String"))),
               [StringRepStart] + Appends(Names(NonConstant(info.fields))) + [StringRepClose, Return(Var("stringRep"))], [])
  }

  lemma {:induction false} RenderAppendsJoin(names: seq<string>, value: string -> string)
    ensures RenderAppends(Appends(names), value) == Join(Entries(names, value), ", ")
    decreases |names|
  {
    if |names| == 1 {
      var a := Appends(names);
      assert a[1..] == [];
    } else if |names| > 1 {
      var a := Appends(names);
      var e := Entries(names, value);
      assert a[1..] == Appends(names[1..]);
      RenderAppendsJoin(names[1..], value);
      assert e[1..] == Entries(names[1..], value);
      assert RenderAppends(a, value) == names[0] + "=" + value(names[0]) + ", " + RenderAppends(a[1..], value);
      assert Join(e, ", ") == e[0] + ", " + Join(e[1..], ", ");
    }
  }

  /** The corrected method prints the class name and the "name=value" entries of the covered fields, joined by ", ". */
  lemma ToStringPrintsEntries(info: ElementInfo, className: string, value: string -> string)
    ensures RenderToString(className, ToString(info).body, value) ==
            className + "(" + Join(Entries(Names(NonConstant(info.fields)), value), ", ") + ")"
  {
    var names := Names(NonConstant(info.fields));
    var body := ToString(info).body;
    assert body[1..|body| - 2] == Appends(names);
    RenderAppendsJoin(names, value);
  }

  /** Where the last declared field is not a constant, both versions emit the same method. */
  lemma ToStringAgreesWhenLastCovered(info: ElementInfo)
    requires |info.fields| > 0 && !IsConstant(info.fields[|info.fields| - 1])
    requires forall i, j :: 0 <= i < j < |info.fields| ==> info.fields[i] != info.fields[j]
    ensures ToStringAsWritten(info) == ToString(info)
  {
    AppendsAgree(info.fields);
  }

  lemma {:induction false} AppendsAgree(fs: seq<FieldDecl>)
    requires |fs| > 0 && !IsConstant(fs[|fs| - 1])
    requires forall i, j :: 0 <= i < j < |fs| ==> fs[i] != fs[j]
    ensures AppendsAsWritten(fs, fs[|fs| - 1]) == Appends(Names(NonConstant(fs)))
  {
    var nc := NonConstant(fs);
    NonConstantEndsWith(fs);
    NonConstantDistinct(fs);
    SeparatorAgrees(nc, fs[|fs| - 1], AppendsAsWritten(fs, fs[|fs| - 1]));
  }

  /** In a list without repetitions that ends with `last`, "is not `last`" means "is not at the end". */
  lemma SeparatorAgrees(nc: seq<FieldDecl>, last: FieldDecl, a: seq<Stmt>)
    requires |nc| > 0 && nc[|nc| - 1] == last
    requires forall i, j :: 0 <= i < j < |nc| ==> nc[i] != nc[j]
    requires |a| == |nc| && forall i :: 0 <= i < |a| ==> a[i] == StringRepAppend(nc[i].name, nc[i] != last)
    ensures a == Appends(Names(nc))
  {
    var b := Appends(Names(nc));
    forall i | 0 <= i < |nc|
      ensures a[i] == b[i]
    {
      if i != |nc| - 1 {
        assert nc[i] != nc[|nc| - 1];
      }
    }
  }

  lemma {:induction false} NonConstantEndsWith(fs: seq<FieldDecl>)
    requires |fs| > 0 && !IsConstant(fs[|fs| - 1])
    ensures |NonConstant(fs)| > 0 && NonConstant(fs)[|NonConstant(fs)| - 1] == fs[|fs| - 1]
    decreases |fs|
  {
    if |fs| > 1 {
      assert fs[1..][|fs[1..]| - 1] == fs[|fs| - 1];
      NonConstantEndsWith(fs[1..]);
    }
  }

  lemma {:induction false} NonConstantDistinct(fs: seq<FieldDecl>)
    requires forall i, j :: 0 <= i < j < |fs| ==> fs[i] != fs[j]
    ensures forall i, j :: 0 <= i < j < |NonConstant(fs)| ==> NonConstant(fs)[i] != NonConstant(fs)[j]
    decreases |fs|
  {
    if |fs| > 0 {
      var rest := NonConstant(fs[1..]);
      NonConstantDistinct(fs[1..]);
      if !IsConstant(fs[0]) {
        assert fs[0] !in fs[1..];
        assert fs[0] !in rest;
        var r := NonConstant(fs);
        assert r == [fs[0]] + rest;
        forall i, j | 0 <= i < j < |r| ensures r[i] != r[j] {
          if i == 0 {
            assert r[j] == rest[j - 1];
            assert rest[j - 1] in rest;
          } else {
            assert r[i] == rest[i - 1] && r[j] == rest[j - 1];
          }
        }
      }
    }
  }
}
