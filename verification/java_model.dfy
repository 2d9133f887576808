/**
  The compiler's view of the annotated code, as plain data: class names,
  types, fields, and the declarations the element utilities can find by
  canonical name.
 */
module JavaModel {
  import opened Lang
  import opened Annotation

  /** A class name: its package ("" for the unnamed package) and its simple name. */
  datatype ClassName = ClassName(packageName: string, simpleName: Identifier)

  function CanonicalName(c: ClassName): (r: string)
    ensures |r| >= |c.simpleName|
    ensures r[|r| - |c.simpleName|..] == c.simpleName
  {
    if c.packageName == "" then c.simpleName else c.packageName + "." + c.simpleName
  }

  const CollectionName := "java.util.Collection"
  const SetName := "java.util.Set"
  const MapName := "java.util.Map"
  const ListClass := ClassName("java.util", "List")
  const SetClass := ClassName("java.util", "Set")
  const MapClass := ClassName("java.util", "Map")

  /** Type kinds other than primitive, declared and array types. */
  datatype OtherKind =
    | TypeVariableKind | WildcardKind | IntersectionKind | VoidKind | NoneKind
    | PackageKind | ModuleKind | ErrorKind | ExecutableKind | UnionKind | NullKind

  /**
    A type as the compiler sees it. A declared type carries its type
    arguments and the canonical names of every type its erasure is
    assignable to (`supers`), which stands for `Types.isAssignable` on erasures.
   */
  datatype TypeRef =
    | Primitive(keyword: Identifier)
    | Declared(cls: ClassName, args: seq<TypeRef>, supers: set<string>)
    | ArrayOf(component: TypeRef)
    | Other(kind: OtherKind, text: string)

  /** A declared type with no arguments and no recorded supertypes, as `ClassName.get(...)` builds it. */
  function Plain(c: ClassName): (t: TypeRef)
    ensures t.Declared? && t.cls == c && t.args == []
  {
    Declared(c, [], {})
  }

  function Join(parts: seq<string>, sep: string): string {
    if |parts| == 0 then ""
    else if |parts| == 1 then parts[0]
    else parts[0] + sep + Join(parts[1..], sep)
  }

  /** `toString()` of a type. */
  function Text(t: TypeRef): string
    decreases t
  {
    match t
    case Primitive(k) => k
    case Declared(c, args, _) =>
      if |args| == 0 then CanonicalName(c)
      else CanonicalName(c) + "<" + Join(seq(|args|, i requires 0 <= i < |args| => Text(args[i])), ",") + ">"
    case ArrayOf(c) => Text(c) + "[]"
    case Other(_, s) => s
  }

  /** `isAssignable(erasure(t), erasure(name))`. */
  predicate AssignableTo(t: TypeRef, name: string) {
    t.Declared? && (CanonicalName(t.cls) == name || name in t.supers)
  }

  /** Every `Set` is a `Collection`: the type hierarchy the JDK fixes. */
  predicate HierarchyConsistent(t: TypeRef) {
    AssignableTo(t, SetName) ==> AssignableTo(t, CollectionName)
  }

  /** Declaration modifiers. */
  datatype Modifier = Public | Protected | Private | Static | Final | Transient | Volatile

  /** Marker annotations the generators look for on a field. */
  datatype Marker =
    | MapperTransient   // json.annotation @MapperTransient
    | JsonIgnore        // Jackson @JsonIgnore
    | MapperRequired    // json.annotation @MapperRequired
    | XmlTransientMark  // kilauea @XMLTransient
    | XmlRequired       // kilauea @XMLRequired

  /** A field: name, modifiers, declared type, marker annotations and the value of an `@XMLNamespace` if present. */
  datatype FieldDecl = FieldDecl(
    name: Identifier,
    modifiers: set<Modifier>,
    ftype: TypeRef,
    markers: set<Marker>,
    namespace: Option<string>
  )

  datatype ElementKind = ClassKind | InterfaceKind | EnumKind | RecordKind | AnnotationTypeKind

  /**
    A type declaration: its name, kind, own fields, superclass, `@Mapped`
    occurrences and its depth in the class hierarchy (used only to show that
    the superclass walk ends).
   */
  datatype ClassDecl = ClassDecl(
    name: ClassName,
    kind: ElementKind,
    fields: seq<FieldDecl>,
    superclass: Option<TypeRef>,
    annotations: seq<Mapped>,
    depth: nat
  )

  /** What `Elements.getTypeElement` can find: declarations by canonical name. */
  type Env = map<string, ClassDecl>

  /** `getTypeElement(name)`; `null` when nothing has that name. */
  function ResolveName(env: Env, name: string): (r: Option<ClassDecl>)
    ensures r.Some? <==> name in env
    ensures r.Some? ==> r.value == env[name]
  {
    if name in env then Some(env[name]) else None
  }

  /**
    `getTypeElement(t.toString())`: only a declared type without type
    arguments names a declaration; a parameterised, primitive, array or
    variable type gives `null`.
   */
  function Resolve(env: Env, t: TypeRef): (r: Option<ClassDecl>)
    ensures r.Some? <==> (t.Declared? && t.args == [] && CanonicalName(t.cls) in env)
  {
    if t.Declared? && t.args == [] then ResolveName(env, CanonicalName(t.cls)) else None
  }

  /** True iff some `@Mapped` in the sequence has the requested generator type. */
  function AnyOfType(annotations: seq<Mapped>, g: GeneratorType): (b: bool)
    ensures b <==> exists i :: 0 <= i < |annotations| && annotations[i].gtype == g
  {
    if |annotations| == 0 then false
    else if annotations[0].gtype == g then true
    else
      var rest := AnyOfType(annotations[1..], g);
      assert forall i :: 1 <= i < |annotations| ==> annotations[i] == annotations[1..][i - 1];
      rest
  }

  /** `typeIsAnnotatedWith(element, Mapped.class, g)`: false for `null`. */
  function TypeIsAnnotatedWith(d: Option<ClassDecl>, g: GeneratorType): (b: bool)
    ensures b <==> d.Some? && exists a :: a in d.value.annotations && a.gtype == g
  {
    d.Some? && AnyOfType(d.value.annotations, g)
  }

  /** `fieldIsMapped(field)`: the field's type names a declaration carrying `@Mapped(type = g)`. */
  function FieldTypeIsMapped(env: Env, t: TypeRef, g: GeneratorType): (b: bool)
    ensures b ==> t.Declared? && t.args == []
    ensures b <==> TypeIsAnnotatedWith(Resolve(env, t), g)
  {
    TypeIsAnnotatedWith(Resolve(env, t), g)
  }

  /**
    `fieldIsMapped(getTypeElement(arg.toString()))` for a type argument: the
    element is dereferenced before the check, so an argument that names no
    declaration (a type variable, wildcard, array or parameterised type)
    raises a NullPointerException.
   */
  function ArgumentIsMapped(env: Env, arg: TypeRef, g: GeneratorType): (r: Result<bool>)
    ensures r.Err? <==> Resolve(env, arg).None?
    ensures r.Err? ==> r.failure == NullPointer
    ensures r.Ok? ==> (r.value <==> FieldTypeIsMapped(env, arg, g))
  {
    match Resolve(env, arg)
    case None => Err(NullPointer)
    case Some(d) => Ok(TypeIsAnnotatedWith(Some(d), g))
  }

  /** Every argument names a declaration, so no argument check dereferences `null`. */
  predicate AllResolve(env: Env, args: seq<TypeRef>) {
    forall i :: 0 <= i < |args| ==> Resolve(env, args[i]).Some?
  }

  /** The per-argument flags of the `argumentIsMapped` loop, or the exception of its first unresolvable argument. */
  function ArgumentsMapped(env: Env, args: seq<TypeRef>, g: GeneratorType): (r: Result<seq<bool>>)
    ensures r.Ok? <==> AllResolve(env, args)
    ensures r.Ok? ==> |r.value| == |args|
    ensures r.Ok? ==> forall i :: 0 <= i < |args| ==> (r.value[i] <==> FieldTypeIsMapped(env, args[i], g))
    ensures r.Err? ==> r.failure == NullPointer
  {
    if AllResolve(env, args) then Ok(seq(|args|, i requires 0 <= i < |args| => FieldTypeIsMapped(env, args[i], g)))
    else Err(NullPointer)
  }

  /** `getTypeUtils().asElement(t)` followed by `ClassName.get`: the class a declared type names. */
  function ElementClass(t: TypeRef): (r: Option<ClassName>)
    ensures r.Some? <==> t.Declared?
  {
    if t.Declared? then Some(t.cls) else None
  }

  /** `ElementKind.isPrimitive` on a field's type. */
  predicate IsPrimitive(t: TypeRef) {
    t.Primitive?
  }

  /** Resolution by name and by type agree on the declared, argument-free types. */
  lemma ResolveByText(env: Env, t: TypeRef)
    requires t.Declared? && t.args == []
    ensures Resolve(env, t) == ResolveName(env, Text(t))
  {
  }
}
