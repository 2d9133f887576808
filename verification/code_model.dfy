/**
  The generated code, as data: annotations, fields, statements and methods
  of the companion class, instead of Java source text.
 */
module CodeModel {
  import opened Lang
  import opened JavaModel

  /** The value of an annotation member. */
  datatype MemberValue =
    | Code(text: string)                                // a code fragment, e.g. "true" or a quoted name
    | Str(text: string)                                 // a string literal emitted with `$S`
    | ClassLiteral(cls: ClassName)                      // `$T.class`
    | EnumConstant(enumType: string, constant: string)  // `$T.$L`

  datatype AnnotationMember = Member(name: string, value: MemberValue)

  datatype AnnotationSpec = AnnotationSpec(annotationType: string, members: seq<AnnotationMember>)

  /** An annotation without members. */
  function MarkerAnnotation(annotationType: string): (a: AnnotationSpec)
    ensures a.annotationType == annotationType && a.members == []
  {
    AnnotationSpec(annotationType, [])
  }

  /** True iff the annotation has a member with that name. */
  predicate HasMember(a: AnnotationSpec, name: string) {
    exists i :: 0 <= i < |a.members| && a.members[i].name == name
  }

  datatype FieldSpec = FieldSpec(name: string, ftype: TypeRef, modifiers: set<Modifier>, annotations: seq<AnnotationSpec>)

  /** A key or value function of `Collectors.toMap`. */
  datatype Lambda =
    | PassThrough                 // e -> e.getKey() / e -> e.getValue()
    | ThroughHelper(helper: string)  // e -> helper(e.getKey()) / e -> helper(e.getValue())

  /** The concrete class `new ...<>()` creates in a setter. */
  datatype Container = ArrayListImpl | HashSetImpl | HashMapImpl

  datatype Expr =
    | Var(name: string)
    | CloneOf(name: string)                                     // name.clone()
    | NewContainer(impl: Container, typeArgs: seq<TypeRef>)     // new ArrayList<...>()
    | CompanionOf(companion: TypeRef, arg: Expr)                // Companion.of(arg)
    | ReflectiveGet(cast: TypeRef, owner: string, lookup: string)   // (T) ReflectionUtil.invokeGetterMethod(owner, lookup)
    | MapElements(source: Expr, helper: string)                 // source.stream().map(e -> helper(e)).collect(toList())
    | CollectEntries(source: Expr, key: Lambda, value: Lambda)  // source.entrySet().stream().collect(toMap(key, value))
    | ToOriginal(arg: Expr)                                     // arg.to()

  /** The condition guarding one copied field. */
  datatype Guard =
    | LookupPresent(lookup: string)                        // if (fieldN != null)
    | LookupAndValuePresent(lookup: string, field: string) // if (fieldN != null && name != null)

  /** The serialisation the type-specific string method performs. */
  datatype Format = JsonFormat | XmlFormat

  datatype Stmt =
    | NewObject(local: string, cls: string)                        // Cls local = new Cls()
    | ReturnNullIfNull(param: string)                              // if (param == null) return null
    | Lookup(local: string, owner: string, field: string)          // Field local = ReflectionUtil.deepGetField(owner.class, "field", true)
    | If(guard: Guard, body: seq<Stmt>)
    | CallSetter(setter: string, value: Expr)                      // newMappedObject.setter(value)
    | InvokeSetter(target: string, lookup: string, value: Expr)    // ReflectionUtil.invokeSetterMethod(target, lookup, value)
    | AssignField(field: string, value: Expr)                      // this.field = value
    | AddAll(field: string, from: string)                          // this.field.addAll(from)
    | PutAll(field: string, from: string)                          // this.field.putAll(from)
    | ReturnThis
    | Return(value: Expr)
    | StringRepStart                                               // String stringRep = getClass().getName() + "("
    | StringRepAppend(field: string, separator: bool)              // stringRep += "field=" + field [+ ", "]
    | StringRepClose                                               // stringRep += ")"
    | TryAssignResult(value: Expr)                                 // T result = null; try { result = value } catch ...
    | Serialise(format: Format)                                    // body of toJSONString / toXMLString

  datatype Param = Param(ptype: TypeRef, name: string)

  datatype MethodSpec = MethodSpec(
    name: string,
    isStatic: bool,
    params: seq<Param>,
    returnType: Option<TypeRef>,
    body: seq<Stmt>,
    annotations: seq<AnnotationSpec>
  )

  /** The generated class. `methods` is the name-keyed map whose values the class receives. */
  datatype TypeSpec = TypeSpec(
    name: string,
    superinterfaces: seq<TypeRef>,
    fields: seq<FieldSpec>,
    methods: map<string, MethodSpec>,
    annotations: seq<AnnotationSpec>,
    superclass: Option<ClassName>
  )

  /** The methods generated so far, keyed by name as in the generators' `HashMap`. */
  type Methods = map<string, MethodSpec>
}
