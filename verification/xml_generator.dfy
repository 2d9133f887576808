/**
  The XML variant (`XMLClassGenerator`): JAXB annotations on the class and
  on every field, namespaces, and a `toXMLString` method.
 */
module XmlGenerator {
  import opened Lang
  import opened Annotation
  import opened JavaModel
  import opened StringUtil
  import opened Info
  import opened CodeModel
  import opened ClassGenerator

  const XmlTransientAnnotation := "XmlTransient"
  const XmlAttributeAnnotation := "XmlAttribute"
  const XmlElementAnnotation := "XmlElement"
  const XmlRootElementAnnotation := "XmlRootElement"
  const XmlAccessorTypeAnnotation := "XmlAccessorType"
  const MappedByAnnotation := "XMLMappedBy"

  /** `createSpecificFieldsAndMethods`: adds `toXMLString`, which serialises the object with an XML mapper. */
  function SpecificMethods(methods: Methods): (r: Methods)
    ensures r.Keys == methods.Keys + {"toXMLString"}
    ensures r["toXMLString"].params == [] && r["toXMLString"].body == [Serialise(XmlFormat)]
    ensures forall k :: k in methods && k != "toXMLString" ==> r[k] == methods[k]
  {
    methods["toXMLString" := MethodSpec("toXMLString", false, [], Some(Plain(ClassName("java.lang", "String"))),
                                        [Serialise(XmlFormat)], [])]
  }

  /** `@XMLMappedBy(mappedClass = Original.class)`. */
  function MappedBy(info: ElementInfo): (a: AnnotationSpec)
    ensures a.annotationType == MappedByAnnotation
    ensures a.members == [Member("mappedClass", ClassLiteral(info.element))]
  {
    AnnotationSpec(MappedByAnnotation, [Member("mappedClass", ClassLiteral(info.element))])
  }

  /**
    `@XmlRootElement(name = "snake_name"[, namespace = xmlns])` and
    `@XmlAccessorType(XmlAccessType.FIELD)`; the namespace only when not blank.
   */
  function AdditionalAnnotations(info: ElementInfo, annotatedClass: ClassName): (r: Option<seq<AnnotationSpec>>)
    ensures r.Some? && |r.value| == 2
    ensures r.value[0].annotationType == XmlRootElementAnnotation
    ensures |r.value[0].members| > 0 && r.value[0].members[0] == Member("name", Str(CamelToSnake(annotatedClass.simpleName)))
    ensures HasMember(r.value[0], "namespace") <==> IsNotBlank(Some(info.xmlns))
    ensures IsNotBlank(Some(info.xmlns)) ==> r.value[0].members == [r.value[0].members[0], Member("namespace", Str(info.xmlns))]
    ensures r.value[1] == AnnotationSpec(XmlAccessorTypeAnnotation, [Member("value", EnumConstant("XmlAccessType", "FIELD"))])
  {
    var name := Member("name", Str(CamelToSnake(annotatedClass.simpleName)));
    var root := if IsNotBlank(Some(info.xmlns))
                then AnnotationSpec(XmlRootElementAnnotation, [name, Member("namespace", Str(info.xmlns))])
                else AnnotationSpec(XmlRootElementAnnotation, [name]);
    assert IsNotBlank(Some(info.xmlns)) ==> root.members[1].name == "namespace";
    assert !IsNotBlank(Some(info.xmlns)) ==> root.members == [name] && name.name != "namespace";
    Some([root, AnnotationSpec(XmlAccessorTypeAnnotation, [Member("value", EnumConstant("XmlAccessType", "FIELD"))])])
  }

  predicate IsTransient(f: FieldDecl) {
    XmlTransientMark in f.markers
  }

  /** Primitive fields and fields of a `java.lang` type are written as attributes, the rest as elements. */
  predicate IsAttribute(f: FieldDecl, fieldClass: TypeRef) {
    IsPrimitive(fieldClass) || "java.lang" <= Text(f.ftype)
  }

  /** No XML-typed `@Mapped` comes before position `i`. */
  predicate NoXmlBefore(annotations: seq<Mapped>, i: int)
    requires i <= |annotations|
  {
    forall j :: 0 <= j < i ==> annotations[j].gtype != XML
  }

  /** The `xmlns` of the first XML-typed `@Mapped` in the list, or "" when there is none. */
  function FirstXmlns(annotations: seq<Mapped>): (r: string)
    ensures (forall i :: 0 <= i < |annotations| ==> annotations[i].gtype != XML) ==> r == ""
    ensures forall i :: 0 <= i < |annotations| && annotations[i].gtype == XML && NoXmlBefore(annotations, i) ==>
                       r == annotations[i].xmlns
  {
    if |annotations| == 0 then ""
    else if annotations[0].gtype == XML then annotations[0].xmlns
    else
      var rest := FirstXmlns(annotations[1..]);
      assert forall i :: 1 <= i < |annotations| ==> annotations[1..][i - 1] == annotations[i];
      forall i | 1 <= i < |annotations| && NoXmlBefore(annotations, i)
        ensures NoXmlBefore(annotations[1..], i - 1)
      {
        assert forall j :: 0 <= j < i - 1 ==> annotations[1..][j] == annotations[j + 1];
      }
      rest
  }

  /** `getMappingAnnotationNamespace`: the namespace the field's class declares for its XML companion. */
  function MappingNamespace(env: Env, f: FieldDecl): (r: string)
    ensures ResolveName(env, Text(f.ftype)).None? ==> r == ""
    ensures ResolveName(env, Text(f.ftype)).Some? ==> r == FirstXmlns(ResolveName(env, Text(f.ftype)).value.annotations)
  {
    match ResolveName(env, Text(f.ftype))
    case None => ""
    case Some(d) => FirstXmlns(d.annotations)
  }

  /**
    The namespace member of a field's property annotation. A field's own
    `@XMLNamespace` is used as given; otherwise the mapped class's namespace
    (for a mapped field) or the class's `xmlns`, falling back to `xmlns`,
    and nothing when both are blank.
   */
  function Namespace(ctx: Ctx, info: ElementInfo, f: FieldDecl, fieldIsMapped: bool): (r: Option<string>)
    ensures f.namespace.Some? ==> r == f.namespace
    ensures f.namespace.None? && r.Some? ==> !Blank(r.value)
    ensures f.namespace.None? && fieldIsMapped && !Blank(MappingNamespace(ctx.env, f)) ==> r == Some(MappingNamespace(ctx.env, f))
    ensures f.namespace.None? && (!fieldIsMapped || Blank(MappingNamespace(ctx.env, f))) ==>
              r == (if Blank(info.xmlns) then None else Some(info.xmlns))
  {
    match f.namespace
    case Some(ns) => Some(ns)
    case None =>
      var candidate := if fieldIsMapped then MappingNamespace(ctx.env, f) else info.xmlns;
      var ns := if Blank(candidate) && !Blank(info.xmlns) then info.xmlns else candidate;
      if !Blank(ns) then Some(ns) else None
  }

  /** The `@XmlAttribute` or `@XmlElement` annotation: name, then `required`, then `namespace`, each when present. */
  function Property(ctx: Ctx, info: ElementInfo, f: FieldDecl, fieldClass: TypeRef, fieldIsMapped: bool): (a: AnnotationSpec)
    ensures a.annotationType == (if IsAttribute(f, fieldClass) then XmlAttributeAnnotation else XmlElementAnnotation)
    ensures |a.members| > 0 && a.members[0] == Member("name", Code(Quote(CamelToSnake(f.name), '"')))
    ensures HasMember(a, "required") <==> XmlRequired in f.markers
    ensures HasMember(a, "namespace") <==> Namespace(ctx, info, f, fieldIsMapped).Some?
    ensures Namespace(ctx, info, f, fieldIsMapped).Some? ==>
              a.members[|a.members| - 1] == Member("namespace", Str(Namespace(ctx, info, f, fieldIsMapped).value))
  {
    var kind := if IsAttribute(f, fieldClass) then XmlAttributeAnnotation else XmlElementAnnotation;
    var name := Member("name", Code(Quote(CamelToSnake(f.name), '"')));
    var required := if XmlRequired in f.markers then [Member("required", Code("true"))] else [];
    var ns := match Namespace(ctx, info, f, fieldIsMapped)
              case Some(v) => [Member("namespace", Str(v))]
              case None => [];
    var members := [name] + required + ns;
    MembersOfThree(kind, name, required, ns, "required");
    MembersOfThree(kind, name, required, ns, "namespace");
    AnnotationSpec(kind, members)
  }

  /** Which names an annotation built from a first member and at most two optional ones carries, and where the last sits. */
  lemma MembersOfThree(kind: string, x: AnnotationMember, ys: seq<AnnotationMember>, zs: seq<AnnotationMember>, n: string)
    requires |ys| <= 1 && |zs| <= 1
    ensures HasMember(AnnotationSpec(kind, [x] + ys + zs), n) <==>
            x.name == n || (|ys| == 1 && ys[0].name == n) || (|zs| == 1 && zs[0].name == n)
    ensures ([x] + ys + zs)[0] == x
    ensures |zs| == 1 ==> ([x] + ys + zs)[|[x] + ys + zs| - 1] == zs[0]
  {
    var ms := [x] + ys + zs;
    assert forall i :: 0 <= i < |ms| ==> ms[i] == (if i == 0 then x else if i < 1 + |ys| then ys[i - 1] else zs[i - 1 - |ys|]);
    if |ys| == 1 && ys[0].name == n {
      assert ms[1].name == n;
    }
    if |zs| == 1 {
      assert ms[|ms| - 1] == zs[0];
    }
    if HasMember(AnnotationSpec(kind, ms), n) {
      var i :| 0 <= i < |ms| && ms[i].name == n;
      assert i == 0 || (|ys| == 1 && i == 1 && ms[i] == ys[0]) || (|zs| == 1 && ms[i] == zs[0]);
    }
  }

  /**
    `createFieldSpec`: a transient field keeps `fieldClass` and carries only
    `@XmlTransient`; any other field is private, typed like the setter's
    parameter, with its property annotation.
   */
  function CreateFieldSpec(ctx: Ctx, info: ElementInfo, f: FieldDecl, fieldClass: TypeRef, fieldIsMapped: bool): (r: Result<FieldSpec>)
    ensures IsTransient(f) ==> r == Ok(FieldSpec(f.name, fieldClass, {Private}, [MarkerAnnotation(XmlTransientAnnotation)]))
    ensures !IsTransient(f) ==>
              (r.Ok? <==> StoredFieldType(ctx, info, f, fieldClass, fieldIsMapped).Ok?) &&
              (r.Err? ==> r.failure == IndexOutOfBounds)
    ensures !IsTransient(f) && r.Ok? ==>
              r.value.name == f.name && r.value.modifiers == {Private} &&
              r.value.ftype == StoredFieldType(ctx, info, f, fieldClass, fieldIsMapped).value &&
              r.value.annotations == [Property(ctx, info, f, fieldClass, fieldIsMapped)]
  {
    if IsTransient(f) then Ok(FieldSpec(f.name, fieldClass, {Private}, [MarkerAnnotation(XmlTransientAnnotation)]))
    else
      var fieldType :- StoredFieldType(ctx, info, f, fieldClass, fieldIsMapped);
      Ok(FieldSpec(f.name, fieldType, {Private}, [Property(ctx, info, f, fieldClass, fieldIsMapped)]))
  }

  /** With a non-blank class namespace, every field without its own `@XMLNamespace` gets a namespace. */
  lemma ClassNamespaceReachesFields(ctx: Ctx, info: ElementInfo, f: FieldDecl, fieldIsMapped: bool)
    requires f.namespace.None? && !Blank(info.xmlns)
    ensures Namespace(ctx, info, f, fieldIsMapped).Some?
  {
  }

  /** A field's own `@XMLNamespace` is kept even when blank, which the fallback never produces. */
  lemma OwnNamespaceKeptWhenBlank(ctx: Ctx, info: ElementInfo, f: FieldDecl, fieldIsMapped: bool)
    requires f.namespace == Some("")
    ensures Namespace(ctx, info, f, fieldIsMapped) == Some("")
    ensures Namespace(ctx, info, f.(namespace := None), fieldIsMapped) != Some("")
  {
  }

  /** An unmapped field never looks at the mapped class's namespace. */
  lemma UnmappedIgnoresMappingNamespace(ctx: Ctx, ctx2: Ctx, info: ElementInfo, f: FieldDecl)
    ensures Namespace(ctx, info, f, false) == Namespace(ctx2, info, f, false)
  {
  }
}
