/**
  The three generators and the factory that picks one by generator type
  (`ClassGeneratorFactory`), with the per-type hooks the shared generation
  calls: field specification, mapped-by annotation, class annotations and
  type-specific methods.
 */
module GeneratorFactory {
  import opened Lang
  import opened Annotation
  import opened JavaModel
  import opened Info
  import opened CodeModel
  import opened ClassGenerator
  import JsonGenerator
  import PlainGenerator
  import XmlGenerator

  /** One entry of the collected input: an annotated class and one of its `ElementInfo`s. */
  datatype Job = Job(key: ClassName, info: ElementInfo)

  /**
    A generator: the compiler view, the `ElementInfo` and annotated class it
    was created for, and the whole collected input, flattened in iteration order.
   */
  datatype Generator =
    | JSONClassGenerator(env: Env, info: ElementInfo, annotatedClass: ClassName, input: seq<Job>)
    | XMLClassGenerator(env: Env, info: ElementInfo, annotatedClass: ClassName, input: seq<Job>)
    | PlainClassGenerator(env: Env, info: ElementInfo, annotatedClass: ClassName, input: seq<Job>)

  /** The generator type whose `@Mapped` annotations the generator's mapped checks look for. */
  function Variant(g: Generator): GeneratorType {
    match g
    case JSONClassGenerator(_, _, _, _) => JSON
    case XMLClassGenerator(_, _, _, _) => XML
    case PlainClassGenerator(_, _, _, _) => POJO
  }

  function ContextOf(g: Generator): (ctx: Ctx)
    ensures ctx.env == g.env && ctx.variant == Variant(g)
  {
    Ctx(g.env, Variant(g))
  }

  /** `getClassGenerator`: JSON and XML get their own generator, every other type the plain one; the arguments are passed on unchanged. */
  function GetClassGenerator(t: GeneratorType, env: Env, info: ElementInfo, annotatedClass: ClassName, input: seq<Job>): (g: Generator)
    ensures Variant(g) == t
    ensures g.env == env && g.info == info && g.annotatedClass == annotatedClass && g.input == input
  {
    match t
    case JSON => JSONClassGenerator(env, info, annotatedClass, input)
    case XML => XMLClassGenerator(env, info, annotatedClass, input)
    case POJO => PlainClassGenerator(env, info, annotatedClass, input)
  }

  /** Two generators built from the same arguments differ at most in their type, and one type gives one generator. */
  lemma FactoryInjective(t1: GeneratorType, t2: GeneratorType, env: Env, info: ElementInfo, c: ClassName, input: seq<Job>)
    ensures GetClassGenerator(t1, env, info, c, input) == GetClassGenerator(t2, env, info, c, input) <==> t1 == t2
  {
    if t1 != t2 {
      assert Variant(GetClassGenerator(t1, env, info, c, input)) != Variant(GetClassGenerator(t2, env, info, c, input));
    }
  }

  // ---------------------------------------------------------------------
  // Hooks

  /** Whether the generator leaves a field out of the serialised form (its own transient annotations). */
  predicate IsTransient(g: Generator, f: FieldDecl) {
    match g
    case JSONClassGenerator(_, _, _, _) => JsonGenerator.IsTransient(f)
    case XMLClassGenerator(_, _, _, _) => XmlGenerator.IsTransient(f)
    case PlainClassGenerator(_, _, _, _) => PlainGenerator.IsTransient(f)
  }

  /** `createFieldSpec` of the generator. */
  function FieldSpecFor(g: Generator, info: ElementInfo, f: FieldDecl, fieldClass: TypeRef, fieldIsMapped: bool): (r: Result<FieldSpec>)
    ensures IsTransient(g, f) ==> r.Ok? && r.value.ftype == fieldClass && r.value.name == f.name
    ensures !IsTransient(g, f) ==>
              (r.Ok? <==> StoredFieldType(ContextOf(g), info, f, fieldClass, fieldIsMapped).Ok?) &&
              (r.Ok? ==> r.value.name == f.name && r.value.ftype == StoredFieldType(ContextOf(g), info, f, fieldClass, fieldIsMapped).value &&
                         r.value.modifiers == {Private})
    ensures r.Err? ==> r.failure == IndexOutOfBounds
  {
    match g
    case JSONClassGenerator(_, _, _, _) => JsonGenerator.CreateFieldSpec(ContextOf(g), info, f, fieldClass, fieldIsMapped)
    case XMLClassGenerator(_, _, _, _) => XmlGenerator.CreateFieldSpec(ContextOf(g), info, f, fieldClass, fieldIsMapped)
    case PlainClassGenerator(_, _, _, _) => PlainGenerator.CreateFieldSpec(ContextOf(g), info, f, fieldClass, fieldIsMapped)
  }

  /** `createMappedByAnnotation`: names the annotated class, with the generator's own annotation type. */
  function MappedByFor(g: Generator, info: ElementInfo): (a: AnnotationSpec)
    ensures a.members == [Member("mappedClass", ClassLiteral(info.element))]
    ensures a.annotationType == TypeName(Variant(g)) + "MappedBy"
  {
    match g
    case JSONClassGenerator(_, _, _, _) => JsonGenerator.MappedBy(info)
    case XMLClassGenerator(_, _, _, _) => XmlGenerator.MappedBy(info)
    case PlainClassGenerator(_, _, _, _) => PlainGenerator.MappedBy(info)
  }

  /** `getAdditionalAnnotationsForClass`; the XML root element is named after the generator's own annotated class. */
  function AdditionalFor(g: Generator, info: ElementInfo): (r: Option<seq<AnnotationSpec>>)
    ensures r.None? <==> Variant(g) == POJO
    ensures r.Some? ==> |r.value| == (if Variant(g) == JSON then 1 else 2)
  {
    match g
    case JSONClassGenerator(_, _, _, _) => JsonGenerator.AdditionalAnnotations(info)
    case XMLClassGenerator(_, _, _, _) => XmlGenerator.AdditionalAnnotations(info, g.annotatedClass)
    case PlainClassGenerator(_, _, _, _) => PlainGenerator.AdditionalAnnotations(info)
  }

  /** The name of the type-specific method, if the generator adds one. */
  function SpecificMethodName(t: GeneratorType): Option<string> {
    match t
    case JSON => Some("toJSONString")
    case XML => Some("toXMLString")
    case POJO => None
  }

  /** `createSpecificFieldsAndMethods`: adds the type-specific string method, and nothing else. */
  function SpecificFor(g: Generator, methods: Methods): (r: Methods)
    ensures SpecificMethodName(Variant(g)).None? ==> r == methods
    ensures SpecificMethodName(Variant(g)).Some? ==>
              var n := SpecificMethodName(Variant(g)).value;
              r.Keys == methods.Keys + {n} && (forall k :: k in methods && k != n ==> r[k] == methods[k]) &&
              r[n].params == [] && |r[n].body| == 1 && r[n].body[0].Serialise?
  {
    match g
    case JSONClassGenerator(_, _, _, _) => JsonGenerator.SpecificMethods(methods)
    case XMLClassGenerator(_, _, _, _) => XmlGenerator.SpecificMethods(methods)
    case PlainClassGenerator(_, _, _, _) => PlainGenerator.SpecificMethods(methods)
  }

  /** A field whose type has no type arguments is stored with the same type by every generator that does not ignore it. */
  lemma VariantsAgreeOnFieldType(g1: Generator, g2: Generator, info: ElementInfo, f: FieldDecl, fieldClass: TypeRef, fieldIsMapped: bool)
    requires !IsTransient(g1, f) && !IsTransient(g2, f)
    requires f.ftype.Declared? ==> f.ftype.args == []
    ensures FieldSpecFor(g1, info, f, fieldClass, fieldIsMapped).Ok? <==> FieldSpecFor(g2, info, f, fieldClass, fieldIsMapped).Ok?
    ensures FieldSpecFor(g1, info, f, fieldClass, fieldIsMapped).Ok? ==>
              FieldSpecFor(g1, info, f, fieldClass, fieldIsMapped).value.ftype == FieldSpecFor(g2, info, f, fieldClass, fieldIsMapped).value.ftype
  {
    StoredTypeIgnoresVariant(ContextOf(g1), ContextOf(g2), info, f, fieldClass, fieldIsMapped);
  }

  /** The stored type depends on the generator only through the mapped checks of the type arguments. */
  lemma StoredTypeIgnoresVariant(c1: Ctx, c2: Ctx, info: ElementInfo, f: FieldDecl, fieldClass: TypeRef, fieldIsMapped: bool)
    ensures (f.ftype.Declared? ==> CollectTypes(c1, info, f.ftype.args) == CollectTypes(c2, info, f.ftype.args)) ==>
              StoredFieldType(c1, info, f, fieldClass, fieldIsMapped) == StoredFieldType(c2, info, f, fieldClass, fieldIsMapped)
  {
  }
}
