/**
  The POJO variant (`PlainClassGenerator`): no annotations on the class's
  fields and no extra methods.
 */
module PlainGenerator {
  import opened Lang
  import opened JavaModel
  import opened Info
  import opened CodeModel
  import opened ClassGenerator

  const MappedByAnnotation := "POJOMappedBy"

  /** `createSpecificFieldsAndMethods` adds nothing. */
  function SpecificMethods(methods: Methods): (r: Methods)
    ensures r.Keys == methods.Keys
    ensures forall k :: k in methods ==> r[k] == methods[k]
  {
    methods
  }

  /** `@POJOMappedBy(mappedClass = Original.class)`. */
  function MappedBy(info: ElementInfo): (a: AnnotationSpec)
    ensures a.annotationType == MappedByAnnotation
    ensures a.members == [Member("mappedClass", ClassLiteral(info.element))]
  {
    AnnotationSpec(MappedByAnnotation, [Member("mappedClass", ClassLiteral(info.element))])
  }

  /** No class annotations: the source returns `null`. */
  function AdditionalAnnotations(info: ElementInfo): (r: Option<seq<AnnotationSpec>>)
    ensures r.None?
  {
    None
  }

  predicate IsTransient(f: FieldDecl) {
    MapperTransient in f.markers
  }

  /**
    `createFieldSpec`: a `@MapperTransient` field becomes a private final
    field of `fieldClass`; any other field a private field typed like the
    setter's parameter. No field carries an annotation.
   */
  function CreateFieldSpec(ctx: Ctx, info: ElementInfo, f: FieldDecl, fieldClass: TypeRef, fieldIsMapped: bool): (r: Result<FieldSpec>)
    ensures IsTransient(f) ==> r == Ok(FieldSpec(f.name, fieldClass, {Private, Final}, []))
    ensures !IsTransient(f) ==>
              (r.Ok? <==> StoredFieldType(ctx, info, f, fieldClass, fieldIsMapped).Ok?) &&
              (r.Err? ==> r.failure == IndexOutOfBounds)
    ensures !IsTransient(f) && r.Ok? ==>
              r.value == FieldSpec(f.name, StoredFieldType(ctx, info, f, fieldClass, fieldIsMapped).value, {Private}, [])
  {
    if IsTransient(f) then Ok(FieldSpec(f.name, fieldClass, {Private, Final}, []))
    else
      var fieldType :- StoredFieldType(ctx, info, f, fieldClass, fieldIsMapped);
      Ok(FieldSpec(f.name, fieldType, {Private}, []))
  }

  /** Only a transient field is final, and no field is annotated. */
  lemma FinalIffTransient(ctx: Ctx, info: ElementInfo, f: FieldDecl, fieldClass: TypeRef, fieldIsMapped: bool)
    requires CreateFieldSpec(ctx, info, f, fieldClass, fieldIsMapped).Ok?
    ensures var s := CreateFieldSpec(ctx, info, f, fieldClass, fieldIsMapped).value;
            (Final in s.modifiers <==> IsTransient(f)) && s.annotations == [] && Private in s.modifiers
  {
  }
}
