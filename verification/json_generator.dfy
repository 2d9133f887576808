/**
  The JSON variant (`JSONClassGenerator`): Jackson annotations on the class
  and on every field, and a `toJSONString` method.
 */
module JsonGenerator {
  import opened Lang
  import opened Annotation
  import opened JavaModel
  import opened StringUtil
  import opened Info
  import opened CodeModel
  import opened ClassGenerator

  const JsonIgnoreAnnotation := "JsonIgnore"
  const JsonFormatAnnotation := "JsonFormat"
  const JsonPropertyAnnotation := "JsonProperty"
  const JsonIncludeAnnotation := "JsonInclude"
  const MappedByAnnotation := "JSONMappedBy"
  const LocalDateTimeName := "java.time.LocalDateTime"
  const LocalDateName := "java.time.LocalDate"

  /** `createSpecificFieldsAndMethods`: adds `toJSONString`, which serialises the object with Jackson. */
  function SpecificMethods(methods: Methods): (r: Methods)
    ensures r.Keys == methods.Keys + {"toJSONString"}
    ensures r["toJSONString"].params == [] && r["toJSONString"].body == [Serialise(JsonFormat)]
    ensures forall k :: k in methods && k != "toJSONString" ==> r[k] == methods[k]
  {
    methods["toJSONString" := MethodSpec("toJSONString", false, [], Some(Plain(ClassName("java.lang", "String"))),
                                         [Serialise(JsonFormat)], [])]
  }

  /** `@JSONMappedBy(mappedClass = Original.class)`. */
  function MappedBy(info: ElementInfo): (a: AnnotationSpec)
    ensures a.annotationType == MappedByAnnotation
    ensures a.members == [Member("mappedClass", ClassLiteral(info.element))]
  {
    AnnotationSpec(MappedByAnnotation, [Member("mappedClass", ClassLiteral(info.element))])
  }

  /** Exactly one class annotation: `@JsonInclude(Include.<policy>)`. */
  function AdditionalAnnotations(info: ElementInfo): (r: Option<seq<AnnotationSpec>>)
    ensures r.Some? && |r.value| == 1
    ensures r.value[0].annotationType == JsonIncludeAnnotation
    ensures r.value[0].members == [Member("value", EnumConstant("Include", IncludeName(info.jsonInclude)))]
  {
    Some([AnnotationSpec(JsonIncludeAnnotation, [Member("value", EnumConstant("Include", IncludeName(info.jsonInclude)))])])
  }

  /** A field is left out of the JSON form by `@MapperTransient` or `@JsonIgnore`. */
  predicate IsTransient(f: FieldDecl) {
    MapperTransient in f.markers || JsonIgnore in f.markers
  }

  /** The `@JsonFormat` annotations a field of type `fieldClass` gets: one for the two date types, none otherwise. */
  function DateFormats(info: ElementInfo, fieldClass: TypeRef): (r: seq<AnnotationSpec>)
    ensures |r| <= 1
    ensures |r| == 1 <==> Text(fieldClass) in {LocalDateTimeName, LocalDateName}
    ensures |r| == 1 ==> r[0].annotationType == JsonFormatAnnotation
    ensures Text(fieldClass) == LocalDateTimeName ==> r[0].members == [Member("pattern", Code(QuoteDefault(info.dateTimePattern)))]
    ensures Text(fieldClass) == LocalDateName ==> r[0].members == [Member("pattern", Code(QuoteDefault(info.datePattern)))]
  {
    (if Text(fieldClass) == LocalDateTimeName
     then [AnnotationSpec(JsonFormatAnnotation, [Member("pattern", Code(QuoteDefault(info.dateTimePattern)))])] else []) +
    (if Text(fieldClass) == LocalDateName
     then [AnnotationSpec(JsonFormatAnnotation, [Member("pattern", Code(QuoteDefault(info.datePattern)))])] else [])
  }

  /** `@JsonProperty(value = "snake_name")`, with `required = true` for a `@MapperRequired` field. */
  function Property(f: FieldDecl): (a: AnnotationSpec)
    ensures a.annotationType == JsonPropertyAnnotation
    ensures |a.members| > 0 && a.members[0] == Member("value", Code(Quote(CamelToSnake(f.name), '"')))
    ensures HasMember(a, "required") <==> MapperRequired in f.markers
    ensures MapperRequired in f.markers ==> a.members == [a.members[0], Member("required", Code("true"))]
    ensures MapperRequired !in f.markers ==> a.members == [a.members[0]]
  {
    var value := Member("value", Code(Quote(CamelToSnake(f.name), '"')));
    if MapperRequired in f.markers then
      var a := AnnotationSpec(JsonPropertyAnnotation, [value, Member("required", Code("true"))]);
      assert a.members[1].name == "required";
      a
    else
      var a := AnnotationSpec(JsonPropertyAnnotation, [value]);
      assert a.members[0].name == "value" != "required";
      a
  }

  /**
    `createFieldSpec`: a transient field keeps `fieldClass` and carries only
    `@JsonIgnore`; any other field is private, typed like the setter's
    parameter, with its date format and property annotations.
   */
  function CreateFieldSpec(ctx: Ctx, info: ElementInfo, f: FieldDecl, fieldClass: TypeRef, fieldIsMapped: bool): (r: Result<FieldSpec>)
    ensures IsTransient(f) ==> r == Ok(FieldSpec(f.name, fieldClass, {Private}, [MarkerAnnotation(JsonIgnoreAnnotation)]))
    ensures !IsTransient(f) ==>
              (r.Ok? <==> StoredFieldType(ctx, info, f, fieldClass, fieldIsMapped).Ok?) &&
              (r.Err? ==> r.failure == IndexOutOfBounds)
    ensures !IsTransient(f) && r.Ok? ==>
              var s := r.value;
              s.name == f.name && s.modifiers == {Private} &&
              s.ftype == StoredFieldType(ctx, info, f, fieldClass, fieldIsMapped).value &&
              |s.annotations| == |DateFormats(info, fieldClass)| + 1 &&
              s.annotations[|s.annotations| - 1] == Property(f) &&
              s.annotations[..|s.annotations| - 1] == DateFormats(info, fieldClass)
  {
    if IsTransient(f) then Ok(FieldSpec(f.name, fieldClass, {Private}, [MarkerAnnotation(JsonIgnoreAnnotation)]))
    else
      var fieldType :- StoredFieldType(ctx, info, f, fieldClass, fieldIsMapped);
      Ok(FieldSpec(f.name, fieldType, {Private}, DateFormats(info, fieldClass) + [Property(f)]))
  }

  /** The JSON key of a field reads back as the field's name when that name is lower camel case. */
  lemma PropertyNameRoundTrip(f: FieldDecl)
    requires !IsUpper(f.name[0]) && NoUnderscore(f.name)
    ensures var v := Property(f).members[0].value.text;
            SnakeToCamel(v[1..|v| - 1]) == f.name
  {
    CamelToSnakeRoundTrip(f.name);
  }

  /** Every JSON key is snake case: no upper-case letter survives. */
  lemma PropertyNameIsSnakeCase(f: FieldDecl)
    ensures var v := Property(f).members[0].value.text;
            forall i :: 0 < i < |v| - 1 ==> !IsUpper(v[i])
  {
    var v := Property(f).members[0].value.text;
    var snake := CamelToSnake(f.name);
    forall i | 0 < i < |v| - 1
      ensures !IsUpper(v[i])
    {
      assert v[i] == v[1..|v| - 1][i - 1];
    }
  }

  /** Whether a field is ignored does not depend on its type or on whether it is mapped. */
  lemma TransientIgnoresType(ctx: Ctx, info: ElementInfo, f: FieldDecl, fieldClass: TypeRef, m1: bool, m2: bool)
    requires IsTransient(f)
    ensures CreateFieldSpec(ctx, info, f, fieldClass, m1) == CreateFieldSpec(ctx, info, f, fieldClass, m2)
    ensures CreateFieldSpec(ctx, info, f, fieldClass, m1).value.annotations[0].annotationType == JsonIgnoreAnnotation
  {
  }
}
