/**
  The generation loop of `AbstractClassGenerator`: for every collected
  `ElementInfo`, the member plan of the companion class, the class that
  carries it, and the run over the whole input that stops at the first
  exception.
 */
module Generation {
  import opened Lang
  import opened Annotation
  import opened JavaModel
  import opened Info
  import opened CodeModel
  import opened ClassGenerator
  import opened GeneratorFactory
  import opened AbstractGenerator

  // ---------------------------------------------------------------------
  // The generated class

  const SerializableType := Plain(ClassName("java.io", "Serializable"))

  /** `private static final long serialVersionUID = -1L`, the first field of every generated class. */
  const SerialVersionUID := FieldSpec("serialVersionUID", Primitive("long"), {Final, Static}, [])

  /** The Lombok annotations a Lombok class carries, `AllArgsConstructor` among them. */
  const LombokTypes := {"NoArgsConstructor", "AllArgsConstructor", "Getter", "Setter", "ToString", "Accessors"}

  predicate HasAnnotation(annotations: seq<AnnotationSpec>, annotationType: string) {
    exists i :: 0 <= i < |annotations| && annotations[i].annotationType == annotationType
  }

  lemma HasAnnotationConcat(a: seq<AnnotationSpec>, b: seq<AnnotationSpec>, annotationType: string)
    ensures HasAnnotation(a + b, annotationType) <==> HasAnnotation(a, annotationType) || HasAnnotation(b, annotationType)
  {
    if HasAnnotation(a + b, annotationType) {
      var i :| 0 <= i < |a + b| && (a + b)[i].annotationType == annotationType;
      if i >= |a| {
        assert b[i - |a|] == (a + b)[i];
      }
    }
    if HasAnnotation(b, annotationType) {
      var i :| 0 <= i < |b| && b[i].annotationType == annotationType;
      assert (a + b)[|a| + i] == b[i];
    }
    if HasAnnotation(a, annotationType) {
      var i :| 0 <= i < |a| && a[i].annotationType == annotationType;
      assert (a + b)[i] == a[i];
    }
  }

  /** The class annotations of the generator, none when it returns `null`. */
  function ClassAnnotations(g: Generator, info: ElementInfo): (r: seq<AnnotationSpec>)
    ensures AdditionalFor(g, info).Some? ==> r == AdditionalFor(g, info).value
    ensures AdditionalFor(g, info).None? ==> r == []
  {
    match AdditionalFor(g, info)
    case None => []
    case Some(a) => a
  }

  /** The annotations of a Lombok class with or without fields. */
  function LombokAnnotations(info: ElementInfo, hasFields: bool): seq<AnnotationSpec> {
    [MarkerAnnotation("NoArgsConstructor")] +
    (if hasFields then [MarkerAnnotation("AllArgsConstructor")] else []) +
    [MarkerAnnotation("Getter"), MarkerAnnotation("Setter"), MarkerAnnotation("ToString"),
     AnnotationSpec("Accessors", [Member("fluent", Code(if info.fluentAccessors then "true" else "false"))])]
  }

  /**
    `generateClass`: a public class implementing `Serializable` and the
    configured interfaces, extending the configured superclass if any, with
    `serialVersionUID` before the given fields, the given methods, the
    mapped-by annotation, the generator's class annotations and, with
    Lombok, the Lombok annotations.
   */
  function GenerateClass(g: Generator, info: ElementInfo, className: string, fields: seq<FieldSpec>, methods: Methods): (t: TypeSpec)
    ensures t.name == className && t.methods == methods && t.superclass == info.superclass
    ensures |t.fields| == |fields| + 1 && t.fields[0] == SerialVersionUID && t.fields[1..] == fields
    ensures |t.superinterfaces| == |info.interfaces| + 1 && t.superinterfaces[0] == SerializableType
    ensures forall i :: 0 <= i < |info.interfaces| ==> t.superinterfaces[i + 1] == Plain(info.interfaces[i])
    ensures |t.annotations| > 0 && t.annotations[0] == MappedByFor(g, info)
  {
    var interfaces := seq(|info.interfaces|, i requires 0 <= i < |info.interfaces| => Plain(info.interfaces[i]));
    var annotations := [MappedByFor(g, info)] + ClassAnnotations(g, info) +
                       (if info.useLombok then LombokAnnotations(info, |fields| > 0) else []);
    TypeSpec(className, [SerializableType] + interfaces, [SerialVersionUID] + fields, methods, annotations, info.superclass)
  }

  /** No annotation a generator adds on its own is a Lombok annotation. */
  lemma GeneratorAnnotationsAreNotLombok(g: Generator, info: ElementInfo, annotationType: string)
    requires annotationType in LombokTypes
    ensures !HasAnnotation([MappedByFor(g, info)] + ClassAnnotations(g, info), annotationType)
  {
    var own := [MappedByFor(g, info)] + ClassAnnotations(g, info);
    assert |own| <= 3;
    forall i | 0 <= i < |own|
      ensures own[i].annotationType != annotationType
    {
      assert |own[i].annotationType| in {11, 12, 14, 15};
    }
  }

  /** Which annotation types the Lombok block holds: all six, except `AllArgsConstructor` for a class without fields. */
  lemma LombokAnnotationTypes(info: ElementInfo, hasFields: bool, annotationType: string)
    requires annotationType in LombokTypes
    ensures HasAnnotation(LombokAnnotations(info, hasFields), annotationType) <==> annotationType != "AllArgsConstructor" || hasFields
  {
    var l := LombokAnnotations(info, hasFields);
    var k := if hasFields then 1 else 0;
    assert l[0].annotationType == "NoArgsConstructor";
    assert l[k + 1].annotationType == "Getter" && l[k + 2].annotationType == "Setter";
    assert l[k + 3].annotationType == "ToString" && l[k + 4].annotationType == "Accessors";
    if hasFields {
      assert l[1].annotationType == "AllArgsConstructor";
    } else {
      assert forall i :: 0 <= i < |l| ==> l[i].annotationType != "AllArgsConstructor";
    }
  }

  /**
    The Lombok annotations appear exactly when Lombok is used, and
    `AllArgsConstructor` only for a class with fields.
   */
  lemma GenerateClassLombok(g: Generator, info: ElementInfo, className: string, fields: seq<FieldSpec>, methods: Methods, annotationType: string)
    requires annotationType in LombokTypes
    ensures var t := GenerateClass(g, info, className, fields, methods);
            HasAnnotation(t.annotations, annotationType) <==>
            info.useLombok && (annotationType != "AllArgsConstructor" || |fields| > 0)
  {
    var t := GenerateClass(g, info, className, fields, methods);
    var own := [MappedByFor(g, info)] + ClassAnnotations(g, info);
    var lombok := if info.useLombok then LombokAnnotations(info, |fields| > 0) else [];
    assert t.annotations == own + lombok;
    GeneratorAnnotationsAreNotLombok(g, info, annotationType);
    HasAnnotationConcat(own, lombok, annotationType);
    if info.useLombok {
      LombokAnnotationTypes(info, |fields| > 0, annotationType);
    }
  }

  /** With Lombok, the last class annotation is `@Accessors` carrying the fluent setting. */
  lemma GenerateClassAccessors(g: Generator, info: ElementInfo, className: string, fields: seq<FieldSpec>, methods: Methods)
    requires info.useLombok
    ensures var t := GenerateClass(g, info, className, fields, methods);
            t.annotations[|t.annotations| - 1] ==
            AnnotationSpec("Accessors", [Member("fluent", Code(if info.fluentAccessors then "true" else "false"))])
  {
  }

  // ---------------------------------------------------------------------
  // One class

  /** A generated source file: the package and the class. */
  datatype GeneratedFile = GeneratedFile(packageName: string, typeSpec: TypeSpec)

  /**
    The fields and the first methods of a class: with Lombok only the fields,
    each with its declared type; otherwise the no-argument constructor, the
    fields with their getters and setters, and `toString`.
   */
  function Members(g: Generator, info: ElementInfo): (r: Result<(seq<FieldSpec>, Methods)>)
    ensures r.Ok? ==> |r.value.0| == |NonConstant(info.fields)|
    ensures info.useLombok ==> r == (match CreateFields(g, info, NonConstant(info.fields))
                                     case Ok(fs) => Ok((fs, map[]))
                                     case Err(e) => Err(e))
    ensures !info.useLombok && r.Ok? ==> "_constructor" in r.value.1 && "toString" in r.value.1 && r.value.1["toString"] == ToString(info)
  {
    var fs := NonConstant(info.fields);
    if info.useLombok then
      var fields :- CreateFields(g, info, fs);
      Ok((fields, map[]))
    else
      var fm :- FieldsGettersAndSetters(g, info, fs, NoArgsConstructor(map[]));
      Ok((fm.0, fm.1["toString" := ToString(info)]))
  }

  /** The methods `of(arguments)`, `of(incoming)`, the type-specific method and `to` add to the first ones. */
  function CopyMethods(g: Generator, job: Job, packageName: string, methods: Methods): (r: Result<Methods>)
    ensures r.Err? <==> AnyUnresolvable(ContextOf(g), NonConstant(job.info.fields))
  {
    var ctx := ContextOf(g);
    ToUnresolvableWithinOf(ctx, job.info.fields);
    var m1 :- OfWithArguments(ctx, job.info, packageName, methods);
    // `of(incoming)` and `to` throw only for fields `of(arguments)` already threw for.
    var m2 := OfWithClass(ctx, job.info, job.key, packageName, m1).value;
    To(ctx, job.info, SpecificFor(g, m2))
  }

  /** The type-specific method's name, if the generator adds one. */
  function SpecificNames(g: Generator): (r: set<string>)
    ensures forall n :: n in r <==> SpecificMethodName(Variant(g)) == Some(n)
  {
    match SpecificMethodName(Variant(g)) case Some(n) => {n} case None => {}
  }

  /** The names of the methods the copy steps add, the type-specific one included. */
  function CopyMethodNames(g: Generator): (r: set<string>)
    ensures {"ofWithArguments", "of", "to"} <= r
    ensures forall n :: n in r ==> !IsHelperName(n)
  {
    assert "ofWithArguments"[..3] == "ofW" && "to"[..] == "to" && "of"[..] == "of";
    assert "toJSONString"[..3] == "toJ" && "toXMLString"[..3] == "toX";
    SpecificNames(g) + {"ofWithArguments", "of", "to"}
  }

  /**
    The chain of the copy steps over plain maps: two steps that add one named
    method each, a step that adds methods named in `names`, and a last step
    that adds one named method.
   */
  lemma CopyChain(m0: Methods, m1: Methods, m2: Methods, m3: Methods, m4: Methods, added: set<string>, names: set<string>)
    requires "ofWithArguments" !in added && "of" !in added && "to" !in added
    requires names == added + {"ofWithArguments", "of", "to"}
    requires GrowsBeside(m0, m1, "ofWithArguments") && GrowsBeside(m1, m2, "of") && GrowsBeside(m3, m4, "to")
    requires added <= m3.Keys
    requires forall k :: k in m2 && k !in added ==> k in m3 && m3[k] == m2[k]
    requires forall k :: k in m3 && k !in m2 ==> k in added
    ensures "ofWithArguments" in m4 && m4["ofWithArguments"] == m1["ofWithArguments"]
    ensures "of" in m4 && m4["of"] == m2["of"] && names <= m4.Keys
    ensures forall k :: k in m0 && k !in names ==> k in m4 && m4[k] == m0[k]
    ensures forall k :: k in m4 && k !in m0 && k !in names ==> IsHelperName(k)
  {
    assert "ofWithArguments" != "of" && "ofWithArguments" != "to" && "of" != "to";
  }

  /** `of(arguments)` and `of(incoming)` stay as their own steps built them, and `to` completes the methods. */
  lemma CopyMethodsSteps(g: Generator, job: Job, packageName: string, methods: Methods)
    requires CopyMethods(g, job, packageName, methods).Ok?
    ensures var ctx := ContextOf(g);
            var r := CopyMethods(g, job, packageName, methods).value;
            var m1 := OfWithArguments(ctx, job.info, packageName, methods).value;
            var m2 := OfWithClass(ctx, job.info, job.key, packageName, m1).value;
            "ofWithArguments" in r && r["ofWithArguments"] == m1["ofWithArguments"] &&
            "of" in r && r["of"] == m2["of"] &&
            r == To(ctx, job.info, SpecificFor(g, m2)).value
  {
    var ctx := ContextOf(g);
    var m1 := OfWithArguments(ctx, job.info, packageName, methods).value;
    var m2 := OfWithClass(ctx, job.info, job.key, packageName, m1).value;
    var m3 := SpecificFor(g, m2);
    var m4 := To(ctx, job.info, m3).value;
    CopyChain(methods, m1, m2, m3, m4, SpecificNames(g), CopyMethodNames(g));
  }

  /**
    The copy steps add `ofWithArguments`, `of`, `to`, the type-specific
    method and helpers; every other method is kept as it was.
   */
  lemma CopyMethodsKeep(g: Generator, job: Job, packageName: string, methods: Methods)
    requires CopyMethods(g, job, packageName, methods).Ok?
    ensures var r := CopyMethods(g, job, packageName, methods).value;
            CopyMethodNames(g) <= r.Keys &&
            (forall k :: k in methods && k !in CopyMethodNames(g) ==> k in r && r[k] == methods[k]) &&
            (forall k :: k in r && k !in methods && k !in CopyMethodNames(g) ==> IsHelperName(k))
  {
    var ctx := ContextOf(g);
    var m1 := OfWithArguments(ctx, job.info, packageName, methods).value;
    var m2 := OfWithClass(ctx, job.info, job.key, packageName, m1).value;
    var m3 := SpecificFor(g, m2);
    var m4 := To(ctx, job.info, m3).value;
    CopyChain(methods, m1, m2, m3, m4, SpecificNames(g), CopyMethodNames(g));
  }

  /**
    One iteration of `generate`: the member plan in the source's order, then
    the class, in the package `generatePackageName` derives and under the
    prefixed name.
   */
  function GenerateOne(g: Generator, job: Job): (r: Result<GeneratedFile>)
    ensures r.Ok? ==> r.value.packageName == GeneratePackageName(job.key, job.info)
    ensures r.Ok? ==> r.value.typeSpec.name == job.info.prefix + job.info.className
  {
    var packageName := GeneratePackageName(job.key, job.info);
    var members :- Members(g, job.info);
    var methods :- CopyMethods(g, job, packageName, members.1);
    Ok(GeneratedFile(packageName, GenerateClass(g, job.info, job.info.prefix + job.info.className, members.0, methods)))
  }

  /** A class is generated exactly when its fields can be planned and no non-constant field throws while being copied. */
  lemma GenerateOneFails(g: Generator, job: Job)
    ensures GenerateOne(g, job).Ok? <==> Members(g, job.info).Ok? && !AnyUnresolvable(ContextOf(g), NonConstant(job.info.fields))
  {
  }

  /** The class of a generated file holds the planned fields and the methods the copy steps leave. */
  lemma GenerateOneParts(g: Generator, job: Job)
    requires GenerateOne(g, job).Ok?
    ensures Members(g, job.info).Ok?
    ensures var members := Members(g, job.info).value;
            var t := GenerateOne(g, job).value.typeSpec;
            var copied := CopyMethods(g, job, GeneratePackageName(job.key, job.info), members.1);
            t.fields[1..] == members.0 && copied.Ok? && t.methods == copied.value
  {
  }

  /** Every generated class has `ofWithArguments`, `of`, `to` and the type-specific method. */
  lemma GenerateOneCopyMethods(g: Generator, job: Job)
    requires GenerateOne(g, job).Ok?
    ensures CopyMethodNames(g) <= GenerateOne(g, job).value.typeSpec.methods.Keys
  {
    GenerateOneParts(g, job);
    var members := Members(g, job.info).value;
    CopyMethodsKeep(g, job, GeneratePackageName(job.key, job.info), members.1);
  }

  /** A Lombok class has no other methods than those and helpers. */
  lemma GenerateOneLombokMethods(g: Generator, job: Job)
    requires GenerateOne(g, job).Ok? && job.info.useLombok
    ensures var ms := GenerateOne(g, job).value.typeSpec.methods;
            forall k :: k in ms ==> k in CopyMethodNames(g) || IsHelperName(k)
  {
    GenerateOneParts(g, job);
    var members := Members(g, job.info).value;
    var packageName := GeneratePackageName(job.key, job.info);
    CopyMethodsKeep(g, job, packageName, members.1);
    PlanKept(g, members.1, CopyMethods(g, job, packageName, members.1).value, job.info);
  }

  /** A class without Lombok also has the no-argument constructor and `toString`. */
  lemma GenerateOnePlainMethods(g: Generator, job: Job)
    requires GenerateOne(g, job).Ok? && !job.info.useLombok
    ensures var ms := GenerateOne(g, job).value.typeSpec.methods;
            "_constructor" in ms && "toString" in ms && ms["toString"] == ToString(job.info)
  {
    GenerateOneParts(g, job);
    var members := Members(g, job.info).value;
    var packageName := GeneratePackageName(job.key, job.info);
    CopyMethodsKeep(g, job, packageName, members.1);
    PlanKept(g, members.1, CopyMethods(g, job, packageName, members.1).value, job.info);
  }

  /** What the copy steps leave of the first methods, over plain maps. */
  lemma PlanKept(g: Generator, first: Methods, ms: Methods, info: ElementInfo)
    requires forall k :: k in first && k !in CopyMethodNames(g) ==> k in ms && ms[k] == first[k]
    requires forall k :: k in ms && k !in first && k !in CopyMethodNames(g) ==> IsHelperName(k)
    requires info.useLombok ==> first == map[]
    requires !info.useLombok ==> "_constructor" in first && "toString" in first && first["toString"] == ToString(info)
    ensures info.useLombok ==> forall k :: k in ms ==> k in CopyMethodNames(g) || IsHelperName(k)
    ensures !info.useLombok ==> "_constructor" in ms && "toString" in ms && ms["toString"] == ToString(info)
  {
    assert "_constructor"[..3] == "_co" && "toString"[..3] == "toS";
    assert "_constructor" !in CopyMethodNames(g) && "toString" !in CopyMethodNames(g);
  }

  // ---------------------------------------------------------------------
  // The whole input

  /** The values of the outcomes up to the first failure, and that failure. */
  function UntilFirstFailure<T>(outcomes: seq<Result<T>>): (r: (seq<T>, Option<Failure>))
    ensures |r.0| <= |outcomes|
    ensures forall i :: 0 <= i < |r.0| ==> outcomes[i] == Ok(r.0[i])
    ensures r.1.None? <==> forall i :: 0 <= i < |outcomes| ==> outcomes[i].Ok?
    ensures r.1.None? ==> |r.0| == |outcomes|
    ensures r.1.Some? ==> |r.0| < |outcomes| && outcomes[|r.0|] == Err(r.1.value)
  {
    if |outcomes| == 0 then ([], None)
    else if outcomes[0].Err? then ([], Some(outcomes[0].failure))
    else
      var rest := UntilFirstFailure(outcomes[1..]);
      assert forall i :: 1 <= i < |outcomes| ==> outcomes[1..][i - 1] == outcomes[i];
      ([outcomes[0].value] + rest.0, rest.1)
  }

  /**
    `generate`: one class for every `ElementInfo` of the collected input, in
    iteration order, each with the generator's own type; the first exception
    ends the run, and the classes before it are already written.
   */
  function Generate(g: Generator): (r: (seq<GeneratedFile>, Option<Failure>))
    ensures |r.0| <= |g.input|
    ensures forall i :: 0 <= i < |r.0| ==> GenerateOne(g, g.input[i]) == Ok(r.0[i])
    ensures r.1.None? <==> forall i :: 0 <= i < |g.input| ==> GenerateOne(g, g.input[i]).Ok?
    ensures r.1.None? ==> |r.0| == |g.input|
    ensures r.1.Some? ==> |r.0| < |g.input| && GenerateOne(g, g.input[|r.0|]) == Err(r.1.value)
  {
    UntilFirstFailure(seq(|g.input|, i requires 0 <= i < |g.input| => GenerateOne(g, g.input[i])))
  }
}
