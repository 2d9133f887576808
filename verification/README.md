# json-mapper / kilauea annotation processor in Dafny

This project models the decision logic of the `@Mapped` annotation processor. The processor reads classes annotated with `@Mapped(type = JSON | XML | POJO)`. For each annotation it generates a companion class. The companion holds a copy of every non-constant field, annotated for Jackson (JSON), JAXB (XML) or not at all (POJO). It also gets:

- accessors, a constructor and `toString`, or Lombok annotations instead;
- two `of` factory methods: one taking all field values, one taking an instance of the annotated class;
- a `to()` method that converts back;
- a type-specific `toJSONString` or `toXMLString`.

The repository carries two generations of the processor:

- the `kilauea` package: `Mapper`, `MapperBase`, `ElementInfo`, the factory and the XML generator;
- the older `json` package: `AbstractClassGenerator`, `ClassGenerator`, the JSON and plain generators, `ClassTemplate` and its own `MapperBase`.

The files do not all come from one revision of the processor, so the model joins them where their interfaces meet (see "Generators from two revisions" below). Apart from that, it follows the files as the `kilauea` `Mapper` wires them together, with one deliberate difference. Four defects, listed under "## Findings", are modelled twice: once as written and once corrected. Three of them lie on the generation pipeline, and the pipeline is built from their corrected halves: `Generation.Members`, `Generation.CopyMethods` and therefore `Generation.GenerateOne`, `Generation.Generate` and `Mapper.Process`. On three kinds of input the class the model generates therefore differs from the one the program emits:

- with `fluentAccessors = true`, the model keeps the getter that the program's setter replaces (`AbstractClassGenerator.java` lines 205-206);
- for a class whose last declared field is a constant, the model's `toString` has no trailing ", " (`ClassGenerator.java` lines 281-282);
- for a field such as `List<String> tags`, the model's `of(arguments)` calls the setter the program omits (`AbstractClassGenerator.java` lines 328-366).

The as-written members (`FieldStepAsWritten`, `ToStringAsWritten`, `OfArgumentStepAsWritten`) exist beside the corrected ones, each with a lemma that exhibits the defect.

How the model represents the processor:

- **Generated code is data.** A generated class is a `TypeSpec` with fields, a method map keyed the way the source keys its `HashMap<String, MethodSpec>`, and annotations. Method bodies are sequences of `Stmt` over `Expr`, not text. The model therefore states what is generated (which setter is called, from which source, through which helper), not how JavaPoet prints it.
- **The compiler is a value.** `Env` maps canonical names to declarations, which is what `Elements.getTypeElement` consults. Assignability to `Collection`, `Set` and `Map` is recorded per type.
- **Exceptions are results.** Two runtime exceptions escape the source, and each becomes a `Result` error:
  - A type argument that names no declaration makes `fieldIsMapped(null)` throw a NullPointerException (`AbstractClassGenerator.java` lines 333-334). The model returns `Err(NullPointer)`.
  - A raw `List` or `Map` field makes `destinationTypeArguments.get(0)` throw an IndexOutOfBoundsException. The model returns `Err(IndexOutOfBounds)`.
  - Neither exception is an `IOException`, so the first one stops the whole run. `Mapper.Process` models exactly that.

Behaviour of the source that the model keeps as written:

- **Sets become lists.** `checkFieldTypeForCollections` tests `Collection` before `Set`, so a `Set` field is stored as a `List` (`ClassGenerator.SetBranchUnreachable`).
- **The `of(incoming)` helpers are swapped by name only.** `createStatementForMappedFieldOf` handles the *unmapped* fields and `createStatementForUnmappedFieldOf` the mapped ones. The generated code is right nevertheless, and the model follows the behaviour, not the names.
- **The lookups are keyed differently.** `of(incoming)` looks fields up by the canonical name of the annotated class; `to()` uses its simple name.
- **Generators from two revisions.** `ClassGeneratorFactory` (`kilauea/generator/ClassGeneratorFactory.java` lines 41-47) builds the `kilauea` package's JSON and plain generators, which are not among the modelled files; the model stands in the `json` package's `JSONClassGenerator` and `PlainClassGenerator`. Those, and `XMLClassGenerator` (line 79), call a six-argument `super(…, annotationInfo, annotatedClass, input)`, while the modelled `AbstractClassGenerator` has only a four-argument constructor (lines 80-81) and an older `generate()` that loops over the whole input (lines 96-99). The model joins the two: each generator the factory builds for one collected `ElementInfo` runs that older loop over every entry (`Mapper.Process`, `Generation.Generate`). The resulting count of classes, the square of the number of entries, and the XML root element named after the generator's own `annotatedClass` for every entry (`XMLClassGenerator.java` line 114) follow from this join, not from one revision of the program.

Scope of the model:

- **One `ElementInfo`.** The `json` package's `ElementInfo` (`json/generator/ElementInfo.java`, lines 26-110) has a subset of the `kilauea` one's attributes. It lacks `type`, `datePattern`, `dateTimePattern`, `additionalFields`, `xmlns` and `annotatedClassHasPublicConstructor`. Yet the `json` package's `JSONClassGenerator` reads `dateTimePattern()` and `datePattern()` (lines 161 and 164). So the `kilauea` `ElementInfo` stands in for it, and one datatype serves both. This is part of the join of two revisions described above.
- **A precondition on `Mapper.Process`.** It asks for an acyclic superclass relation, which compiled Java guarantees. The superclass walk of `addSuperclassFields` terminates only because of it.

## Model


| member | source | states |
|---|---|---|
| StringUtil.ToLower | src/main/java/net/magiccode/kilauea/util/StringUtil.java:74 | `Character.toLowerCase` on ASCII: upper-case letters become lower case, every other character is unchanged, and the result is never upper case |
| StringUtil.ToTitle | src/main/java/net/magiccode/kilauea/util/StringUtil.java:51 | `Character.toTitleCase` on ASCII: lower-case letters become upper case, every other character is unchanged |
| StringUtil.LowerTitleRoundTrip | src/main/java/net/magiccode/kilauea/util/StringUtil.java:44-84 | lower-casing undoes title-casing of a character that is not upper case, and the other way round |
| StringUtil.AllWhitespace | src/main/java/net/magiccode/kilauea/util/StringUtil.java:28 | `String.isBlank` holds exactly when every character is whitespace |
| StringUtil.IsBlank | src/main/java/net/magiccode/kilauea/util/StringUtil.java:27-29 | `null` or whitespace-only is blank, and nothing else |
| StringUtil.IsNotBlank | src/main/java/net/magiccode/kilauea/util/StringUtil.java:35-37 | not blank exactly when non-null with a visible character; the negation of `isBlank` |
| StringUtil.Capitalise | src/main/java/net/magiccode/kilauea/util/StringUtil.java:44-61 | same length; the first character title-cased and the rest unchanged; the empty string comes back as it is |
| StringUtil.Uncapitalise | src/main/java/net/magiccode/kilauea/util/StringUtil.java:67-84 | same length; the first character lower-cased and the rest unchanged; the empty string comes back as it is |
| StringUtil.CapitaliseNullable | src/main/java/net/magiccode/kilauea/util/StringUtil.java:44-48 | `capitalise(null)` is `null`; a non-null argument keeps its length |
| StringUtil.UncapitaliseNullable | src/main/java/net/magiccode/kilauea/util/StringUtil.java:67-71 | `uncapitalise(null)` is `null`; a non-null argument keeps its length |
| StringUtil.UncapitaliseIdempotent | src/main/java/net/magiccode/kilauea/util/StringUtil.java:67-84 | uncapitalising twice is uncapitalising once |
| StringUtil.CapitaliseIdempotent | src/main/java/net/magiccode/kilauea/util/StringUtil.java:44-61 | capitalising twice is capitalising once |
| StringUtil.UncapitaliseCapitalise | src/main/java/net/magiccode/kilauea/util/StringUtil.java:44-84 | a name that does not start upper-case survives `capitalise` followed by `uncapitalise` |
| StringUtil.SplitAll | src/main/java/net/magiccode/kilauea/util/StringUtil.java:93 | splitting on `\s` yields at least one piece, and the whole string when it holds no `\s` character |
| StringUtil.DropTrailingEmpty | src/main/java/net/magiccode/kilauea/util/StringUtil.java:93 | `split` drops trailing empty pieces: a prefix of the pieces that does not end in an empty one |
| StringUtil.JavaSplit | src/main/java/net/magiccode/kilauea/util/StringUtil.java:93 | `split("\\s")` of a string without whitespace is the string itself |
| StringUtil.AppendPieces | src/main/java/net/magiccode/kilauea/util/StringUtil.java:94-99 | the buffer loop of `capitaliseAll` only appends to what the buffer held |
| StringUtil.CapitaliseAllSingleWord | src/main/java/net/magiccode/kilauea/util/StringUtil.java:92-101 | without whitespace `capitaliseAll` is `capitalise` |
| StringUtil.CapitaliseAllTwoWords | src/main/java/net/magiccode/kilauea/util/StringUtil.java:92-101 | two words joined by one space are capitalised word by word and the space is kept |
| StringUtil.CapitaliseAllWords | src/main/java/net/magiccode/kilauea/util/StringUtil.java:92-101 | any number of words without whitespace, joined by single spaces, are capitalised word by word with the spaces kept; only a trailing empty word is excluded, because `split` drops it |
| StringUtil.SplitAroundSpace | src/main/java/net/magiccode/kilauea/util/StringUtil.java:93 | two words joined by one space split into exactly those two words |
| StringUtil.IndexOf | src/main/java/net/magiccode/kilauea/util/StringUtil.java:113 | `indexOf` returns a position where the pattern occurs, with no occurrence before it |
| StringUtil.DoubleSlashIsContains | src/main/java/net/magiccode/kilauea/util/StringUtil.java:128 | having two adjacent slashes is `contains("//")` |
| StringUtil.ReplaceDoubleSlash | src/main/java/net/magiccode/kilauea/util/StringUtil.java:129 | `replace("//", "/")` never lengthens, strictly shortens while a "//" is left, and keeps whether the string starts with a slash |
| StringUtil.ReplaceKeepsCollapse | src/main/java/net/magiccode/kilauea/util/StringUtil.java:128-129 | one `replace` pass does not change what the string collapses to (every run of slashes shrunk to one) |
| StringUtil.UnifySlashes | src/main/java/net/magiccode/kilauea/util/StringUtil.java:126-131 | the loop ends with no "//" left, and its result is the string with every run of slashes shrunk to one |
| StringUtil.NoDoubleSlashNoSeparator | src/main/java/net/magiccode/kilauea/util/StringUtil.java:112-118 | a string without "//" holds no "://", so `clearSlashes` takes its else branch there |
| StringUtil.ClearSlashes | src/main/java/net/magiccode/kilauea/util/StringUtil.java:107-121 | without a "://" separator the result is the slash-collapsed string, free of "//" |
| StringUtil.ClearSlashesIdempotent | src/main/java/net/magiccode/kilauea/util/StringUtil.java:107-131 | a second `clearSlashes` leaves a cleared string unchanged |
| StringUtil.Quote | src/main/java/net/magiccode/kilauea/util/StringUtil.java:138-140 | the text between two copies of the quote character |
| StringUtil.QuoteDefault | src/main/java/net/magiccode/kilauea/util/StringUtil.java:146-148 | the one-argument `quote` surrounds the text with double quotes |
| StringUtil.SnakeTail | src/main/java/net/magiccode/kilauea/util/StringUtil.java:166-183 | the loop over the later characters adds one '_' per upper-case character and leaves none upper-case |
| StringUtil.CamelToSnake | src/main/java/net/magiccode/kilauea/util/StringUtil.java:154-187 | the first character lower-cased, one extra '_' per later upper-case character, and no upper-case character in the result |
| StringUtil.SnakeTailRoundTrip | src/main/java/net/magiccode/kilauea/util/StringUtil.java:166-183 | without '_' in the input, reading "_x" back as "X" recovers the input of the loop |
| StringUtil.CamelToSnakeRoundTrip | src/main/java/net/magiccode/kilauea/util/StringUtil.java:154-187 | a name that starts lower-case and holds no '_' is recovered from its snake-case form |
| Annotation.WithType | src/main/java/net/magiccode/kilauea/annotation/Mapped.java:43-139 | `@Mapped(type = t)` with the other attributes omitted carries `t` and every other attribute at its declared default |
| JavaModel.ResolveName | src/main/java/net/magiccode/json/generator/ClassGenerator.java:322 | `getTypeElement(name)` finds a declaration exactly when one has that canonical name, and then that one |
| JavaModel.Resolve | src/main/java/net/magiccode/json/generator/ClassGenerator.java:321-322 | only a declared type without type arguments names a declaration; everything else resolves to `null` |
| JavaModel.AnyOfType | src/main/java/net/magiccode/json/generator/ClassGenerator.java:342-343 | true exactly when some `@Mapped` occurrence has the requested generator type |
| JavaModel.TypeIsAnnotatedWith | src/main/java/net/magiccode/json/generator/ClassGenerator.java:334-347 | false for `null`; otherwise true exactly when the declaration carries `@Mapped` of the requested type |
| JavaModel.FieldTypeIsMapped | src/main/java/net/magiccode/json/generator/ClassGenerator.java:318-324 | a field is mapped exactly when its type resolves to a declaration carrying `@Mapped` of the generator's type; only argument-free declared types can be |
| JavaModel.ArgumentIsMapped | src/main/java/net/magiccode/json/generator/AbstractClassGenerator.java:333-334 | the check of one type argument throws a NullPointerException exactly when the argument names no declaration, and otherwise says whether it is mapped |
| JavaModel.ArgumentsMapped | src/main/java/net/magiccode/json/generator/AbstractClassGenerator.java:331-335 | the flag loop succeeds exactly when every argument resolves, with one flag per argument saying whether it is mapped; otherwise it throws a NullPointerException |
| JavaModel.ResolveByText | src/main/java/net/magiccode/json/generator/ClassGenerator.java:322 | for an argument-free declared type, resolving the type and resolving its text agree |
| Info.Build | src/main/java/net/magiccode/kilauea/generator/ElementInfo.java:105-115 | the builder sets every attribute as given and starts with no interfaces |
| Info.AddInterface | src/main/java/net/magiccode/kilauea/generator/ElementInfo.java:136-138 | `addInterface` appends at the end and changes nothing else |
| Info.ContainsCanonical | src/main/java/net/magiccode/kilauea/generator/ElementInfo.java:145-147 | true exactly when some listed interface has the canonical name of the argument |
| Info.HasInterface | src/main/java/net/magiccode/kilauea/generator/ElementInfo.java:145-147 | `hasInterface` compares canonical names, not identity |
| Info.AddThenHas | src/main/java/net/magiccode/kilauea/generator/ElementInfo.java:136-147 | after `addInterface(c)`, `hasInterface(d)` holds exactly when it held before or `d` has `c`'s canonical name |
| Info.AddInterfaceKeepsDuplicates | src/main/java/net/magiccode/kilauea/generator/ElementInfo.java:136-138 | adding the same interface twice keeps two entries |
| ClassGenerator.GetterName | src/main/java/net/magiccode/json/generator/ClassGenerator.java:240-246 | fluent: the uncapitalised field name; otherwise "is" (for a `Boolean` true flag only) or "get" before the capitalised name |
| ClassGenerator.SetterName | src/main/java/net/magiccode/json/generator/ClassGenerator.java:256-262 | fluent: the uncapitalised field name; otherwise "set" before the capitalised name |
| ClassGenerator.AccessorNameRoundTrip | src/main/java/net/magiccode/json/generator/ClassGenerator.java:240-262 | the field name is recovered from the getter and from the setter name of a field that starts lower-case |
| ClassGenerator.AccessorNamesCollideIffFluent | src/main/java/net/magiccode/json/generator/ClassGenerator.java:240-262 | the getter and setter of a field share their name exactly when accessors are fluent |
| ClassGenerator.GeneratePackageName | src/main/java/net/magiccode/json/generator/ClassGenerator.java:422-431 | an explicit package wins; otherwise the original package, extended by the sub-package when that is not blank |
| ClassGenerator.ExplicitPackageIgnoresSubpackage | src/main/java/net/magiccode/json/generator/ClassGenerator.java:422-431 | with an explicit package the sub-package makes no difference |
| ClassGenerator.Companion | src/main/java/net/magiccode/json/generator/ClassGenerator.java:131-134 | the companion of a mapped class is the prefixed simple name in the generated package |
| ClassGenerator.CompanionInjective | src/main/java/net/magiccode/json/generator/ClassGenerator.java:131-134 | two classes of one package have the same companion only if they are the same class |
| ClassGenerator.CollectType | src/main/java/net/magiccode/json/generator/ClassGenerator.java:127-135 | a type argument naming a mapped class becomes its companion; every other one stays |
| ClassGenerator.CollectTypes | src/main/java/net/magiccode/json/generator/ClassGenerator.java:121-138 | `collectTypes` keeps the length and replaces exactly the mapped arguments by their companions |
| ClassGenerator.CollectTypesUnmapped | src/main/java/net/magiccode/json/generator/ClassGenerator.java:127-137 | with no mapped argument the arguments come back unchanged |
| ClassGenerator.ContainerOf | src/main/java/net/magiccode/json/generator/ClassGenerator.java:368-384 | which container a declared type is, checking Collection, then Set, then Map |
| ClassGenerator.SetBranchUnreachable | src/main/java/net/magiccode/json/generator/ClassGenerator.java:368-378 | in a consistent hierarchy every Set is a Collection, so the Set branch is never taken |
| ClassGenerator.CheckFieldTypeForCollections | src/main/java/net/magiccode/json/generator/ClassGenerator.java:358-387 | a Collection becomes `List` of the collected first argument, a Map `Map` of the two collected arguments, anything else keeps its type; a raw container throws IndexOutOfBounds |
| ClassGenerator.SetFieldBecomesList | src/main/java/net/magiccode/json/generator/ClassGenerator.java:368-378 | a `Set<T>` field is stored as a `List` in the companion |
| ClassGenerator.MappedElementsRetyped | src/main/java/net/magiccode/json/generator/ClassGenerator.java:358-372 | a `List<Foo>` of a mapped `Foo` is stored as `List<PFoo>` |
| ClassGenerator.StoredFieldType | src/main/java/net/magiccode/json/generator/JSONClassGenerator.java:176-185 | a mapped field is stored with its companion type, then containers are retyped; fails only where the container check throws |
| ClassGenerator.MappedFieldStoredAsCompanion | src/main/java/net/magiccode/json/generator/JSONClassGenerator.java:176-185 | a mapped field of a plain class type is stored with exactly its companion type |
| ClassGenerator.NoArgsConstructor | src/main/java/net/magiccode/json/generator/ClassGenerator.java:81-85 | adds a public no-argument constructor under "_constructor" and keeps every other method |
| ClassGenerator.SetterAssignments | src/main/java/net/magiccode/json/generator/ClassGenerator.java:112-180 | the assignment part of a setter: a copy per container kind, a clone for arrays, nothing for kinds that carry no value; a NullPointerException exactly when a type argument names no declaration |
| ClassGenerator.SetterPlan | src/main/java/net/magiccode/json/generator/ClassGenerator.java:95-186 | the setter takes the stored field type, assigns the field, and a chained setter returns the generated class and ends in `return this` |
| ClassGenerator.ChainedSetterReturnsThis | src/main/java/net/magiccode/json/generator/ClassGenerator.java:181-184 | a chained setter's last statement is `return this`; an unchained one never returns |
| ClassGenerator.AssignmentsNeverReturn | src/main/java/net/magiccode/json/generator/ClassGenerator.java:112-180 | the copy statements of a setter never return |
| ClassGenerator.GetterPlan | src/main/java/net/magiccode/json/generator/ClassGenerator.java:196-214 | the getter exists exactly when the stored type can be computed; it is named as `generateGetterName` says, takes nothing and returns the field with the stored type |
| ClassGenerator.GetterMatchesSetter | src/main/java/net/magiccode/json/generator/ClassGenerator.java:196-214 | the getter returns the type the setter accepts |
| ClassGenerator.NonConstant | src/main/java/net/magiccode/json/generator/ClassGenerator.java:276-277 | a field is covered exactly when it is declared and not a constant |
| ClassGenerator.AppendsAsWritten | src/main/java/net/magiccode/json/generator/ClassGenerator.java:278-284 | as written, one append per covered field, with ', ' after every covered field that is not the last declared field |
| ClassGenerator.ToStringAsWritten | src/main/java/net/magiccode/json/generator/ClassGenerator.java:271-294 | the method as written: `toString` without parameters, the opening append, one append per covered field, the closing append and the return |
| ClassGenerator.ToStringTrailingSeparator | src/main/java/net/magiccode/json/generator/ClassGenerator.java:276-284 | as written, for any class whose last declared field is a constant and which has a covered field, the method prints the covered entries joined by ", " and then a dangling ", " before ")" |
| ClassGenerator.Appends | src/main/java/net/magiccode/json/generator/ClassGenerator.java:278-284 | the corrected appends put ", " after every covered field except the last covered one |
| ClassGenerator.ToString | src/main/java/net/magiccode/json/generator/ClassGenerator.java:271-294 | the corrected method keeps the same frame, one append per covered field, and returns `stringRep` |
| ClassGenerator.RenderAppendsJoin | src/main/java/net/magiccode/json/generator/ClassGenerator.java:278-285 | the corrected appends print the "name=value" entries joined by ", " |
| ClassGenerator.ToStringPrintsEntries | src/main/java/net/magiccode/json/generator/ClassGenerator.java:271-294 | the corrected method prints the class name and the entries of the covered fields joined by ", " |
| ClassGenerator.ToStringAgreesWhenLastCovered | src/main/java/net/magiccode/json/generator/ClassGenerator.java:276-284 | when the last declared field is not a constant both versions emit the same method |
| ClassGenerator.AppendsAgree | src/main/java/net/magiccode/json/generator/ClassGenerator.java:276-284 | the two separator rules agree when the last declared field is covered |
| Mappings.ChooseBranch | src/main/java/net/magiccode/json/generator/AbstractClassGenerator.java:337-364 | the list branch needs a mapped first argument and a Collection or Set; the map branch two arguments, one of the first two mapped, and a Map; no branch means neither condition holds |
| Mappings.ListBranchWins | src/main/java/net/magiccode/json/generator/AbstractClassGenerator.java:337-352 | a type that is both a Collection and a Map takes the list branch when its first argument is mapped |
| Mappings.NothingMappedNoBranch | src/main/java/net/magiccode/json/generator/AbstractClassGenerator.java:337-364 | without a mapped argument among the first two no branch is taken |
| Mappings.MapBranchNeedsTwoArguments | src/main/java/net/magiccode/json/generator/AbstractClassGenerator.java:350-353 | with a single type argument the map branch is never taken |
| Mappings.HelperName | src/main/java/net/magiccode/json/generator/AbstractClassGenerator.java:779-780 | every helper name starts with "map" |
| Mappings.OfHelperName | src/main/java/net/magiccode/json/generator/AbstractClassGenerator.java:779-780 | towards the companion a mapped `Foo` gets `mapFooToPFoo` |
| Mappings.ToHelperName | src/main/java/net/magiccode/json/generator/AbstractClassGenerator.java:837-838 | back to the annotated class it gets `mapPFooToFoo` |
| Mappings.HelperMethod | src/main/java/net/magiccode/json/generator/AbstractClassGenerator.java:782-808 | a static helper named as above, taking `e` of the source type, returning the target type, converting through `of` one way and `to()` the other |
| Mappings.HelperFor | src/main/java/net/magiccode/json/generator/AbstractClassGenerator.java:774-781 | a type argument contributes a helper exactly when it is mapped |
| Mappings.HelpersOf | src/main/java/net/magiccode/json/generator/AbstractClassGenerator.java:774-781 | one contribution per type argument, in order |
| Mappings.CreateTypeElementMappings | src/main/java/net/magiccode/json/generator/AbstractClassGenerator.java:769-813 | existing methods are kept, every mapped argument's helper name is present afterwards, nothing but helper names is added, and every recorded name is a present method |
| Mappings.MethodsKept | src/main/java/net/magiccode/json/generator/AbstractClassGenerator.java:782-809 | each iteration keeps the methods present and adds a helper only under a new name |
| Mappings.NamesRecorded | src/main/java/net/magiccode/json/generator/AbstractClassGenerator.java:781 | every mapped argument's type gets an entry in the name map |
| Mappings.NamesJustified | src/main/java/net/magiccode/json/generator/AbstractClassGenerator.java:781 | every entry of the name map is the helper name of some mapped argument with that key |
| Mappings.MemoIdempotent | src/main/java/net/magiccode/json/generator/AbstractClassGenerator.java:769-813 | running the memoisation over its own result adds nothing |
| Mappings.ExistingHelperKept | src/main/java/net/magiccode/json/generator/AbstractClassGenerator.java:782 | a method already under a helper's name is kept, not replaced |
| Mappings.NoMappedArgumentNoHelper | src/main/java/net/magiccode/json/generator/AbstractClassGenerator.java:774-778 | with no mapped argument the methods are unchanged and the name map is empty |
| Mappings.EntryLambda | src/main/java/net/magiccode/json/generator/AbstractClassGenerator.java:667-679 | a key or value goes through a helper exactly when its type has a recorded name, and then through that helper |
| Mappings.EntryLambdaFollowsMapping | src/main/java/net/magiccode/json/generator/AbstractClassGenerator.java:667-679 | the map lambdas use a helper exactly for the mapped key or value type |
| Mappings.BranchValue | src/main/java/net/magiccode/json/generator/AbstractClassGenerator.java:622-760 | the list branch maps the elements through the first argument's helper; the map branch collects entries through the key and value lambdas |
| Mappings.ListHelperNamedAfterArgument | src/main/java/net/magiccode/json/generator/AbstractClassGenerator.java:631 | the list branch calls the helper named after its first argument |
| GeneratorFactory.GetClassGenerator | src/main/java/net/magiccode/kilauea/generator/ClassGeneratorFactory.java:30-48 | JSON and XML get their own generator and every other type the plain one; all arguments are passed on unchanged |
| GeneratorFactory.FactoryInjective | src/main/java/net/magiccode/kilauea/generator/ClassGeneratorFactory.java:38-48 | one generator type gives one generator: two calls with the same arguments agree exactly when their types do |
| GeneratorFactory.FieldSpecFor | src/main/java/net/magiccode/json/generator/JSONClassGenerator.java:148-199 | a transient field keeps the type it is given; any other is private, with the stored field type, and fails only with IndexOutOfBounds |
| GeneratorFactory.MappedByFor | src/main/java/net/magiccode/json/generator/JSONClassGenerator.java:97-100 | the mapped-by annotation names the annotated class, with the generator's own annotation type |
| GeneratorFactory.AdditionalFor | src/main/java/net/magiccode/json/generator/PlainClassGenerator.java:96-98 | the plain generator returns `null`; JSON adds one class annotation, XML two |
| GeneratorFactory.SpecificFor | src/main/java/net/magiccode/json/generator/JSONClassGenerator.java:123-136 | JSON and XML add their string method and keep the others; the plain generator adds nothing |
| GeneratorFactory.VariantsAgreeOnFieldType | src/main/java/net/magiccode/json/generator/JSONClassGenerator.java:176-185 | a non-generic field is stored with the same type by every generator that does not ignore it |
| GeneratorFactory.StoredTypeIgnoresVariant | src/main/java/net/magiccode/json/generator/PlainClassGenerator.java:124-133 | two generators that collect the same type arguments (or a type without arguments) store a field with the same type: the variant matters only through the mapped checks of the arguments |
| JsonGenerator.SpecificMethods | src/main/java/net/magiccode/json/generator/JSONClassGenerator.java:123-136 | adds `toJSONString`, which serialises the object, and keeps every other method |
| JsonGenerator.MappedBy | src/main/java/net/magiccode/json/generator/JSONClassGenerator.java:97-100 | `@JSONMappedBy` naming the annotated class |
| JsonGenerator.AdditionalAnnotations | src/main/java/net/magiccode/json/generator/JSONClassGenerator.java:109-114 | exactly one class annotation, `@JsonInclude` with the configured policy |
| JsonGenerator.DateFormats | src/main/java/net/magiccode/json/generator/JSONClassGenerator.java:160-165 | a `LocalDateTime` or `LocalDate` field gets one `@JsonFormat` with its pattern quoted; any other field none |
| JsonGenerator.Property | src/main/java/net/magiccode/json/generator/JSONClassGenerator.java:167-172 | `@JsonProperty` with the quoted snake-case name, and `required = true` exactly for a `@MapperRequired` field |
| JsonGenerator.CreateFieldSpec | src/main/java/net/magiccode/json/generator/JSONClassGenerator.java:148-199 | a `@MapperTransient` or `@JsonIgnore` field keeps its type and carries only `@JsonIgnore`; any other is private with the stored type, its date format, then its property |
| JsonGenerator.PropertyNameRoundTrip | src/main/java/net/magiccode/json/generator/JSONClassGenerator.java:167-168 | the JSON key reads back as the field name when that is lower camel case |
| JsonGenerator.PropertyNameIsSnakeCase | src/main/java/net/magiccode/json/generator/JSONClassGenerator.java:167-168 | no JSON key holds an upper-case letter |
| JsonGenerator.TransientIgnoresType | src/main/java/net/magiccode/json/generator/JSONClassGenerator.java:193-196 | an ignored field's specification does not depend on whether it is mapped |
| PlainGenerator.SpecificMethods | src/main/java/net/magiccode/json/generator/PlainClassGenerator.java:73-76 | the plain generator adds no method |
| PlainGenerator.MappedBy | src/main/java/net/magiccode/json/generator/PlainClassGenerator.java:84-87 | `@POJOMappedBy` naming the annotated class |
| PlainGenerator.AdditionalAnnotations | src/main/java/net/magiccode/json/generator/PlainClassGenerator.java:96-98 | no class annotations |
| PlainGenerator.CreateFieldSpec | src/main/java/net/magiccode/json/generator/PlainClassGenerator.java:111-146 | a `@MapperTransient` field is private final with its declared type; any other private with the stored type; none is annotated |
| PlainGenerator.FinalIffTransient | src/main/java/net/magiccode/json/generator/PlainClassGenerator.java:120-143 | a field is final exactly when it is transient, and never annotated |
| XmlGenerator.SpecificMethods | src/main/java/net/magiccode/kilauea/generator/XMLClassGenerator.java:135-151 | adds `toXMLString`, which serialises the object, and keeps every other method |
| XmlGenerator.MappedBy | src/main/java/net/magiccode/kilauea/generator/XMLClassGenerator.java:100-103 | `@XMLMappedBy` naming the annotated class |
| XmlGenerator.AdditionalAnnotations | src/main/java/net/magiccode/kilauea/generator/XMLClassGenerator.java:112-126 | `@XmlRootElement` named after the snake-case class name, with the namespace exactly when `xmlns` is not blank, then `@XmlAccessorType(FIELD)` |
| XmlGenerator.FirstXmlns | src/main/java/net/magiccode/kilauea/generator/XMLClassGenerator.java:242-246 | the `xmlns` of the first XML-typed `@Mapped`, or "" when there is none |
| XmlGenerator.MappingNamespace | src/main/java/net/magiccode/kilauea/generator/XMLClassGenerator.java:237-249 | "" when the field's type names no declaration, else the first XML `xmlns` of that declaration |
| XmlGenerator.Namespace | src/main/java/net/magiccode/kilauea/generator/XMLClassGenerator.java:189-199 | a field's own `@XMLNamespace` is used as given; otherwise the mapped class's namespace or the class's, falling back to `xmlns`, and none when blank |
| XmlGenerator.Property | src/main/java/net/magiccode/kilauea/generator/XMLClassGenerator.java:175-201 | `@XmlAttribute` for primitives and `java.lang` types, else `@XmlElement`; the quoted snake-case name first, `required` exactly for `@XMLRequired`, the namespace last when there is one |
| XmlGenerator.CreateFieldSpec | src/main/java/net/magiccode/kilauea/generator/XMLClassGenerator.java:163-228 | an `@XMLTransient` field keeps its type and carries only `@XmlTransient`; any other is private with the stored type and its property |
| XmlGenerator.ClassNamespaceReachesFields | src/main/java/net/magiccode/kilauea/generator/XMLClassGenerator.java:194-198 | with a non-blank class namespace every field without its own namespace gets one |
| XmlGenerator.OwnNamespaceKeptWhenBlank | src/main/java/net/magiccode/kilauea/generator/XMLClassGenerator.java:189-191 | a blank `@XMLNamespace` is kept, which the fallback never produces |
| XmlGenerator.UnmappedIgnoresMappingNamespace | src/main/java/net/magiccode/kilauea/generator/XMLClassGenerator.java:193 | an unmapped field never looks at the mapped class's namespace |
| AbstractGenerator.FieldStepAsWritten | src/main/java/net/magiccode/json/generator/AbstractClassGenerator.java:186-207 | as written, with fluent accessors the step adds a single method key, the uncapitalised field name, and what it holds takes one parameter |
| AbstractGenerator.FluentGetterLost | src/main/java/net/magiccode/json/generator/AbstractClassGenerator.java:205-206 | with fluent accessors the setter overwrites the getter: the generated class has no getter for the field |
| AbstractGenerator.FieldStep | src/main/java/net/magiccode/json/generator/AbstractClassGenerator.java:186-207 | corrected: the stored field comes from the generator's field specification; the step succeeds exactly when that and the setter plan do, and only adds methods |
| AbstractGenerator.FieldStepMethods | src/main/java/net/magiccode/json/generator/AbstractClassGenerator.java:204-206 | the step adds exactly the getter's and the setter's entries and keeps every other method |
| AbstractGenerator.GetterAndSetterKeysDiffer | src/main/java/net/magiccode/json/generator/AbstractClassGenerator.java:205-206 | the corrected keys of getter and setter always differ |
| AbstractGenerator.FluentKeepsBothAccessors | src/main/java/net/magiccode/json/generator/AbstractClassGenerator.java:205-206 | with fluent accessors the corrected step keeps both the getter and the setter, both named after the field |
| AbstractGenerator.FieldsGettersAndSetters | src/main/java/net/magiccode/json/generator/AbstractClassGenerator.java:186-208 | corrected (each step is `FieldStep`, see Findings): one stored field per field given, in order, each from the generator's field specification; methods only grow; failures are IndexOutOfBounds or NullPointerException |
| AbstractGenerator.FieldsGettersAndSettersMethods | src/main/java/net/magiccode/json/generator/AbstractClassGenerator.java:186-208 | corrected: every field adds two keys, its getter under the getter's name and its setter under `SetterKey`; every resulting method comes from the incoming map or from some field; an accessor no later field overwrites holds that field's getter or setter; a method no field touches is kept |
| AbstractGenerator.CreateFields | src/main/java/net/magiccode/json/generator/AbstractClassGenerator.java:216-225 | with Lombok, one field per field given, in order, through the generator's field specification with the declared type; fails only with IndexOutOfBounds |
| AbstractGenerator.LombokStoresSameType | src/main/java/net/magiccode/json/generator/AbstractClassGenerator.java:216-223 | the Lombok path stores each field with the type the accessor path gives it |
| AbstractGenerator.TransientMappedFieldTypesDiffer | src/main/java/net/magiccode/json/generator/AbstractClassGenerator.java:191-224 | under Lombok a transient mapped field keeps its declared type; with generated accessors it is stored with the companion type, which is also the type its setter takes when the field is not a container |
| AbstractGenerator.LocalsDistinct | src/main/java/net/magiccode/json/generator/AbstractClassGenerator.java:427 | the locals "field0", "field1", ... of different counters are different names |
| AbstractGenerator.GenericValue | src/main/java/net/magiccode/json/generator/AbstractClassGenerator.java:326-366 | a generic field throws a NullPointerException exactly when an argument resolves to nothing; no helper branch leaves the methods alone; a branch maps from the field's source and its helpers are present |
| AbstractGenerator.UnmappedArgumentsNoBranch | src/main/java/net/magiccode/json/generator/AbstractClassGenerator.java:337-364 | with no mapped type argument a generic field takes no helper branch |
| AbstractGenerator.CopyValue | src/main/java/net/magiccode/json/generator/AbstractClassGenerator.java:316-380 | the value copied for one field fails exactly when an argument is unresolvable, and every helper it calls is among the methods afterwards |
| AbstractGenerator.CopyValueCopies | src/main/java/net/magiccode/json/generator/AbstractClassGenerator.java:316-380 | the copied value is read from the field's source, converted exactly when the field is mapped, and the source itself for a plain non-generic field |
| AbstractGenerator.MappedFieldRoundTrip | src/main/java/net/magiccode/json/generator/AbstractClassGenerator.java:368-379 | a mapped field goes through the companion's `of` towards the companion and through `to()` back, around the same source |
| AbstractGenerator.CopyValues | src/main/java/net/magiccode/json/generator/AbstractClassGenerator.java:309-380 | one copied value per field |
| AbstractGenerator.CopyValuesFails | src/main/java/net/magiccode/json/generator/AbstractClassGenerator.java:309-380 | copying fails exactly when some field's arguments are unresolvable, and then with a NullPointerException |
| AbstractGenerator.CopyValuesCopy | src/main/java/net/magiccode/json/generator/AbstractClassGenerator.java:309-380 | each field's value is copied from that field's own source |
| AbstractGenerator.CopyValuesResolve | src/main/java/net/magiccode/json/generator/AbstractClassGenerator.java:309-380 | copying only adds helpers, and every helper a copied value calls is present afterwards |
| AbstractGenerator.OfArgumentStepAsWritten | src/main/java/net/magiccode/json/generator/AbstractClassGenerator.java:316-380 | as written, one field contributes at most one setter call, and fails exactly when its type arguments are unresolvable |
| AbstractGenerator.OfArgumentsDropsPlainGenericField | src/main/java/net/magiccode/json/generator/AbstractClassGenerator.java:328-366 | as written, a `List<String>` parameter never reaches its setter; the corrected step passes it on |
| AbstractGenerator.OfArgumentStep | src/main/java/net/magiccode/json/generator/AbstractClassGenerator.java:316-380 | corrected: every field's setter is called on the value copied from the parameter of the same name |
| AbstractGenerator.OfArgumentStepsAgree | src/main/java/net/magiccode/json/generator/AbstractClassGenerator.java:316-380 | where the as-written step emits a statement it is the corrected one |
| AbstractGenerator.OfWithArguments | src/main/java/net/magiccode/json/generator/AbstractClassGenerator.java:298-385 | corrected (every field is copied through `CopyValues`, see Findings): `of(arguments)` fails exactly when a non-constant field's arguments are unresolvable; it adds "ofWithArguments" and helpers only |
| AbstractGenerator.OfArgumentsMethodLayout | src/main/java/net/magiccode/json/generator/AbstractClassGenerator.java:302-381 | the method: static `of` returning the companion, one parameter per field, the new object first, one setter call per field in order, the return last |
| AbstractGenerator.OfWithArgumentsCopies | src/main/java/net/magiccode/json/generator/AbstractClassGenerator.java:298-385 | one parameter per non-constant field with its declared type, and a body that creates the object, sets each field from its parameter and returns it |
| AbstractGenerator.OfWithArgumentsResolves | src/main/java/net/magiccode/json/generator/AbstractClassGenerator.java:298-385 | every helper `of(arguments)` calls is among the methods it leaves |
| AbstractGenerator.OfWithClass | src/main/java/net/magiccode/json/generator/AbstractClassGenerator.java:397-448 | `of(incoming)` fails exactly when a non-constant field's arguments are unresolvable; it adds "of" and helpers only |
| AbstractGenerator.OfClassMethodFrame | src/main/java/net/magiccode/json/generator/AbstractClassGenerator.java:400-446 | the frame: the annotated class's instance as parameter, `null` for `null`, the new object, the return, and the unchecked suppression exactly for an unmapped generic field |
| AbstractGenerator.OfClassMethodLayout | src/main/java/net/magiccode/json/generator/AbstractClassGenerator.java:418-436 | the lookup and guarded setter call of field `i` sit at positions `2i+2` and `2i+3` |
| AbstractGenerator.OfWithClassFrame | src/main/java/net/magiccode/json/generator/AbstractClassGenerator.java:397-448 | the generated `of(incoming)` returns `null` for `null`, else the new companion; unchecked warnings are suppressed exactly when some unmapped field is generic |
| AbstractGenerator.OfWithClassCopies | src/main/java/net/magiccode/json/generator/AbstractClassGenerator.java:418-436 | one reflective lookup and one guarded copy per non-constant field, in field order, through the local of its position |
| AbstractGenerator.OfWithClassLocalsDistinct | src/main/java/net/magiccode/json/generator/AbstractClassGenerator.java:426-427 | two fields are looked up into different locals |
| AbstractGenerator.OfWithClassResolves | src/main/java/net/magiccode/json/generator/AbstractClassGenerator.java:397-448 | every helper `of(incoming)` calls is among the methods it leaves |
| AbstractGenerator.ToFields | src/main/java/net/magiccode/json/generator/AbstractClassGenerator.java:912-913 | `to` copies back exactly the declared fields that are neither constant nor final |
| AbstractGenerator.ToFieldsWithinOf | src/main/java/net/magiccode/json/generator/AbstractClassGenerator.java:912-913 | the fields `to` copies back are a selection of those `of(incoming)` copies |
| AbstractGenerator.ToUnresolvableWithinOf | src/main/java/net/magiccode/json/generator/AbstractClassGenerator.java:912-913 | a field that makes `to` throw also makes both `of` methods throw |
| AbstractGenerator.To | src/main/java/net/magiccode/json/generator/AbstractClassGenerator.java:894-1000 | `to` fails exactly when a copied-back field's arguments are unresolvable; it adds "to" and helpers only |
| AbstractGenerator.ToMethodLayout | src/main/java/net/magiccode/json/generator/AbstractClassGenerator.java:912-996 | the lookup and guarded copy of field `i` sit at positions `2i+1` and `2i+2` |
| AbstractGenerator.ToFrame | src/main/java/net/magiccode/json/generator/AbstractClassGenerator.java:894-1000 | `to` is an instance method without parameters, returning the annotated class, creating it first and returning it last |
| AbstractGenerator.ToCopies | src/main/java/net/magiccode/json/generator/AbstractClassGenerator.java:912-996 | per field a lookup, then a guard (the lookup alone for primitives, also a non-null value otherwise) around a reflective setter call on the copied-back value |
| AbstractGenerator.ToResolves | src/main/java/net/magiccode/json/generator/AbstractClassGenerator.java:894-1000 | every helper `to` calls is among the methods it leaves |
| Generation.ClassAnnotations | src/main/java/net/magiccode/json/generator/AbstractClassGenerator.java:252-255 | the generator's class annotations, none when it returns `null` |
| Generation.GenerateClass | src/main/java/net/magiccode/json/generator/AbstractClassGenerator.java:238-284 | the class has the prefixed name, `serialVersionUID` before the given fields, `Serializable` before the configured interfaces, the configured superclass, the methods given, and the mapped-by annotation first |
| Generation.GeneratorAnnotationsAreNotLombok | src/main/java/net/magiccode/json/generator/AbstractClassGenerator.java:251-255 | no annotation a generator adds is a Lombok annotation |
| Generation.LombokAnnotationTypes | src/main/java/net/magiccode/json/generator/AbstractClassGenerator.java:257-264 | the Lombok block holds all six annotations, `AllArgsConstructor` only for a class with fields |
| Generation.GenerateClassLombok | src/main/java/net/magiccode/json/generator/AbstractClassGenerator.java:257-264 | the Lombok annotations appear exactly when Lombok is used |
| Generation.GenerateClassAccessors | src/main/java/net/magiccode/json/generator/AbstractClassGenerator.java:261-263 | with Lombok the last class annotation is `@Accessors` with the fluent setting |
| Generation.Members | src/main/java/net/magiccode/json/generator/AbstractClassGenerator.java:115-122 | corrected (fields through `FieldStep`, see Findings): one stored field per non-constant field; with Lombok no methods at all; otherwise the constructor and the corrected `toString` among the methods |
| Generation.CopyMethods | src/main/java/net/magiccode/json/generator/AbstractClassGenerator.java:123-130 | corrected (`of(arguments)` is the corrected `OfWithArguments`): the copy steps run in the source's order and fail exactly when a non-constant field is unresolvable |
| Generation.CopyMethodsSteps | src/main/java/net/magiccode/json/generator/AbstractClassGenerator.java:123-130 | corrected: the "ofWithArguments" entry is the corrected `of(arguments)`; it and `of(incoming)` stay as their own steps built them, and `to` completes the methods |
| Generation.CopyMethodsKeep | src/main/java/net/magiccode/json/generator/AbstractClassGenerator.java:123-130 | the copy steps add only their own methods and helpers and keep every other method |
| Generation.GenerateOne | src/main/java/net/magiccode/json/generator/AbstractClassGenerator.java:102-135 | a generated class sits in the package `generatePackageName` derives and carries the prefixed name |
| Generation.GenerateOneFails | src/main/java/net/magiccode/json/generator/AbstractClassGenerator.java:102-133 | a class is generated exactly when its members can be planned and no non-constant field throws while being copied |
| Generation.GenerateOneParts | src/main/java/net/magiccode/json/generator/AbstractClassGenerator.java:112-133 | corrected: the generated class holds the planned fields and the methods the copy steps leave, both built from the corrected halves of the findings |
| Generation.GenerateOneCopyMethods | src/main/java/net/magiccode/json/generator/AbstractClassGenerator.java:123-130 | every generated class has `ofWithArguments`, `of`, `to` and its type-specific method |
| Generation.GenerateOneLombokMethods | src/main/java/net/magiccode/json/generator/AbstractClassGenerator.java:116-130 | a Lombok class has no methods but those and helpers |
| Generation.GenerateOnePlainMethods | src/main/java/net/magiccode/json/generator/AbstractClassGenerator.java:118-122 | a class without Lombok also has the constructor and `toString` |
| Generation.UntilFirstFailure | src/main/java/net/magiccode/json/generator/AbstractClassGenerator.java:96-142 | the outcomes before the first failure, in order, and that failure |
| Generation.Generate | src/main/java/net/magiccode/json/generator/AbstractClassGenerator.java:96-142 | one class per collected `ElementInfo` in iteration order; the first exception stops the run and the classes before it are kept |
| MapperBase.GetClassName | src/main/java/net/magiccode/kilauea/MapperBase.java:67-82 | the loop computes the binary name from the enclosing elements and ends with the simple name |
| MapperBase.TopLevelName | src/main/java/net/magiccode/kilauea/MapperBase.java:74-79 | a top-level class in a named package is `package.Simple` |
| MapperBase.NestedName | src/main/java/net/magiccode/kilauea/MapperBase.java:72-73 | enclosing classes are joined with '$': `package.Outer$Inner` |
| MapperBase.UnnamedPackageName | src/main/java/net/magiccode/kilauea/MapperBase.java:75-79 | the unnamed package contributes nothing: `Outer$Inner` |
| MapperBase.GetAnnotationValue | src/main/java/net/magiccode/kilauea/MapperBase.java:91-98 | the value of the first entry whose key matches, or `null` when no key matches |
| JsonMapperBase.Walk | src/main/java/net/magiccode/json/MapperBase.java:52-61 | the walk keeps what it has built at the end and only adds in front |
| JsonMapperBase.GetClassName | src/main/java/net/magiccode/json/MapperBase.java:49-62 | the json copy also ends with the element's simple name |
| JsonMapperBase.WalkIsPrefix | src/main/java/net/magiccode/json/MapperBase.java:52-61 | the walk prepends exactly the contributions of the enclosing elements |
| JsonMapperBase.SameAsKilauea | src/main/java/net/magiccode/json/MapperBase.java:49-62 | both package generations compute the same name for every element |
| JsonMapperBase.EnclosingTypeJoined | src/main/java/net/magiccode/json/MapperBase.java:54-55 | an enclosing type is joined with '$' |
| JsonMapperBase.PackageContribution | src/main/java/net/magiccode/json/MapperBase.java:56-60 | a named package puts its qualified name and '.' in front; the unnamed one nothing |
| ClassTemplate.AdjustObjectName | src/main/java/net/magiccode/json/code/templates/ClassTemplate.java:39-41 | "JSON" before the name with its first letter lower-cased |
| ClassTemplate.VisibilityText | src/main/java/net/magiccode/json/code/templates/ClassTemplate.java:24 | a blank or `null` visibility is left out |
| ClassTemplate.Declaration | src/main/java/net/magiccode/json/code/templates/ClassTemplate.java:24-25 | the declaration after the visibility: "class", the adjusted name, "{" |
| ClassTemplate.StartTemplate | src/main/java/net/magiccode/json/code/templates/ClassTemplate.java:21-26 | as written the template appends the visibility directly followed by the declaration |
| ClassTemplate.EndTemplate | src/main/java/net/magiccode/json/code/templates/ClassTemplate.java:28-30 | appends exactly "}" |
| ClassTemplate.StartTemplateGluesVisibility | src/main/java/net/magiccode/json/code/templates/ClassTemplate.java:24 | as written, "public" runs into the keyword: "publicclass" |
| ClassTemplate.HeaderCorrected | src/main/java/net/magiccode/json/code/templates/ClassTemplate.java:24-25 | corrected: a visible modifier is followed by a space |
| ClassTemplate.StartTemplateCorrected | src/main/java/net/magiccode/json/code/templates/ClassTemplate.java:21-26 | the corrected template only appends to the buffer |
| ClassTemplate.StartTemplateCorrectedSeparates | src/main/java/net/magiccode/json/code/templates/ClassTemplate.java:24 | the corrected template keeps the modifier apart from the keyword and differs from the original only by that space |
| ClassTemplate.StartTemplateBlankUnchanged | src/main/java/net/magiccode/json/code/templates/ClassTemplate.java:24 | with a blank visibility both templates append the same text |
| Mapper.MergeByName | src/main/java/net/magiccode/kilauea/Mapper.java:237-242 | the merge keeps the class's own fields first and only appends |
| Mapper.MergeNames | src/main/java/net/magiccode/kilauea/Mapper.java:237-242 | a name is in the merged list exactly when it is among the fields or the superclass fields |
| Mapper.MergeDistinct | src/main/java/net/magiccode/kilauea/Mapper.java:237-242 | merging keeps names distinct: a subclass field is never shadowed |
| Mapper.MergeSources | src/main/java/net/magiccode/kilauea/Mapper.java:237-242 | every merged field comes from one of the two lists |
| Mapper.MergeFirstWins | src/main/java/net/magiccode/kilauea/Mapper.java:237-242 | for a new name the first superclass field of that name is the one merged |
| Mapper.MergeConcat | src/main/java/net/magiccode/kilauea/Mapper.java:237-243 | merging in two steps is merging the concatenation |
| Mapper.SuperDecl | src/main/java/net/magiccode/kilauea/Mapper.java:228-236 | the next superclass is followed only when it is a declared type the element utilities can find |
| Mapper.AddSuperclassFields | src/main/java/net/magiccode/kilauea/Mapper.java:225-247 | the walk keeps the class's own fields first and adds only superclass fields |
| Mapper.SuperChain | src/main/java/net/magiccode/kilauea/Mapper.java:228-243 | the chain is empty exactly when the class has no superclass the walk can follow |
| Mapper.AddSuperclassFieldsMergesChain | src/main/java/net/magiccode/kilauea/Mapper.java:225-247 | the walk merges exactly the fields of the chain, nearest superclass first |
| Mapper.InheritedFields | src/main/java/net/magiccode/kilauea/Mapper.java:225-247 | names stay distinct, and a name is collected exactly when the class or some visited superclass declares it |
| Mapper.FirstOccurrences | src/main/java/net/magiccode/kilauea/Mapper.java:205-210 | each configured interface name exactly once; the order the model keeps is its own choice, since the source's is unspecified (see Left out) |
| Mapper.ResolvedClasses | src/main/java/net/magiccode/kilauea/Mapper.java:206-211 | exactly the interfaces the element utilities can find; the others are dropped |
| Mapper.AddInterfaces | src/main/java/net/magiccode/kilauea/Mapper.java:328-336 | `addInterface` for each class in turn appends them in order |
| Mapper.SubpackageOf | src/main/java/net/magiccode/kilauea/Mapper.java:270-273 | the configured sub-package, or the lower-case type name when blank |
| Mapper.PrefixOf | src/main/java/net/magiccode/kilauea/Mapper.java:276-279 | the configured prefix, or the upper-case type name when blank |
| Mapper.CreateElementInfo | src/main/java/net/magiccode/kilauea/Mapper.java:262-339 | the annotation's attributes with defaulted sub-package and prefix, the given fields, the superclass exactly when one was found, and exactly the interfaces that resolve |
| Mapper.DefaultNaming | src/main/java/net/magiccode/kilauea/Mapper.java:269-279 | with only `type` given, `p.Name` gets the companion `p.json.JSONName` (and likewise for the other types) |
| Mapper.DefaultCompanionsDistinct | src/main/java/net/magiccode/kilauea/Mapper.java:269-279 | two occurrences that give only the type get companions with different packages and different class names exactly when their types differ |
| Mapper.AppendInfo | src/main/java/net/magiccode/kilauea/Mapper.java:186-213 | appends to the class's list, creating it when missing, and leaves every other class alone |
| Mapper.InfoFor | src/main/java/net/magiccode/kilauea/Mapper.java:174-216 | the class's own fields, merged with the superclass chain's exactly when `inheritFields` is set; a superclass exactly when the configured one resolves |
| Mapper.InfosFor | src/main/java/net/magiccode/kilauea/Mapper.java:145-148 | one `ElementInfo` per `@Mapped` occurrence, in order |
| Mapper.AppendAll | src/main/java/net/magiccode/kilauea/Mapper.java:145-148 | appending a class's infos touches no other class's entry |
| Mapper.AppendAllAppends | src/main/java/net/magiccode/kilauea/Mapper.java:145-148 | appending one by one appends the whole sequence after the list the class had |
| Mapper.CollectAnnotations | src/main/java/net/magiccode/kilauea/Mapper.java:145-148 | handling a class's occurrences touches no other class's entry |
| Mapper.CollectElement | src/main/java/net/magiccode/kilauea/Mapper.java:138-148 | a class is collected; anything else draws a warning and changes nothing |
| Mapper.ProcessMappedClasses | src/main/java/net/magiccode/kilauea/Mapper.java:132-150 | entries of classes not among the elements are kept, and only annotated elements gain entries |
| Mapper.CollectsFirst | src/main/java/net/magiccode/kilauea/Mapper.java:132-150 | the first element's entry is made by its own step and kept by the later ones |
| Mapper.ProcessMappedClassesCollects | src/main/java/net/magiccode/kilauea/Mapper.java:132-150 | each class with `@Mapped` occurrences gets the list of their `ElementInfo`s in annotation order; any other element gets no entry |
| Mapper.ProcessMappedClassesWarns | src/main/java/net/magiccode/kilauea/Mapper.java:138-141 | every annotated element that is not a class draws a warning |
| Mapper.WarningsKept | src/main/java/net/magiccode/kilauea/Mapper.java:138-141 | later elements keep the warnings already drawn |
| Mapper.JobsOfClass | src/main/java/net/magiccode/kilauea/Mapper.java:110 | a class's jobs pair its key with each of its `ElementInfo`s, in order |
| Mapper.JobsOf | src/main/java/net/magiccode/kilauea/Mapper.java:109-110 | every job pairs a collected class with one of its `ElementInfo`s, and every such pair is a job |
| Mapper.TypeOrPojo | src/main/java/net/magiccode/kilauea/Mapper.java:111-114 | a `null` generator type counts as POJO |
| Mapper.GeneratorsFor | src/main/java/net/magiccode/kilauea/Mapper.java:109-117 | one generator per job from the factory, with the job's type, its `ElementInfo`, its class and the whole input |
| Mapper.CollectedTypesPresent | src/main/java/net/magiccode/kilauea/Mapper.java:111-114 | collected `ElementInfo`s carry their annotation's type, so the POJO fallback never applies |
| Mapper.GenerateOutcome | src/main/java/net/magiccode/json/generator/AbstractClassGenerator.java:96-142 | a generator run succeeds exactly when every class of its input can be generated, and writes only classes it creates |
| Mapper.RunAll | src/main/java/net/magiccode/kilauea/Mapper.java:109-122 | the generators run in order up to the first failure; success exactly when every one succeeds, and each written class comes from some generator |
| Mapper.Process | src/main/java/net/magiccode/kilauea/Mapper.java:100-124 | collects the annotated elements, then runs one generator per collected `ElementInfo`, each over the whole collection; succeeds exactly when every one does; the warnings are those of the collection pass |

## Left out

- **Writing files and messages.** `Filer`, `Messager`, `JavaFile.writeTo`, the NOTE messages and all javadoc text are I/O. A generated class is returned as a value instead. The `IOException` handlers of `process` and `generate` are therefore not modelled.
- **HashMap iteration order.** Java leaves the iteration order of a `HashMap` unspecified, and the source iterates three of them:
  - `result.keySet()` and `input.keySet()`: the model takes the collection order (`Mapper.JobsOf`), and its contracts do not depend on it;
  - the interface map of `processMappedClasses` (`Mapper.java` lines 204-210), whose `entrySet()` `createElementInfo` walks (lines 327-336): the model uses first-occurrence order instead (`Mapper.FirstOccurrences`). The order of `ElementInfo.interfaces`, and so of the generated `implements` list, is therefore the model's choice.
- **Rendering and runtime.** The text JavaPoet prints is not modelled. Neither is the runtime behaviour of the generated `toJSONString`/`toXMLString`, which call Jackson and JAXB; each is the single statement `Serialise(format)`. Reflection inside the generated `of`/`to` bodies is an abstract `Lookup` statement.
- **Files outside the core.** `JsonMapper`, `ClassCompiler`, `ReflectionUtil` and the `Template` interface are not part of this model. Nor is the `additionalFields` hook, which no generator fills.
- **Generator-specific type collection.** `obtainTypeArguments` (`ClassGenerator.java` lines 395-402) is modelled as the argument list `TypeRef.args`. `collectTypes` (declared at `ClassGenerator.java` line 412) is `ClassGenerator.CollectTypes`: a mapped argument is replaced by its companion and every other argument is kept. The separate bodies the generator classes give it are not modelled one by one. `getMappedTypeForClassName` is modelled as the companion's name, derived from `generatePackageName` and the prefix.
- **Unicode.** Character classification is ASCII only. `Character.toLowerCase`, `toTitleCase` and `isWhitespace` leave every other character unchanged, in this model.
- **Acyclic superclasses.** `Mapper.Process` requires them; see above.
- StringUtil.CamelToSnake: defined on non-empty identifiers only. The source calls `charAt(0)` unguarded and throws on "". Every caller passes a Java field or class name, and those are never empty.
- StringUtil.ClearSlashes: the contract speaks only of strings without "://". With a separator the result is still computed as the source does, but no property beyond idempotence (`ClearSlashesIdempotent`) is stated.
- Mapper.FirstOccurrences: keeps each configured interface once, in first-occurrence order. The source stores them in a `HashMap` (`Mapper.java` lines 204-210), whose order Java does not specify.
- Mapper.CreateElementInfo: its contract states which interfaces are added (a membership property), not their order, because the source's order is a `HashMap` order.
- Generation.GenerateClass: `implements` lists `Serializable` and then `info.interfaces` in the model's order; the source's order after `Serializable` is that of the interface `HashMap`.
- AbstractGenerator.FieldsGettersAndSetters: uses the corrected step `FieldStep` (setter under `SetterKey`), not `FieldStepAsWritten`. With fluent accessors it keeps the getter that the source's setter replaces.
- AbstractGenerator.FieldsGettersAndSettersMethods: states the corrected map. As written, with fluent accessors a field leaves only its setter (`FluentGetterLost`).
- AbstractGenerator.OfWithArguments: copies every field through `CopyValues`, not `OfArgumentStepAsWritten`. For a generic field whose arguments are not mapped (`List<String>`), it emits the setter call the source omits.
- Generation.Members: built from `FieldStep` and the corrected `ClassGenerator.ToString`, not `FieldStepAsWritten` and `ToStringAsWritten`. Fluent getters are kept, and `toString` never ends in ", )".
- Generation.CopyMethods: `of(arguments)` is the corrected `AbstractGenerator.OfWithArguments`, not the as-written one.
- Generation.CopyMethodsSteps: equates the "ofWithArguments" entry with the corrected `of(arguments)`, as `Generation.CopyMethods` does.
- Generation.GenerateOneParts: the methods it states are those of the corrected `Generation.Members` and `Generation.CopyMethods`, so the same three differences carry into every generated class.
- Generation.Generate: stops at the first exception and keeps the classes generated before it. Files written by earlier generators in the same run are not rolled back, because nothing in the source rolls them back. Every generator runs the older whole-input loop, because the `generate()` of the revision the factory's generators extend is not part of this model.
- **A single revision of the generators.** The `kilauea` package's own `JSONClassGenerator` and `PlainClassGenerator`, and the `AbstractClassGenerator` the six-argument constructors belong to, are not part of this model. The `json` package's classes stand in for them, and the per-generator loop is the older `generate()` over the whole input (`AbstractClassGenerator.java` lines 96-99).
- **Stand-ins for unseen helpers.** The `json` package's `StringUtil` (`net.magiccode.json.util`) and its `Mapped`, `MapperTransient` and `MapperRequired` annotations (`net.magiccode.json.annotation`) are not part of this model. `ClassGenerator`, `AbstractClassGenerator`, `JSONClassGenerator`, `PlainClassGenerator` and `ClassTemplate` import them. The `kilauea` `StringUtil` (`kilauea/util/StringUtil.java`) and `Mapped` (`kilauea/annotation/Mapped.java`) stand in for them. So the rows for `JsonGenerator.Property`, `JsonGenerator.PropertyNameIsSnakeCase`, `ClassGenerator.GetterName`, the `ClassTemplate` members and `JavaModel.TypeIsAnnotatedWith` rest on the `kilauea` versions. The two markers are modelled only as the presence of the annotation on a field.
- Mapper.Process: states success, the count of written classes and where each came from. It does not state which files the `Filer` would reject as duplicates, because that is I/O.

## Findings

| source | as written | input that shows it | evidently intended | confidence | as-written member | corrected member |
|---|---|---|---|---|---|---|
| src/main/java/net/magiccode/json/code/templates/ClassTemplate.java:24 | the visibility is appended directly before "class" | visibility "public" gives "publicclass  JSON..." | a space between the modifier and `class` | high (not executed) | ClassTemplate.StartTemplateGluesVisibility | ClassTemplate.StartTemplateCorrectedSeparates |
| src/main/java/net/magiccode/json/generator/ClassGenerator.java:281-282 | the separator is skipped only after the last *declared* field | fields `a` and then a constant `K`: `toString` prints "C(a=1, )" | ", " only between printed entries | high (not executed) | ClassGenerator.ToStringTrailingSeparator | ClassGenerator.ToStringPrintsEntries |
| src/main/java/net/magiccode/json/generator/AbstractClassGenerator.java:205-206 | getter and setter are stored under their method names | `fluentAccessors = true`, field `name`: the setter `name(String)` replaces the getter `name()` in the map | both accessors generated | high (not executed) | AbstractGenerator.FluentGetterLost | AbstractGenerator.FluentKeepsBothAccessors |
| src/main/java/net/magiccode/json/generator/AbstractClassGenerator.java:328-366 | a parameterised unmapped field whose arguments are unmapped gets no setter call in `of(arguments)` | field `List<String> tags`: `of(..., tags)` never calls `setTags` | the value is passed to the setter, as for a non-generic field | high (not executed) | AbstractGenerator.OfArgumentsDropsPlainGenericField | AbstractGenerator.OfWithArgumentsCopies |
