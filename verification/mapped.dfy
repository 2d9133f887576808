/**
  The `@Mapped` annotation: the per-class configuration of one generated
  companion class, with the default of every attribute.
 */
module Annotation {

  /** The three kinds of generated class. */
  datatype GeneratorType = POJO | JSON | XML

  /** Upper-case constant name, as `GeneratorType.name()` returns it. */
  function TypeName(t: GeneratorType): (r: string)
    ensures |r| > 0
  {
    match t
    case POJO => "POJO"
    case JSON => "JSON"
    case XML => "XML"
  }

  /** `name().toLowerCase()` of the generator type. */
  function LowerTypeName(t: GeneratorType): (r: string)
    ensures |r| == |TypeName(t)|
  {
    match t
    case POJO => "pojo"
    case JSON => "json"
    case XML => "xml"
  }

  /** Jackson's `JsonInclude.Include` policy. */
  datatype Include =
    | ALWAYS | NON_NULL | NON_ABSENT | NON_EMPTY | NON_DEFAULT | CUSTOM | USE_DEFAULTS

  function IncludeName(i: Include): string {
    match i
    case ALWAYS => "ALWAYS"
    case NON_NULL => "NON_NULL"
    case NON_ABSENT => "NON_ABSENT"
    case NON_EMPTY => "NON_EMPTY"
    case NON_DEFAULT => "NON_DEFAULT"
    case CUSTOM => "CUSTOM"
    case USE_DEFAULTS => "USE_DEFAULTS"
  }

  /** The attributes of one `@Mapped` occurrence; the annotation is repeatable, so a class holds a sequence of them. */
  datatype Mapped = Mapped(
    gtype: GeneratorType,
    chainedSetters: bool,
    fluentAccessors: bool,
    prefix: string,
    packageName: string,
    subpackageName: string,
    useLombok: bool,
    superclass: string,
    interfaces: seq<string>,
    inheritFields: bool,
    datePattern: string,
    dateTimePattern: string,
    jsonInclude: Include,
    xmlns: string
  )

  /** `@Mapped` written without arguments. */
  const Default: Mapped := Mapped(
    gtype := POJO,
    chainedSetters := true,
    fluentAccessors := false,
    prefix := "",
    packageName := "",
    subpackageName := "",
    useLombok := false,
    superclass := "",
    interfaces := [],
    inheritFields := true,
    datePattern := "yyyy-MM-dd",
    dateTimePattern := "yyyy-MM-dd HH:mm:ss",
    jsonInclude := ALWAYS,
    xmlns := ""
  )

  /** The annotation as written with only some attributes given: every omitted one takes its default. */
  function WithType(t: GeneratorType): (m: Mapped)
    ensures m.gtype == t
    ensures m.(gtype := POJO) == Default
  {
    Default.(gtype := t)
  }
}
