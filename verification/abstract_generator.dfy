/**
  The generation every generator shares (`AbstractClassGenerator`): the
  fields with their accessors, the two `of` factories, `to`, and the class
  that carries them, for one collected `ElementInfo` at a time.
 */
module AbstractGenerator {
  import opened Lang
  import opened JavaModel
  import opened StringUtil
  import opened Info
  import opened CodeModel
  import opened ClassGenerator
  import opened Mappings
  import opened GeneratorFactory

  // ---------------------------------------------------------------------
  // How the methods map evolves

  /** A name the mapping helpers use: every helper is called "map...". */
  predicate IsHelperName(k: string) {
    |k| >= 3 && k[..3] == "map"
  }

  /** `after` keeps every method of `before` and adds helpers only. */
  predicate Grows(before: Methods, after: Methods) {
    (forall k :: k in before ==> k in after && after[k] == before[k]) &&
    (forall k :: k in after && k !in before ==> IsHelperName(k))
  }

  lemma GrowsTransitive(a: Methods, b: Methods, c: Methods)
    requires Grows(a, b) && Grows(b, c)
    ensures Grows(a, c)
  {
  }

  /** Every helper an expression calls is among the methods. */
  predicate CallsResolve(e: Expr, methods: Methods) {
    match e
    case MapElements(_, h) => h in methods
    case CollectEntries(_, k, v) =>
      (k.ThroughHelper? ==> k.helper in methods) && (v.ThroughHelper? ==> v.helper in methods)
    case _ => true
  }

  /** Every helper a statement calls, directly or inside an `if`, is among the methods. */
  predicate StmtResolves(s: Stmt, methods: Methods) {
    match s
    case CallSetter(_, v) => CallsResolve(v, methods)
    case InvokeSetter(_, _, v) => CallsResolve(v, methods)
    case If(_, body) => forall j :: 0 <= j < |body| ==> StmtResolves(body[j], methods)
    case _ => true
  }

  /** Adding methods never breaks a call that resolved. */
  lemma StmtResolvesMonotone(s: Stmt, m1: Methods, m2: Methods)
    requires m1.Keys <= m2.Keys
    requires StmtResolves(s, m1)
    ensures StmtResolves(s, m2)
  {
    if s.If? {
      forall j | 0 <= j < |s.body|
        ensures StmtResolves(s.body[j], m2)
      {
        StmtResolvesMonotone(s.body[j], m1, m2);
      }
    }
  }

  /** Adding methods never breaks a sequence of calls that resolved. */
  lemma AllResolveMonotone(ss: seq<Stmt>, m1: Methods, m2: Methods)
    requires m1.Keys <= m2.Keys
    requires forall i :: 0 <= i < |ss| ==> StmtResolves(ss[i], m1)
    ensures forall i :: 0 <= i < |ss| ==> StmtResolves(ss[i], m2)
  {
    forall i | 0 <= i < |ss|
      ensures StmtResolves(ss[i], m2)
    {
      StmtResolvesMonotone(ss[i], m1, m2);
    }
  }

  /** The field copies that throw: a parameterised type with an argument that names no declaration. */
  predicate Unresolvable(ctx: Ctx, f: FieldDecl) {
    f.ftype.Declared? && |f.ftype.args| > 0 && !AllResolve(ctx.env, f.ftype.args)
  }

  /** Some field of the sequence throws when copied. */
  predicate AnyUnresolvable(ctx: Ctx, fs: seq<FieldDecl>) {
    exists i :: 0 <= i < |fs| && Unresolvable(ctx, fs[i])
  }

  /** Some field throws exactly when the first one does or one of the rest does. */
  lemma AnyUnresolvableCons(ctx: Ctx, fs: seq<FieldDecl>)
    requires |fs| > 0
    ensures AnyUnresolvable(ctx, fs) <==> Unresolvable(ctx, fs[0]) || AnyUnresolvable(ctx, fs[1..])
  {
    if AnyUnresolvable(ctx, fs) && !Unresolvable(ctx, fs[0]) {
      var j :| 0 <= j < |fs| && Unresolvable(ctx, fs[j]);
      assert fs[1..][j - 1] == fs[j];
    }
    if AnyUnresolvable(ctx, fs[1..]) {
      var j :| 0 <= j < |fs[1..]| && Unresolvable(ctx, fs[1..][j]);
      assert fs[j + 1] == fs[1..][j];
    }
  }

  /** The local holding the reflective lookup of the `k`-th copied field. */
  function Local(k: nat): string {
    "field" + NatToString(k)
  }

  /** Different counters give different locals. */
  lemma LocalsDistinct(a: nat, b: nat)
    requires a != b
    ensures Local(a) != Local(b)
  {
    if Local(a) == Local(b) {
      assert NatToString(a) == Local(a)[5..] == Local(b)[5..] == NatToString(b);
      NatToStringInjective(a, b);
    }
  }

  // ---------------------------------------------------------------------
  // Fields, getters and setters

  /** The key a setter is stored under: its name, with the parameter type added when accessors are fluent. */
  function SetterKey(info: ElementInfo, setter: MethodSpec): (k: string)
    requires |setter.params| > 0
    ensures !info.fluentAccessors ==> k == setter.name
    ensures info.fluentAccessors ==> |k| > |setter.name| && k[..|setter.name|] == setter.name
  {
    if info.fluentAccessors then setter.name + "(" + Text(setter.params[0].ptype) + ")" else setter.name
  }

  /**
    One field of `createFieldsGettersAndSetters` as written: the field, then
    the getter and the setter, each stored under its method name. With fluent
    accessors both names are the field name and the setter replaces the getter.
   */
  function FieldStepAsWritten(g: Generator, info: ElementInfo, f: FieldDecl, methods: Methods): (r: Result<(FieldSpec, Methods)>)
    ensures r.Ok? ==> r.value.0.name == f.name
    ensures r.Ok? && info.fluentAccessors ==>
              var n := Uncapitalise(f.name);
              r.value.1.Keys == methods.Keys + {n} && |r.value.1[n].params| == 1
  {
    var ctx := ContextOf(g);
    var fieldTypeName := CollectType(ctx, info, f.ftype);
    var spec :- FieldSpecFor(g, info, f, fieldTypeName, FieldIsMapped(ctx, f));
    var getter :- GetterPlan(ctx, info, f, fieldTypeName);
    var setter :- SetterPlan(ctx, info, f, fieldTypeName);
    Ok((spec, methods[getter.name := getter][setter.name := setter]))
  }

  /**
    With fluent accessors the field's getter is lost: no method without
    parameters is added, so the generated class has no way to read the field.
   */
  lemma FluentGetterLost(g: Generator, info: ElementInfo, f: FieldDecl, methods: Methods)
    requires info.fluentAccessors
    requires FieldStepAsWritten(g, info, f, methods).Ok?
    ensures var after := FieldStepAsWritten(g, info, f, methods).value.1;
            forall k :: k in after && k !in methods ==> after[k].params != []
  {
  }

  /**
    One field of `createFieldsGettersAndSetters`, with the setter stored under
    `SetterKey` so that a fluent getter and setter are both kept.
   */
  function FieldStep(g: Generator, info: ElementInfo, f: FieldDecl, methods: Methods): (r: Result<(FieldSpec, Methods)>)
    ensures r.Ok? ==> FieldSpecFor(g, info, f, CollectType(ContextOf(g), info, f.ftype), FieldIsMapped(ContextOf(g), f)) == Ok(r.value.0)
    ensures r.Ok? ==> methods.Keys <= r.value.1.Keys
    ensures r.Ok? <==> FieldSpecFor(g, info, f, CollectType(ContextOf(g), info, f.ftype), FieldIsMapped(ContextOf(g), f)).Ok? &&
                       SetterPlan(ContextOf(g), info, f, CollectType(ContextOf(g), info, f.ftype)).Ok?
    ensures r.Err? ==> r.failure in {IndexOutOfBounds, NullPointer}
  {
    var ctx := ContextOf(g);
    var fieldTypeName := CollectType(ctx, info, f.ftype);
    var spec :- FieldSpecFor(g, info, f, fieldTypeName, FieldIsMapped(ctx, f));
    var setter :- SetterPlan(ctx, info, f, fieldTypeName);
    GetterMatchesSetter(ctx, info, f, fieldTypeName);
    var getter := GetterPlan(ctx, info, f, fieldTypeName).value;
    GetterAndSetterKeysDiffer(ctx, info, f, fieldTypeName);
    Ok((spec, methods[getter.name := getter][SetterKey(info, setter) := setter]))
  }

  /**
    A field adds its getter under the getter's name and its setter under
    `SetterKey`, two different keys, and leaves every other method alone.
   */
  lemma FieldStepMethods(g: Generator, info: ElementInfo, f: FieldDecl, methods: Methods)
    requires FieldStep(g, info, f, methods).Ok?
    ensures var ctx := ContextOf(g);
            var fieldTypeName := CollectType(ctx, info, f.ftype);
            var getter := GetterPlan(ctx, info, f, fieldTypeName).value;
            var setter := SetterPlan(ctx, info, f, fieldTypeName).value;
            var after := FieldStep(g, info, f, methods).value.1;
            FieldStep(g, info, f, methods).value.0.name == f.name &&
            getter.name != SetterKey(info, setter) &&
            after.Keys == methods.Keys + {getter.name, SetterKey(info, setter)} &&
            after[getter.name] == getter && after[SetterKey(info, setter)] == setter &&
            (forall k :: k in methods && k !in {getter.name, SetterKey(info, setter)} ==> after[k] == methods[k])
  {
    var ctx := ContextOf(g);
    var fieldTypeName := CollectType(ctx, info, f.ftype);
    GetterAndSetterKeysDiffer(ctx, info, f, fieldTypeName);
    var getter := GetterPlan(ctx, info, f, fieldTypeName).value;
    var setter := SetterPlan(ctx, info, f, fieldTypeName).value;
    var spec := FieldSpecFor(g, info, f, fieldTypeName, FieldIsMapped(ctx, f)).value;
    assert FieldStep(g, info, f, methods).value == (spec, methods[getter.name := getter][SetterKey(info, setter) := setter]);
    TwoUpdates(methods, getter.name, getter, SetterKey(info, setter), setter);
  }

  /** Two updates under different keys: both keys added, both values stored, the rest unchanged. */
  lemma TwoUpdates<V>(m: map<string, V>, k1: string, v1: V, k2: string, v2: V)
    requires k1 != k2
    ensures var a := m[k1 := v1][k2 := v2];
            a.Keys == m.Keys + {k1, k2} && a[k1] == v1 && a[k2] == v2 &&
            forall k :: k in m && k !in {k1, k2} ==> a[k] == m[k]
  {
  }

  /** The getter's name and the setter's key never coincide. */
  lemma GetterAndSetterKeysDiffer(ctx: Ctx, info: ElementInfo, f: FieldDecl, fieldTypeName: TypeRef)
    requires SetterPlan(ctx, info, f, fieldTypeName).Ok?
    ensures GetterPlan(ctx, info, f, fieldTypeName).Ok?
    ensures GetterPlan(ctx, info, f, fieldTypeName).value.name != SetterKey(info, SetterPlan(ctx, info, f, fieldTypeName).value)
  {
    var getter := GetterPlan(ctx, info, f, fieldTypeName).value;
    var setter := SetterPlan(ctx, info, f, fieldTypeName).value;
    AccessorNamesCollideIffFluent(info, f.name, Some(IsBoxedBoolean(fieldTypeName)));
    if info.fluentAccessors {
      assert |SetterKey(info, setter)| > |setter.name| == |getter.name|;
    }
  }

  /** With the setter under its own key, a fluent field keeps both accessors: a reader and a writer. */
  lemma FluentKeepsBothAccessors(g: Generator, info: ElementInfo, f: FieldDecl, methods: Methods)
    requires info.fluentAccessors
    requires FieldStep(g, info, f, methods).Ok?
    ensures var after := FieldStep(g, info, f, methods).value.1;
            Uncapitalise(f.name) in after && after[Uncapitalise(f.name)].params == [] &&
            after[Uncapitalise(f.name)].body == [Return(Var(f.name))] &&
            exists k :: k in after && after[k].name == Uncapitalise(f.name) && |after[k].params| == 1
  {
    var ctx := ContextOf(g);
    var setter := SetterPlan(ctx, info, f, CollectType(ctx, info, f.ftype)).value;
    var after := FieldStep(g, info, f, methods).value.1;
    FieldStepMethods(g, info, f, methods);
    assert after[SetterKey(info, setter)] == setter;
  }

  /** `createFieldsGettersAndSetters` over the non-constant fields, aborting at the first exception. */
  function FieldsGettersAndSetters(g: Generator, info: ElementInfo, fs: seq<FieldDecl>, methods: Methods): (r: Result<(seq<FieldSpec>, Methods)>)
    ensures r.Err? ==> r.failure in {IndexOutOfBounds, NullPointer}
    ensures r.Ok? ==> |r.value.0| == |fs|
    ensures r.Ok? ==> forall i :: 0 <= i < |fs| ==>
              FieldSpecFor(g, info, fs[i], CollectType(ContextOf(g), info, fs[i].ftype), FieldIsMapped(ContextOf(g), fs[i])) == Ok(r.value.0[i])
    ensures r.Ok? ==> methods.Keys <= r.value.1.Keys
    decreases |fs|
  {
    if |fs| == 0 then Ok(([], methods))
    else
      var step :- FieldStep(g, info, fs[0], methods);
      var rest :- FieldsGettersAndSetters(g, info, fs[1..], step.1);
      var specs := [step.0] + rest.0;
      assert forall i :: 0 <= i < |fs| ==>
               FieldSpecFor(g, info, fs[i], CollectType(ContextOf(g), info, fs[i].ftype), FieldIsMapped(ContextOf(g), fs[i])) == Ok(specs[i]) by {
        forall i | 0 <= i < |fs|
          ensures FieldSpecFor(g, info, fs[i], CollectType(ContextOf(g), info, fs[i].ftype), FieldIsMapped(ContextOf(g), fs[i])) == Ok(specs[i])
        {
          if i > 0 {
            assert fs[1..][i - 1] == fs[i] && specs[i] == rest.0[i - 1];
          }
        }
      }
      Ok((specs, rest.1))
  }

  /** The methods one field contributes: its getter under the getter's name and its setter under `SetterKey`. */
  function AccessorEntries(g: Generator, info: ElementInfo, f: FieldDecl): Methods {
    var ctx := ContextOf(g);
    var fieldTypeName := CollectType(ctx, info, f.ftype);
    match SetterPlan(ctx, info, f, fieldTypeName)
    case Err(_) => map[]
    case Ok(setter) =>
      GetterAndSetterKeysDiffer(ctx, info, f, fieldTypeName);
      var getter := GetterPlan(ctx, info, f, fieldTypeName).value;
      map[getter.name := getter, SetterKey(info, setter) := setter]
  }

  /** A successful field step overlays the field's two accessors on the methods so far. */
  lemma FieldStepOverlays(g: Generator, info: ElementInfo, f: FieldDecl, methods: Methods)
    requires FieldStep(g, info, f, methods).Ok?
    ensures FieldStep(g, info, f, methods).value.1 == methods + AccessorEntries(g, info, f)
    ensures |AccessorEntries(g, info, f).Keys| == 2
  {
    var ctx := ContextOf(g);
    var fieldTypeName := CollectType(ctx, info, f.ftype);
    GetterAndSetterKeysDiffer(ctx, info, f, fieldTypeName);
    var getter := GetterPlan(ctx, info, f, fieldTypeName).value;
    var setter := SetterPlan(ctx, info, f, fieldTypeName).value;
    var spec := FieldSpecFor(g, info, f, fieldTypeName, FieldIsMapped(ctx, f)).value;
    assert FieldStep(g, info, f, methods).value == (spec, methods[getter.name := getter][SetterKey(info, setter) := setter]);
    AccessorEntriesOf(g, info, f);
    OverlayTwo(methods, getter.name, getter, SetterKey(info, setter), setter);
  }

  lemma AccessorEntriesOf(g: Generator, info: ElementInfo, f: FieldDecl)
    requires SetterPlan(ContextOf(g), info, f, CollectType(ContextOf(g), info, f.ftype)).Ok?
    ensures var fieldTypeName := CollectType(ContextOf(g), info, f.ftype);
            var setter := SetterPlan(ContextOf(g), info, f, fieldTypeName).value;
            GetterPlan(ContextOf(g), info, f, fieldTypeName).Ok? &&
            AccessorEntries(g, info, f) == map[GetterPlan(ContextOf(g), info, f, fieldTypeName).value.name := GetterPlan(ContextOf(g), info, f, fieldTypeName).value,
                                               SetterKey(info, setter) := setter]
  {
    GetterAndSetterKeysDiffer(ContextOf(g), info, f, CollectType(ContextOf(g), info, f.ftype));
  }

  /** Two updates under different keys are an overlay of a two-entry map. */
  lemma OverlayTwo<V>(m: map<string, V>, k1: string, v1: V, k2: string, v2: V)
    requires k1 != k2
    ensures m[k1 := v1][k2 := v2] == m + map[k1 := v1, k2 := v2]
    ensures map[k1 := v1, k2 := v2].Keys == {k1, k2} && |{k1, k2}| == 2
  {
  }

  /** The accessor entries of each field, in declaration order. */
  function AccessorsOf(g: Generator, info: ElementInfo, fs: seq<FieldDecl>): (es: seq<Methods>)
    ensures |es| == |fs| && forall i :: 0 <= i < |fs| ==> es[i] == AccessorEntries(g, info, fs[i])
  {
    seq(|fs|, i requires 0 <= i < |fs| => AccessorEntries(g, info, fs[i]))
  }

  lemma AccessorsOfTail(g: Generator, info: ElementInfo, fs: seq<FieldDecl>)
    requires |fs| > 0
    ensures AccessorsOf(g, info, fs)[1..] == AccessorsOf(g, info, fs[1..])
  {
    var es := AccessorsOf(g, info, fs);
    var tail := AccessorsOf(g, info, fs[1..]);
    forall i | 0 <= i < |tail| ensures es[1..][i] == tail[i] {
      assert fs[1..][i] == fs[i + 1];
    }
  }

  /** Overlays maps left to right: an entry of a later map replaces an earlier one under the same key. */
  function OverlayAll<V>(m: map<string, V>, es: seq<map<string, V>>): map<string, V>
    decreases |es|
  {
    if |es| == 0 then m else OverlayAll(m + es[0], es[1..])
  }

  /**
    What an overlay of `es` on `m` holds in `r`: every key of the base and of
    every overlaid map, only such keys, the last map's value for each key, and
    the base value for a key no map mentions.
   */
  predicate Overlaid(m: Methods, es: seq<Methods>, r: Methods) {
    m.Keys <= r.Keys &&
    (forall i, k :: 0 <= i < |es| && k in es[i] ==> k in r) &&
    (forall k :: k in r ==> k in m || exists i :: 0 <= i < |es| && k in es[i]) &&
    (forall i, k :: 0 <= i < |es| && k in es[i] && (forall j :: i < j < |es| ==> k !in es[j]) ==> r[k] == es[i][k]) &&
    (forall k :: k in m && (forall i :: 0 <= i < |es| ==> k !in es[i]) ==> r[k] == m[k])
  }

  lemma {:induction false} OverlayAllEntries(m: Methods, es: seq<Methods>)
    ensures Overlaid(m, es, OverlayAll(m, es))
    decreases |es|
  {
    if |es| > 0 {
      var next := m + es[0];
      var rest := es[1..];
      OverlayAllEntries(next, rest);
      var r := OverlayAll(m, es);
      assert r == OverlayAll(next, rest);
      assert forall i :: 0 < i < |es| ==> es[i] == rest[i - 1];
      forall k | k in r
        ensures k in m || exists i :: 0 <= i < |es| && k in es[i]
      {
        if k !in next {
          var i :| 0 <= i < |rest| && k in rest[i];
          assert k in es[i + 1];
        } else if k !in m {
          assert k in es[0];
        }
      }
      forall i, k | 0 <= i < |es| && k in es[i] && (forall j :: i < j < |es| ==> k !in es[j])
        ensures r[k] == es[i][k]
      {
        if i == 0 {
          assert forall j :: 0 <= j < |rest| ==> k !in rest[j] by {
            forall j | 0 <= j < |rest| ensures k !in rest[j] {
              assert rest[j] == es[j + 1];
            }
          }
        } else {
          assert forall j :: i - 1 < j < |rest| ==> k !in rest[j] by {
            forall j | i - 1 < j < |rest| ensures k !in rest[j] {
              assert rest[j] == es[j + 1];
            }
          }
        }
      }
      forall k | k in m && (forall i :: 0 <= i < |es| ==> k !in es[i])
        ensures r[k] == m[k]
      {
        assert k !in es[0];
      }
    }
  }

  /** The methods after all fields are the incoming ones with each field's two accessors overlaid in order. */
  lemma {:induction false} FieldsGettersAndSettersOverlay(g: Generator, info: ElementInfo, fs: seq<FieldDecl>, methods: Methods)
    requires FieldsGettersAndSetters(g, info, fs, methods).Ok?
    ensures FieldsGettersAndSetters(g, info, fs, methods).value.1 == OverlayAll(methods, AccessorsOf(g, info, fs))
    ensures forall i :: 0 <= i < |fs| ==> |AccessorEntries(g, info, fs[i]).Keys| == 2
    decreases |fs|
  {
    if |fs| > 0 {
      FieldsGettersAndSettersUnfold(g, info, fs, methods);
      FieldStepOverlays(g, info, fs[0], methods);
      var next := FieldStep(g, info, fs[0], methods).value.1;
      FieldsGettersAndSettersOverlay(g, info, fs[1..], next);
      var es := AccessorsOf(g, info, fs);
      AccessorsOfTail(g, info, fs);
      assert OverlayAll(methods, es) == OverlayAll(methods + es[0], es[1..]);
      forall i | 0 < i < |fs| ensures |AccessorEntries(g, info, fs[i]).Keys| == 2 {
        assert fs[i] == fs[1..][i - 1];
      }
    }
  }

  /** The first field's step succeeds, and the rest of the fields continue from its methods. */
  lemma FieldsGettersAndSettersUnfold(g: Generator, info: ElementInfo, fs: seq<FieldDecl>, methods: Methods)
    requires |fs| > 0 && FieldsGettersAndSetters(g, info, fs, methods).Ok?
    ensures FieldStep(g, info, fs[0], methods).Ok?
    ensures var next := FieldStep(g, info, fs[0], methods).value.1;
            FieldsGettersAndSetters(g, info, fs[1..], next).Ok? &&
            FieldsGettersAndSetters(g, info, fs, methods).value.1 == FieldsGettersAndSetters(g, info, fs[1..], next).value.1
  {
  }

  /**
    Over all fields, every field's getter and setter end up among the methods:
    each field adds two keys, every method comes from the incoming ones or from
    some field, an accessor that no later field overwrites is stored as planned,
    and a method no field touches is kept.
   */
  lemma FieldsGettersAndSettersMethods(g: Generator, info: ElementInfo, fs: seq<FieldDecl>, methods: Methods)
    requires FieldsGettersAndSetters(g, info, fs, methods).Ok?
    ensures forall i :: 0 <= i < |fs| ==> |AccessorEntries(g, info, fs[i]).Keys| == 2
    ensures Overlaid(methods, AccessorsOf(g, info, fs), FieldsGettersAndSetters(g, info, fs, methods).value.1)
  {
    FieldsGettersAndSettersOverlay(g, info, fs, methods);
    OverlayAllEntries(methods, AccessorsOf(g, info, fs));
  }

  /** `createFields` (Lombok): the field specifications only, each with its declared type. */
  function CreateFields(g: Generator, info: ElementInfo, fs: seq<FieldDecl>): (r: Result<seq<FieldSpec>>)
    ensures r.Err? ==> r.failure == IndexOutOfBounds
    ensures r.Ok? ==> |r.value| == |fs|
    ensures r.Ok? ==> forall i :: 0 <= i < |fs| ==> FieldSpecFor(g, info, fs[i], fs[i].ftype, FieldIsMapped(ContextOf(g), fs[i])) == Ok(r.value[i])
    decreases |fs|
  {
    if |fs| == 0 then Ok([])
    else
      var spec :- FieldSpecFor(g, info, fs[0], fs[0].ftype, FieldIsMapped(ContextOf(g), fs[0]));
      var rest :- CreateFields(g, info, fs[1..]);
      var specs := [spec] + rest;
      assert forall i :: 0 <= i < |fs| ==> FieldSpecFor(g, info, fs[i], fs[i].ftype, FieldIsMapped(ContextOf(g), fs[i])) == Ok(specs[i]) by {
        forall i | 0 <= i < |fs|
          ensures FieldSpecFor(g, info, fs[i], fs[i].ftype, FieldIsMapped(ContextOf(g), fs[i])) == Ok(specs[i])
        {
          if i > 0 {
            assert fs[1..][i - 1] == fs[i] && specs[i] == rest[i - 1];
          }
        }
      }
      Ok(specs)
  }

  /**
    Lombok and hand-written accessors store a field with the same type unless
    the field is transient: only then does the declared type differ from the
    companion one.
   */
  lemma LombokStoresSameType(g: Generator, info: ElementInfo, f: FieldDecl)
    requires !IsTransient(g, f)
    ensures var ctx := ContextOf(g);
            var m := FieldIsMapped(ctx, f);
            var a := FieldSpecFor(g, info, f, f.ftype, m);
            var b := FieldSpecFor(g, info, f, CollectType(ctx, info, f.ftype), m);
            (a.Ok? <==> b.Ok?) && (a.Ok? ==> a.value.ftype == b.value.ftype)
  {
  }

  /** A transient mapped field keeps its declared type under Lombok; with generated accessors it gets the companion type, which its setter takes too. */
  lemma TransientMappedFieldTypesDiffer(g: Generator, info: ElementInfo, f: FieldDecl)
    requires IsTransient(g, f) && FieldIsMapped(ContextOf(g), f)
    ensures FieldSpecFor(g, info, f, f.ftype, true).value.ftype == f.ftype
    ensures FieldSpecFor(g, info, f, CollectType(ContextOf(g), info, f.ftype), true).value.ftype == Plain(Companion(info, f.ftype.cls))
    ensures ContainerOf(f.ftype) == NotContainer && SetterPlan(ContextOf(g), info, f, CollectType(ContextOf(g), info, f.ftype)).Ok? ==>
              SetterPlan(ContextOf(g), info, f, CollectType(ContextOf(g), info, f.ftype)).value.params[0].ptype == Plain(Companion(info, f.ftype.cls))
  {
  }

  // ---------------------------------------------------------------------
  // Copying a parameterised field

  /**
    The value a List/Set or Map field with type arguments is copied through,
    with the helpers it needs, or `None` when no branch applies. The mapped
    checks of the arguments dereference each argument's declaration first.
   */
  function GenericValue(ctx: Ctx, info: ElementInfo, dir: Direction, methods: Methods, t: TypeRef, source: Expr): (r: Result<(Methods, Option<Expr>)>)
    requires t.Declared? && |t.args| > 0
    ensures r.Err? <==> !AllResolve(ctx.env, t.args)
    ensures r.Err? ==> r.failure == NullPointer
    ensures r.Ok? ==> Grows(methods, r.value.0)
    ensures r.Ok? ==> (r.value.1.None? <==> ChooseBranch(t, ArgumentsMapped(ctx.env, t.args, ctx.variant).value) == NoBranch)
    ensures r.Ok? && r.value.1.None? ==> r.value.0 == methods
    ensures r.Ok? && r.value.1.Some? ==>
              var v := r.value.1.value;
              (v.MapElements? || v.CollectEntries?) && v.source == source && CallsResolve(v, r.value.0)
  {
    var mapped :- ArgumentsMapped(ctx.env, t.args, ctx.variant);
    var branch := ChooseBranch(t, mapped);
    if branch == NoBranch then Ok((methods, None))
    else
      var bv := BranchValue(ctx, info, dir, methods, t.args, branch, source);
      assert forall k :: k in bv.0 && k !in methods ==> IsHelperName(k);
      Ok((bv.0, Some(bv.1)))
  }

  /** With no mapped argument the field is never copied through a helper. */
  lemma UnmappedArgumentsNoBranch(ctx: Ctx, info: ElementInfo, dir: Direction, methods: Methods, t: TypeRef, source: Expr)
    requires t.Declared? && |t.args| > 0 && AllResolve(ctx.env, t.args)
    requires forall i :: 0 <= i < |t.args| ==> !ArgMapped(ctx, t.args[i])
    ensures GenericValue(ctx, info, dir, methods, t, source) == Ok((methods, None))
  {
    var mapped := ArgumentsMapped(ctx.env, t.args, ctx.variant).value;
    assert !mapped[0];
    assert |mapped| > 1 ==> !mapped[1];
  }

  // ---------------------------------------------------------------------
  // Copying field values

  /** The value passed on is read from `source`: as it is, converted by a companion or `to()`, or mapped element-wise. */
  predicate CopiesFrom(v: Expr, source: Expr) {
    v == source || (v.CompanionOf? && v.arg == source) || (v.ToOriginal? && v.arg == source) ||
    ((v.MapElements? || v.CollectEntries?) && v.source == source)
  }

  /** The fields the copies treat as generic: those of a parameterised declared type. */
  predicate IsParameterised(f: FieldDecl) {
    f.ftype.Declared? && |f.ftype.args| > 0
  }

  /** A field whose copy in `of(incoming)` calls for `@SuppressWarnings("unchecked")`: an unmapped parameterised one. */
  predicate SuppressesUnchecked(ctx: Ctx, f: FieldDecl) {
    !FieldIsMapped(ctx, f) && IsParameterised(f)
  }

  /** The conversion of a mapped field: the companion's `of` towards the companion, `to()` back to the annotated class. */
  function MappedValue(info: ElementInfo, dir: Direction, f: FieldDecl, source: Expr): Expr
    requires f.ftype.Declared?
  {
    if dir == OfDirection then CompanionOf(Plain(Companion(info, f.ftype.cls)), source) else ToOriginal(source)
  }

  /**
    What a copied value must be: read from its source; converted when the
    field is mapped; the source itself when the field is neither mapped nor
    parameterised.
   */
  predicate ValueCopied(ctx: Ctx, info: ElementInfo, dir: Direction, f: FieldDecl, source: Expr, v: Expr) {
    CopiesFrom(v, source) &&
    (FieldIsMapped(ctx, f) ==> v == MappedValue(info, dir, f, source)) &&
    (!FieldIsMapped(ctx, f) && !IsParameterised(f) ==> v == source)
  }

  /** The sources a copy reads from: a parameter or a reflective read. */
  predicate Readable(sources: seq<Expr>) {
    forall i :: 0 <= i < |sources| ==> sources[i].Var? || sources[i].ReflectiveGet?
  }

  /**
    The value copied for a field read from `source`. Towards the companion a
    mapped field goes through the companion's `of`; otherwise a parameterised
    field tries the helper branches, and everything that takes none is read
    as it is, followed by `to()` when copying a mapped field back.
   */
  function CopyValue(ctx: Ctx, info: ElementInfo, dir: Direction, f: FieldDecl, source: Expr, methods: Methods): (r: Result<(Methods, Expr)>)
    requires source.Var? || source.ReflectiveGet?
    ensures r.Err? <==> Unresolvable(ctx, f)
    ensures r.Err? ==> r.failure == NullPointer
    ensures r.Ok? ==> Grows(methods, r.value.0) && CallsResolve(r.value.1, r.value.0)
  {
    var fallback := if dir == ToDirection && FieldIsMapped(ctx, f) then ToOriginal(source) else source;
    if dir == OfDirection && FieldIsMapped(ctx, f) then Ok((methods, CompanionOf(Plain(Companion(info, f.ftype.cls)), source)))
    else if IsParameterised(f) then
      var gv :- GenericValue(ctx, info, dir, methods, f.ftype, source);
      match gv.1
      case Some(v) => Ok((gv.0, v))
      case None => Ok((gv.0, fallback))
    else Ok((methods, fallback))
  }

  /** The copied value is the one `ValueCopied` demands, and only a generic copy adds helpers. */
  lemma CopyValueCopies(ctx: Ctx, info: ElementInfo, dir: Direction, f: FieldDecl, source: Expr, methods: Methods)
    requires source.Var? || source.ReflectiveGet?
    requires CopyValue(ctx, info, dir, f, source, methods).Ok?
    ensures var r := CopyValue(ctx, info, dir, f, source, methods).value;
            ValueCopied(ctx, info, dir, f, source, r.1) && (FieldIsMapped(ctx, f) || !IsParameterised(f) ==> r.0 == methods)
  {
  }

  /** A mapped field is converted by the companion's `of` one way and by `to()` the other, around the same source. */
  lemma MappedFieldRoundTrip(ctx: Ctx, info: ElementInfo, f: FieldDecl, source: Expr, methods: Methods)
    requires FieldIsMapped(ctx, f) && (source.Var? || source.ReflectiveGet?)
    ensures var of := CopyValue(ctx, info, OfDirection, f, source, methods);
            var to := CopyValue(ctx, info, ToDirection, f, source, methods);
            of.Ok? && to.Ok? && of.value.0 == to.value.0 == methods &&
            of.value.1 == CompanionOf(Plain(Companion(info, f.ftype.cls)), source) &&
            to.value.1 == ToOriginal(source)
  {
    CopyValueCopies(ctx, info, OfDirection, f, source, methods);
    CopyValueCopies(ctx, info, ToDirection, f, source, methods);
  }

  /** The values copied for a sequence of fields, each read from its own source, in order; the first exception aborts. */
  function CopyValues(ctx: Ctx, info: ElementInfo, dir: Direction, fs: seq<FieldDecl>, sources: seq<Expr>, methods: Methods)
    : (r: Result<(Methods, seq<Expr>)>)
    requires |sources| == |fs| && Readable(sources)
    ensures r.Ok? ==> |r.value.1| == |fs|
    decreases |fs|
  {
    if |fs| == 0 then Ok((methods, []))
    else
      var cv :- CopyValue(ctx, info, dir, fs[0], sources[0], methods);
      var rest :- CopyValues(ctx, info, dir, fs[1..], sources[1..], cv.0);
      Ok((rest.0, [cv.1] + rest.1))
  }

  /** Copying fails exactly when some field throws, and then with a null dereference. */
  lemma {:induction false} CopyValuesFails(ctx: Ctx, info: ElementInfo, dir: Direction, fs: seq<FieldDecl>, sources: seq<Expr>, methods: Methods)
    requires |sources| == |fs| && Readable(sources)
    ensures var r := CopyValues(ctx, info, dir, fs, sources, methods);
            (r.Err? <==> AnyUnresolvable(ctx, fs)) && (r.Err? ==> r.failure == NullPointer)
    decreases |fs|
  {
    if |fs| > 0 {
      AnyUnresolvableCons(ctx, fs);
      if !Unresolvable(ctx, fs[0]) {
        var cv := CopyValue(ctx, info, dir, fs[0], sources[0], methods).value;
        CopyValuesFails(ctx, info, dir, fs[1..], sources[1..], cv.0);
      }
    }
  }

  /** Each field's value is copied from that field's source, as `ValueCopied` demands. */
  lemma {:induction false} CopyValuesCopy(ctx: Ctx, info: ElementInfo, dir: Direction, fs: seq<FieldDecl>, sources: seq<Expr>, methods: Methods)
    requires |sources| == |fs| && Readable(sources)
    requires CopyValues(ctx, info, dir, fs, sources, methods).Ok?
    ensures var vs := CopyValues(ctx, info, dir, fs, sources, methods).value.1;
            forall i :: 0 <= i < |fs| ==> ValueCopied(ctx, info, dir, fs[i], sources[i], vs[i])
    decreases |fs|
  {
    if |fs| > 0 {
      var cv := CopyValue(ctx, info, dir, fs[0], sources[0], methods).value;
      CopyValueCopies(ctx, info, dir, fs[0], sources[0], methods);
      CopyValuesCopy(ctx, info, dir, fs[1..], sources[1..], cv.0);
      var rest := CopyValues(ctx, info, dir, fs[1..], sources[1..], cv.0).value.1;
      var out := CopyValues(ctx, info, dir, fs, sources, methods).value.1;
      assert out == [cv.1] + rest;
      forall i | 0 <= i < |fs|
        ensures ValueCopied(ctx, info, dir, fs[i], sources[i], out[i])
      {
        if i > 0 {
          assert fs[i] == fs[1..][i - 1] && sources[i] == sources[1..][i - 1] && out[i] == rest[i - 1];
        }
      }
    }
  }

  /** Copying only adds helpers, and every helper a copied value calls is among the methods afterwards. */
  lemma {:induction false} CopyValuesResolve(ctx: Ctx, info: ElementInfo, dir: Direction, fs: seq<FieldDecl>, sources: seq<Expr>, methods: Methods)
    requires |sources| == |fs| && Readable(sources)
    requires CopyValues(ctx, info, dir, fs, sources, methods).Ok?
    ensures var r := CopyValues(ctx, info, dir, fs, sources, methods).value;
            Grows(methods, r.0) && forall i :: 0 <= i < |r.1| ==> CallsResolve(r.1[i], r.0)
    decreases |fs|
  {
    if |fs| > 0 {
      var cv := CopyValue(ctx, info, dir, fs[0], sources[0], methods).value;
      CopyValuesResolve(ctx, info, dir, fs[1..], sources[1..], cv.0);
      var rest := CopyValues(ctx, info, dir, fs[1..], sources[1..], cv.0).value;
      var out := CopyValues(ctx, info, dir, fs, sources, methods).value.1;
      assert out == [cv.1] + rest.1;
      GrowsTransitive(methods, cv.0, rest.0);
      forall i | 0 <= i < |out|
        ensures CallsResolve(out[i], rest.0)
      {
        if i > 0 {
          assert out[i] == rest.1[i - 1];
        }
      }
    }
  }

  /** The methods after one generation step: all earlier ones but the step's own kept, and nothing new but `key` and helpers. */
  predicate GrowsBeside(before: Methods, after: Methods, key: string) {
    key in after &&
    (forall k :: k in before && k != key ==> k in after && after[k] == before[k]) &&
    (forall k :: k in after && k !in before && k != key ==> IsHelperName(k))
  }

  /** The statements of the per-field blocks, one block after the other. */
  function Flatten(blocks: seq<seq<Stmt>>): seq<Stmt> {
    if |blocks| == 0 then [] else blocks[0] + Flatten(blocks[1..])
  }

  /** Flattening two-statement blocks puts block `i`'s statements at positions `2 * i` and `2 * i + 1`. */
  lemma {:induction false} FlattenPairs(blocks: seq<seq<Stmt>>)
    requires forall i :: 0 <= i < |blocks| ==> |blocks[i]| == 2
    ensures |Flatten(blocks)| == 2 * |blocks|
    ensures forall i :: 0 <= i < |blocks| ==> Flatten(blocks)[2 * i] == blocks[i][0] && Flatten(blocks)[2 * i + 1] == blocks[i][1]
    decreases |blocks|
  {
    if |blocks| > 0 {
      var rest := Flatten(blocks[1..]);
      FlattenPairs(blocks[1..]);
      assert Flatten(blocks) == blocks[0] + rest;
      forall i | 0 < i < |blocks|
        ensures Flatten(blocks)[2 * i] == blocks[i][0] && Flatten(blocks)[2 * i + 1] == blocks[i][1]
      {
        assert blocks[1..][i - 1] == blocks[i];
        assert Flatten(blocks)[2 * i] == rest[2 * (i - 1)];
        assert Flatten(blocks)[2 * i + 1] == rest[2 * (i - 1) + 1];
      }
    }
  }

  /** Between a prefix and a suffix, block `i` of two-statement blocks sits right after `2 * i` statements of the blocks before it. */
  lemma FramedPairs(pre: seq<Stmt>, blocks: seq<seq<Stmt>>, post: seq<Stmt>)
    requires forall i :: 0 <= i < |blocks| ==> |blocks[i]| == 2
    ensures |pre + Flatten(blocks) + post| == |pre| + 2 * |blocks| + |post|
    ensures forall i :: 0 <= i < |blocks| ==>
              (pre + Flatten(blocks) + post)[|pre| + 2 * i] == blocks[i][0] &&
              (pre + Flatten(blocks) + post)[|pre| + 2 * i + 1] == blocks[i][1]
  {
    FlattenPairs(blocks);
    var body := pre + Flatten(blocks) + post;
    forall i | 0 <= i < |blocks|
      ensures body[|pre| + 2 * i] == blocks[i][0] && body[|pre| + 2 * i + 1] == blocks[i][1]
    {
      assert body[|pre| + 2 * i] == Flatten(blocks)[2 * i];
      assert body[|pre| + 2 * i + 1] == Flatten(blocks)[2 * i + 1];
    }
  }

  /** The parameters `of(arguments)` and `to` read: one per field, under the field's name. */
  function FieldSources(fs: seq<FieldDecl>): (r: seq<Expr>)
    ensures |r| == |fs| && Readable(r)
  {
    seq(|fs|, i requires 0 <= i < |fs| => Var(fs[i].name))
  }

  // ---------------------------------------------------------------------
  // of(arguments)

  /**
    The statement `of(arguments)` emits for one field, as written: a
    parameterised field whose arguments take neither mapping branch gets no
    statement at all.
   */
  function OfArgumentStepAsWritten(ctx: Ctx, info: ElementInfo, f: FieldDecl, methods: Methods): (r: Result<(Methods, seq<Stmt>)>)
    ensures r.Err? <==> Unresolvable(ctx, f)
    ensures r.Ok? ==> |r.value.1| <= 1
  {
    var setter := SetterName(info, f.name);
    if FieldIsMapped(ctx, f) then
      Ok((methods, [CallSetter(setter, CompanionOf(Plain(Companion(info, f.ftype.cls)), Var(f.name)))]))
    else if f.ftype.Declared? && |f.ftype.args| > 0 then
      var gv :- GenericValue(ctx, info, OfDirection, methods, f.ftype, Var(f.name));
      match gv.1
      case Some(v) => Ok((gv.0, [CallSetter(setter, v)]))
      case None => Ok((gv.0, []))
    else Ok((methods, [CallSetter(setter, Var(f.name))]))
  }

  /** What `of(arguments)` emits for one field: the field's setter, called on the value copied from the parameter of the same name. */
  predicate ArgumentCopied(ctx: Ctx, info: ElementInfo, f: FieldDecl, s: Stmt) {
    s.CallSetter? && s.setter == SetterName(info, f.name) && ValueCopied(ctx, info, OfDirection, f, Var(f.name), s.value)
  }

  /** The statement `of(arguments)` emits for one field, with the setter called on every field that is not dropped as written. */
  function OfArgumentStep(ctx: Ctx, info: ElementInfo, f: FieldDecl, methods: Methods): (r: Result<(Methods, Stmt)>)
    ensures r.Err? <==> Unresolvable(ctx, f)
    ensures r.Ok? ==> Grows(methods, r.value.0) && StmtResolves(r.value.1, r.value.0)
    ensures r.Ok? ==> ArgumentCopied(ctx, info, f, r.value.1)
  {
    var cv :- CopyValue(ctx, info, OfDirection, f, Var(f.name), methods);
    CopyValueCopies(ctx, info, OfDirection, f, Var(f.name), methods);
    Ok((cv.0, CallSetter(SetterName(info, f.name), cv.1)))
  }

  /** Where the as-written step emits a statement, it is the corrected one. */
  lemma OfArgumentStepsAgree(ctx: Ctx, info: ElementInfo, f: FieldDecl, methods: Methods)
    requires OfArgumentStepAsWritten(ctx, info, f, methods).Ok?
    requires |OfArgumentStepAsWritten(ctx, info, f, methods).value.1| == 1
    ensures OfArgumentStep(ctx, info, f, methods) ==
            Ok((OfArgumentStepAsWritten(ctx, info, f, methods).value.0, OfArgumentStepAsWritten(ctx, info, f, methods).value.1[0]))
  {
  }

  /** A `List<String>` field takes no helper branch when `String` carries no `@Mapped`. */
  lemma StringListNoBranch(ctx: Ctx, info: ElementInfo, methods: Methods, str: ClassDecl, t: TypeRef, f: FieldDecl)
    requires ResolveName(ctx.env, "java.lang.String") == Some(str) && str.annotations == []
    requires t == Declared(ListClass, [Plain(ClassName("java.lang", "String"))], {CollectionName})
    requires f.ftype == t
    ensures !FieldIsMapped(ctx, f) && IsParameterised(f)
    ensures GenericValue(ctx, info, OfDirection, methods, t, Var(f.name)) == Ok((methods, None))
  {
    assert CanonicalName(t.args[0].cls) == "java.lang.String";
    assert !AnyOfType(str.annotations, ctx.variant);
    assert !ArgMapped(ctx, t.args[0]);
    UnmappedArgumentsNoBranch(ctx, info, OfDirection, methods, t, Var(f.name));
  }

  /**
    A `List<String>` field `tags` is a parameter of `of(arguments)`, but as
    written its value never reaches `setTags`; the corrected step passes it on.
   */
  lemma OfArgumentsDropsPlainGenericField(ctx: Ctx, info: ElementInfo, methods: Methods, str: ClassDecl)
    requires !info.fluentAccessors
    requires ResolveName(ctx.env, "java.lang.String") == Some(str) && str.annotations == []
    ensures var t := Declared(ListClass, [Plain(ClassName("java.lang", "String"))], {CollectionName});
            var f := FieldDecl("tags", {Private}, t, {}, None);
            OfArgumentStepAsWritten(ctx, info, f, methods) == Ok((methods, [])) &&
            OfArgumentStep(ctx, info, f, methods) == Ok((methods, CallSetter("setTags", Var("tags"))))
  {
    var t := Declared(ListClass, [Plain(ClassName("java.lang", "String"))], {CollectionName});
    var f := FieldDecl("tags", {Private}, t, {}, None);
    StringListNoBranch(ctx, info, methods, str, t, f);
    assert SetterName(info, "tags") == "setTags" by {
      assert Capitalise("tags") == "Tags";
    }
    assert CopyValue(ctx, info, OfDirection, f, Var("tags"), methods) == Ok((methods, Var("tags")));
  }

  /** The `of(arguments)` method for the copied values `vs`, one per field. */
  function OfArgumentsMethod(info: ElementInfo, packageName: string, fs: seq<FieldDecl>, vs: seq<Expr>): (m: MethodSpec)
    requires |vs| == |fs|
    ensures |m.params| == |fs| && |m.body| == |fs| + 2
  {
    var className := info.prefix + info.className;
    var params := seq(|fs|, i requires 0 <= i < |fs| => Param(fs[i].ftype, fs[i].name));
    var setters := seq(|fs|, i requires 0 <= i < |fs| => CallSetter(SetterName(info, fs[i].name), vs[i]));
    MethodSpec("of", true, params, Some(Plain(ClassName(packageName, className))),
               [NewObject("newMappedObject", className)] + setters + [Return(Var("newMappedObject"))], [])
  }

  /**
    `createOfWithArguments`: a static `of` taking every non-constant field as
    a parameter, building the companion through the setters; stored under
    "ofWithArguments".
   */
  function OfWithArguments(ctx: Ctx, info: ElementInfo, packageName: string, methods: Methods): (r: Result<Methods>)
    ensures r.Err? <==> AnyUnresolvable(ctx, NonConstant(info.fields))
    ensures r.Err? ==> r.failure == NullPointer
    ensures r.Ok? ==> GrowsBeside(methods, r.value, "ofWithArguments")
  {
    var fs := NonConstant(info.fields);
    var attempt := CopyValues(ctx, info, OfDirection, fs, FieldSources(fs), methods);
    CopyValuesFails(ctx, info, OfDirection, fs, FieldSources(fs), methods);
    if attempt.Err? then Err(attempt.failure)
    else
      CopyValuesResolve(ctx, info, OfDirection, fs, FieldSources(fs), methods);
      Ok(attempt.value.0["ofWithArguments" := OfArgumentsMethod(info, packageName, fs, attempt.value.1)])
  }

  /** The layout of `of(arguments)` for copied values `vs`: the new object, one setter call per field on its value, the return. */
  lemma OfArgumentsMethodLayout(info: ElementInfo, packageName: string, fs: seq<FieldDecl>, vs: seq<Expr>)
    requires |vs| == |fs|
    ensures var m := OfArgumentsMethod(info, packageName, fs, vs);
            m.name == "of" && m.isStatic && m.annotations == [] &&
            m.returnType == Some(Plain(ClassName(packageName, info.prefix + info.className))) &&
            (forall i :: 0 <= i < |fs| ==> m.params[i] == Param(fs[i].ftype, fs[i].name)) &&
            m.body[0] == NewObject("newMappedObject", info.prefix + info.className) &&
            m.body[|fs| + 1] == Return(Var("newMappedObject"))
    ensures var m := OfArgumentsMethod(info, packageName, fs, vs);
            forall i :: 0 <= i < |fs| ==> m.body[i + 1] == CallSetter(SetterName(info, fs[i].name), vs[i])
  {
  }

  /**
    The generated `of(arguments)`: a static method returning the companion,
    one parameter per non-constant field with the field's declared type, and
    a body that creates the object, calls each field's setter on the
    parameter of the same name, and returns it.
   */
  lemma OfWithArgumentsCopies(ctx: Ctx, info: ElementInfo, packageName: string, methods: Methods)
    requires OfWithArguments(ctx, info, packageName, methods).Ok?
    ensures var fs := NonConstant(info.fields);
            var m := OfWithArguments(ctx, info, packageName, methods).value["ofWithArguments"];
            m.name == "of" && m.isStatic && m.annotations == [] &&
            m.returnType == Some(Plain(ClassName(packageName, info.prefix + info.className))) &&
            |m.params| == |fs| && (forall i :: 0 <= i < |fs| ==> m.params[i] == Param(fs[i].ftype, fs[i].name)) &&
            |m.body| == |fs| + 2 &&
            m.body[0] == NewObject("newMappedObject", info.prefix + info.className) &&
            m.body[|fs| + 1] == Return(Var("newMappedObject"))
    ensures var fs := NonConstant(info.fields);
            var m := OfWithArguments(ctx, info, packageName, methods).value["ofWithArguments"];
            |m.body| == |fs| + 2 && forall i :: 0 <= i < |fs| ==> ArgumentCopied(ctx, info, fs[i], m.body[i + 1])
  {
    var fs := NonConstant(info.fields);
    var st := CopyValues(ctx, info, OfDirection, fs, FieldSources(fs), methods).value;
    CopyValuesCopy(ctx, info, OfDirection, fs, FieldSources(fs), methods);
    OfArgumentsMethodLayout(info, packageName, fs, st.1);
    var m := OfWithArguments(ctx, info, packageName, methods).value["ofWithArguments"];
    assert m == OfArgumentsMethod(info, packageName, fs, st.1);
    forall i | 0 <= i < |fs|
      ensures ArgumentCopied(ctx, info, fs[i], m.body[i + 1])
    {
      assert FieldSources(fs)[i] == Var(fs[i].name);
    }
  }

  /** Every helper `of(arguments)` calls is among the methods it leaves behind. */
  lemma OfWithArgumentsResolves(ctx: Ctx, info: ElementInfo, packageName: string, methods: Methods)
    requires OfWithArguments(ctx, info, packageName, methods).Ok?
    ensures var r := OfWithArguments(ctx, info, packageName, methods).value;
            forall j :: 0 <= j < |r["ofWithArguments"].body| ==> StmtResolves(r["ofWithArguments"].body[j], r)
  {
    var fs := NonConstant(info.fields);
    var st := CopyValues(ctx, info, OfDirection, fs, FieldSources(fs), methods).value;
    CopyValuesResolve(ctx, info, OfDirection, fs, FieldSources(fs), methods);
    var r := OfWithArguments(ctx, info, packageName, methods).value;
    assert r == st.0["ofWithArguments" := OfArgumentsMethod(info, packageName, fs, st.1)];
    forall i | 0 <= i < |st.1|
      ensures CallsResolve(st.1[i], r)
    {
      assert CallsResolve(st.1[i], st.0);
    }
    OfArgumentsMethodResolves(info, packageName, fs, st.1, r);
  }

  /** Copied values whose helpers are among `ms` make every statement of `of(arguments)` resolve in `ms`. */
  lemma OfArgumentsMethodResolves(info: ElementInfo, packageName: string, fs: seq<FieldDecl>, vs: seq<Expr>, ms: Methods)
    requires |vs| == |fs|
    requires forall i :: 0 <= i < |vs| ==> CallsResolve(vs[i], ms)
    ensures var m := OfArgumentsMethod(info, packageName, fs, vs);
            forall j :: 0 <= j < |m.body| ==> StmtResolves(m.body[j], ms)
  {
    OfArgumentsMethodLayout(info, packageName, fs, vs);
    var m := OfArgumentsMethod(info, packageName, fs, vs);
    forall j | 0 <= j < |m.body|
      ensures StmtResolves(m.body[j], ms)
    {
      if 0 < j <= |fs| {
        assert m.body[j] == CallSetter(SetterName(info, fs[j - 1].name), vs[j - 1]);
      }
    }
  }

  // ---------------------------------------------------------------------
  // of(incoming)

  const SuppressUnchecked := AnnotationSpec("SuppressWarnings", [Member("value", Str("unchecked"))])

  /** The reflective reads of `of(incoming)`: field `i` through the local of counter `i`, cast to its declared type. */
  function IncomingSources(fs: seq<FieldDecl>, incoming: string): (r: seq<Expr>)
    ensures |r| == |fs| && Readable(r)
  {
    seq(|fs|, i requires 0 <= i < |fs| => ReflectiveGet(fs[i].ftype, incoming, Local(i)))
  }

  /** The two statements `of(incoming)` emits for the field of counter `k`, copying value `v`. */
  function OfBlock(info: ElementInfo, key: ClassName, f: FieldDecl, k: nat, v: Expr): seq<Stmt> {
    [Lookup(Local(k), CanonicalName(key), f.name), If(LookupPresent(Local(k)), [CallSetter(SetterName(info, f.name), v)])]
  }

  /**
    What `of(incoming)` emits for the field of counter `k`: the reflective
    lookup of the field on the annotated class into the local of that counter,
    then, when the lookup found it, the field's setter called on the value
    read through that local.
   */
  predicate OfCopied(ctx: Ctx, info: ElementInfo, key: ClassName, incoming: string, f: FieldDecl, k: nat, lookup: Stmt, guarded: Stmt) {
    lookup == Lookup(Local(k), CanonicalName(key), f.name) &&
    guarded.If? && guarded.guard == LookupPresent(Local(k)) && |guarded.body| == 1 &&
    guarded.body[0].CallSetter? && guarded.body[0].setter == SetterName(info, f.name) &&
    ValueCopied(ctx, info, OfDirection, f, ReflectiveGet(f.ftype, incoming, Local(k)), guarded.body[0].value)
  }

  /** The `of(incoming)` method for the copied values `vs`, one per field. */
  function OfClassMethod(ctx: Ctx, info: ElementInfo, key: ClassName, packageName: string, fs: seq<FieldDecl>, vs: seq<Expr>): (m: MethodSpec)
    requires |vs| == |fs|
    ensures |m.body| == 2 * |fs| + 3
  {
    var incoming := "incoming" + key.simpleName;
    var className := info.prefix + info.className;
    var blocks := seq(|fs|, i requires 0 <= i < |fs| => OfBlock(info, key, fs[i], i, vs[i]));
    FlattenPairs(blocks);
    var suppress := exists i :: 0 <= i < |fs| && SuppressesUnchecked(ctx, fs[i]);
    MethodSpec("of", true, [Param(Plain(key), incoming)], Some(Plain(ClassName(packageName, className))),
               [ReturnNullIfNull(incoming), NewObject("newMappedObject", className)] + Flatten(blocks) + [Return(Var("newMappedObject"))],
               if suppress then [SuppressUnchecked] else [])
  }

  /**
    `createOfWithClass`: a static `of` that copies every non-constant field
    of an instance of the annotated class through reflection; stored under "of".
   */
  function OfWithClass(ctx: Ctx, info: ElementInfo, key: ClassName, packageName: string, methods: Methods): (r: Result<Methods>)
    ensures r.Err? <==> AnyUnresolvable(ctx, NonConstant(info.fields))
    ensures r.Err? ==> r.failure == NullPointer
    ensures r.Ok? ==> GrowsBeside(methods, r.value, "of")
  {
    var fs := NonConstant(info.fields);
    var sources := IncomingSources(fs, "incoming" + key.simpleName);
    var attempt := CopyValues(ctx, info, OfDirection, fs, sources, methods);
    CopyValuesFails(ctx, info, OfDirection, fs, sources, methods);
    if attempt.Err? then Err(attempt.failure)
    else
      CopyValuesResolve(ctx, info, OfDirection, fs, sources, methods);
      Ok(attempt.value.0["of" := OfClassMethod(ctx, info, key, packageName, fs, attempt.value.1)])
  }

  /** The frame of `of(incoming)` for copied values `vs`: the parameter, the null check, the new object, the return. */
  lemma OfClassMethodFrame(ctx: Ctx, info: ElementInfo, key: ClassName, packageName: string, fs: seq<FieldDecl>, vs: seq<Expr>)
    requires |vs| == |fs|
    ensures var incoming := "incoming" + key.simpleName;
            var m := OfClassMethod(ctx, info, key, packageName, fs, vs);
            m.name == "of" && m.isStatic && m.params == [Param(Plain(key), incoming)] &&
            m.returnType == Some(Plain(ClassName(packageName, info.prefix + info.className))) &&
            m.body[0] == ReturnNullIfNull(incoming) && m.body[1] == NewObject("newMappedObject", info.prefix + info.className) &&
            m.body[2 * |fs| + 2] == Return(Var("newMappedObject")) &&
            ((exists i :: 0 <= i < |fs| && SuppressesUnchecked(ctx, fs[i])) <==> m.annotations == [SuppressUnchecked])
  {
  }

  /** The per-field statements of `of(incoming)`: field `i`'s lookup and guarded setter call sit at `2 * i + 2` and `2 * i + 3`. */
  lemma OfClassMethodLayout(ctx: Ctx, info: ElementInfo, key: ClassName, packageName: string, fs: seq<FieldDecl>, vs: seq<Expr>)
    requires |vs| == |fs|
    ensures var m := OfClassMethod(ctx, info, key, packageName, fs, vs);
            forall i :: 0 <= i < |fs| ==>
              m.body[2 * i + 2] == Lookup(Local(i), CanonicalName(key), fs[i].name) &&
              m.body[2 * i + 3] == If(LookupPresent(Local(i)), [CallSetter(SetterName(info, fs[i].name), vs[i])])
  {
    var blocks := seq(|fs|, i requires 0 <= i < |fs| => OfBlock(info, key, fs[i], i, vs[i]));
    var incoming := "incoming" + key.simpleName;
    var pre := [ReturnNullIfNull(incoming), NewObject("newMappedObject", info.prefix + info.className)];
    var post := [Return(Var("newMappedObject"))];
    FramedPairs(pre, blocks, post);
    var m := OfClassMethod(ctx, info, key, packageName, fs, vs);
    assert m.body == pre + Flatten(blocks) + post;
    forall i | 0 <= i < |fs|
      ensures m.body[2 * i + 2] == Lookup(Local(i), CanonicalName(key), fs[i].name)
      ensures m.body[2 * i + 3] == If(LookupPresent(Local(i)), [CallSetter(SetterName(info, fs[i].name), vs[i])])
    {
      assert m.body[|pre| + 2 * i] == blocks[i][0] && m.body[|pre| + 2 * i + 1] == blocks[i][1];
      assert blocks[i] == OfBlock(info, key, fs[i], i, vs[i]);
    }
  }

  /**
    The generated `of(incoming)`: a static method of one parameter, the
    annotated class's instance, returning null for null and the new companion
    otherwise; unchecked warnings are suppressed exactly when some unmapped
    field is parameterised.
   */
  lemma OfWithClassFrame(ctx: Ctx, info: ElementInfo, key: ClassName, packageName: string, methods: Methods)
    requires OfWithClass(ctx, info, key, packageName, methods).Ok?
    ensures var fs := NonConstant(info.fields);
            var incoming := "incoming" + key.simpleName;
            var m := OfWithClass(ctx, info, key, packageName, methods).value["of"];
            m.name == "of" && m.isStatic && m.params == [Param(Plain(key), incoming)] &&
            m.returnType == Some(Plain(ClassName(packageName, info.prefix + info.className))) &&
            |m.body| == 2 * |fs| + 3 &&
            m.body[0] == ReturnNullIfNull(incoming) && m.body[1] == NewObject("newMappedObject", info.prefix + info.className) &&
            m.body[2 * |fs| + 2] == Return(Var("newMappedObject")) &&
            ((exists i :: 0 <= i < |fs| && SuppressesUnchecked(ctx, fs[i])) <==> m.annotations == [SuppressUnchecked])
  {
    var fs := NonConstant(info.fields);
    var vs := CopyValues(ctx, info, OfDirection, fs, IncomingSources(fs, "incoming" + key.simpleName), methods).value.1;
    OfClassMethodFrame(ctx, info, key, packageName, fs, vs);
  }

  /**
    Between the frame, `of(incoming)` holds one lookup and one guarded copy
    per non-constant field, in field order, through the local of the field's
    position.
   */
  lemma OfWithClassCopies(ctx: Ctx, info: ElementInfo, key: ClassName, packageName: string, methods: Methods)
    requires OfWithClass(ctx, info, key, packageName, methods).Ok?
    ensures var fs := NonConstant(info.fields);
            var m := OfWithClass(ctx, info, key, packageName, methods).value["of"];
            |m.body| == 2 * |fs| + 3 &&
            forall i :: 0 <= i < |fs| ==> OfCopied(ctx, info, key, "incoming" + key.simpleName, fs[i], i, m.body[2 * i + 2], m.body[2 * i + 3])
  {
    var fs := NonConstant(info.fields);
    var incoming := "incoming" + key.simpleName;
    var sources := IncomingSources(fs, incoming);
    var vs := CopyValues(ctx, info, OfDirection, fs, sources, methods).value.1;
    CopyValuesCopy(ctx, info, OfDirection, fs, sources, methods);
    forall i | 0 <= i < |fs|
      ensures ValueCopied(ctx, info, OfDirection, fs[i], ReflectiveGet(fs[i].ftype, incoming, Local(i)), vs[i])
    {
      assert sources[i] == ReflectiveGet(fs[i].ftype, incoming, Local(i));
    }
    OfClassMethodCopies(ctx, info, key, packageName, fs, vs);
    assert OfWithClass(ctx, info, key, packageName, methods).value["of"] == OfClassMethod(ctx, info, key, packageName, fs, vs);
  }

  /** Values copied as `ValueCopied` demands, read through each field's local, make `of(incoming)` copy every field. */
  lemma OfClassMethodCopies(ctx: Ctx, info: ElementInfo, key: ClassName, packageName: string, fs: seq<FieldDecl>, vs: seq<Expr>)
    requires |vs| == |fs|
    requires forall i :: 0 <= i < |fs| ==>
               ValueCopied(ctx, info, OfDirection, fs[i], ReflectiveGet(fs[i].ftype, "incoming" + key.simpleName, Local(i)), vs[i])
    ensures var m := OfClassMethod(ctx, info, key, packageName, fs, vs);
            forall i :: 0 <= i < |fs| ==> OfCopied(ctx, info, key, "incoming" + key.simpleName, fs[i], i, m.body[2 * i + 2], m.body[2 * i + 3])
  {
    OfClassMethodLayout(ctx, info, key, packageName, fs, vs);
  }

  /** Any two fields copied by `of(incoming)` are looked up into different locals. */
  lemma OfWithClassLocalsDistinct(ctx: Ctx, info: ElementInfo, key: ClassName, packageName: string, methods: Methods, i: nat, j: nat)
    requires OfWithClass(ctx, info, key, packageName, methods).Ok?
    requires i < j < |NonConstant(info.fields)|
    ensures var m := OfWithClass(ctx, info, key, packageName, methods).value["of"];
            2 * j + 2 < |m.body| && m.body[2 * i + 2].Lookup? && m.body[2 * j + 2].Lookup? &&
            m.body[2 * i + 2].local != m.body[2 * j + 2].local
  {
    OfWithClassCopies(ctx, info, key, packageName, methods);
    LocalsDistinct(i, j);
  }

  /** Copied values whose helpers are among `ms` make every statement of `of(incoming)` resolve in `ms`. */
  lemma OfClassMethodResolves(ctx: Ctx, info: ElementInfo, key: ClassName, packageName: string, fs: seq<FieldDecl>, vs: seq<Expr>, ms: Methods)
    requires |vs| == |fs|
    requires forall i :: 0 <= i < |vs| ==> CallsResolve(vs[i], ms)
    ensures var m := OfClassMethod(ctx, info, key, packageName, fs, vs);
            forall j :: 0 <= j < |m.body| ==> StmtResolves(m.body[j], ms)
  {
    OfClassBlocksResolve(ctx, info, key, packageName, fs, vs, ms);
    OfClassFrameResolves(ctx, info, key, packageName, fs, vs, ms);
    PairedBodyResolves(OfClassMethod(ctx, info, key, packageName, fs, vs).body, 2, |fs|, ms);
  }

  lemma OfClassBlocksResolve(ctx: Ctx, info: ElementInfo, key: ClassName, packageName: string, fs: seq<FieldDecl>, vs: seq<Expr>, ms: Methods)
    requires |vs| == |fs|
    requires forall i :: 0 <= i < |vs| ==> CallsResolve(vs[i], ms)
    ensures var m := OfClassMethod(ctx, info, key, packageName, fs, vs);
            forall i :: 0 <= i < |fs| ==> StmtResolves(m.body[2 + 2 * i], ms) && StmtResolves(m.body[2 + 2 * i + 1], ms)
  {
    OfClassMethodLayout(ctx, info, key, packageName, fs, vs);
    var m := OfClassMethod(ctx, info, key, packageName, fs, vs);
    forall i | 0 <= i < |fs|
      ensures StmtResolves(m.body[2 + 2 * i], ms) && StmtResolves(m.body[2 + 2 * i + 1], ms)
    {
      var call := CallSetter(SetterName(info, fs[i].name), vs[i]);
      assert StmtResolves(call, ms);
      assert m.body[2 + 2 * i + 1] == If(LookupPresent(Local(i)), [call]);
    }
  }

  lemma OfClassFrameResolves(ctx: Ctx, info: ElementInfo, key: ClassName, packageName: string, fs: seq<FieldDecl>, vs: seq<Expr>, ms: Methods)
    requires |vs| == |fs|
    ensures var m := OfClassMethod(ctx, info, key, packageName, fs, vs);
            (forall j :: 0 <= j < 2 ==> StmtResolves(m.body[j], ms)) && StmtResolves(m.body[|m.body| - 1], ms)
  {
    OfClassMethodFrame(ctx, info, key, packageName, fs, vs);
  }

  /** A body of a prefix, two-statement blocks and one last statement resolves when each of those parts does. */
  lemma PairedBodyResolves(body: seq<Stmt>, lo: nat, n: nat, ms: Methods)
    requires |body| == lo + 2 * n + 1
    requires forall j :: 0 <= j < lo ==> StmtResolves(body[j], ms)
    requires StmtResolves(body[|body| - 1], ms)
    requires forall i :: 0 <= i < n ==> StmtResolves(body[lo + 2 * i], ms) && StmtResolves(body[lo + 2 * i + 1], ms)
    ensures forall j :: 0 <= j < |body| ==> StmtResolves(body[j], ms)
  {
    forall j | lo <= j < lo + 2 * n
      ensures StmtResolves(body[j], ms)
    {
      var i := PairOf(lo, n, j);
    }
  }

  /** The block a position between a prefix of `lo` statements and the end of `n` two-statement blocks falls in. */
  lemma PairOf(lo: int, n: int, j: int) returns (i: int)
    requires lo <= j < lo + 2 * n
    ensures 0 <= i < n && (j == lo + 2 * i || j == lo + 2 * i + 1)
  {
    i := (j - lo) / 2;
  }

  /** Every helper `of(incoming)` calls is among the methods it leaves behind. */
  lemma OfWithClassResolves(ctx: Ctx, info: ElementInfo, key: ClassName, packageName: string, methods: Methods)
    requires OfWithClass(ctx, info, key, packageName, methods).Ok?
    ensures var r := OfWithClass(ctx, info, key, packageName, methods).value;
            forall j :: 0 <= j < |r["of"].body| ==> StmtResolves(r["of"].body[j], r)
  {
    var fs := NonConstant(info.fields);
    var sources := IncomingSources(fs, "incoming" + key.simpleName);
    var st := CopyValues(ctx, info, OfDirection, fs, sources, methods).value;
    CopyValuesResolve(ctx, info, OfDirection, fs, sources, methods);
    var r := OfWithClass(ctx, info, key, packageName, methods).value;
    assert r == st.0["of" := OfClassMethod(ctx, info, key, packageName, fs, st.1)];
    forall i | 0 <= i < |st.1|
      ensures CallsResolve(st.1[i], r)
    {
      assert CallsResolve(st.1[i], st.0);
    }
    OfClassMethodResolves(ctx, info, key, packageName, fs, st.1, r);
  }

  // ---------------------------------------------------------------------
  // to

  /** The fields `to` copies back: the non-constant ones that are not final, in declaration order. */
  function ToFields(fields: seq<FieldDecl>): (r: seq<FieldDecl>)
    ensures forall g :: g in r <==> g in fields && !IsConstant(g) && Final !in g.modifiers
  {
    if |fields| == 0 then []
    else
      var rest := ToFields(fields[1..]);
      assert forall g :: g in fields <==> g == fields[0] || g in fields[1..];
      if IsConstant(fields[0]) || Final in fields[0].modifiers then rest else [fields[0]] + rest
  }

  /** `to` copies back a selection of what `of(incoming)` copies: filtering out the constants first changes nothing. */
  lemma {:induction false} ToFieldsWithinOf(fields: seq<FieldDecl>)
    ensures ToFields(NonConstant(fields)) == ToFields(fields)
    ensures |ToFields(fields)| <= |NonConstant(fields)|
    decreases |fields|
  {
    if |fields| > 0 {
      ToFieldsWithinOf(fields[1..]);
      var nc := NonConstant(fields);
      if !IsConstant(fields[0]) {
        assert nc == [fields[0]] + NonConstant(fields[1..]);
        assert nc[1..] == NonConstant(fields[1..]);
      }
    }
  }

  /** A field `to` copies back that throws is one `of(incoming)` copies, so `to` never fails where both `of`s succeeded. */
  lemma ToUnresolvableWithinOf(ctx: Ctx, fields: seq<FieldDecl>)
    ensures AnyUnresolvable(ctx, ToFields(fields)) ==> AnyUnresolvable(ctx, NonConstant(fields))
  {
    if AnyUnresolvable(ctx, ToFields(fields)) {
      var i :| 0 <= i < |ToFields(fields)| && Unresolvable(ctx, ToFields(fields)[i]);
      var g := ToFields(fields)[i];
      assert g in NonConstant(fields);
      var j :| 0 <= j < |NonConstant(fields)| && NonConstant(fields)[j] == g;
    }
  }

  /** The guard of the field of counter `k` in `to`: a primitive needs only the lookup, a reference also a non-null value. */
  function ToGuard(f: FieldDecl, k: nat): Guard {
    if IsPrimitive(f.ftype) then LookupPresent(Local(k)) else LookupAndValuePresent(Local(k), f.name)
  }

  /** The two statements `to` emits for the field of counter `k`, writing value `v` into `objectName`. */
  function ToBlock(info: ElementInfo, objectName: string, f: FieldDecl, k: nat, v: Expr): seq<Stmt> {
    [Lookup(Local(k), info.element.simpleName, f.name), If(ToGuard(f, k), [InvokeSetter(objectName, Local(k), v)])]
  }

  /**
    What `to` emits for the field of counter `k`: the reflective lookup of
    the field on the annotated class into the local of that counter, then,
    guarded, the reflective setter call on `objectName` with the field's value
    copied back.
   */
  predicate ToCopied(ctx: Ctx, info: ElementInfo, objectName: string, f: FieldDecl, k: nat, lookup: Stmt, guarded: Stmt) {
    lookup == Lookup(Local(k), info.element.simpleName, f.name) &&
    guarded.If? && |guarded.body| == 1 &&
    (IsPrimitive(f.ftype) ==> guarded.guard == LookupPresent(Local(k))) &&
    (!IsPrimitive(f.ftype) ==> guarded.guard == LookupAndValuePresent(Local(k), f.name)) &&
    guarded.body[0].InvokeSetter? && guarded.body[0].target == objectName && guarded.body[0].lookup == Local(k) &&
    ValueCopied(ctx, info, ToDirection, f, Var(f.name), guarded.body[0].value)
  }

  /** The name of the object `to` builds: the annotated class's simple name, uncapitalised. */
  function ObjectName(info: ElementInfo): string {
    Uncapitalise(info.element.simpleName)
  }

  /** The `to` method for the copied values `vs`, one per field. */
  function ToMethod(info: ElementInfo, fs: seq<FieldDecl>, vs: seq<Expr>): (m: MethodSpec)
    requires |vs| == |fs|
    ensures |m.body| == 2 * |fs| + 2
  {
    var objectName := ObjectName(info);
    var blocks := seq(|fs|, i requires 0 <= i < |fs| => ToBlock(info, objectName, fs[i], i, vs[i]));
    FlattenPairs(blocks);
    MethodSpec("to", false, [], Some(Plain(info.element)),
               [NewObject(objectName, info.element.simpleName)] + Flatten(blocks) + [Return(Var(objectName))], [])
  }

  /**
    `createTo`: an instance method rebuilding the annotated class from the
    companion's fields through reflection; stored under "to".
   */
  function To(ctx: Ctx, info: ElementInfo, methods: Methods): (r: Result<Methods>)
    ensures r.Err? <==> AnyUnresolvable(ctx, ToFields(info.fields))
    ensures r.Err? ==> r.failure == NullPointer
    ensures r.Ok? ==> GrowsBeside(methods, r.value, "to")
  {
    var fs := ToFields(info.fields);
    var attempt := CopyValues(ctx, info, ToDirection, fs, FieldSources(fs), methods);
    CopyValuesFails(ctx, info, ToDirection, fs, FieldSources(fs), methods);
    if attempt.Err? then Err(attempt.failure)
    else
      CopyValuesResolve(ctx, info, ToDirection, fs, FieldSources(fs), methods);
      Ok(attempt.value.0["to" := ToMethod(info, fs, attempt.value.1)])
  }

  /** The per-field statements of `to`: field `i`'s lookup and guarded setter call sit at `2 * i + 1` and `2 * i + 2`. */
  lemma ToMethodLayout(info: ElementInfo, fs: seq<FieldDecl>, vs: seq<Expr>)
    requires |vs| == |fs|
    ensures var m := ToMethod(info, fs, vs);
            forall i :: 0 <= i < |fs| ==>
              m.body[2 * i + 1] == Lookup(Local(i), info.element.simpleName, fs[i].name) &&
              m.body[2 * i + 2] == If(ToGuard(fs[i], i), [InvokeSetter(ObjectName(info), Local(i), vs[i])])
  {
    var blocks := seq(|fs|, i requires 0 <= i < |fs| => ToBlock(info, ObjectName(info), fs[i], i, vs[i]));
    var pre := [NewObject(ObjectName(info), info.element.simpleName)];
    var post := [Return(Var(ObjectName(info)))];
    FramedPairs(pre, blocks, post);
    var m := ToMethod(info, fs, vs);
    assert m.body == pre + Flatten(blocks) + post;
    forall i | 0 <= i < |fs|
      ensures m.body[2 * i + 1] == Lookup(Local(i), info.element.simpleName, fs[i].name)
      ensures m.body[2 * i + 2] == If(ToGuard(fs[i], i), [InvokeSetter(ObjectName(info), Local(i), vs[i])])
    {
      assert m.body[|pre| + 2 * i] == blocks[i][0] && m.body[|pre| + 2 * i + 1] == blocks[i][1];
      assert blocks[i] == ToBlock(info, ObjectName(info), fs[i], i, vs[i]);
    }
  }

  /** Values copied back as `ValueCopied` demands make `to` copy back every field. */
  lemma ToMethodCopies(ctx: Ctx, info: ElementInfo, fs: seq<FieldDecl>, vs: seq<Expr>)
    requires |vs| == |fs|
    requires forall i :: 0 <= i < |fs| ==> ValueCopied(ctx, info, ToDirection, fs[i], Var(fs[i].name), vs[i])
    ensures var m := ToMethod(info, fs, vs);
            forall i :: 0 <= i < |fs| ==> ToCopied(ctx, info, ObjectName(info), fs[i], i, m.body[2 * i + 1], m.body[2 * i + 2])
  {
    ToMethodLayout(info, fs, vs);
  }

  /**
    The generated `to`: an instance method without parameters returning the
    annotated class; it creates the object, copies back every non-constant,
    non-final field, and returns the object.
   */
  lemma ToFrame(ctx: Ctx, info: ElementInfo, methods: Methods)
    requires To(ctx, info, methods).Ok?
    ensures var fs := ToFields(info.fields);
            var m := To(ctx, info, methods).value["to"];
            m.name == "to" && !m.isStatic && m.params == [] && m.returnType == Some(Plain(info.element)) &&
            |m.body| == 2 * |fs| + 2 &&
            m.body[0] == NewObject(ObjectName(info), info.element.simpleName) &&
            m.body[2 * |fs| + 1] == Return(Var(ObjectName(info)))
  {
    var fs := ToFields(info.fields);
    var vs := CopyValues(ctx, info, ToDirection, fs, FieldSources(fs), methods).value.1;
    assert To(ctx, info, methods).value["to"] == ToMethod(info, fs, vs);
  }

  /** Between the frame, `to` holds one lookup and one guarded copy back per field, in field order. */
  lemma ToCopies(ctx: Ctx, info: ElementInfo, methods: Methods)
    requires To(ctx, info, methods).Ok?
    ensures var fs := ToFields(info.fields);
            var m := To(ctx, info, methods).value["to"];
            |m.body| == 2 * |fs| + 2 &&
            forall i :: 0 <= i < |fs| ==> ToCopied(ctx, info, ObjectName(info), fs[i], i, m.body[2 * i + 1], m.body[2 * i + 2])
  {
    var fs := ToFields(info.fields);
    var vs := CopyValues(ctx, info, ToDirection, fs, FieldSources(fs), methods).value.1;
    CopyValuesCopy(ctx, info, ToDirection, fs, FieldSources(fs), methods);
    forall i | 0 <= i < |fs|
      ensures ValueCopied(ctx, info, ToDirection, fs[i], Var(fs[i].name), vs[i])
    {
      assert FieldSources(fs)[i] == Var(fs[i].name);
    }
    ToMethodCopies(ctx, info, fs, vs);
    assert To(ctx, info, methods).value["to"] == ToMethod(info, fs, vs);
  }

  /** Copied values whose helpers are among `ms` make every statement of `to` resolve in `ms`. */
  lemma ToMethodResolves(info: ElementInfo, fs: seq<FieldDecl>, vs: seq<Expr>, ms: Methods)
    requires |vs| == |fs|
    requires forall i :: 0 <= i < |vs| ==> CallsResolve(vs[i], ms)
    ensures var m := ToMethod(info, fs, vs);
            forall j :: 0 <= j < |m.body| ==> StmtResolves(m.body[j], ms)
  {
    ToMethodLayout(info, fs, vs);
    var m := ToMethod(info, fs, vs);
    forall j | 0 <= j < |m.body|
      ensures StmtResolves(m.body[j], ms)
    {
      if 1 <= j < 2 * |fs| + 1 {
        var i := PairOf(1, |fs|, j);
        if j == 2 * i + 1 {
          assert m.body[j] == Lookup(Local(i), info.element.simpleName, fs[i].name);
        } else {
          assert j == 2 * i + 2;
          var call := InvokeSetter(ObjectName(info), Local(i), vs[i]);
          assert StmtResolves(call, ms);
          assert m.body[j] == If(ToGuard(fs[i], i), [call]);
        }
      }
    }
  }

  /** Every helper `to` calls is among the methods it leaves behind. */
  lemma ToResolves(ctx: Ctx, info: ElementInfo, methods: Methods)
    requires To(ctx, info, methods).Ok?
    ensures var r := To(ctx, info, methods).value;
            forall j :: 0 <= j < |r["to"].body| ==> StmtResolves(r["to"].body[j], r)
  {
    var fs := ToFields(info.fields);
    var st := CopyValues(ctx, info, ToDirection, fs, FieldSources(fs), methods).value;
    CopyValuesResolve(ctx, info, ToDirection, fs, FieldSources(fs), methods);
    var r := To(ctx, info, methods).value;
    assert r == st.0["to" := ToMethod(info, fs, st.1)];
    forall i | 0 <= i < |st.1|
      ensures CallsResolve(st.1[i], r)
    {
      assert CallsResolve(st.1[i], st.0);
    }
    ToMethodResolves(info, fs, st.1, r);
  }
}
