/**
  The mapping of generic fields whose type arguments are mapped classes
  (`AbstractClassGenerator`): which branch a field takes, the memoised
  `mapXToY` helper methods, and the key/value functions of a map copy.
 */
module Mappings {
  import opened Lang
  import opened JavaModel
  import opened StringUtil
  import opened Info
  import opened CodeModel
  import opened ClassGenerator

  // ---------------------------------------------------------------------
  // Branch choice

  /** The statement a generic field gets: element-wise list copy, entry-wise map copy, or neither. */
  datatype Branch = ListBranch | MapBranch | NoBranch

  /**
    The branch precedence of `of(args)`, `of(incoming)` and `to()`: the list
    branch needs argument 0 mapped and a Collection or Set; the map branch
    needs two arguments, one of the first two mapped, and a Map.
    `mapped` holds one flag per type argument, so it is never empty here.
   */
  function ChooseBranch(t: TypeRef, mapped: seq<bool>): (b: Branch)
    requires |mapped| > 0
    ensures b == ListBranch ==> mapped[0] && (AssignableTo(t, CollectionName) || AssignableTo(t, SetName))
    ensures b == MapBranch ==> |mapped| > 1 && (mapped[0] || mapped[1]) && AssignableTo(t, MapName)
    ensures b == NoBranch ==> !(mapped[0] && (AssignableTo(t, CollectionName) || AssignableTo(t, SetName)))
    ensures b == NoBranch ==> !(|mapped| > 1 && (mapped[0] || mapped[1]) && AssignableTo(t, MapName))
  {
    if mapped[0] && (AssignableTo(t, CollectionName) || AssignableTo(t, SetName)) then ListBranch
    else if |mapped| > 1 && (mapped[0] || mapped[1]) && AssignableTo(t, MapName) then MapBranch
    else NoBranch
  }

  /** A type that is both a Collection and a Map takes the list branch when its first argument is mapped. */
  lemma ListBranchWins(t: TypeRef, mapped: seq<bool>)
    requires |mapped| > 1 && mapped[0]
    requires AssignableTo(t, CollectionName) && AssignableTo(t, MapName)
    ensures ChooseBranch(t, mapped) == ListBranch
  {
  }

  /** Without a mapped argument among the first two, no branch is taken. */
  lemma NothingMappedNoBranch(t: TypeRef, mapped: seq<bool>)
    requires |mapped| > 0 && !mapped[0] && (|mapped| > 1 ==> !mapped[1])
    ensures ChooseBranch(t, mapped) == NoBranch
  {
  }

  /** With a single type argument the map branch cannot be taken, whatever the type. */
  lemma MapBranchNeedsTwoArguments(t: TypeRef, mapped: seq<bool>)
    requires |mapped| == 1
    ensures ChooseBranch(t, mapped) != MapBranch
  {
  }

  // ---------------------------------------------------------------------
  // Helper methods

  /** Towards the companion (`of`, `result = Target.of(e)`) or back to the annotated class (`to`, `result = e.to()`). */
  datatype Direction = OfDirection | ToDirection

  predicate ArgMapped(ctx: Ctx, t: TypeRef) {
    FieldTypeIsMapped(ctx.env, t, ctx.variant)
  }

  /** The parameter type of the helper for type argument `t`: the original in the `of` direction, the collected type in `to`. */
  function Source(ctx: Ctx, info: ElementInfo, dir: Direction, t: TypeRef): TypeRef {
    if dir == OfDirection then t else CollectType(ctx, info, t)
  }

  /** The return type of the helper: the other one of the two. */
  function Target(ctx: Ctx, info: ElementInfo, dir: Direction, t: TypeRef): TypeRef {
    if dir == OfDirection then CollectType(ctx, info, t) else t
  }

  /** "map" + capitalised source simple name + "To" + target simple name. */
  function HelperName(ctx: Ctx, info: ElementInfo, dir: Direction, t: TypeRef): (r: string)
    requires ArgMapped(ctx, t)
    ensures |r| > 5 && r[..3] == "map"
  {
    var src := Source(ctx, info, dir, t);
    var dst := Target(ctx, info, dir, t);
    "map" + Capitalise(src.cls.simpleName) + "To" + dst.cls.simpleName
  }

  /** In the `of` direction, a mapped `Foo` gets `mapFooToPFoo`, P being the prefix. */
  lemma OfHelperName(ctx: Ctx, info: ElementInfo, t: TypeRef)
    requires ArgMapped(ctx, t)
    ensures HelperName(ctx, info, OfDirection, t) == "map" + Capitalise(t.cls.simpleName) + "To" + info.prefix + t.cls.simpleName
  {
  }

  /** In the `to` direction, it gets `mapPFooToFoo`. */
  lemma ToHelperName(ctx: Ctx, info: ElementInfo, t: TypeRef)
    requires ArgMapped(ctx, t)
    ensures HelperName(ctx, info, ToDirection, t) == "map" + Capitalise(info.prefix + t.cls.simpleName) + "To" + t.cls.simpleName
  {
  }

  /** The private static helper: takes `e` of the source type and returns it converted, `null` on failure. */
  function HelperMethod(ctx: Ctx, info: ElementInfo, dir: Direction, t: TypeRef): (m: MethodSpec)
    requires ArgMapped(ctx, t)
    ensures m.name == HelperName(ctx, info, dir, t) && m.isStatic && |m.body| == 2
    ensures m.params == [Param(Source(ctx, info, dir, t), "e")] && m.returnType == Some(Target(ctx, info, dir, t))
    ensures dir == OfDirection ==> m.body[0] == TryAssignResult(CompanionOf(Target(ctx, info, dir, t), Var("e")))
    ensures dir == ToDirection ==> m.body[0] == TryAssignResult(ToOriginal(Var("e")))
  {
    var conversion := if dir == OfDirection then CompanionOf(Target(ctx, info, dir, t), Var("e")) else ToOriginal(Var("e"));
    MethodSpec(HelperName(ctx, info, dir, t), true, [Param(Source(ctx, info, dir, t), "e")],
               Some(Target(ctx, info, dir, t)), [TryAssignResult(conversion), Return(Var("result"))], [])
  }

  /** The methods map and the map from source type (by its text) to helper name. */
  datatype Memo = Memo(methods: Methods, names: map<string, string>)

  /** The key the name map uses for argument `t`: `TypeName` equality is equality of the text. */
  function KeyOf(ctx: Ctx, info: ElementInfo, dir: Direction, t: TypeRef): string {
    Text(Source(ctx, info, dir, t))
  }

  /** What one mapped type argument contributes: its key, the helper's name and the helper. */
  datatype Helper = Helper(key: string, name: string, spec: MethodSpec)

  function HelperFor(ctx: Ctx, info: ElementInfo, dir: Direction, t: TypeRef): (h: Option<Helper>)
    ensures h.Some? <==> ArgMapped(ctx, t)
    ensures h.Some? ==> h.value == Helper(KeyOf(ctx, info, dir, t), HelperName(ctx, info, dir, t), HelperMethod(ctx, info, dir, t))
  {
    if ArgMapped(ctx, t) then Some(Helper(KeyOf(ctx, info, dir, t), HelperName(ctx, info, dir, t), HelperMethod(ctx, info, dir, t)))
    else None
  }

  function HelpersOf(ctx: Ctx, info: ElementInfo, dir: Direction, args: seq<TypeRef>): (hs: seq<Option<Helper>>)
    ensures |hs| == |args|
    ensures forall i :: 0 <= i < |args| ==> hs[i] == HelperFor(ctx, info, dir, args[i])
  {
    seq(|args|, i requires 0 <= i < |args| => HelperFor(ctx, info, dir, args[i]))
  }

  /** The helper names among the first `n` contributions. */
  function NamesIn(hs: seq<Option<Helper>>, n: nat): set<string>
    requires n <= |hs|
  {
    if n == 0 then {}
    else if hs[n - 1].Some? then NamesIn(hs, n - 1) + {hs[n - 1].value.name}
    else NamesIn(hs, n - 1)
  }

  /** The methods after `n` iterations: a helper is put only under a name not yet present. */
  function MethodsUpTo(methods: Methods, hs: seq<Option<Helper>>, n: nat): Methods
    requires n <= |hs|
  {
    if n == 0 then methods
    else
      var prev := MethodsUpTo(methods, hs, n - 1);
      match hs[n - 1]
      case None => prev
      case Some(h) => if h.name in prev then prev else prev[h.name := h.spec]
  }

  /** The names after `n` iterations: every contribution records its name under its key, a later one overwriting. */
  function NamesUpTo(hs: seq<Option<Helper>>, n: nat): map<string, string>
    requires n <= |hs|
  {
    if n == 0 then map[]
    else
      var prev := NamesUpTo(hs, n - 1);
      match hs[n - 1]
      case None => prev
      case Some(h) => prev[h.key := h.name]
  }

  /** `createTypeElementMappingsOf` (direction `of`) and `createTypeElementMappingTo` (direction `to`). */
  function CreateTypeElementMappings(ctx: Ctx, info: ElementInfo, dir: Direction, methods: Methods, args: seq<TypeRef>): (r: Memo)
    ensures var hs := HelpersOf(ctx, info, dir, args);
            r == Memo(MethodsUpTo(methods, hs, |hs|), NamesUpTo(hs, |hs|))
    ensures forall k :: k in methods ==> k in r.methods && r.methods[k] == methods[k]
    ensures forall i :: 0 <= i < |args| && ArgMapped(ctx, args[i]) ==>
              HelperName(ctx, info, dir, args[i]) in r.methods && KeyOf(ctx, info, dir, args[i]) in r.names
    ensures forall k :: k in r.methods ==>
              k in methods || exists i :: 0 <= i < |args| && ArgMapped(ctx, args[i]) && HelperName(ctx, info, dir, args[i]) == k
    ensures forall k :: k in r.names ==> r.names[k] in r.methods
  {
    var hs := HelpersOf(ctx, info, dir, args);
    MethodsKept(methods, hs, |hs|);
    NamesRecorded(hs, |hs|);
    NamesAreHelpers(hs, |hs|);
    forall k | k in MethodsUpTo(methods, hs, |hs|)
      ensures k in methods || exists i :: 0 <= i < |args| && ArgMapped(ctx, args[i]) && HelperName(ctx, info, dir, args[i]) == k
    {
      if k !in methods {
        NamesInMembers(hs, |hs|, k);
      }
    }
    forall i | 0 <= i < |args| && ArgMapped(ctx, args[i])
      ensures HelperName(ctx, info, dir, args[i]) in MethodsUpTo(methods, hs, |hs|)
    {
      NamesInMembers(hs, |hs|, HelperName(ctx, info, dir, args[i]));
    }
    Memo(MethodsUpTo(methods, hs, |hs|), NamesUpTo(hs, |hs|))
  }

  /** The methods present before are kept unchanged, and exactly the helper names are added. */
  lemma {:induction false} MethodsKept(methods: Methods, hs: seq<Option<Helper>>, n: nat)
    requires n <= |hs|
    ensures var r := MethodsUpTo(methods, hs, n);
            (forall k :: k in methods ==> k in r && r[k] == methods[k]) &&
            r.Keys == methods.Keys + NamesIn(hs, n)
  {
    if n > 0 {
      MethodsKept(methods, hs, n - 1);
    }
  }

  /** A name is among the first `n` contributions exactly when one of them carries it. */
  lemma {:induction false} NamesInMembers(hs: seq<Option<Helper>>, n: nat, name: string)
    requires n <= |hs|
    ensures name in NamesIn(hs, n) <==> exists i :: 0 <= i < n && hs[i].Some? && hs[i].value.name == name
  {
    if n > 0 {
      NamesInMembers(hs, n - 1, name);
    }
  }

  /** Every contribution among the first `n` has its key recorded. */
  lemma {:induction false} NamesRecorded(hs: seq<Option<Helper>>, n: nat)
    requires n <= |hs|
    ensures forall i :: 0 <= i < n && hs[i].Some? ==> hs[i].value.key in NamesUpTo(hs, n)
  {
    if n > 0 {
      NamesRecorded(hs, n - 1);
    }
  }

  /** Every recorded name is the name of a contribution with that key. */
  lemma {:induction false} NamesJustified(hs: seq<Option<Helper>>, n: nat, k: string) returns (i: nat)
    requires n <= |hs|
    requires k in NamesUpTo(hs, n)
    ensures i < n && hs[i].Some? && hs[i].value.key == k && NamesUpTo(hs, n)[k] == hs[i].value.name
  {
    if hs[n - 1].Some? && hs[n - 1].value.key == k {
      i := n - 1;
    } else {
      i := NamesJustified(hs, n - 1, k);
    }
  }

  /** The name map only points at helper names. */
  lemma NamesAreHelpers(hs: seq<Option<Helper>>, n: nat)
    requires n <= |hs|
    ensures forall k :: k in NamesUpTo(hs, n) ==> NamesUpTo(hs, n)[k] in NamesIn(hs, n)
  {
    forall k | k in NamesUpTo(hs, n)
      ensures NamesUpTo(hs, n)[k] in NamesIn(hs, n)
    {
      var i := NamesJustified(hs, n, k);
      NamesInMembers(hs, n, NamesUpTo(hs, n)[k]);
    }
  }

  /** Once every helper name is present, the iterations add nothing. */
  lemma {:induction false} MethodsSaturated(methods: Methods, hs: seq<Option<Helper>>, n: nat)
    requires n <= |hs|
    requires NamesIn(hs, n) <= methods.Keys
    ensures MethodsUpTo(methods, hs, n) == methods
  {
    if n > 0 {
      MethodsSaturated(methods, hs, n - 1);
    }
  }

  /** Running the memoisation again over its own result changes nothing: every helper is already there. */
  lemma MemoIdempotent(ctx: Ctx, info: ElementInfo, dir: Direction, methods: Methods, args: seq<TypeRef>)
    ensures var r := CreateTypeElementMappings(ctx, info, dir, methods, args);
            CreateTypeElementMappings(ctx, info, dir, r.methods, args) == r
  {
    var hs := HelpersOf(ctx, info, dir, args);
    MethodsKept(methods, hs, |hs|);
    MethodsSaturated(MethodsUpTo(methods, hs, |hs|), hs, |hs|);
  }

  /** An existing method under a helper's name is kept, not replaced. */
  lemma ExistingHelperKept(ctx: Ctx, info: ElementInfo, dir: Direction, methods: Methods, args: seq<TypeRef>, i: nat)
    requires i < |args| && ArgMapped(ctx, args[i])
    requires HelperName(ctx, info, dir, args[i]) in methods
    ensures CreateTypeElementMappings(ctx, info, dir, methods, args).methods[HelperName(ctx, info, dir, args[i])] ==
            methods[HelperName(ctx, info, dir, args[i])]
  {
  }

  /** Without a contribution nothing is added and no name is recorded. */
  lemma {:induction false} NothingToRecord(methods: Methods, hs: seq<Option<Helper>>, n: nat)
    requires n <= |hs|
    requires forall i :: 0 <= i < n ==> hs[i].None?
    ensures MethodsUpTo(methods, hs, n) == methods
    ensures NamesUpTo(hs, n) == map[]
  {
    if n > 0 {
      NothingToRecord(methods, hs, n - 1);
    }
  }

  /** Without a mapped argument the methods are unchanged and no name is recorded. */
  lemma NoMappedArgumentNoHelper(ctx: Ctx, info: ElementInfo, dir: Direction, methods: Methods, args: seq<TypeRef>)
    requires forall i :: 0 <= i < |args| ==> !ArgMapped(ctx, args[i])
    ensures CreateTypeElementMappings(ctx, info, dir, methods, args) == Memo(methods, map[])
  {
    var hs := HelpersOf(ctx, info, dir, args);
    NothingToRecord(methods, hs, |hs|);
  }

  // ---------------------------------------------------------------------
  // Map lambdas

  /** `e -> helper(e.getKey())` when the type has a helper name, else `e -> e.getKey()` (the same for values). */
  function EntryLambda(names: map<string, string>, key: string): (l: Lambda)
    ensures l.ThroughHelper? <==> key in names
    ensures l.ThroughHelper? ==> l.helper == names[key]
  {
    if key in names then ThroughHelper(names[key]) else PassThrough
  }

  /**
    In a map copy, an argument goes through a helper exactly when some mapped
    argument has its type text, and the helper it calls exists in the methods.
   */
  lemma EntryLambdaFollowsMapping(ctx: Ctx, info: ElementInfo, dir: Direction, methods: Methods, args: seq<TypeRef>, j: nat)
    requires j < |args|
    ensures var r := CreateTypeElementMappings(ctx, info, dir, methods, args);
            var l := EntryLambda(r.names, KeyOf(ctx, info, dir, args[j]));
            (l.ThroughHelper? <==> exists i :: 0 <= i < |args| && ArgMapped(ctx, args[i]) &&
                                              KeyOf(ctx, info, dir, args[i]) == KeyOf(ctx, info, dir, args[j])) &&
            (ArgMapped(ctx, args[j]) ==> l.ThroughHelper?) &&
            (l.ThroughHelper? ==> l.helper in r.methods)
  {
    var hs := HelpersOf(ctx, info, dir, args);
    var key := KeyOf(ctx, info, dir, args[j]);
    if key in NamesUpTo(hs, |hs|) {
      var i := NamesJustified(hs, |hs|, key);
      assert ArgMapped(ctx, args[i]) && KeyOf(ctx, info, dir, args[i]) == key;
    }
  }

  // ---------------------------------------------------------------------
  // The mapping value of a branch

  /**
    The value a List/Set or Map branch passes on, with the helper methods it
    needs: `source.stream().map(e -> helper(e))...` or
    `source.entrySet().stream().collect(toMap(key, value))`.
   */
  function BranchValue(ctx: Ctx, info: ElementInfo, dir: Direction, methods: Methods, args: seq<TypeRef>,
                       branch: Branch, source: Expr): (r: (Methods, Expr))
    requires branch == ListBranch ==> |args| > 0 && ArgMapped(ctx, args[0])
    requires branch == MapBranch ==> |args| > 1
    requires branch != NoBranch
    ensures var memo := CreateTypeElementMappings(ctx, info, dir, methods, args);
            r.0 == memo.methods &&
            (branch == ListBranch ==> r.1.MapElements? && r.1.source == source && r.1.helper in r.0 &&
                                      r.1.helper == memo.names[KeyOf(ctx, info, dir, args[0])]) &&
            (branch == MapBranch ==> r.1.CollectEntries? && r.1.source == source &&
                                     r.1.key == EntryLambda(memo.names, KeyOf(ctx, info, dir, args[0])) &&
                                     r.1.value == EntryLambda(memo.names, KeyOf(ctx, info, dir, args[1])))
  {
    var memo := CreateTypeElementMappings(ctx, info, dir, methods, args);
    if branch == ListBranch then
      var key := KeyOf(ctx, info, dir, args[0]);
      assert key in memo.names;
      (memo.methods, MapElements(source, memo.names[key]))
    else
      (memo.methods, CollectEntries(source, EntryLambda(memo.names, KeyOf(ctx, info, dir, args[0])),
                                    EntryLambda(memo.names, KeyOf(ctx, info, dir, args[1]))))
  }

  /**
    When no other mapped argument shares its key text, argument 0 of a list
    copy calls the helper named after it.
   */
  lemma ListHelperNamedAfterArgument(ctx: Ctx, info: ElementInfo, dir: Direction, methods: Methods, args: seq<TypeRef>)
    requires |args| > 0 && ArgMapped(ctx, args[0])
    requires forall i :: 0 < i < |args| && ArgMapped(ctx, args[i]) ==> KeyOf(ctx, info, dir, args[i]) != KeyOf(ctx, info, dir, args[0])
    ensures var memo := CreateTypeElementMappings(ctx, info, dir, methods, args);
            memo.names[KeyOf(ctx, info, dir, args[0])] == HelperName(ctx, info, dir, args[0])
  {
    var hs := HelpersOf(ctx, info, dir, args);
    NamesRecorded(hs, |hs|);
    assert hs[0].Some?;
    var i := NamesJustified(hs, |hs|, KeyOf(ctx, info, dir, args[0]));
    assert ArgMapped(ctx, args[i]);
  }
}
