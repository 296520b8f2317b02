/** Custom attributes: the constructor, the System.Type-valued arguments, the
    named property and field arguments (looked up along the base chain), and
    the two conventions that name a sibling member by string: the SOAP header
    attribute on a method and the XML schema provider attribute on a type. */
module Attributes {
  import opened Wrappers
  import opened Metadata
  import opened Identity
  import opened Recording

  // ---------------------------------------------------------------------
  // Lookups by name
  // ---------------------------------------------------------------------

  /** FirstOrDefault by name: the first position holding `name`. */
  function FirstIndex(names: seq<string>, name: string): (r: Option<nat>)
    ensures r.Some? ==> r.value < |names| && names[r.value] == name
    ensures r.Some? ==> forall j :: 0 <= j < r.value ==> names[j] != name
    ensures r.None? <==> name !in names
  {
    if |names| == 0 then None
    else if names[0] == name then Some(0)
    else match FirstIndex(names[1..], name)
      case None => None
      case Some(i) => Some(i + 1)
  }

  datatype MemberKind = PropertyMember | FieldMember

  function PropertyNames(ps: seq<PropertyDef>): (r: seq<string>)
    ensures |r| == |ps| && forall i :: 0 <= i < |ps| ==> r[i] == ps[i].name
  {
    if |ps| == 0 then [] else [ps[0].name] + PropertyNames(ps[1..])
  }

  function FieldNames(md: Meta, fs: seq<FieldId>): (r: seq<string>)
    ensures |r| == |fs| && forall i :: 0 <= i < |fs| ==> r[i] == md.FieldOf(fs[i]).name
  {
    if |fs| == 0 then [] else [md.FieldOf(fs[0]).name] + FieldNames(md, fs[1..])
  }

  /** The names of a type's properties or fields, in declaration order. */
  function MemberNames(md: Meta, t: TypeId, kind: MemberKind): seq<string> {
    match kind
    case PropertyMember => PropertyNames(md.TypeOf(t).properties)
    case FieldMember => FieldNames(md, md.TypeOf(t).fields)
  }

  /** The types the base walk visits from `t` within `fuel` steps: `t`, then
      its resolved base type, and so on until a type has no base type or its
      base type does not resolve. */
  ghost function BaseChain(md: Meta, t: TypeId, fuel: nat): seq<TypeId>
    decreases fuel
  {
    if fuel == 0 then []
    else [t] + (match BaseOf(md, t) case None => [] case Some(b) => BaseChain(md, b, fuel - 1))
  }

  /** No type occurs twice in the chain. */
  ghost predicate Distinct(chain: seq<TypeId>) {
    forall i, j :: 0 <= i < j < |chain| ==> chain[i] != chain[j]
  }

  /** A chain is cut short by the fuel only when it has used all of it:
      otherwise its last type has no resolvable base type. */
  lemma {:induction false} BaseChainEnd(md: Meta, t: TypeId, fuel: nat)
    requires fuel > 0
    ensures 0 < |BaseChain(md, t, fuel)| <= fuel
    ensures BaseOf(md, BaseChain(md, t, fuel)[|BaseChain(md, t, fuel)| - 1]).Some? ==> |BaseChain(md, t, fuel)| == fuel
    decreases fuel
  {
    var c := BaseChain(md, t, fuel);
    match BaseOf(md, t)
    case None =>
      assert c == [t];
    case Some(b) =>
      var rest := BaseChain(md, b, fuel - 1);
      assert c == [t] + rest;
      if fuel - 1 > 0 {
        BaseChainEnd(md, b, fuel - 1);
        assert c[|c| - 1] == rest[|rest| - 1];
      }
  }

  /** A sequence without repeats drawn from `s` is no longer than `s` is large. */
  lemma {:induction false} DistinctBound(chain: seq<TypeId>, s: set<TypeId>)
    requires Distinct(chain) && forall i :: 0 <= i < |chain| ==> chain[i] in s
    ensures |chain| <= |s|
    decreases |chain|
  {
    if |chain| > 0 {
      var rest := chain[1..];
      assert forall i :: 0 <= i < |rest| ==> rest[i] == chain[i + 1];
      DistinctBound(rest, s - {chain[0]});
    }
  }

  /** The fuel of the base walk is enough: a chain that repeats no type and
      stays within the type table always ends at a type without a base type,
      so only a cyclic (or dangling) base chain can exhaust it. */
  lemma {:induction false} BaseWalkFuelSuffices(md: Meta, t: TypeId)
    requires Distinct(BaseChain(md, t, BaseWalkFuel(md)))
    requires forall i :: 0 <= i < |BaseChain(md, t, BaseWalkFuel(md))| ==> BaseChain(md, t, BaseWalkFuel(md))[i] in md.types
    ensures |BaseChain(md, t, BaseWalkFuel(md))| > 0
    ensures BaseOf(md, BaseChain(md, t, BaseWalkFuel(md))[|BaseChain(md, t, BaseWalkFuel(md))| - 1]).None?
  {
    var c := BaseChain(md, t, BaseWalkFuel(md));
    BaseChainEnd(md, t, BaseWalkFuel(md));
    DistinctBound(c, md.types.Keys);
  }

  /** No type of the chain declares a member named `name`. */
  ghost predicate NoneDeclares(md: Meta, chain: seq<TypeId>, kind: MemberKind, name: string) {
    forall i :: 0 <= i < |chain| ==> name !in MemberNames(md, chain[i], kind)
  }

  /** The first type of the chain that declares a member named `name` is the
      one at position `i`. */
  ghost predicate FirstFoundAt(md: Meta, chain: seq<TypeId>, kind: MemberKind, name: string, i: int) {
    && 0 <= i < |chain|
    && name in MemberNames(md, chain[i], kind)
    && forall j :: 0 <= j < i ==> name !in MemberNames(md, chain[j], kind)
  }

  /** The base walk shared by GetProperty and GetField: the type where the
      member is found and its position in that type's list. */
  function FindMember(md: Meta, t: TypeId, kind: MemberKind, name: string, fuel: nat): (r: Option<(TypeId, nat)>)
    ensures r.Some? ==> FirstIndex(MemberNames(md, r.value.0, kind), name) == Some(r.value.1)
    decreases fuel
  {
    if fuel == 0 then None
    else
      match FirstIndex(MemberNames(md, t, kind), name)
      case Some(k) => Some((t, k))
      case None =>
        match BaseOf(md, t)
        case None => None
        case Some(b) => FindMember(md, b, kind, name, fuel - 1)
  }

  /** The position of the first type of `chain` that declares the name. */
  ghost function FirstDeclaring(md: Meta, chain: seq<TypeId>, kind: MemberKind, name: string): (r: Option<nat>)
    ensures r.Some? ==> r.value < |chain|
    decreases |chain|
  {
    if |chain| == 0 then None
    else if name in MemberNames(md, chain[0], kind) then Some(0)
    else match FirstDeclaring(md, chain[1..], kind, name)
      case None => None
      case Some(i) => Some(i + 1)
  }

  /** FirstDeclaring is the first declaring position, and is absent exactly
      when no type of the chain declares the name. */
  lemma {:induction false} FirstDeclaringSpec(md: Meta, chain: seq<TypeId>, kind: MemberKind, name: string)
    ensures FirstDeclaring(md, chain, kind, name).None? <==> NoneDeclares(md, chain, kind, name)
    ensures FirstDeclaring(md, chain, kind, name).Some? ==>
              FirstFoundAt(md, chain, kind, name, FirstDeclaring(md, chain, kind, name).value)
    decreases |chain|
  {
    if |chain| > 0 && name !in MemberNames(md, chain[0], kind) {
      var rest := chain[1..];
      FirstDeclaringSpec(md, rest, kind, name);
      if NoneDeclares(md, rest, kind, name) {
        forall i | 0 <= i < |chain| ensures name !in MemberNames(md, chain[i], kind) {
          if i > 0 {
            assert chain[i] == rest[i - 1];
          }
        }
      } else {
        var k := FirstDeclaring(md, rest, kind, name).value;
        forall j | 0 <= j < k + 1 ensures name !in MemberNames(md, chain[j], kind) {
          if j > 0 {
            assert chain[j] == rest[j - 1];
          }
        }
        assert chain[k + 1] == rest[k];
      }
    }
  }

  /** The walk from `t` with `fuel` steps stops exactly at the first type of
      its chain that declares the name. */
  lemma {:induction false} FindMemberFirst(md: Meta, t: TypeId, kind: MemberKind, name: string, fuel: nat)
    ensures FindMember(md, t, kind, name, fuel).None? <==> FirstDeclaring(md, BaseChain(md, t, fuel), kind, name).None?
    ensures FindMember(md, t, kind, name, fuel).Some? ==>
              BaseChain(md, t, fuel)[FirstDeclaring(md, BaseChain(md, t, fuel), kind, name).value]
                == FindMember(md, t, kind, name, fuel).value.0
    decreases fuel
  {
    if fuel > 0 && name !in MemberNames(md, t, kind) && BaseOf(md, t).Some? {
      var b := BaseOf(md, t).value;
      var rest := BaseChain(md, b, fuel - 1);
      assert BaseChain(md, t, fuel) == [t] + rest;
      assert ([t] + rest)[1..] == rest;
      FindMemberFirst(md, b, kind, name, fuel - 1);
    }
  }

  /** The walk finds nothing exactly when no type of the chain declares the
      name, and otherwise stops at position `i`, the first type of the chain
      that does. */
  lemma FindMemberSpec(md: Meta, t: TypeId, kind: MemberKind, name: string, fuel: nat) returns (i: nat)
    ensures FindMember(md, t, kind, name, fuel).None? <==> NoneDeclares(md, BaseChain(md, t, fuel), kind, name)
    ensures FindMember(md, t, kind, name, fuel).Some? ==>
              FirstFoundAt(md, BaseChain(md, t, fuel), kind, name, i)
              && BaseChain(md, t, fuel)[i] == FindMember(md, t, kind, name, fuel).value.0
  {
    FindMemberFirst(md, t, kind, name, fuel);
    FirstDeclaringSpec(md, BaseChain(md, t, fuel), kind, name);
    i := if FindMember(md, t, kind, name, fuel).Some? then FirstDeclaring(md, BaseChain(md, t, fuel), kind, name).value else 0;
  }

  /** Properties.FirstOrDefault by name, on one type. */
  function OwnProperty(md: Meta, d: TypeId, name: string): (r: Option<PropertyDef>)
    ensures r.Some? <==> name in MemberNames(md, d, PropertyMember)
    ensures r.Some? ==> r.value in md.TypeOf(d).properties && r.value.name == name
  {
    match FirstIndex(MemberNames(md, d, PropertyMember), name)
    case None => None
    case Some(k) => Some(md.TypeOf(d).properties[k])
  }

  /** Fields.FirstOrDefault by name, on one type. */
  function OwnField(md: Meta, d: TypeId, name: string): (r: Option<FieldId>)
    ensures r.Some? <==> name in MemberNames(md, d, FieldMember)
    ensures r.Some? ==> r.value in md.TypeOf(d).fields && md.FieldOf(r.value).name == name
  {
    match FirstIndex(MemberNames(md, d, FieldMember), name)
    case None => None
    case Some(k) => Some(md.TypeOf(d).fields[k])
  }

  /** GetProperty (the type overload): walk the base chain until a type
      declares a property named `name`. */
  function GetProperty(md: Meta, t: TypeId, name: string): (r: Option<PropertyDef>)
    ensures r.Some? ==> r.value.name == name
  {
    match FindMember(md, t, PropertyMember, name, BaseWalkFuel(md))
    case None => None
    case Some((d, k)) => Some(md.TypeOf(d).properties[k])
  }

  /** GetField (the type overload): walk the base chain until a type declares
      a field named `name`. */
  function GetField(md: Meta, t: TypeId, name: string): (r: Option<FieldId>)
    ensures r.Some? ==> md.FieldOf(r.value).name == name
  {
    match FindMember(md, t, FieldMember, name, BaseWalkFuel(md))
    case None => None
    case Some((d, k)) => Some(md.TypeOf(d).fields[k])
  }

  /** GetProperty finds nothing exactly when no type of the base chain
      declares the name, and otherwise returns the first property of that
      name on the type at position `i`, the first of the chain that declares
      one. */
  lemma GetPropertySpec(md: Meta, t: TypeId, name: string) returns (i: nat)
    ensures GetProperty(md, t, name).None? <==> NoneDeclares(md, BaseChain(md, t, BaseWalkFuel(md)), PropertyMember, name)
    ensures GetProperty(md, t, name).Some? ==>
              && FirstFoundAt(md, BaseChain(md, t, BaseWalkFuel(md)), PropertyMember, name, i)
              && GetProperty(md, t, name) == OwnProperty(md, BaseChain(md, t, BaseWalkFuel(md))[i], name)
  {
    i := FindMemberSpec(md, t, PropertyMember, name, BaseWalkFuel(md));
  }

  /** GetField finds nothing exactly when no type of the base chain declares
      the name, and otherwise returns the first field of that name on the
      type at position `i`, the first of the chain that declares one. */
  lemma GetFieldSpec(md: Meta, t: TypeId, name: string) returns (i: nat)
    ensures GetField(md, t, name).None? <==> NoneDeclares(md, BaseChain(md, t, BaseWalkFuel(md)), FieldMember, name)
    ensures GetField(md, t, name).Some? ==>
              && FirstFoundAt(md, BaseChain(md, t, BaseWalkFuel(md)), FieldMember, name, i)
              && GetField(md, t, name) == OwnField(md, BaseChain(md, t, BaseWalkFuel(md))[i], name)
  {
    i := FindMemberSpec(md, t, FieldMember, name, BaseWalkFuel(md));
  }

  /** A field declared on the type itself hides any field of the same name
      on its base types. */
  lemma GetFieldPrefersOwnField(md: Meta, t: TypeId, name: string)
    requires name in MemberNames(md, t, FieldMember)
    ensures GetField(md, t, name) == OwnField(md, t, name)
  {
  }

  // ---------------------------------------------------------------------
  // Attribute arguments
  // ---------------------------------------------------------------------

  /** TryGetStringArgument: the first constructor argument, when there is one
      and its value is a string. */
  function TryGetStringArgument(ca: CustomAttribute): (r: Option<string>)
    ensures r.Some? <==> |ca.ctorArgs| >= 1 && ca.ctorArgs[0].value.StringValue?
    ensures r.Some? ==> r.value == ca.ctorArgs[0].value.s
  {
    if |ca.ctorArgs| < 1 then None
    else match ca.ctorArgs[0].value
      case StringValue(s) => Some(s)
      case _ => None
  }

  /** What RecordIfType needs: an argument of type System.Type has a type
      that resolves and a value that is null or a type that resolves (any
      other value fails the cast to TypeReference). */
  ghost predicate ArgResolves(md: Meta, arg: AttrArg) {
    FullName(md, arg.argType) == SystemTypeName ==>
      && AllResolve(md, Targets(arg.argType))
      && (arg.value.TypeValue? || arg.value.NullValue?)
      && (arg.value.TypeValue? ==> AllResolve(md, Targets(arg.value.t)))
  }

  /** What RecordIfType records: for an argument of type System.Type, that
      type and the type its value carries. */
  ghost predicate ArgRecorded(md: Meta, ctx: Context, g: Registry, arg: AttrArg) {
    FullName(md, arg.argType) == SystemTypeName ==>
      && TypeRecorded(md, ctx, g, arg.argType)
      && (arg.value.TypeValue? ==> TypeRecorded(md, ctx, g, arg.value.t))
  }

  lemma ArgRecordedGrows(md: Meta, ctx: Context, g: Registry, g': Registry, arg: AttrArg)
    requires Grows(g, g') && ArgRecorded(md, ctx, g, arg)
    ensures ArgRecorded(md, ctx, g', arg)
  {
    if FullName(md, arg.argType) == SystemTypeName {
      TypeRecordedGrows(md, ctx, g, g', arg.argType);
      if arg.value.TypeValue? {
        TypeRecordedGrows(md, ctx, g, g', arg.value.t);
      }
    }
  }

  /** The definitions RecordIfType may add edges to for `arg`. */
  ghost function ArgTypes(md: Meta, arg: AttrArg): set<TypeId> {
    if FullName(md, arg.argType) != SystemTypeName then {}
    else Defs(md, Targets(arg.argType)) + (if arg.value.TypeValue? then Defs(md, Targets(arg.value.t)) else {})
  }

  /** The constructors RecordIfType may add edges to for `arg`. */
  ghost function ArgCtors(md: Meta, arg: AttrArg): set<MethodId> {
    if FullName(md, arg.argType) != SystemTypeName then {}
    else Ctors(md, arg.argType) + (if arg.value.TypeValue? then Ctors(md, arg.value.t) else {})
  }

  /** Bookkeeping for RecordIfType on a type value: the argument type, then
      the type the value carries. */
  lemma TypeValueSteps(md: Meta, ctx: Context, arg: AttrArg, g: Registry, g1: Registry, g2: Registry)
    requires FullName(md, arg.argType) == SystemTypeName && arg.value.TypeValue?
    requires Step(CurrentKey(ctx), g, g1) && TypeRecorded(md, ctx, g1, arg.argType)
    requires NewEdgesIn(ctx, g, g1, Defs(md, Targets(arg.argType)), {}, Ctors(md, arg.argType))
    requires Step(CurrentKey(ctx), g1, g2) && TypeRecorded(md, ctx, g2, arg.value.t)
    requires NewEdgesIn(ctx, g1, g2, Defs(md, Targets(arg.value.t)), {}, Ctors(md, arg.value.t))
    ensures Step(CurrentKey(ctx), g, g2) && ArgRecorded(md, ctx, g2, arg)
    ensures NewEdgesIn(ctx, g, g2, ArgTypes(md, arg), {}, ArgCtors(md, arg))
  {
    TypeRecordedGrows(md, ctx, g1, g2, arg.argType);
    StepTrans(CurrentKey(ctx), g, g1, g2);
    NewEdgesInSeq(ctx, g, g1, g2, Defs(md, Targets(arg.argType)), {}, Ctors(md, arg.argType),
                  Defs(md, Targets(arg.value.t)), {}, Ctors(md, arg.value.t));
  }

  /** RecordIfType: an argument whose type is System.Type records that type
      and the type it carries; its value must be a type or null. */
  function RecordIfType(md: Meta, ctx: Context, arg: AttrArg, g: Registry): (r: Outcome)
    requires Valid(g)
    ensures r.Success? ==> Step(CurrentKey(ctx), g, r.value) && ArgRecorded(md, ctx, r.value, arg)
    ensures r.Success? ==> NewEdgesIn(ctx, g, r.value, ArgTypes(md, arg), {}, ArgCtors(md, arg))
    ensures r.Success? <==> ArgResolves(md, arg)
    ensures FullName(md, arg.argType) != SystemTypeName ==> r == Success(g)
    ensures r.Failure? ==> r.error.UnresolvedType? || (r.error == InvalidCast(arg) && !(arg.value.TypeValue? || arg.value.NullValue?))
    ensures (&& FullName(md, arg.argType) == SystemTypeName && AllResolve(md, Targets(arg.argType))
             && (arg.value.StringValue? || arg.value.OtherValue?)) ==> r == Failure(InvalidCast(arg))
  {
    if FullName(md, arg.argType) != SystemTypeName then Success(g)
    else
      var g1 :- RecordType(md, ctx, arg.argType, g);
      match arg.value
      case TypeValue(t) =>
        var g2 :- RecordType(md, ctx, t, g1);
        TypeValueSteps(md, ctx, arg, g, g1, g2);
        Success(g2)
      case NullValue =>
        NewEdgesInMono(ctx, g, g1, Defs(md, Targets(arg.argType)), {}, Ctors(md, arg.argType),
                       ArgTypes(md, arg), {}, ArgCtors(md, arg));
        Success(g1)
      case _ => Failure(InvalidCast(arg))
  }

  ghost predicate ArgsResolve(md: Meta, args: seq<AttrArg>) {
    forall i :: 0 <= i < |args| ==> ArgResolves(md, args[i])
  }

  ghost predicate ArgsRecorded(md: Meta, ctx: Context, g: Registry, args: seq<AttrArg>) {
    forall i :: 0 <= i < |args| ==> ArgRecorded(md, ctx, g, args[i])
  }

  lemma ArgsResolveCons(md: Meta, args: seq<AttrArg>)
    requires |args| > 0
    ensures ArgsResolve(md, args) <==> ArgResolves(md, args[0]) && ArgsResolve(md, args[1..])
  {
    assert forall i :: 1 <= i < |args| ==> args[i] == args[1..][i - 1];
  }

  lemma ArgsRecordedCons(md: Meta, ctx: Context, g: Registry, g': Registry, args: seq<AttrArg>)
    requires |args| > 0 && Grows(g, g') && ArgRecorded(md, ctx, g, args[0]) && ArgsRecorded(md, ctx, g', args[1..])
    ensures ArgsRecorded(md, ctx, g', args)
  {
    ArgRecordedGrows(md, ctx, g, g', args[0]);
    assert forall i :: 1 <= i < |args| ==> args[i] == args[1..][i - 1];
  }

  lemma ArgsRecordedGrows(md: Meta, ctx: Context, g: Registry, g': Registry, args: seq<AttrArg>)
    requires Grows(g, g') && ArgsRecorded(md, ctx, g, args)
    ensures ArgsRecorded(md, ctx, g', args)
  {
    forall i | 0 <= i < |args| ensures ArgRecorded(md, ctx, g', args[i]) {
      ArgRecordedGrows(md, ctx, g, g', args[i]);
    }
  }

  /** The definitions RecordIfType may add edges to for the arguments of `args`. */
  ghost function ArgsTypes(md: Meta, args: seq<AttrArg>): set<TypeId> {
    if |args| == 0 then {} else ArgTypes(md, args[0]) + ArgsTypes(md, args[1..])
  }

  /** The constructors RecordIfType may add edges to for the arguments of `args`. */
  ghost function ArgsCtors(md: Meta, args: seq<AttrArg>): set<MethodId> {
    if |args| == 0 then {} else ArgCtors(md, args[0]) + ArgsCtors(md, args[1..])
  }

  /** Bookkeeping for RecordAttrArgs: the first argument, then the rest. */
  lemma ArgsSteps(md: Meta, ctx: Context, args: seq<AttrArg>, g: Registry, g1: Registry, g2: Registry)
    requires |args| > 0
    requires Step(CurrentKey(ctx), g, g1) && ArgRecorded(md, ctx, g1, args[0])
    requires NewEdgesIn(ctx, g, g1, ArgTypes(md, args[0]), {}, ArgCtors(md, args[0]))
    requires Step(CurrentKey(ctx), g1, g2) && ArgsRecorded(md, ctx, g2, args[1..])
    requires NewEdgesIn(ctx, g1, g2, ArgsTypes(md, args[1..]), {}, ArgsCtors(md, args[1..]))
    ensures Step(CurrentKey(ctx), g, g2) && ArgsRecorded(md, ctx, g2, args)
    ensures NewEdgesIn(ctx, g, g2, ArgsTypes(md, args), {}, ArgsCtors(md, args))
  {
    StepTrans(CurrentKey(ctx), g, g1, g2);
    ArgsRecordedCons(md, ctx, g1, g2, args);
    NewEdgesInSeq(ctx, g, g1, g2, ArgTypes(md, args[0]), {}, ArgCtors(md, args[0]),
                  ArgsTypes(md, args[1..]), {}, ArgsCtors(md, args[1..]));
  }

  /** RecordCustomAttributeArguments: every constructor argument in order;
      the run goes on exactly when each passes RecordIfType. */
  function RecordAttrArgs(md: Meta, ctx: Context, args: seq<AttrArg>, g: Registry): (r: Outcome)
    requires Valid(g)
    ensures r.Success? ==> Step(CurrentKey(ctx), g, r.value) && ArgsRecorded(md, ctx, r.value, args)
    ensures r.Success? ==> NewEdgesIn(ctx, g, r.value, ArgsTypes(md, args), {}, ArgsCtors(md, args))
    ensures r.Success? <==> ArgsResolve(md, args)
    ensures (forall i :: 0 <= i < |args| ==> FullName(md, args[i].argType) != SystemTypeName) ==> r == Success(g)
  {
    if |args| == 0 then Success(g)
    else
      ArgsResolveCons(md, args);
      var g1 :- RecordIfType(md, ctx, args[0], g);
      var r := RecordAttrArgs(md, ctx, args[1..], g1);
      if r.Success? then
        ArgsSteps(md, ctx, args, g, g1, r.value);
        r
      else
        assert !ArgsResolve(md, args[1..]);
        r
  }

  /** An accessor of a property, recorded when present. */
  ghost predicate AccessorRecorded(ctx: Context, g: Registry, acc: Option<MethodId>) {
    acc.Some? && !IsCurrentMethod(ctx, acc.value) ==> HasEdge(g, CurrentKey(ctx), MethodKey(acc.value))
  }

  /** RecordMethod on a property accessor; an absent accessor is skipped. */
  function RecordAccessor(md: Meta, ctx: Context, acc: Option<MethodId>, g: Registry): (r: Registry)
    requires Valid(g)
    ensures Step(CurrentKey(ctx), g, r)
    ensures MethodsRecorded(ctx, g, r, if acc.Some? then {acc.value} else {})
  {
    if acc.None? then g else RecordMethodDef(md, ctx, acc.value, g)
  }

  /** The setter of the property a named argument names, if it has one, is
      recorded, and so is the argument itself. */
  ghost predicate PropertyArgRecorded(md: Meta, ctx: Context, g: Registry, at: TypeId, na: NamedArg) {
    && (match GetProperty(md, at, na.name)
        case None => true
        case Some(p) => AccessorRecorded(ctx, g, p.setter))
    && ArgRecorded(md, ctx, g, na.argument)
  }

  /** The field a named argument names, if there is one, is recorded, and so
      is the argument itself. */
  ghost predicate FieldArgRecorded(md: Meta, ctx: Context, g: Registry, at: TypeId, na: NamedArg) {
    && (match GetField(md, at, na.name)
        case None => true
        case Some(f) => IsCurrentField(ctx, f) || HasEdge(g, CurrentKey(ctx), FieldKey(f)))
    && ArgRecorded(md, ctx, g, na.argument)
  }

  lemma PropertyArgGrows(md: Meta, ctx: Context, g: Registry, g': Registry, at: TypeId, na: NamedArg)
    requires Grows(g, g') && PropertyArgRecorded(md, ctx, g, at, na)
    ensures PropertyArgRecorded(md, ctx, g', at, na)
  {
    ArgRecordedGrows(md, ctx, g, g', na.argument);
  }

  lemma FieldArgGrows(md: Meta, ctx: Context, g: Registry, g': Registry, at: TypeId, na: NamedArg)
    requires Grows(g, g') && FieldArgRecorded(md, ctx, g, at, na)
    ensures FieldArgRecorded(md, ctx, g', at, na)
  {
    ArgRecordedGrows(md, ctx, g, g', na.argument);
  }

  /** The setter of the property `name` names on `at`, if there is one. */
  ghost function SetterOf(md: Meta, at: TypeId, name: string): set<MethodId> {
    match GetProperty(md, at, name)
    case Some(p) => if p.setter.Some? then {p.setter.value} else {}
    case None => {}
  }

  /** The setter of the property `name` names on the attribute type, when
      there is such a property. */
  function RecordSetterOf(md: Meta, ctx: Context, at: TypeId, name: string, g: Registry): (r: Registry)
    requires Valid(g)
    ensures Step(CurrentKey(ctx), g, r)
    ensures GetProperty(md, at, name).Some? ==> AccessorRecorded(ctx, r, GetProperty(md, at, name).value.setter)
    ensures NewEdgesIn(ctx, g, r, {}, {}, SetterOf(md, at, name))
  {
    match GetProperty(md, at, name)
    case None => g
    case Some(p) => RecordAccessor(md, ctx, p.setter, g)
  }

  /** The values of the named arguments of `nas` pass RecordIfType. */
  ghost predicate NamedArgsResolve(md: Meta, nas: seq<NamedArg>) {
    forall i :: 0 <= i < |nas| ==> ArgResolves(md, nas[i].argument)
  }

  lemma NamedArgsResolveCons(md: Meta, nas: seq<NamedArg>)
    requires |nas| > 0
    ensures NamedArgsResolve(md, nas) <==> ArgResolves(md, nas[0].argument) && NamedArgsResolve(md, nas[1..])
  {
    assert forall i :: 1 <= i < |nas| ==> nas[i] == nas[1..][i - 1];
  }

  /** Every named argument of `nas` has its property's setter and its value
      recorded. */
  ghost predicate PropertyArgsRecorded(md: Meta, ctx: Context, g: Registry, at: TypeId, nas: seq<NamedArg>) {
    forall i :: 0 <= i < |nas| ==> PropertyArgRecorded(md, ctx, g, at, nas[i])
  }

  lemma PropertyArgsCons(md: Meta, ctx: Context, g: Registry, g': Registry, at: TypeId, nas: seq<NamedArg>)
    requires |nas| > 0 && Grows(g, g') && PropertyArgRecorded(md, ctx, g, at, nas[0])
    requires PropertyArgsRecorded(md, ctx, g', at, nas[1..])
    ensures PropertyArgsRecorded(md, ctx, g', at, nas)
  {
    PropertyArgGrows(md, ctx, g, g', at, nas[0]);
    assert forall i :: 1 <= i < |nas| ==> nas[i] == nas[1..][i - 1];
  }

  lemma PropertyArgsGrows(md: Meta, ctx: Context, g: Registry, g': Registry, at: TypeId, nas: seq<NamedArg>)
    requires Grows(g, g') && PropertyArgsRecorded(md, ctx, g, at, nas)
    ensures PropertyArgsRecorded(md, ctx, g', at, nas)
  {
    forall i | 0 <= i < |nas| ensures PropertyArgRecorded(md, ctx, g', at, nas[i]) {
      PropertyArgGrows(md, ctx, g, g', at, nas[i]);
    }
  }

  /** The definitions RecordIfType may add edges to for the values of `nas`. */
  ghost function NamedTypes(md: Meta, nas: seq<NamedArg>): set<TypeId> {
    if |nas| == 0 then {} else ArgTypes(md, nas[0].argument) + NamedTypes(md, nas[1..])
  }

  /** The constructors RecordIfType may add edges to for the values of `nas`. */
  ghost function NamedCtors(md: Meta, nas: seq<NamedArg>): set<MethodId> {
    if |nas| == 0 then {} else ArgCtors(md, nas[0].argument) + NamedCtors(md, nas[1..])
  }

  /** The methods the named property arguments of `nas` may add edges to:
      the setters found on `at` and the constructors their values pull in. */
  ghost function PropertyMethods(md: Meta, at: TypeId, nas: seq<NamedArg>): set<MethodId> {
    if |nas| == 0 then {}
    else SetterOf(md, at, nas[0].name) + ArgCtors(md, nas[0].argument) + PropertyMethods(md, at, nas[1..])
  }

  /** One named property argument: the property's setter, then the value. */
  function RecordNamedPropertyArg(md: Meta, ctx: Context, na: NamedArg, at: TypeId, g: Registry): (r: Outcome)
    requires Valid(g)
    ensures r.Success? ==> Step(CurrentKey(ctx), g, r.value) && PropertyArgRecorded(md, ctx, r.value, at, na)
    ensures r.Success? ==> NewEdgesIn(ctx, g, r.value, ArgTypes(md, na.argument), {},
                                      SetterOf(md, at, na.name) + ArgCtors(md, na.argument))
    ensures r.Success? <==> ArgResolves(md, na.argument)
  {
    var g1 := RecordSetterOf(md, ctx, at, na.name, g);
    var g2 :- RecordIfType(md, ctx, na.argument, g1);
    StepTrans(CurrentKey(ctx), g, g1, g2);
    NewEdgesInSeq(ctx, g, g1, g2, {}, {}, SetterOf(md, at, na.name),
                  ArgTypes(md, na.argument), {}, ArgCtors(md, na.argument));
    Success(g2)
  }

  /** RecordCustomAttributeProperties: the setter of every named property
      found on the attribute type or its bases, and each argument; the run
      goes on exactly when every argument passes RecordIfType. */
  function RecordNamedPropertyArgs(md: Meta, ctx: Context, nas: seq<NamedArg>, at: TypeId, g: Registry): (r: Outcome)
    requires Valid(g)
    ensures r.Success? ==> Step(CurrentKey(ctx), g, r.value) && PropertyArgsRecorded(md, ctx, r.value, at, nas)
    ensures r.Success? ==> NewEdgesIn(ctx, g, r.value, NamedTypes(md, nas), {}, PropertyMethods(md, at, nas))
    ensures r.Success? <==> NamedArgsResolve(md, nas)
  {
    if |nas| == 0 then Success(g)
    else
      NamedArgsResolveCons(md, nas);
      var g1 :- RecordNamedPropertyArg(md, ctx, nas[0], at, g);
      var r := RecordNamedPropertyArgs(md, ctx, nas[1..], at, g1);
      if r.Success? then
        StepTrans(CurrentKey(ctx), g, g1, r.value);
        PropertyArgsCons(md, ctx, g1, r.value, at, nas);
        NewEdgesInSeq(ctx, g, g1, r.value, ArgTypes(md, nas[0].argument), {},
                      SetterOf(md, at, nas[0].name) + ArgCtors(md, nas[0].argument),
                      NamedTypes(md, nas[1..]), {}, PropertyMethods(md, at, nas[1..]));
        r
      else r
  }

  /** The field `name` names on the attribute type, when there is one. */
  function RecordFieldOf(md: Meta, ctx: Context, at: TypeId, name: string, g: Registry): (r: Registry)
    requires Valid(g)
    ensures Step(CurrentKey(ctx), g, r)
    ensures GetField(md, at, name).Some? ==> FieldsRecorded(ctx, g, r, {GetField(md, at, name).value})
    ensures GetField(md, at, name).None? ==> r == g
  {
    match GetField(md, at, name)
    case None => g
    case Some(f) => RecordFieldDef(md, ctx, f, g)
  }

  /** Every named argument of `nas` has its field and its value recorded. */
  ghost predicate FieldArgsRecorded(md: Meta, ctx: Context, g: Registry, at: TypeId, nas: seq<NamedArg>) {
    forall i :: 0 <= i < |nas| ==> FieldArgRecorded(md, ctx, g, at, nas[i])
  }

  lemma FieldArgsCons(md: Meta, ctx: Context, g: Registry, g': Registry, at: TypeId, nas: seq<NamedArg>)
    requires |nas| > 0 && Grows(g, g') && FieldArgRecorded(md, ctx, g, at, nas[0])
    requires FieldArgsRecorded(md, ctx, g', at, nas[1..])
    ensures FieldArgsRecorded(md, ctx, g', at, nas)
  {
    FieldArgGrows(md, ctx, g, g', at, nas[0]);
    assert forall i :: 1 <= i < |nas| ==> nas[i] == nas[1..][i - 1];
  }

  lemma FieldArgsGrows(md: Meta, ctx: Context, g: Registry, g': Registry, at: TypeId, nas: seq<NamedArg>)
    requires Grows(g, g') && FieldArgsRecorded(md, ctx, g, at, nas)
    ensures FieldArgsRecorded(md, ctx, g', at, nas)
  {
    forall i | 0 <= i < |nas| ensures FieldArgRecorded(md, ctx, g', at, nas[i]) {
      FieldArgGrows(md, ctx, g, g', at, nas[i]);
    }
  }

  /** The field `name` names on `at`, if there is one. */
  ghost function FieldOf(md: Meta, at: TypeId, name: string): set<FieldId> {
    match GetField(md, at, name)
    case Some(f) => {f}
    case None => {}
  }

  /** The fields the named field arguments of `nas` name on `at`. */
  ghost function FieldTargets(md: Meta, at: TypeId, nas: seq<NamedArg>): set<FieldId> {
    if |nas| == 0 then {} else FieldOf(md, at, nas[0].name) + FieldTargets(md, at, nas[1..])
  }

  /** One named field argument: the field, then the value. */
  function RecordNamedFieldArg(md: Meta, ctx: Context, na: NamedArg, at: TypeId, g: Registry): (r: Outcome)
    requires Valid(g)
    ensures r.Success? ==> Step(CurrentKey(ctx), g, r.value) && FieldArgRecorded(md, ctx, r.value, at, na)
    ensures r.Success? ==> NewEdgesIn(ctx, g, r.value, ArgTypes(md, na.argument), FieldOf(md, at, na.name),
                                      ArgCtors(md, na.argument))
    ensures r.Success? <==> ArgResolves(md, na.argument)
  {
    var g1 := RecordFieldOf(md, ctx, at, na.name, g);
    var g2 :- RecordIfType(md, ctx, na.argument, g1);
    StepTrans(CurrentKey(ctx), g, g1, g2);
    NewEdgesInSeq(ctx, g, g1, g2, {}, FieldOf(md, at, na.name), {},
                  ArgTypes(md, na.argument), {}, ArgCtors(md, na.argument));
    Success(g2)
  }

  /** RecordCustomAttributeFields: every named field found on the attribute
      type or its bases, and each argument; the run goes on exactly when
      every argument passes RecordIfType. */
  function RecordNamedFieldArgs(md: Meta, ctx: Context, nas: seq<NamedArg>, at: TypeId, g: Registry): (r: Outcome)
    requires Valid(g)
    ensures r.Success? ==> Step(CurrentKey(ctx), g, r.value) && FieldArgsRecorded(md, ctx, r.value, at, nas)
    ensures r.Success? ==> NewEdgesIn(ctx, g, r.value, NamedTypes(md, nas), FieldTargets(md, at, nas), NamedCtors(md, nas))
    ensures r.Success? <==> NamedArgsResolve(md, nas)
  {
    if |nas| == 0 then Success(g)
    else
      NamedArgsResolveCons(md, nas);
      var g1 :- RecordNamedFieldArg(md, ctx, nas[0], at, g);
      var r := RecordNamedFieldArgs(md, ctx, nas[1..], at, g1);
      if r.Success? then
        StepTrans(CurrentKey(ctx), g, g1, r.value);
        FieldArgsCons(md, ctx, g1, r.value, at, nas);
        NewEdgesInSeq(ctx, g, g1, r.value, ArgTypes(md, nas[0].argument), FieldOf(md, at, nas[0].name),
                      ArgCtors(md, nas[0].argument), NamedTypes(md, nas[1..]), FieldTargets(md, at, nas[1..]),
                      NamedCtors(md, nas[1..]));
        r
      else r
  }

  /** The attribute type: the resolved declaring type of the constructor. */
  function AttributeTypeOf(md: Meta, ca: CustomAttribute): Option<TypeId> {
    ResolveType(md, MethodDeclaringType(md, ca.ctor))
  }

  /** Everything RecordCustomAttribute needs to resolve does: the
      constructor, the constructor arguments, the attribute type and the
      named arguments. */
  ghost predicate AttributeResolves(md: Meta, ca: CustomAttribute) {
    && MethodResolves(md, ca.ctor)
    && ArgsResolve(md, ca.ctorArgs)
    && AttributeTypeOf(md, ca).Some?
    && NamedArgsResolve(md, ca.properties)
    && NamedArgsResolve(md, ca.fields)
  }

  /** What RecordCustomAttribute records: the constructor, the System.Type
      constructor arguments, and the members and values of the named
      arguments, looked up on the attribute type. */
  ghost predicate AttributeRecorded(md: Meta, ctx: Context, g: Registry, ca: CustomAttribute) {
    && MethodRefRecorded(md, ctx, g, ca.ctor)
    && ArgsRecorded(md, ctx, g, ca.ctorArgs)
    && AttributeTypeOf(md, ca).Some?
    && PropertyArgsRecorded(md, ctx, g, AttributeTypeOf(md, ca).value, ca.properties)
    && FieldArgsRecorded(md, ctx, g, AttributeTypeOf(md, ca).value, ca.fields)
  }

  lemma AttributeRecordedGrows(md: Meta, ctx: Context, g: Registry, g': Registry, ca: CustomAttribute)
    requires Grows(g, g') && AttributeRecorded(md, ctx, g, ca)
    ensures AttributeRecorded(md, ctx, g', ca)
  {
    var at := AttributeTypeOf(md, ca).value;
    MethodRefRecordedGrows(md, ctx, g, g', ca.ctor);
    ArgsRecordedGrows(md, ctx, g, g', ca.ctorArgs);
    PropertyArgsGrows(md, ctx, g, g', at, ca.properties);
    FieldArgsGrows(md, ctx, g, g', at, ca.fields);
  }

  /** The definitions RecordCustomAttribute may add edges to for `ca`. */
  ghost function AttributeTypes(md: Meta, ca: CustomAttribute): set<TypeId> {
    MethodRefTypes(md, ca.ctor) + ArgsTypes(md, ca.ctorArgs) + NamedTypes(md, ca.properties) + NamedTypes(md, ca.fields)
  }

  /** The fields RecordCustomAttribute may add edges to for `ca`. */
  ghost function AttributeFields(md: Meta, ca: CustomAttribute): set<FieldId> {
    match AttributeTypeOf(md, ca)
    case Some(at) => FieldTargets(md, at, ca.fields)
    case None => {}
  }

  /** The methods RecordCustomAttribute may add edges to for `ca`. */
  ghost function AttributeMethods(md: Meta, ca: CustomAttribute): set<MethodId> {
    MethodRefMethods(md, ca.ctor) + ArgsCtors(md, ca.ctorArgs) + NamedCtors(md, ca.fields)
    + (match AttributeTypeOf(md, ca)
       case Some(at) => PropertyMethods(md, at, ca.properties)
       case None => {})
  }

  /** The only new edges of the current node between `g` and `g'` are those
      RecordCustomAttribute may add for `ca`. */
  ghost predicate AttributeBounded(md: Meta, ctx: Context, g: Registry, g': Registry, ca: CustomAttribute) {
    Bounded(ctx, g, g', Reach(AttributeTypes(md, ca), AttributeFields(md, ca), AttributeMethods(md, ca)))
  }

  /** RecordCustomAttribute: the constructor, the System.Type arguments, then
      the attribute type, which must resolve, and its named arguments. */
  function RecordCustomAttribute(md: Meta, ctx: Context, ca: CustomAttribute, g: Registry): (r: Outcome)
    requires Valid(g)
    ensures r.Success? ==> Step(CurrentKey(ctx), g, r.value) && AttributeRecorded(md, ctx, r.value, ca)
    ensures r.Success? ==> AttributeBounded(md, ctx, g, r.value, ca)
    ensures r.Success? <==> AttributeResolves(md, ca)
  {
    var g1 :- RecordMethod(md, ctx, ca.ctor, g);
    var g2 :- RecordAttrArgs(md, ctx, ca.ctorArgs, g1);
    var ctorType := MethodDeclaringType(md, ca.ctor);
    match ResolveType(md, ctorType)
    case None => Failure(UnresolvedType(ctorType))
    case Some(at) =>
      var g3 :- RecordNamedPropertyArgs(md, ctx, ca.properties, at, g2);
      var g4 :- RecordNamedFieldArgs(md, ctx, ca.fields, at, g3);
      AttributeSteps(md, ctx, ca, at, g, g1, g2, g3, g4);
      AttributeBounds(md, ctx, ca, at, g, g1, g2, g3, g4);
      Success(g4)
  }

  /** The bound of RecordCustomAttribute: the union of its four steps' bounds. */
  lemma AttributeBounds(md: Meta, ctx: Context, ca: CustomAttribute, at: TypeId,
                        g: Registry, g1: Registry, g2: Registry, g3: Registry, g4: Registry)
    requires AttributeTypeOf(md, ca) == Some(at)
    requires MethodRefBounded(md, ctx, g, g1, ca.ctor)
    requires NewEdgesIn(ctx, g1, g2, ArgsTypes(md, ca.ctorArgs), {}, ArgsCtors(md, ca.ctorArgs))
    requires NewEdgesIn(ctx, g2, g3, NamedTypes(md, ca.properties), {}, PropertyMethods(md, at, ca.properties))
    requires NewEdgesIn(ctx, g3, g4, NamedTypes(md, ca.fields), FieldTargets(md, at, ca.fields), NamedCtors(md, ca.fields))
    ensures AttributeBounded(md, ctx, g, g4, ca)
  {
    var ts1, ms1 := MethodRefTypes(md, ca.ctor), MethodRefMethods(md, ca.ctor);
    NewEdgesInSeq(ctx, g, g1, g2, ts1, {}, ms1, ArgsTypes(md, ca.ctorArgs), {}, ArgsCtors(md, ca.ctorArgs));
    var ts2, ms2 := ts1 + ArgsTypes(md, ca.ctorArgs), ms1 + ArgsCtors(md, ca.ctorArgs);
    NewEdgesInSeq(ctx, g, g2, g3, ts2, {}, ms2, NamedTypes(md, ca.properties), {}, PropertyMethods(md, at, ca.properties));
    var ts3, ms3 := ts2 + NamedTypes(md, ca.properties), ms2 + PropertyMethods(md, at, ca.properties);
    NewEdgesInSeq(ctx, g, g3, g4, ts3, {}, ms3, NamedTypes(md, ca.fields), FieldTargets(md, at, ca.fields), NamedCtors(md, ca.fields));
    NewEdgesInMono(ctx, g, g4, ts3 + NamedTypes(md, ca.fields), {} + FieldTargets(md, at, ca.fields), ms3 + NamedCtors(md, ca.fields),
                   AttributeTypes(md, ca), AttributeFields(md, ca), AttributeMethods(md, ca));
  }

  /** The bookkeeping of RecordCustomAttribute: what each of its four steps
      records survives the later ones. */
  lemma AttributeSteps(md: Meta, ctx: Context, ca: CustomAttribute, at: TypeId,
                       g: Registry, g1: Registry, g2: Registry, g3: Registry, g4: Registry)
    requires AttributeTypeOf(md, ca) == Some(at)
    requires Step(CurrentKey(ctx), g, g1) && MethodRefRecorded(md, ctx, g1, ca.ctor)
    requires Step(CurrentKey(ctx), g1, g2) && ArgsRecorded(md, ctx, g2, ca.ctorArgs)
    requires Step(CurrentKey(ctx), g2, g3) && PropertyArgsRecorded(md, ctx, g3, at, ca.properties)
    requires Step(CurrentKey(ctx), g3, g4) && FieldArgsRecorded(md, ctx, g4, at, ca.fields)
    ensures Step(CurrentKey(ctx), g, g4) && AttributeRecorded(md, ctx, g4, ca)
  {
    StepTrans(CurrentKey(ctx), g, g1, g2);
    StepTrans(CurrentKey(ctx), g, g2, g3);
    StepTrans(CurrentKey(ctx), g, g3, g4);
    StepTrans(CurrentKey(ctx), g1, g2, g3);
    StepTrans(CurrentKey(ctx), g1, g3, g4);
    StepTrans(CurrentKey(ctx), g2, g3, g4);
    MethodRefRecordedGrows(md, ctx, g1, g4, ca.ctor);
    ArgsRecordedGrows(md, ctx, g2, g4, ca.ctorArgs);
    PropertyArgsGrows(md, ctx, g3, g4, at, ca.properties);
  }

  ghost predicate AttributesResolve(md: Meta, cas: seq<CustomAttribute>) {
    forall i :: 0 <= i < |cas| ==> AttributeResolves(md, cas[i])
  }

  ghost predicate AttributesRecorded(md: Meta, ctx: Context, g: Registry, cas: seq<CustomAttribute>) {
    forall i :: 0 <= i < |cas| ==> AttributeRecorded(md, ctx, g, cas[i])
  }

  lemma AttributesResolveCons(md: Meta, cas: seq<CustomAttribute>)
    requires |cas| > 0
    ensures AttributesResolve(md, cas) <==> AttributeResolves(md, cas[0]) && AttributesResolve(md, cas[1..])
  {
    assert forall i :: 1 <= i < |cas| ==> cas[i] == cas[1..][i - 1];
  }

  lemma AttributesRecordedCons(md: Meta, ctx: Context, g: Registry, g': Registry, cas: seq<CustomAttribute>)
    requires |cas| > 0 && Grows(g, g') && AttributeRecorded(md, ctx, g, cas[0]) && AttributesRecorded(md, ctx, g', cas[1..])
    ensures AttributesRecorded(md, ctx, g', cas)
  {
    AttributeRecordedGrows(md, ctx, g, g', cas[0]);
    assert forall i :: 1 <= i < |cas| ==> cas[i] == cas[1..][i - 1];
  }

  lemma AttributesRecordedGrows(md: Meta, ctx: Context, g: Registry, g': Registry, cas: seq<CustomAttribute>)
    requires Grows(g, g') && AttributesRecorded(md, ctx, g, cas)
    ensures AttributesRecorded(md, ctx, g', cas)
  {
    forall i | 0 <= i < |cas| ensures AttributeRecorded(md, ctx, g', cas[i]) {
      AttributeRecordedGrows(md, ctx, g, g', cas[i]);
    }
  }

  /** The definitions, fields and methods RecordCustomAttribute may add
      edges to for the attributes of `cas`. */
  ghost function AttributesTypes(md: Meta, cas: seq<CustomAttribute>): set<TypeId> {
    if |cas| == 0 then {} else AttributeTypes(md, cas[0]) + AttributesTypes(md, cas[1..])
  }

  ghost function AttributesFields(md: Meta, cas: seq<CustomAttribute>): set<FieldId> {
    if |cas| == 0 then {} else AttributeFields(md, cas[0]) + AttributesFields(md, cas[1..])
  }

  ghost function AttributesMethods(md: Meta, cas: seq<CustomAttribute>): set<MethodId> {
    if |cas| == 0 then {} else AttributeMethods(md, cas[0]) + AttributesMethods(md, cas[1..])
  }

  ghost predicate AttributesBounded(md: Meta, ctx: Context, g: Registry, g': Registry, cas: seq<CustomAttribute>) {
    Bounded(ctx, g, g', AttributesReach(md, cas))
  }

  /** The reach of RecordCustomAttributes on `cas`. */
  ghost function AttributesReach(md: Meta, cas: seq<CustomAttribute>): Reach {
    Reach(AttributesTypes(md, cas), AttributesFields(md, cas), AttributesMethods(md, cas))
  }

  lemma AttributesBoundedCons(md: Meta, ctx: Context, g: Registry, g1: Registry, g2: Registry, cas: seq<CustomAttribute>)
    requires |cas| > 0 && AttributeBounded(md, ctx, g, g1, cas[0]) && AttributesBounded(md, ctx, g1, g2, cas[1..])
    ensures AttributesBounded(md, ctx, g, g2, cas)
  {
    NewEdgesInSeq(ctx, g, g1, g2, AttributeTypes(md, cas[0]), AttributeFields(md, cas[0]), AttributeMethods(md, cas[0]),
                  AttributesTypes(md, cas[1..]), AttributesFields(md, cas[1..]), AttributesMethods(md, cas[1..]));
  }

  /** RecordCustomAttributes: every attribute of a provider, in order; the
      run goes on exactly when every one of them resolves. */
  function RecordCustomAttributes(md: Meta, ctx: Context, cas: seq<CustomAttribute>, g: Registry): (r: Outcome)
    requires Valid(g)
    ensures r.Success? ==> Step(CurrentKey(ctx), g, r.value) && AttributesRecorded(md, ctx, r.value, cas)
    ensures r.Success? ==> AttributesBounded(md, ctx, g, r.value, cas)
    ensures r.Success? <==> AttributesResolve(md, cas)
    ensures |cas| == 0 ==> r == Success(g)
  {
    if |cas| == 0 then Success(g)
    else
      AttributesResolveCons(md, cas);
      var g1 :- RecordCustomAttribute(md, ctx, cas[0], g);
      var r := RecordCustomAttributes(md, ctx, cas[1..], g1);
      if r.Success? then
        StepTrans(CurrentKey(ctx), g, g1, r.value);
        AttributesRecordedCons(md, ctx, g1, r.value, cas);
        AttributesBoundedCons(md, ctx, g, g1, r.value, cas);
        r
      else r
  }

  // ---------------------------------------------------------------------
  // Members named by a string argument
  // ---------------------------------------------------------------------

  function FilterNamedFields(md: Meta, fs: seq<FieldId>, name: string): (r: seq<FieldId>)
    ensures forall f :: f in r <==> f in fs && md.FieldOf(f).name == name
  {
    if |fs| == 0 then []
    else (if md.FieldOf(fs[0]).name == name then [fs[0]] else []) + FilterNamedFields(md, fs[1..], name)
  }

  function FilterNamedMethods(md: Meta, ms: seq<MethodId>, name: string): (r: seq<MethodId>)
    ensures forall m :: m in r <==> m in ms && md.MethodOf(m).name == name
  {
    if |ms| == 0 then []
    else (if md.MethodOf(ms[0]).name == name then [ms[0]] else []) + FilterNamedMethods(md, ms[1..], name)
  }

  /** Records each field definition of `fs` in order. */
  function RecordFieldDefs(md: Meta, ctx: Context, fs: seq<FieldId>, g: Registry): (r: Registry)
    requires Valid(g)
    ensures Step(CurrentKey(ctx), g, r)
    ensures FieldsRecorded(ctx, g, r, set f | f in fs)
    decreases |fs|
  {
    if |fs| == 0 then g
    else
      var g1 := RecordFieldDef(md, ctx, fs[0], g);
      var r := RecordFieldDefs(md, ctx, fs[1..], g1);
      StepTrans(CurrentKey(ctx), g, g1, r);
      FieldsRecordedTrans(ctx, g, g1, r, {fs[0]}, set f | f in fs[1..]);
      ElementsCons(fs);
      r
  }

  lemma NamedFieldsSet(md: Meta, fs: seq<FieldId>, name: string)
    ensures (set f | f in FilterNamedFields(md, fs, name)) == (set f | f in fs && md.FieldOf(f).name == name)
  {
  }

  lemma NamedMethodsSet(md: Meta, ms: seq<MethodId>, name: string)
    ensures (set m | m in FilterNamedMethods(md, ms, name)) == (set m | m in ms && md.MethodOf(m).name == name)
  {
  }

  /** RecordNamedField: every field the type itself declares under the name
      (base types are not searched), and nothing else. */
  function RecordNamedField(md: Meta, ctx: Context, t: TypeId, name: string, g: Registry): (r: Registry)
    requires Valid(g)
    ensures Step(CurrentKey(ctx), g, r)
    ensures FieldsRecorded(ctx, g, r, set f | f in md.TypeOf(t).fields && md.FieldOf(f).name == name)
  {
    var fs := FilterNamedFields(md, md.TypeOf(t).fields, name);
    NamedFieldsSet(md, md.TypeOf(t).fields, name);
    RecordFieldDefs(md, ctx, fs, g)
  }

  /** RecordNamedMethod: every method the type itself declares under the
      name, overloads included, and nothing else. */
  function RecordNamedMethod(md: Meta, ctx: Context, t: TypeId, name: string, g: Registry): (r: Registry)
    requires Valid(g)
    ensures Step(CurrentKey(ctx), g, r)
    ensures MethodsRecorded(ctx, g, r, set m | m in md.TypeOf(t).methods && md.MethodOf(m).name == name)
  {
    var ms := FilterNamedMethods(md, md.TypeOf(t).methods, name);
    NamedMethodsSet(md, md.TypeOf(t).methods, name);
    RecordMethodDefs(md, ctx, ms, g)
  }

  /** The accessors present on the properties of `ps` named `name`. */
  ghost function NamedAccessors(ps: seq<PropertyDef>, name: string): set<MethodId>
    decreases |ps|
  {
    if |ps| == 0 then {}
    else
      (if ps[0].name != name then {}
       else (if ps[0].getter.Some? then {ps[0].getter.value} else {})
            + (if ps[0].setter.Some? then {ps[0].setter.value} else {}))
      + NamedAccessors(ps[1..], name)
  }

  /** A property at position `i` is named `name` and has `m` as an accessor. */
  ghost predicate AccessorAt(ps: seq<PropertyDef>, name: string, i: int, m: MethodId) {
    0 <= i < |ps| && ps[i].name == name && (ps[i].getter == Some(m) || ps[i].setter == Some(m))
  }

  /** The accessors RecordNamedProperty pulls in are exactly the getters and
      setters of the properties carrying the name. */
  lemma {:induction false} NamedAccessorsSpec(ps: seq<PropertyDef>, name: string, m: MethodId)
    ensures m in NamedAccessors(ps, name) <==> exists i :: AccessorAt(ps, name, i, m)
    decreases |ps|
  {
    if |ps| > 0 {
      NamedAccessorsSpec(ps[1..], name, m);
      if AccessorAt(ps, name, 0, m) {
        assert m in NamedAccessors(ps, name);
      }
      if m in NamedAccessors(ps[1..], name) {
        var i :| AccessorAt(ps[1..], name, i, m);
        assert AccessorAt(ps, name, i + 1, m);
      }
      if exists i :: AccessorAt(ps, name, i, m) {
        var i :| AccessorAt(ps, name, i, m);
        if i > 0 {
          assert AccessorAt(ps[1..], name, i - 1, m);
        }
      }
    }
  }

  /** RecordNamedProperty over a property list: both accessors of every
      property carrying the name, skipping an absent one. */
  function RecordNamedProperties(md: Meta, ctx: Context, ps: seq<PropertyDef>, name: string, g: Registry): (r: Registry)
    requires Valid(g)
    ensures Step(CurrentKey(ctx), g, r)
    ensures MethodsRecorded(ctx, g, r, NamedAccessors(ps, name))
    decreases |ps|
  {
    if |ps| == 0 then g
    else
      var g1 := if ps[0].name != name then g else RecordAccessor(md, ctx, ps[0].getter, g);
      var g2 := if ps[0].name != name then g1 else RecordAccessor(md, ctx, ps[0].setter, g1);
      var r := RecordNamedProperties(md, ctx, ps[1..], name, g2);
      var s1 := if ps[0].name == name && ps[0].getter.Some? then {ps[0].getter.value} else {};
      var s2 := if ps[0].name == name && ps[0].setter.Some? then {ps[0].setter.value} else {};
      StepTrans(CurrentKey(ctx), g, g1, g2);
      StepTrans(CurrentKey(ctx), g, g2, r);
      MethodsRecordedTrans(ctx, g, g1, g2, s1, s2);
      MethodsRecordedTrans(ctx, g, g2, r, s1 + s2, NamedAccessors(ps[1..], name));
      r
  }

  /** RecordNamedProperty: the accessors of the properties the type itself
      declares under the name, and nothing else. */
  function RecordNamedProperty(md: Meta, ctx: Context, t: TypeId, name: string, g: Registry): (r: Registry)
    requires Valid(g)
    ensures Step(CurrentKey(ctx), g, r)
    ensures MethodsRecorded(ctx, g, r, NamedAccessors(md.TypeOf(t).properties, name))
  {
    RecordNamedProperties(md, ctx, md.TypeOf(t).properties, name, g)
  }

  /** Every property carrying `name` has both accessors. */
  predicate AccessorsComplete(ps: seq<PropertyDef>, name: string) {
    forall i :: 0 <= i < |ps| && ps[i].name == name ==> ps[i].getter.Some? && ps[i].setter.Some?
  }

  lemma AccessorsCompleteCons(ps: seq<PropertyDef>, name: string)
    requires |ps| > 0
    ensures AccessorsComplete(ps, name) <==>
              (ps[0].name == name ==> ps[0].getter.Some? && ps[0].setter.Some?) && AccessorsComplete(ps[1..], name)
  {
    assert forall i :: 1 <= i < |ps| ==> ps[i] == ps[1..][i - 1];
  }

  /** RecordNamedProperty as the source writes it: an absent accessor is
      passed on to RecordMethod, which dereferences it and aborts the run. */
  function RecordNamedPropertiesAsWritten(md: Meta, ctx: Context, ps: seq<PropertyDef>, name: string, g: Registry): (r: Outcome)
    requires Valid(g)
    ensures r.Success? <==> AccessorsComplete(ps, name)
    ensures r.Failure? ==> r.error == NullAccessor(name)
    decreases |ps|
  {
    if |ps| == 0 then Success(g)
    else
      AccessorsCompleteCons(ps, name);
      if ps[0].name != name then RecordNamedPropertiesAsWritten(md, ctx, ps[1..], name, g)
      else if ps[0].getter.None? then Failure(NullAccessor(name))
      else
        var g1 := RecordMethodDef(md, ctx, ps[0].getter.value, g);
        if ps[0].setter.None? then Failure(NullAccessor(name))
        else
          var g2 := RecordMethodDef(md, ctx, ps[0].setter.value, g1);
          RecordNamedPropertiesAsWritten(md, ctx, ps[1..], name, g2)
  }

  /** Where every property carrying the name has both accessors, the source
      and the corrected RecordNamedProperty record the same edges. */
  lemma {:induction false} AsWrittenAgreesWhenComplete(md: Meta, ctx: Context, ps: seq<PropertyDef>, name: string, g: Registry)
    requires Valid(g)
    requires AccessorsComplete(ps, name)
    ensures RecordNamedPropertiesAsWritten(md, ctx, ps, name, g) == Success(RecordNamedProperties(md, ctx, ps, name, g))
    decreases |ps|
  {
    if |ps| > 0 {
      AccessorsCompleteCons(ps, name);
      if ps[0].name != name {
        AsWrittenAgreesWhenComplete(md, ctx, ps[1..], name, g);
      } else {
        var g2 := RecordMethodDef(md, ctx, ps[0].setter.value, RecordMethodDef(md, ctx, ps[0].getter.value, g));
        AsWrittenAgreesWhenComplete(md, ctx, ps[1..], name, g2);
      }
    }
  }

  // ---------------------------------------------------------------------
  // The two special attributes
  // ---------------------------------------------------------------------

  /** The fields of `t` declared under `name`. */
  ghost function NamedFields(md: Meta, t: TypeId, name: string): set<FieldId> {
    set f | f in md.TypeOf(t).fields && md.FieldOf(f).name == name
  }

  /** The methods of `t` declared under `name`. */
  ghost function NamedMethods(md: Meta, t: TypeId, name: string): set<MethodId> {
    set m | m in md.TypeOf(t).methods && md.MethodOf(m).name == name
  }

  /** The members a SOAP header naming `name` on a method of `t` stands
      for: the fields and the property accessors of `t` under that name
      are recorded. */
  ghost predicate SoapMembersRecorded(md: Meta, ctx: Context, g: Registry, t: TypeId, name: string) {
    && (forall f :: f in NamedFields(md, t, name) && !IsCurrentField(ctx, f) ==> HasEdge(g, CurrentKey(ctx), FieldKey(f)))
    && (forall m :: m in NamedAccessors(md.TypeOf(t).properties, name) && !IsCurrentMethod(ctx, m) ==>
          HasEdge(g, CurrentKey(ctx), MethodKey(m)))
  }

  /** The reach of RecordSoapHeader: the fields and property accessors of
      the method's declaring type named by the string argument. */
  ghost function SoapReach(md: Meta, m: MethodId, ca: CustomAttribute): Reach {
    match TryGetStringArgument(ca)
    case None => NoReach
    case Some(n) =>
      var t := md.MethodOf(m).declaringType;
      Reach({}, NamedFields(md, t, n), NamedAccessors(md.TypeOf(t).properties, n))
  }

  /** RecordSoapHeader: the attribute's string argument names fields and
      properties of the method's declaring type; without one nothing is
      recorded. Only those members gain an edge. */
  function RecordSoapHeader(md: Meta, ctx: Context, m: MethodId, ca: CustomAttribute, g: Registry): (r: Registry)
    requires Valid(g)
    ensures Step(CurrentKey(ctx), g, r)
    ensures TryGetStringArgument(ca).None? ==> r == g
    ensures TryGetStringArgument(ca).Some? ==>
              var (t, n) := (md.MethodOf(m).declaringType, TryGetStringArgument(ca).value);
              && SoapMembersRecorded(md, ctx, r, t, n)
              && NewEdgesIn(ctx, g, r, {}, NamedFields(md, t, n), NamedAccessors(md.TypeOf(t).properties, n))
    ensures Bounded(ctx, g, r, SoapReach(md, m, ca))
  {
    match TryGetStringArgument(ca)
    case None => g
    case Some(n) =>
      var t := md.MethodOf(m).declaringType;
      var g1 := RecordNamedField(md, ctx, t, n, g);
      var r := RecordNamedProperty(md, ctx, t, n, g1);
      StepTrans(CurrentKey(ctx), g, g1, r);
      var (fs, ms) := (NamedFields(md, t, n), NamedAccessors(md.TypeOf(t).properties, n));
      NewEdgesInMono(ctx, g, g1, {}, fs, {}, {}, fs, ms);
      NewEdgesInMono(ctx, g1, r, {}, {}, ms, {}, fs, ms);
      NewEdgesInTrans(ctx, g, g1, r, {}, fs, ms);
      r
  }

  /** The reach of RecordXmlSchemaProvider: the methods of the type named
      by the string argument. */
  ghost function ProviderReach(md: Meta, t: TypeId, ca: CustomAttribute): Reach {
    match TryGetStringArgument(ca)
    case None => NoReach
    case Some(n) => Reach({}, {}, NamedMethods(md, t, n))
  }

  /** RecordXmlSchemaProvider: the attribute's string argument names methods
      of the type; without one nothing is recorded. */
  function RecordXmlSchemaProvider(md: Meta, ctx: Context, t: TypeId, ca: CustomAttribute, g: Registry): (r: Registry)
    requires Valid(g)
    ensures Step(CurrentKey(ctx), g, r)
    ensures TryGetStringArgument(ca).None? ==> r == g
    ensures TryGetStringArgument(ca).Some? ==> MethodsRecorded(ctx, g, r, NamedMethods(md, t, TryGetStringArgument(ca).value))
    ensures Bounded(ctx, g, r, ProviderReach(md, t, ca))
  {
    match TryGetStringArgument(ca)
    case None => g
    case Some(n) => RecordNamedMethod(md, ctx, t, n, g)
  }

  /** The attribute's constructor is declared by the type of that full name. */
  predicate IsAttributeOf(md: Meta, ca: CustomAttribute, fullName: string) {
    FullName(md, MethodDeclaringType(md, ca.ctor)) == fullName
  }

  lemma SoapMembersGrow(md: Meta, ctx: Context, g: Registry, g': Registry, t: TypeId, n: string)
    requires Grows(g, g') && SoapMembersRecorded(md, ctx, g, t, n)
    ensures SoapMembersRecorded(md, ctx, g', t, n)
  {
  }

  /** None of the attributes from position `i` on is of the named type. */
  predicate NoneFrom(md: Meta, cas: seq<CustomAttribute>, i: nat, fullName: string) {
    forall j :: i <= j < |cas| ==> !IsAttributeOf(md, cas[j], fullName)
  }

  /** The reach of the SOAP header attributes of `cas` from position `i`. */
  ghost function SoapHeadersReach(md: Meta, m: MethodId, cas: seq<CustomAttribute>, i: nat): Reach
    decreases |cas| - i
  {
    if i >= |cas| then NoReach
    else Join(if IsAttributeOf(md, cas[i], SoapHeaderAttributeName) then SoapReach(md, m, cas[i]) else NoReach,
              SoapHeadersReach(md, m, cas, i + 1))
  }

  /** RecordMethodSpecialCustomAttributes over the attributes from position
      `i`: every SOAP header attribute with a string argument has its named
      members recorded; other attributes are ignored. */
  function RecordMethodSpecialsFrom(md: Meta, ctx: Context, m: MethodId, cas: seq<CustomAttribute>, i: nat, g: Registry): (r: Registry)
    requires Valid(g) && i <= |cas|
    ensures Step(CurrentKey(ctx), g, r)
    ensures Bounded(ctx, g, r, SoapHeadersReach(md, m, cas, i))
    ensures NoneFrom(md, cas, i, SoapHeaderAttributeName) ==> r == g
    ensures forall j :: i <= j < |cas| && IsAttributeOf(md, cas[j], SoapHeaderAttributeName)
                        && TryGetStringArgument(cas[j]).Some? ==>
              SoapMembersRecorded(md, ctx, r, md.MethodOf(m).declaringType, TryGetStringArgument(cas[j]).value)
    decreases |cas| - i
  {
    if i == |cas| then g
    else
      var g1 := if IsAttributeOf(md, cas[i], SoapHeaderAttributeName) then RecordSoapHeader(md, ctx, m, cas[i], g) else g;
      var r := RecordMethodSpecialsFrom(md, ctx, m, cas, i + 1, g1);
      StepTrans(CurrentKey(ctx), g, g1, r);
      BoundedSeq(ctx, g, g1, r, if IsAttributeOf(md, cas[i], SoapHeaderAttributeName) then SoapReach(md, m, cas[i]) else NoReach,
                 SoapHeadersReach(md, m, cas, i + 1));
      if IsAttributeOf(md, cas[i], SoapHeaderAttributeName) && TryGetStringArgument(cas[i]).Some? then
        SoapMembersGrow(md, ctx, g1, r, md.MethodOf(m).declaringType, TryGetStringArgument(cas[i]).value);
        r
      else r
  }

  /** Every SOAP header attribute of method `m` that carries a string
      argument has the members it names on the declaring type recorded. */
  ghost predicate SoapHeadersRecorded(md: Meta, ctx: Context, g: Registry, m: MethodId) {
    forall j :: 0 <= j < |md.MethodOf(m).attrs| && IsAttributeOf(md, md.MethodOf(m).attrs[j], SoapHeaderAttributeName)
                && TryGetStringArgument(md.MethodOf(m).attrs[j]).Some? ==>
      SoapMembersRecorded(md, ctx, g, md.MethodOf(m).declaringType, TryGetStringArgument(md.MethodOf(m).attrs[j]).value)
  }

  lemma SoapHeadersGrow(md: Meta, ctx: Context, g: Registry, g': Registry, m: MethodId)
    requires Grows(g, g') && SoapHeadersRecorded(md, ctx, g, m)
    ensures SoapHeadersRecorded(md, ctx, g', m)
  {
    var attrs := md.MethodOf(m).attrs;
    forall j | 0 <= j < |attrs| && IsAttributeOf(md, attrs[j], SoapHeaderAttributeName) && TryGetStringArgument(attrs[j]).Some?
      ensures SoapMembersRecorded(md, ctx, g', md.MethodOf(m).declaringType, TryGetStringArgument(attrs[j]).value)
    {
      SoapMembersGrow(md, ctx, g, g', md.MethodOf(m).declaringType, TryGetStringArgument(attrs[j]).value);
    }
  }

  /** RecordMethodSpecialCustomAttributes. */
  function RecordMethodSpecialCustomAttributes(md: Meta, ctx: Context, m: MethodId, g: Registry): (r: Registry)
    requires Valid(g)
    ensures Step(CurrentKey(ctx), g, r)
    ensures Bounded(ctx, g, r, SoapHeadersReach(md, m, md.MethodOf(m).attrs, 0))
    ensures SoapHeadersRecorded(md, ctx, r, m)
  {
    RecordMethodSpecialsFrom(md, ctx, m, md.MethodOf(m).attrs, 0, g)
  }

  /** The methods an XML schema provider naming `name` stands for are
      recorded. */
  ghost predicate ProviderMethodsRecorded(md: Meta, ctx: Context, g: Registry, t: TypeId, name: string) {
    forall m :: m in NamedMethods(md, t, name) && !IsCurrentMethod(ctx, m) ==> HasEdge(g, CurrentKey(ctx), MethodKey(m))
  }

  lemma ProviderMethodsGrow(md: Meta, ctx: Context, g: Registry, g': Registry, t: TypeId, n: string)
    requires Grows(g, g') && ProviderMethodsRecorded(md, ctx, g, t, n)
    ensures ProviderMethodsRecorded(md, ctx, g', t, n)
  {
  }

  /** The reach of the XML schema provider attributes of `cas` from position `i`. */
  ghost function ProvidersReach(md: Meta, t: TypeId, cas: seq<CustomAttribute>, i: nat): Reach
    decreases |cas| - i
  {
    if i >= |cas| then NoReach
    else Join(if IsAttributeOf(md, cas[i], XmlSchemaProviderAttributeName) then ProviderReach(md, t, cas[i]) else NoReach,
              ProvidersReach(md, t, cas, i + 1))
  }

  /** RecordTypeSpecialCustomAttributes over the attributes from position `i`. */
  function RecordTypeSpecialsFrom(md: Meta, ctx: Context, t: TypeId, cas: seq<CustomAttribute>, i: nat, g: Registry): (r: Registry)
    requires Valid(g) && i <= |cas|
    ensures Step(CurrentKey(ctx), g, r)
    ensures Bounded(ctx, g, r, ProvidersReach(md, t, cas, i))
    ensures NoneFrom(md, cas, i, XmlSchemaProviderAttributeName) ==> r == g
    ensures forall j :: i <= j < |cas| && IsAttributeOf(md, cas[j], XmlSchemaProviderAttributeName)
                        && TryGetStringArgument(cas[j]).Some? ==>
              ProviderMethodsRecorded(md, ctx, r, t, TryGetStringArgument(cas[j]).value)
    decreases |cas| - i
  {
    if i == |cas| then g
    else
      var g1 := if IsAttributeOf(md, cas[i], XmlSchemaProviderAttributeName) then RecordXmlSchemaProvider(md, ctx, t, cas[i], g) else g;
      var r := RecordTypeSpecialsFrom(md, ctx, t, cas, i + 1, g1);
      StepTrans(CurrentKey(ctx), g, g1, r);
      BoundedSeq(ctx, g, g1, r, if IsAttributeOf(md, cas[i], XmlSchemaProviderAttributeName) then ProviderReach(md, t, cas[i]) else NoReach,
                 ProvidersReach(md, t, cas, i + 1));
      if IsAttributeOf(md, cas[i], XmlSchemaProviderAttributeName) && TryGetStringArgument(cas[i]).Some? then
        ProviderMethodsGrow(md, ctx, g1, r, t, TryGetStringArgument(cas[i]).value);
        r
      else r
  }

  /** Every XML schema provider attribute of type `t` that carries a string
      argument has the methods it names on `t` recorded. */
  ghost predicate SchemaProvidersRecorded(md: Meta, ctx: Context, g: Registry, t: TypeId) {
    forall j :: 0 <= j < |md.TypeOf(t).attrs| && IsAttributeOf(md, md.TypeOf(t).attrs[j], XmlSchemaProviderAttributeName)
                && TryGetStringArgument(md.TypeOf(t).attrs[j]).Some? ==>
      ProviderMethodsRecorded(md, ctx, g, t, TryGetStringArgument(md.TypeOf(t).attrs[j]).value)
  }

  lemma SchemaProvidersGrow(md: Meta, ctx: Context, g: Registry, g': Registry, t: TypeId)
    requires Grows(g, g') && SchemaProvidersRecorded(md, ctx, g, t)
    ensures SchemaProvidersRecorded(md, ctx, g', t)
  {
    var attrs := md.TypeOf(t).attrs;
    forall j | 0 <= j < |attrs| && IsAttributeOf(md, attrs[j], XmlSchemaProviderAttributeName) && TryGetStringArgument(attrs[j]).Some?
      ensures ProviderMethodsRecorded(md, ctx, g', t, TryGetStringArgument(attrs[j]).value)
    {
      ProviderMethodsGrow(md, ctx, g, g', t, TryGetStringArgument(attrs[j]).value);
    }
  }

  /** RecordTypeSpecialCustomAttributes. */
  function RecordTypeSpecialCustomAttributes(md: Meta, ctx: Context, t: TypeId, g: Registry): (r: Registry)
    requires Valid(g)
    ensures Step(CurrentKey(ctx), g, r)
    ensures Bounded(ctx, g, r, ProvidersReach(md, t, md.TypeOf(t).attrs, 0))
    ensures SchemaProvidersRecorded(md, ctx, r, t)
  {
    RecordTypeSpecialsFrom(md, ctx, t, md.TypeOf(t).attrs, 0, g)
  }

  // ---------------------------------------------------------------------
  // A getter-only property named by a SOAP header
  // ---------------------------------------------------------------------

  /** A service type 0 with a web method 0 and a property "State" that has a
      getter (method 1) and no setter. */
  const ServiceMeta := Meta(
    [],
    map[0 := TypeDef("Svc", "svc.dll", None, None, [], [], [], [], [0, 1], [PropertyDef("State", Some(1), None)])],
    map[],
    map[0 := MethodDef("Call", 0, false, false, [], [], [], [], TRef("mscorlib", "System.Void"), [], NoMarshal, None),
        1 := MethodDef("get_State", 0, false, false, [], [], [], [], TRef("mscorlib", "System.Int32"), [], NoMarshal, None)],
    map[], map[], map[], map[])

  /** The source aborts on the getter-only property. */
  lemma GetterOnlyPropertyAborts(g: Registry)
    requires Valid(g)
    ensures RecordNamedPropertiesAsWritten(ServiceMeta, Context(0, InMethod(0)), ServiceMeta.TypeOf(0).properties, "State", g)
              == Failure(NullAccessor("State"))
  {
    var ps := ServiceMeta.TypeOf(0).properties;
    assert ps[0].name == "State" && ps[0].setter.None?;
    var r := RecordNamedPropertiesAsWritten(ServiceMeta, Context(0, InMethod(0)), ps, "State", g);
    assert r.Failure?;
  }

  /** The corrected step records the getter of the same property from the
      web method. */
  lemma GetterOnlyPropertyRecorded(g: Registry)
    requires Valid(g)
    ensures HasEdge(RecordNamedProperty(ServiceMeta, Context(0, InMethod(0)), 0, "State", g), MethodKey(0), MethodKey(1))
  {
    var ps := ServiceMeta.TypeOf(0).properties;
    assert AccessorAt(ps, "State", 0, 1);
    NamedAccessorsSpec(ps, "State", 1);
    assert 1 in NamedAccessors(ServiceMeta.TypeOf(0).properties, "State");
    assert !IsCurrentMethod(Context(0, InMethod(0)), 1);
  }
}
