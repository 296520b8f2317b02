/** The recording functions of the mark step: a type, field or method
    reference met in the current context is unwrapped, resolved to its
    definition, and recorded as an edge from the current node to the
    definition's node. A reference that does not resolve aborts the run. */
module Recording {
  import opened Wrappers
  import opened Metadata
  import opened Identity

  datatype Member = NoMember | InField(f: FieldId) | InMethod(m: MethodId)

  /** The current context: the type being processed and, inside it, the field
      or the method being processed (never both). */
  datatype Context = Context(typ: TypeId, member: Member)

  /** CurrentNode: the field if one is current, else the method, else the type. */
  function CurrentKey(ctx: Context): NodeKey {
    match ctx.member
    case InField(f) => FieldKey(f)
    case InMethod(m) => MethodKey(m)
    case NoMember => TypeKey(ctx.typ)
  }

  predicate IsCurrentMethod(ctx: Context, m: MethodId) {
    ctx.member == InMethod(m)
  }

  predicate IsCurrentField(ctx: Context, f: FieldId) {
    ctx.member == InField(f)
  }

  /** What aborts the run: a reference that does not resolve, an attribute
      argument of type System.Type whose value is not a type, and (only in
      the as-written model of a named property) a missing accessor. */
  datatype MarkError =
    | UnresolvedType(t: TypeRef)
    | UnresolvedField(f: FieldRef)
    | UnresolvedMethod(m: MethodRef)
    | InvalidCast(arg: AttrArg)
    | NullAccessor(property: string)

  type Outcome = Result<Registry, MarkError>

  // ---------------------------------------------------------------------
  // What recording a reference has to resolve and record
  // ---------------------------------------------------------------------

  /** The references RecordType resolves for `t`: the arguments of every
      generic-instance layer and the modifier type of every modifier layer,
      then the element itself unless it is a generic parameter. */
  ghost function Targets(t: TypeRef): set<TypeRef>
    decreases Size(t), 1
  {
    SpecTargets(t) + (if ElementType(t).GenericParam? then {} else {ElementType(t)})
  }

  ghost function SpecTargets(t: TypeRef): set<TypeRef>
    decreases Size(t), 0
  {
    match t
    case GenericInst(e, args) => TargetsSeq(args) + SpecTargets(e)
    case Modifier(e, m, _) => Targets(m) + SpecTargets(e)
    case ArrayOf(e) => SpecTargets(e)
    case ByRef(e) => SpecTargets(e)
    case Pointer(e) => SpecTargets(e)
    case _ => {}
  }

  ghost function TargetsSeq(ts: seq<TypeRef>): set<TypeRef>
    decreases SizeSeq(ts), 2
  {
    if |ts| == 0 then {} else Targets(ts[0]) + TargetsSeq(ts[1..])
  }

  /** The generic arguments of every generic-instance layer of a method reference. */
  ghost function MethodSpecTargets(m: MethodRef): set<TypeRef> {
    match m
    case GenericInstMethod(e, args) => TargetsSeq(args) + MethodSpecTargets(e)
    case _ => {}
  }

  ghost predicate AllResolve(md: Meta, s: set<TypeRef>) {
    forall x :: x in s ==> ResolveType(md, x).Some?
  }

  /** `x` resolves, and an edge to its definition exists unless that
      definition is the current type. */
  ghost predicate Recorded(md: Meta, ctx: Context, g: Registry, x: TypeRef) {
    match ResolveType(md, x)
    case None => false
    case Some(d) => d == ctx.typ || HasEdge(g, CurrentKey(ctx), TypeKey(d))
  }

  ghost predicate AllRecorded(md: Meta, ctx: Context, g: Registry, s: set<TypeRef>) {
    forall x :: x in s ==> Recorded(md, ctx, g, x)
  }

  lemma RecordedGrows(md: Meta, ctx: Context, g: Registry, g': Registry, s: set<TypeRef>)
    requires AllRecorded(md, ctx, g, s) && Grows(g, g')
    ensures AllRecorded(md, ctx, g', s)
  {
  }

  /** Every method of `s`, except the current method, has an edge from the
      current node. */
  ghost predicate MethodsCovered(ctx: Context, g: Registry, s: set<MethodId>) {
    forall m :: m in s && !IsCurrentMethod(ctx, m) ==> HasEdge(g, CurrentKey(ctx), MethodKey(m))
  }

  /** Every field of `s`, except the current field, has an edge from the
      current node. */
  ghost predicate FieldsCovered(ctx: Context, g: Registry, s: set<FieldId>) {
    forall f :: f in s && !IsCurrentField(ctx, f) ==> HasEdge(g, CurrentKey(ctx), FieldKey(f))
  }

  /** Every edge the current node has in `g'` it already had in `g`, or it
      leads to a type of `ts` other than the current type, to a field of
      `fs` other than the current field, or to a method of `ms` other than
      the current method. */
  ghost predicate NewEdgesIn(ctx: Context, g: Registry, g': Registry, ts: set<TypeId>, fs: set<FieldId>, ms: set<MethodId>) {
    forall k :: HasEdge(g', CurrentKey(ctx), k) ==>
      || HasEdge(g, CurrentKey(ctx), k)
      || (k.TypeKey? && k.t in ts && k.t != ctx.typ)
      || (k.FieldKey? && k.f in fs && !IsCurrentField(ctx, k.f))
      || (k.MethodKey? && k.m in ms && !IsCurrentMethod(ctx, k.m))
  }

  lemma NewEdgesInTrans(ctx: Context, a: Registry, b: Registry, c: Registry, ts: set<TypeId>, fs: set<FieldId>, ms: set<MethodId>)
    requires NewEdgesIn(ctx, a, b, ts, fs, ms) && NewEdgesIn(ctx, b, c, ts, fs, ms)
    ensures NewEdgesIn(ctx, a, c, ts, fs, ms)
  {
  }

  lemma NewEdgesInMono(ctx: Context, g: Registry, g': Registry, ts: set<TypeId>, fs: set<FieldId>, ms: set<MethodId>,
                       ts': set<TypeId>, fs': set<FieldId>, ms': set<MethodId>)
    requires NewEdgesIn(ctx, g, g', ts, fs, ms) && ts <= ts' && fs <= fs' && ms <= ms'
    ensures NewEdgesIn(ctx, g, g', ts', fs', ms')
  {
  }

  /** Two bounded steps in a row are bounded by the union of their bounds. */
  lemma NewEdgesInSeq(ctx: Context, a: Registry, b: Registry, c: Registry,
                      ts1: set<TypeId>, fs1: set<FieldId>, ms1: set<MethodId>,
                      ts2: set<TypeId>, fs2: set<FieldId>, ms2: set<MethodId>)
    requires NewEdgesIn(ctx, a, b, ts1, fs1, ms1) && NewEdgesIn(ctx, b, c, ts2, fs2, ms2)
    ensures NewEdgesIn(ctx, a, c, ts1 + ts2, fs1 + fs2, ms1 + ms2)
  {
    NewEdgesInMono(ctx, a, b, ts1, fs1, ms1, ts1 + ts2, fs1 + fs2, ms1 + ms2);
    NewEdgesInMono(ctx, b, c, ts2, fs2, ms2, ts1 + ts2, fs1 + fs2, ms1 + ms2);
    NewEdgesInTrans(ctx, a, b, c, ts1 + ts2, fs1 + fs2, ms1 + ms2);
  }

  /** The definitions, fields and methods a recording step may add edges
      to from the current node. */
  datatype Reach = Reach(types: set<TypeId>, fields: set<FieldId>, methods: set<MethodId>)

  const NoReach := Reach({}, {}, {})

  function Join(a: Reach, b: Reach): Reach {
    Reach(a.types + b.types, a.fields + b.fields, a.methods + b.methods)
  }

  /** `k` is in `R` and is not the current type, field or method. */
  ghost predicate InReach(ctx: Context, k: NodeKey, R: Reach) {
    || (k.TypeKey? && k.t in R.types && k.t != ctx.typ)
    || (k.FieldKey? && k.f in R.fields && !IsCurrentField(ctx, k.f))
    || (k.MethodKey? && k.m in R.methods && !IsCurrentMethod(ctx, k.m))
  }

  /** Every new edge of the current node between `g` and `g'` leads into `R`. */
  ghost predicate Bounded(ctx: Context, g: Registry, g': Registry, R: Reach) {
    NewEdgesIn(ctx, g, g', R.types, R.fields, R.methods)
  }

  lemma BoundedEdge(ctx: Context, g: Registry, g': Registry, R: Reach, k: NodeKey)
    requires Bounded(ctx, g, g', R) && HasEdge(g', CurrentKey(ctx), k)
    ensures HasEdge(g, CurrentKey(ctx), k) || InReach(ctx, k, R)
  {
  }

  /** After a bounded step from the current node, every edge of the graph
      is old or leaves the current node for a node of the reach. */
  lemma StepEdges(ctx: Context, g: Registry, g': Registry, R: Reach)
    requires GrowsAt(CurrentKey(ctx), g, g') && Bounded(ctx, g, g', R)
    ensures forall a, b :: HasEdge(g', a, b) ==> HasEdge(g, a, b) || (a == CurrentKey(ctx) && InReach(ctx, b, R))
  {
    forall a, b | HasEdge(g', a, b) && !HasEdge(g, a, b)
      ensures a == CurrentKey(ctx) && InReach(ctx, b, R)
    {
      BoundedEdge(ctx, g, g', R, b);
    }
  }

  /** Two bounded steps in a row are bounded by the join of their reaches. */
  lemma BoundedSeq(ctx: Context, a: Registry, b: Registry, c: Registry, r1: Reach, r2: Reach)
    requires Bounded(ctx, a, b, r1) && Bounded(ctx, b, c, r2)
    ensures Bounded(ctx, a, c, Join(r1, r2))
  {
    NewEdgesInSeq(ctx, a, b, c, r1.types, r1.fields, r1.methods, r2.types, r2.fields, r2.methods);
  }

  /** Three bounded steps are bounded by the union of their reaches. */
  lemma BoundedSeq3(ctx: Context, a: Registry, b: Registry, c: Registry, d: Registry, r1: Reach, r2: Reach, r3: Reach)
    requires Bounded(ctx, a, b, r1) && Bounded(ctx, b, c, r2) && Bounded(ctx, c, d, r3)
    ensures Bounded(ctx, a, d, Join(Join(r1, r2), r3))
  {
    BoundedSeq(ctx, a, b, c, r1, r2);
    BoundedSeq(ctx, a, c, d, Join(r1, r2), r3);
  }

  /** Four bounded steps are bounded by the union of their reaches. */
  lemma BoundedSeq4(ctx: Context, a: Registry, b: Registry, c: Registry, d: Registry, e: Registry, r1: Reach, r2: Reach, r3: Reach, r4: Reach)
    requires Bounded(ctx, a, b, r1) && Bounded(ctx, b, c, r2) && Bounded(ctx, c, d, r3) && Bounded(ctx, d, e, r4)
    ensures Bounded(ctx, a, e, Join(Join(Join(r1, r2), r3), r4))
  {
    BoundedSeq3(ctx, a, b, c, d, r1, r2, r3);
    BoundedSeq(ctx, a, d, e, Join(Join(r1, r2), r3), r4);
  }


  /** Exactly the methods of `s` (except the current method) gained an edge
      from the current node, and nothing else did. */
  ghost predicate MethodsRecorded(ctx: Context, g: Registry, g': Registry, s: set<MethodId>) {
    MethodsCovered(ctx, g', s) && NewEdgesIn(ctx, g, g', {}, {}, s)
  }

  lemma MethodsRecordedTrans(ctx: Context, a: Registry, b: Registry, c: Registry, s1: set<MethodId>, s2: set<MethodId>)
    requires MethodsRecorded(ctx, a, b, s1) && MethodsRecorded(ctx, b, c, s2) && Grows(b, c)
    ensures MethodsRecorded(ctx, a, c, s1 + s2)
  {
    NewEdgesInMono(ctx, a, b, {}, {}, s1, {}, {}, s1 + s2);
    NewEdgesInMono(ctx, b, c, {}, {}, s2, {}, {}, s1 + s2);
    NewEdgesInTrans(ctx, a, b, c, {}, {}, s1 + s2);
  }

  /** Exactly the fields of `s` (except the current field) gained an edge
      from the current node, and nothing else did. */
  ghost predicate FieldsRecorded(ctx: Context, g: Registry, g': Registry, s: set<FieldId>) {
    FieldsCovered(ctx, g', s) && NewEdgesIn(ctx, g, g', {}, s, {})
  }

  lemma FieldsRecordedTrans(ctx: Context, a: Registry, b: Registry, c: Registry, s1: set<FieldId>, s2: set<FieldId>)
    requires FieldsRecorded(ctx, a, b, s1) && FieldsRecorded(ctx, b, c, s2) && Grows(b, c)
    ensures FieldsRecorded(ctx, a, c, s1 + s2)
  {
    NewEdgesInMono(ctx, a, b, {}, s1, {}, {}, s1 + s2, {});
    NewEdgesInMono(ctx, b, c, {}, s2, {}, {}, s1 + s2, {});
    NewEdgesInTrans(ctx, a, b, c, {}, s1 + s2, {});
  }

  // ---------------------------------------------------------------------
  // Definitions
  // ---------------------------------------------------------------------

  /** The elements of a non-empty sequence: its head and those of its tail. */
  lemma ElementsCons<T>(s: seq<T>)
    requires |s| > 0
    ensures (set x | x in s) == {s[0]} + (set x | x in s[1..])
  {
    forall x | x in s ensures x == s[0] || x in s[1..] {
      var i :| 0 <= i < |s| && s[i] == x;
      if i > 0 {
        assert s[1..][i - 1] == x;
      }
    }
  }

  /** RecordMethod on a method definition: recorded unless it is the current method. */
  function RecordMethodDef(md: Meta, ctx: Context, m: MethodId, g: Registry): (r: Registry)
    requires Valid(g)
    ensures Step(CurrentKey(ctx), g, r)
    ensures MethodsRecorded(ctx, g, r, {m})
  {
    if IsCurrentMethod(ctx, m) then g
    else
      RecordRelationStep(md, CurrentKey(ctx), MethodKey(m), g);
      RecordRelation(md, CurrentKey(ctx), MethodKey(m), g).0
  }

  /** RecordField on a field definition: recorded unless it is the current field. */
  function RecordFieldDef(md: Meta, ctx: Context, f: FieldId, g: Registry): (r: Registry)
    requires Valid(g)
    ensures Step(CurrentKey(ctx), g, r)
    ensures FieldsRecorded(ctx, g, r, {f})
  {
    if IsCurrentField(ctx, f) then g
    else
      RecordRelationStep(md, CurrentKey(ctx), FieldKey(f), g);
      RecordRelation(md, CurrentKey(ctx), FieldKey(f), g).0
  }

  /** Records each method definition of `ms` in order. */
  function RecordMethodDefs(md: Meta, ctx: Context, ms: seq<MethodId>, g: Registry): (r: Registry)
    requires Valid(g)
    ensures Step(CurrentKey(ctx), g, r)
    ensures MethodsRecorded(ctx, g, r, set m | m in ms)
    decreases |ms|
  {
    if |ms| == 0 then g
    else
      var g1 := RecordMethodDef(md, ctx, ms[0], g);
      var r := RecordMethodDefs(md, ctx, ms[1..], g1);
      StepTrans(CurrentKey(ctx), g, g1, r);
      MethodsRecordedTrans(ctx, g, g1, r, {ms[0]}, set m | m in ms[1..]);
      ElementsCons(ms);
      r
  }

  // ---------------------------------------------------------------------
  // The default-constructor constraint
  // ---------------------------------------------------------------------

  /** The predicate handed to RecordMethodsIf: not static and without
      parameters. It does not ask whether the method is a constructor. */
  predicate Activatable(md: Meta, m: MethodId) {
    !md.MethodOf(m).isStatic && |md.MethodOf(m).params| == 0
  }

  function FilterActivatable(md: Meta, ms: seq<MethodId>): (r: seq<MethodId>)
    ensures forall m :: m in r <==> m in ms && Activatable(md, m)
  {
    if |ms| == 0 then []
    else (if Activatable(md, ms[0]) then [ms[0]] else []) + FilterActivatable(md, ms[1..])
  }

  /** RecordMethodsIf with the activation predicate. */
  function RecordActivatable(md: Meta, ctx: Context, ms: seq<MethodId>, g: Registry): (r: Registry)
    requires Valid(g)
    ensures Step(CurrentKey(ctx), g, r)
    ensures MethodsRecorded(ctx, g, r, set m | m in ms && Activatable(md, m))
  {
    var fs := FilterActivatable(md, ms);
    assert (set m | m in fs) == (set m | m in ms && Activatable(md, m));
    RecordMethodDefs(md, ctx, fs, g)
  }

  /** The methods the constraint pulls in from argument `i` onwards. */
  ghost function CtorTargetsFrom(md: Meta, args: seq<TypeRef>, ps: seq<GenericParamDef>, i: nat): set<MethodId>
    requires |args| == |ps| && i <= |args|
    decreases |args| - i
  {
    if i == |args| then {}
    else
      (if ps[i].defaultCtorConstraint && ResolveType(md, args[i]).Some?
       then set m | m in md.TypeOf(ResolveType(md, args[i]).value).methods && Activatable(md, m)
       else {})
      + CtorTargetsFrom(md, args, ps, i + 1)
  }

  ghost function CtorTargets(md: Meta, args: seq<TypeRef>, params: Option<seq<GenericParamDef>>): set<MethodId> {
    if params.None? || |args| != |params.value| then {} else CtorTargetsFrom(md, args, params.value, 0)
  }

  /** Argument `i` is bound to a parameter with the default-constructor
      constraint, resolves, and declares `m`, which is non-static and
      parameterless. */
  ghost predicate CtorTargetAt(md: Meta, args: seq<TypeRef>, ps: seq<GenericParamDef>, i: int, m: MethodId)
    requires |args| == |ps|
  {
    && 0 <= i < |args|
    && ps[i].defaultCtorConstraint
    && ResolveType(md, args[i]).Some?
    && m in md.TypeOf(ResolveType(md, args[i]).value).methods
    && Activatable(md, m)
  }

  lemma {:induction false} CtorTargetsFromSpec(md: Meta, args: seq<TypeRef>, ps: seq<GenericParamDef>, i: nat, m: MethodId)
    requires |args| == |ps| && i <= |args|
    ensures m in CtorTargetsFrom(md, args, ps, i) <==> exists j :: i <= j && CtorTargetAt(md, args, ps, j, m)
    decreases |args| - i
  {
    if i < |args| {
      CtorTargetsFromSpec(md, args, ps, i + 1, m);
      if CtorTargetAt(md, args, ps, i, m) {
        assert m in CtorTargetsFrom(md, args, ps, i);
      }
      if exists j :: i <= j && CtorTargetAt(md, args, ps, j, m) {
        var j :| i <= j && CtorTargetAt(md, args, ps, j, m);
        if j > i {
          assert exists j' :: i + 1 <= j' && CtorTargetAt(md, args, ps, j', m);
        }
      }
    }
  }

  /** The default-constructor rule as a whole: a method is pulled in exactly
      when the instance has as many arguments as the definition has generic
      parameters and some argument, bound to a constrained parameter,
      resolves to a type declaring that method non-static and parameterless. */
  lemma CtorTargetsSpec(md: Meta, args: seq<TypeRef>, params: Option<seq<GenericParamDef>>, m: MethodId)
    ensures m in CtorTargets(md, args, params) <==>
              params.Some? && |args| == |params.value| && exists i :: CtorTargetAt(md, args, params.value, i, m)
  {
    if params.Some? && |args| == |params.value| {
      CtorTargetsFromSpec(md, args, params.value, 0, m);
    }
  }

  function RecordCtorsFrom(md: Meta, ctx: Context, args: seq<TypeRef>, ps: seq<GenericParamDef>, i: nat, g: Registry): (r: Registry)
    requires |args| == |ps| && i <= |args| && Valid(g)
    ensures Step(CurrentKey(ctx), g, r)
    ensures MethodsRecorded(ctx, g, r, CtorTargetsFrom(md, args, ps, i))
    decreases |args| - i
  {
    if i == |args| then g
    else
      var g1 :=
        if !ps[i].defaultCtorConstraint then g
        else match ResolveType(md, args[i])
          case None => g
          case Some(d) => RecordActivatable(md, ctx, md.TypeOf(d).methods, g);
      var r := RecordCtorsFrom(md, ctx, args, ps, i + 1, g1);
      StepTrans(CurrentKey(ctx), g, g1, r);
      MethodsRecordedTrans(ctx, g, g1, r,
        if ps[i].defaultCtorConstraint && ResolveType(md, args[i]).Some?
        then set m | m in md.TypeOf(ResolveType(md, args[i]).value).methods && Activatable(md, m)
        else {},
        CtorTargetsFrom(md, args, ps, i + 1));
      r
  }

  /** RecordGenericArgumentConstructors: `params` are the generic parameters
      of the instance's definition, absent when it does not resolve. */
  function RecordGenericArgumentConstructors(md: Meta, ctx: Context, args: seq<TypeRef>,
                                             params: Option<seq<GenericParamDef>>, g: Registry): (r: Registry)
    requires Valid(g)
    ensures Step(CurrentKey(ctx), g, r)
    ensures params.None? || |args| != |params.value| ==> r == g
    ensures MethodsRecorded(ctx, g, r, CtorTargets(md, args, params))
  {
    if params.None? || |args| != |params.value| then g
    else RecordCtorsFrom(md, ctx, args, params.value, 0, g)
  }

  /** The constructors the default-constructor constraint pulls in while
      RecordType walks `t`: those of every generic-instance layer, of the
      instances among its arguments and of its modifier types. */
  ghost function Ctors(md: Meta, t: TypeRef): set<MethodId>
    decreases Size(t), 0
  {
    match t
    case GenericInst(e, args) => CtorsSeq(md, args) + CtorTargets(md, args, TypeInstanceParams(md, e)) + Ctors(md, e)
    case Modifier(e, m, _) => Ctors(md, m) + Ctors(md, e)
    case ArrayOf(e) => Ctors(md, e)
    case ByRef(e) => Ctors(md, e)
    case Pointer(e) => Ctors(md, e)
    case _ => {}
  }

  ghost function CtorsSeq(md: Meta, ts: seq<TypeRef>): set<MethodId>
    decreases SizeSeq(ts), 1
  {
    if |ts| == 0 then {} else Ctors(md, ts[0]) + CtorsSeq(md, ts[1..])
  }

  /** The constructors pulled in by the generic-instance layers of a method
      reference. */
  ghost function MethodCtors(md: Meta, m: MethodRef): set<MethodId> {
    match m
    case GenericInstMethod(e, args) => CtorsSeq(md, args) + CtorTargets(md, args, MethodInstanceParams(md, e)) + MethodCtors(md, e)
    case _ => {}
  }

  /** The definitions the references of `s` resolve to. */
  ghost function Defs(md: Meta, s: set<TypeRef>): set<TypeId> {
    set x | x in s && ResolveType(md, x).Some? :: ResolveType(md, x).value
  }

  lemma DefsUnion(md: Meta, a: set<TypeRef>, b: set<TypeRef>)
    ensures Defs(md, a + b) == Defs(md, a) + Defs(md, b)
  {
  }

  /** `t` is recorded: every reference RecordType resolves for it has its
      definition recorded, and so has every constructor the
      default-constructor constraint pulls in. */
  ghost predicate TypeRecorded(md: Meta, ctx: Context, g: Registry, t: TypeRef) {
    AllRecorded(md, ctx, g, Targets(t)) && MethodsCovered(ctx, g, Ctors(md, t))
  }

  /** Every type of `ts` is recorded. */
  ghost predicate TypesRecorded(md: Meta, ctx: Context, g: Registry, ts: seq<TypeRef>) {
    AllRecorded(md, ctx, g, TargetsSeq(ts)) && MethodsCovered(ctx, g, CtorsSeq(md, ts))
  }

  lemma TypeRecordedGrows(md: Meta, ctx: Context, g: Registry, g': Registry, t: TypeRef)
    requires Grows(g, g') && TypeRecorded(md, ctx, g, t)
    ensures TypeRecorded(md, ctx, g', t)
  {
    RecordedGrows(md, ctx, g, g', Targets(t));
  }

  lemma TypesRecordedGrows(md: Meta, ctx: Context, g: Registry, g': Registry, ts: seq<TypeRef>)
    requires Grows(g, g') && TypesRecorded(md, ctx, g, ts)
    ensures TypesRecorded(md, ctx, g', ts)
  {
    RecordedGrows(md, ctx, g, g', TargetsSeq(ts));
  }

  // ---------------------------------------------------------------------
  // Type references
  // ---------------------------------------------------------------------

  /** RecordType: unwrap the specification layers, skip a generic parameter,
      resolve the element (fatal if it does not resolve) and record it unless
      it is the current type. The current node gains edges to exactly the
      definitions of the references met on the way and the constructors the
      default-constructor constraint pulls in, and to nothing else. */
  function RecordType(md: Meta, ctx: Context, t: TypeRef, g: Registry): (r: Outcome)
    requires Valid(g)
    ensures r.Success? ==> Step(CurrentKey(ctx), g, r.value) && TypeRecorded(md, ctx, r.value, t)
    ensures r.Success? ==> NewEdgesIn(ctx, g, r.value, Defs(md, Targets(t)), {}, Ctors(md, t))
    ensures r.Success? <==> AllResolve(md, Targets(t))
    ensures r.Failure? ==> r.error.UnresolvedType? && r.error.t in Targets(t) && ResolveType(md, r.error.t).None?
    decreases Size(t), 2
  {
    var x :- RecordOriginalType(md, ctx, t, g);
    var (e, g1) := x;
    DefsUnion(md, SpecTargets(t), if e.GenericParam? then {} else {e});
    NewEdgesInMono(ctx, g, g1, Defs(md, SpecTargets(t)), {}, Ctors(md, t), Defs(md, Targets(t)), {}, Ctors(md, t));
    if e.GenericParam? then Success(g1)
    else
      match ResolveType(md, e)
      case None => Failure(UnresolvedType(e))
      case Some(d) =>
        if d == ctx.typ then Success(g1)
        else
          RecordRelationStep(md, CurrentKey(ctx), TypeKey(d), g1);
          var g2 := RecordRelation(md, CurrentKey(ctx), TypeKey(d), g1).0;
          assert d in Defs(md, {e});
          assert NewEdgesIn(ctx, g1, g2, Defs(md, Targets(t)), {}, Ctors(md, t));
          NewEdgesInTrans(ctx, g, g1, g2, Defs(md, Targets(t)), {}, Ctors(md, t));
          RecordedGrows(md, ctx, g1, g2, SpecTargets(t));
          StepTrans(CurrentKey(ctx), g, g1, g2);
          Success(g2)
  }

  /** RecordType of a reference that may be null: null records nothing. */
  function RecordOptionalType(md: Meta, ctx: Context, t: Option<TypeRef>, g: Registry): (r: Outcome)
    requires Valid(g)
    ensures t.None? ==> r == Success(g)
    ensures t.Some? ==> r == RecordType(md, ctx, t.value, g)
    ensures r.Success? ==> Bounded(ctx, g, r.value, OptTypeReach(md, t))
  {
    if t.None? then Success(g) else RecordType(md, ctx, t.value, g)
  }

  /** The references and the constructors of a specification layer are those
      of its own arguments or modifier type and those of its element. */
  lemma LayerParts(md: Meta, t: TypeRef)
    requires t.IsSpec()
    ensures SpecTargets(t) == (if t.GenericInst? then TargetsSeq(t.args) else {})
                              + (if t.Modifier? then Targets(t.modType) else {}) + SpecTargets(t.elem)
    ensures Ctors(md, t) == (if t.GenericInst? then CtorsSeq(md, t.args) + CtorTargets(md, t.args, TypeInstanceParams(md, t.elem)) else {})
                            + (if t.Modifier? then Ctors(md, t.modType) else {}) + Ctors(md, t.elem)
  {
  }

  /** RecordOriginalType: peel the specification layers, recording the
      arguments of every generic instance and the modifier type of every
      modifier, and return the element. */
  function RecordOriginalType(md: Meta, ctx: Context, t: TypeRef, g: Registry): (r: Result<(TypeRef, Registry), MarkError>)
    requires Valid(g)
    ensures r.Success? ==> r.value.0 == ElementType(t) && !r.value.0.IsSpec()
    ensures r.Success? ==> Step(CurrentKey(ctx), g, r.value.1) && AllRecorded(md, ctx, r.value.1, SpecTargets(t))
    ensures r.Success? ==> MethodsCovered(ctx, r.value.1, Ctors(md, t))
    ensures r.Success? ==> NewEdgesIn(ctx, g, r.value.1, Defs(md, SpecTargets(t)), {}, Ctors(md, t))
    ensures r.Success? <==> AllResolve(md, SpecTargets(t))
    ensures r.Failure? ==> r.error.UnresolvedType? && r.error.t in SpecTargets(t) && ResolveType(md, r.error.t).None?
    decreases Size(t), 1
  {
    if !t.IsSpec() then Success((t, g))
    else
      var g1 :- if t.GenericInst? then RecordGenericArguments(md, ctx, t.args, TypeInstanceParams(md, t.elem), g)
                else Success(g);
      var g2 :- if t.Modifier? then RecordType(md, ctx, t.modType, g1) else Success(g1);
      var r := RecordOriginalType(md, ctx, t.elem, g2);
      if r.Success? then
        OriginalTypeLayer(md, ctx, t, g, g1, g2, r.value.1);
        r
      else r
  }

  /** The bookkeeping of one layer of RecordOriginalType: what the layer's
      own arguments or modifier type recorded, followed by what its element
      recorded, is what the layer promises. */
  lemma OriginalTypeLayer(md: Meta, ctx: Context, t: TypeRef, g: Registry, g1: Registry, g2: Registry, g3: Registry)
    requires t.IsSpec()
    requires Step(CurrentKey(ctx), g, g1) && Step(CurrentKey(ctx), g1, g2) && Step(CurrentKey(ctx), g2, g3)
    requires t.GenericInst? ==>
               && TypesRecorded(md, ctx, g1, t.args)
               && MethodsCovered(ctx, g1, CtorTargets(md, t.args, TypeInstanceParams(md, t.elem)))
               && NewEdgesIn(ctx, g, g1, Defs(md, TargetsSeq(t.args)), {},
                             CtorsSeq(md, t.args) + CtorTargets(md, t.args, TypeInstanceParams(md, t.elem)))
    requires !t.GenericInst? ==> g1 == g
    requires t.Modifier? ==> TypeRecorded(md, ctx, g2, t.modType)
                             && NewEdgesIn(ctx, g1, g2, Defs(md, Targets(t.modType)), {}, Ctors(md, t.modType))
    requires !t.Modifier? ==> g2 == g1
    requires AllRecorded(md, ctx, g3, SpecTargets(t.elem)) && MethodsCovered(ctx, g3, Ctors(md, t.elem))
    requires NewEdgesIn(ctx, g2, g3, Defs(md, SpecTargets(t.elem)), {}, Ctors(md, t.elem))
    ensures Step(CurrentKey(ctx), g, g3) && AllRecorded(md, ctx, g3, SpecTargets(t))
    ensures MethodsCovered(ctx, g3, Ctors(md, t))
    ensures NewEdgesIn(ctx, g, g3, Defs(md, SpecTargets(t)), {}, Ctors(md, t))
  {
    LayerParts(md, t);
    var a := if t.GenericInst? then TargetsSeq(t.args) else {};
    var b := if t.Modifier? then Targets(t.modType) else {};
    DefsUnion(md, a, b);
    DefsUnion(md, a + b, SpecTargets(t.elem));
    var ts := Defs(md, SpecTargets(t));
    var ms := Ctors(md, t);
    StepTrans(CurrentKey(ctx), g, g1, g2);
    StepTrans(CurrentKey(ctx), g, g2, g3);
    if t.GenericInst? {
      RecordedGrows(md, ctx, g1, g3, TargetsSeq(t.args));
      NewEdgesInMono(ctx, g, g1, Defs(md, TargetsSeq(t.args)), {},
                     CtorsSeq(md, t.args) + CtorTargets(md, t.args, TypeInstanceParams(md, t.elem)), ts, {}, ms);
    }
    if t.Modifier? {
      RecordedGrows(md, ctx, g2, g3, Targets(t.modType));
      NewEdgesInMono(ctx, g1, g2, Defs(md, Targets(t.modType)), {}, Ctors(md, t.modType), ts, {}, ms);
    }
    NewEdgesInMono(ctx, g2, g3, Defs(md, SpecTargets(t.elem)), {}, Ctors(md, t.elem), ts, {}, ms);
    NewEdgesInTrans(ctx, g, g1, g2, ts, {}, ms);
    NewEdgesInTrans(ctx, g, g2, g3, ts, {}, ms);
  }

  /** RecordGenericArguments: every argument, then the constructors the
      default-constructor constraint asks for. */
  function RecordGenericArguments(md: Meta, ctx: Context, args: seq<TypeRef>,
                                  params: Option<seq<GenericParamDef>>, g: Registry): (r: Outcome)
    requires Valid(g)
    ensures r.Success? ==> Step(CurrentKey(ctx), g, r.value) && TypesRecorded(md, ctx, r.value, args)
    ensures r.Success? ==> MethodsCovered(ctx, r.value, CtorTargets(md, args, params))
    ensures r.Success? ==> NewEdgesIn(ctx, g, r.value, Defs(md, TargetsSeq(args)), {}, CtorsSeq(md, args) + CtorTargets(md, args, params))
    ensures r.Success? <==> AllResolve(md, TargetsSeq(args))
    ensures r.Failure? ==> r.error.UnresolvedType? && r.error.t in TargetsSeq(args) && ResolveType(md, r.error.t).None?
    decreases SizeSeq(args), 1
  {
    var g1 :- RecordTypes(md, ctx, args, g);
    var g2 := RecordGenericArgumentConstructors(md, ctx, args, params, g1);
    TypesRecordedGrows(md, ctx, g1, g2, args);
    var ms := CtorsSeq(md, args) + CtorTargets(md, args, params);
    NewEdgesInMono(ctx, g, g1, Defs(md, TargetsSeq(args)), {}, CtorsSeq(md, args), Defs(md, TargetsSeq(args)), {}, ms);
    NewEdgesInMono(ctx, g1, g2, {}, {}, CtorTargets(md, args, params), Defs(md, TargetsSeq(args)), {}, ms);
    NewEdgesInTrans(ctx, g, g1, g2, Defs(md, TargetsSeq(args)), {}, ms);
    StepTrans(CurrentKey(ctx), g, g1, g2);
    Success(g2)
  }

  /** The reach of RecordType on `t`: the definitions of its targets and
      the constructors it pulls in. */
  ghost function TypeReach(md: Meta, t: TypeRef): Reach {
    Reach(Defs(md, Targets(t)), {}, Ctors(md, t))
  }

  ghost function OptTypeReach(md: Meta, t: Option<TypeRef>): Reach {
    if t.Some? then TypeReach(md, t.value) else NoReach
  }

  /** The reach of RecordTypes on `ts`. */
  ghost function TypesReach(md: Meta, ts: seq<TypeRef>): Reach {
    Reach(Defs(md, TargetsSeq(ts)), {}, CtorsSeq(md, ts))
  }

  /** Records each type of `ts` in order, stopping at the first failure. */
  function RecordTypes(md: Meta, ctx: Context, ts: seq<TypeRef>, g: Registry): (r: Outcome)
    requires Valid(g)
    ensures r.Success? ==> Step(CurrentKey(ctx), g, r.value) && TypesRecorded(md, ctx, r.value, ts)
    ensures r.Success? ==> NewEdgesIn(ctx, g, r.value, Defs(md, TargetsSeq(ts)), {}, CtorsSeq(md, ts))
    ensures r.Success? <==> AllResolve(md, TargetsSeq(ts))
    ensures r.Failure? ==> r.error.UnresolvedType? && r.error.t in TargetsSeq(ts) && ResolveType(md, r.error.t).None?
    decreases SizeSeq(ts), 0
  {
    if |ts| == 0 then Success(g)
    else
      var g1 :- RecordType(md, ctx, ts[0], g);
      var r := RecordTypes(md, ctx, ts[1..], g1);
      if r.Success? then
        TypesCons(md, ctx, ts, g, g1, r.value);
        r
      else r
  }

  /** The bookkeeping of one step of RecordTypes. */
  lemma TypesCons(md: Meta, ctx: Context, ts: seq<TypeRef>, g: Registry, g1: Registry, g2: Registry)
    requires |ts| > 0
    requires Step(CurrentKey(ctx), g, g1) && TypeRecorded(md, ctx, g1, ts[0])
    requires NewEdgesIn(ctx, g, g1, Defs(md, Targets(ts[0])), {}, Ctors(md, ts[0]))
    requires Step(CurrentKey(ctx), g1, g2) && TypesRecorded(md, ctx, g2, ts[1..])
    requires NewEdgesIn(ctx, g1, g2, Defs(md, TargetsSeq(ts[1..])), {}, CtorsSeq(md, ts[1..]))
    ensures Step(CurrentKey(ctx), g, g2) && TypesRecorded(md, ctx, g2, ts)
    ensures NewEdgesIn(ctx, g, g2, Defs(md, TargetsSeq(ts)), {}, CtorsSeq(md, ts))
  {
    TypeRecordedGrows(md, ctx, g1, g2, ts[0]);
    DefsUnion(md, Targets(ts[0]), TargetsSeq(ts[1..]));
    var d := Defs(md, TargetsSeq(ts));
    NewEdgesInMono(ctx, g, g1, Defs(md, Targets(ts[0])), {}, Ctors(md, ts[0]), d, {}, CtorsSeq(md, ts));
    NewEdgesInMono(ctx, g1, g2, Defs(md, TargetsSeq(ts[1..])), {}, CtorsSeq(md, ts[1..]), d, {}, CtorsSeq(md, ts));
    NewEdgesInTrans(ctx, g, g1, g2, d, {}, CtorsSeq(md, ts));
    StepTrans(CurrentKey(ctx), g, g1, g2);
  }

  // ---------------------------------------------------------------------
  // Field and method references
  // ---------------------------------------------------------------------

  /** The field reference's declaring type is a generic instance (then it is
      recorded before the field is resolved). */
  predicate HasGenericOwner(f: FieldRef) {
    f.FRef? && f.declaringType.GenericInst?
  }

  /** Everything RecordField needs to resolve does. */
  ghost predicate FieldResolves(md: Meta, f: FieldRef) {
    && (HasGenericOwner(f) ==> AllResolve(md, Targets(f.declaringType)))
    && ResolveField(md, f).Some?
  }

  /** What RecordField records: a generic declaring type, and the field the
      reference resolves to unless it is the current field. */
  ghost predicate FieldRefRecorded(md: Meta, ctx: Context, g: Registry, f: FieldRef) {
    && (HasGenericOwner(f) ==> TypeRecorded(md, ctx, g, f.declaringType))
    && ResolveField(md, f).Some?
    && FieldsCovered(ctx, g, {ResolveField(md, f).value})
  }

  lemma FieldRefRecordedGrows(md: Meta, ctx: Context, g: Registry, g': Registry, f: FieldRef)
    requires Grows(g, g') && FieldRefRecorded(md, ctx, g, f)
    ensures FieldRefRecorded(md, ctx, g', f)
  {
    if HasGenericOwner(f) {
      TypeRecordedGrows(md, ctx, g, g', f.declaringType);
    }
  }

  /** The definitions a generic declaring type of `f` resolves to. */
  ghost function FieldOwnerDefs(md: Meta, f: FieldRef): set<TypeId> {
    if HasGenericOwner(f) then Defs(md, Targets(f.declaringType)) else {}
  }

  /** The constructors a generic declaring type of `f` pulls in. */
  ghost function FieldOwnerCtors(md: Meta, f: FieldRef): set<MethodId> {
    if HasGenericOwner(f) then Ctors(md, f.declaringType) else {}
  }

  /** The field `f` resolves to, if any. */
  ghost function FieldTarget(md: Meta, f: FieldRef): set<FieldId> {
    match ResolveField(md, f)
    case Some(d) => {d}
    case None => {}
  }

  /** The only new edges of the current node between `g` and `g'` are those
      RecordField may add for `f`. */
  ghost predicate FieldRefBounded(md: Meta, ctx: Context, g: Registry, g': Registry, f: FieldRef) {
    Bounded(ctx, g, g', FieldRefReach(md, f))
  }

  ghost function FieldRefReach(md: Meta, f: FieldRef): Reach {
    Reach(FieldOwnerDefs(md, f), FieldTarget(md, f), FieldOwnerCtors(md, f))
  }

  /** Bookkeeping for RecordField: the two steps together stay in its bound. */
  lemma FieldRefSteps(md: Meta, ctx: Context, f: FieldRef, d: FieldId, g: Registry, g1: Registry, g2: Registry)
    requires ResolveField(md, f) == Some(d)
    requires HasGenericOwner(f) ==> NewEdgesIn(ctx, g, g1, Defs(md, Targets(f.declaringType)), {}, Ctors(md, f.declaringType))
    requires !HasGenericOwner(f) ==> g1 == g
    requires FieldsRecorded(ctx, g1, g2, {d})
    ensures FieldRefBounded(md, ctx, g, g2, f)
  {
    NewEdgesInSeq(ctx, g, g1, g2, FieldOwnerDefs(md, f), {}, FieldOwnerCtors(md, f), {}, {d}, {});
  }

  /** RecordField: record a generic declaring type, resolve the field (fatal
      if it does not resolve) and record it unless it is the current field. */
  function RecordField(md: Meta, ctx: Context, f: FieldRef, g: Registry): (r: Outcome)
    requires Valid(g)
    ensures r.Success? <==> FieldResolves(md, f)
    ensures ResolveField(md, f).None? ==> r.Failure?
    ensures r.Success? ==> Step(CurrentKey(ctx), g, r.value) && FieldRefRecorded(md, ctx, r.value, f)
    ensures r.Success? ==> FieldRefBounded(md, ctx, g, r.value, f)
  {
    var g1 :- if HasGenericOwner(f) then RecordType(md, ctx, f.declaringType, g) else Success(g);
    match ResolveField(md, f)
    case None => Failure(UnresolvedField(f))
    case Some(d) =>
      var g2 := RecordFieldDef(md, ctx, d, g1);
      FieldRefSteps(md, ctx, f, d, g, g1, g2);
      if HasGenericOwner(f) then
        TypeRecordedGrows(md, ctx, g1, g2, f.declaringType);
        StepTrans(CurrentKey(ctx), g, g1, g2);
        Success(g2)
      else Success(g2)
  }

  /** The generic arguments of every generic-instance layer of a method
      reference, and the constructors their constraints pull in, are
      recorded. */
  ghost predicate MethodSpecRecorded(md: Meta, ctx: Context, g: Registry, m: MethodRef) {
    AllRecorded(md, ctx, g, MethodSpecTargets(m)) && MethodsCovered(ctx, g, MethodCtors(md, m))
  }

  /** Bookkeeping for GetOriginalMethod: the arguments of the outer layer
      and the layers below stay in the bound of the whole reference. */
  lemma OriginalSteps(md: Meta, ctx: Context, m: MethodRef, g: Registry, g1: Registry, g2: Registry)
    requires m.GenericInstMethod?
    requires NewEdgesIn(ctx, g, g1, Defs(md, TargetsSeq(m.args)), {},
                        CtorsSeq(md, m.args) + CtorTargets(md, m.args, MethodInstanceParams(md, m.elem)))
    requires NewEdgesIn(ctx, g1, g2, Defs(md, MethodSpecTargets(m.elem)), {}, MethodCtors(md, m.elem))
    ensures NewEdgesIn(ctx, g, g2, Defs(md, MethodSpecTargets(m)), {}, MethodCtors(md, m))
  {
    DefsUnion(md, TargetsSeq(m.args), MethodSpecTargets(m.elem));
    NewEdgesInSeq(ctx, g, g1, g2, Defs(md, TargetsSeq(m.args)), {},
                  CtorsSeq(md, m.args) + CtorTargets(md, m.args, MethodInstanceParams(md, m.elem)),
                  Defs(md, MethodSpecTargets(m.elem)), {}, MethodCtors(md, m.elem));
  }

  /** GetOriginalMethod: peel the generic-instance layers of a method
      reference, recording the arguments of each. */
  function GetOriginalMethod(md: Meta, ctx: Context, m: MethodRef, g: Registry): (r: Result<(MethodRef, Registry), MarkError>)
    requires Valid(g)
    ensures r.Success? ==> r.value.0 == OriginalMethod(m)
    ensures r.Success? ==> Step(CurrentKey(ctx), g, r.value.1) && MethodSpecRecorded(md, ctx, r.value.1, m)
    ensures r.Success? ==> NewEdgesIn(ctx, g, r.value.1, Defs(md, MethodSpecTargets(m)), {}, MethodCtors(md, m))
    ensures r.Success? <==> AllResolve(md, MethodSpecTargets(m))
  {
    if !m.GenericInstMethod? then Success((m, g))
    else
      var g1 :- RecordGenericArguments(md, ctx, m.args, MethodInstanceParams(md, m.elem), g);
      var r := GetOriginalMethod(md, ctx, m.elem, g1);
      if r.Success? then
        TypesRecordedGrows(md, ctx, g1, r.value.1, m.args);
        StepTrans(CurrentKey(ctx), g, g1, r.value.1);
        OriginalSteps(md, ctx, m, g, g1, r.value.1);
        r
      else r
  }

  /** The declaring type of the method a reference stands for. */
  function OwnerOf(md: Meta, m: MethodRef): TypeRef {
    MethodDeclaringType(md, OriginalMethod(m))
  }

  /** Everything RecordMethod needs to resolve does; a method on an array
      type is never resolved. */
  ghost predicate MethodResolves(md: Meta, m: MethodRef) {
    && AllResolve(md, MethodSpecTargets(m))
    && (!OwnerOf(md, m).ArrayOf? ==>
          && (OwnerOf(md, m).GenericInst? ==> AllResolve(md, Targets(OwnerOf(md, m))))
          && ResolveMethod(md, OriginalMethod(m)).Some?)
  }

  /** What RecordMethod records: the generic-instance layers; then, unless
      the method is declared on an array type, a generic declaring type and
      the method the reference resolves to unless it is the current method. */
  ghost predicate MethodRefRecorded(md: Meta, ctx: Context, g: Registry, m: MethodRef) {
    && MethodSpecRecorded(md, ctx, g, m)
    && (!OwnerOf(md, m).ArrayOf? ==>
          && (OwnerOf(md, m).GenericInst? ==> TypeRecorded(md, ctx, g, OwnerOf(md, m)))
          && ResolveMethod(md, OriginalMethod(m)).Some?
          && MethodsCovered(ctx, g, {ResolveMethod(md, OriginalMethod(m)).value}))
  }

  lemma MethodRefRecordedGrows(md: Meta, ctx: Context, g: Registry, g': Registry, m: MethodRef)
    requires Grows(g, g') && MethodRefRecorded(md, ctx, g, m)
    ensures MethodRefRecorded(md, ctx, g', m)
  {
    RecordedGrows(md, ctx, g, g', MethodSpecTargets(m));
    if !OwnerOf(md, m).ArrayOf? && OwnerOf(md, m).GenericInst? {
      TypeRecordedGrows(md, ctx, g, g', OwnerOf(md, m));
    }
  }

  /** The definitions RecordMethod may add edges to for `m`: those of the
      generic arguments of every layer and of a generic declaring type. */
  ghost function MethodRefTypes(md: Meta, m: MethodRef): set<TypeId> {
    Defs(md, MethodSpecTargets(m))
    + (if OwnerOf(md, m).GenericInst? then Defs(md, Targets(OwnerOf(md, m))) else {})
  }

  /** The methods RecordMethod may add edges to for `m`: the constructors
      the layers and a generic declaring type pull in, and, unless the
      method is declared on an array type, the method `m` resolves to. */
  ghost function MethodRefMethods(md: Meta, m: MethodRef): set<MethodId> {
    MethodCtors(md, m)
    + (if OwnerOf(md, m).GenericInst? then Ctors(md, OwnerOf(md, m)) else {})
    + (if !OwnerOf(md, m).ArrayOf? && ResolveMethod(md, OriginalMethod(m)).Some?
       then {ResolveMethod(md, OriginalMethod(m)).value} else {})
  }

  /** The only new edges of the current node between `g` and `g'` are those
      RecordMethod may add for `m`. */
  ghost predicate MethodRefBounded(md: Meta, ctx: Context, g: Registry, g': Registry, m: MethodRef) {
    Bounded(ctx, g, g', MethodRefReach(md, m))
  }

  ghost function MethodRefReach(md: Meta, m: MethodRef): Reach {
    Reach(MethodRefTypes(md, m), {}, MethodRefMethods(md, m))
  }

  /** Bookkeeping for RecordMethod on an array type: only the layers. */
  lemma MethodRefArrayBound(md: Meta, ctx: Context, m: MethodRef, g: Registry, g1: Registry)
    requires NewEdgesIn(ctx, g, g1, Defs(md, MethodSpecTargets(m)), {}, MethodCtors(md, m))
    ensures MethodRefBounded(md, ctx, g, g1, m)
  {
    NewEdgesInMono(ctx, g, g1, Defs(md, MethodSpecTargets(m)), {}, MethodCtors(md, m),
                   MethodRefTypes(md, m), {}, MethodRefMethods(md, m));
  }

  /** Bookkeeping for RecordMethod: layers, declaring type and method
      together stay in its bound. */
  lemma MethodRefSteps(md: Meta, ctx: Context, m: MethodRef, d: MethodId, g: Registry, g1: Registry, g2: Registry, g3: Registry)
    requires !OwnerOf(md, m).ArrayOf? && ResolveMethod(md, OriginalMethod(m)) == Some(d)
    requires NewEdgesIn(ctx, g, g1, Defs(md, MethodSpecTargets(m)), {}, MethodCtors(md, m))
    requires OwnerOf(md, m).GenericInst? ==>
               NewEdgesIn(ctx, g1, g2, Defs(md, Targets(OwnerOf(md, m))), {}, Ctors(md, OwnerOf(md, m)))
    requires !OwnerOf(md, m).GenericInst? ==> g2 == g1
    requires MethodsRecorded(ctx, g2, g3, {d})
    ensures MethodRefBounded(md, ctx, g, g3, m)
  {
    var ts := if OwnerOf(md, m).GenericInst? then Defs(md, Targets(OwnerOf(md, m))) else {};
    var ms := if OwnerOf(md, m).GenericInst? then Ctors(md, OwnerOf(md, m)) else {};
    NewEdgesInSeq(ctx, g, g1, g2, Defs(md, MethodSpecTargets(m)), {}, MethodCtors(md, m), ts, {}, ms);
    NewEdgesInSeq(ctx, g, g2, g3, Defs(md, MethodSpecTargets(m)) + ts, {}, MethodCtors(md, m) + ms, {}, {}, {d});
  }

  /** RecordMethod: peel generic-instance layers; a method of an array type
      stops there; otherwise record a generic declaring type, resolve the
      method (fatal if it does not resolve) and record it unless it is the
      current method. */
  function RecordMethod(md: Meta, ctx: Context, m: MethodRef, g: Registry): (r: Outcome)
    requires Valid(g)
    ensures r.Success? <==> MethodResolves(md, m)
    ensures r.Success? ==> Step(CurrentKey(ctx), g, r.value) && MethodRefRecorded(md, ctx, r.value, m)
    ensures r.Success? ==> MethodRefBounded(md, ctx, g, r.value, m)
    ensures m.MRef? && m.declaringType.ArrayOf? ==> r == Success(g)
    ensures !OwnerOf(md, m).ArrayOf? && ResolveMethod(md, OriginalMethod(m)).None? ==> r.Failure?
  {
    var x :- GetOriginalMethod(md, ctx, m, g);
    var (orig, g1) := x;
    var owner := MethodDeclaringType(md, orig);
    if owner.ArrayOf? then
      MethodRefArrayBound(md, ctx, m, g, g1);
      Success(g1)
    else
      var g2 :- if owner.GenericInst? then RecordType(md, ctx, owner, g1) else Success(g1);
      match ResolveMethod(md, orig)
      case None => Failure(UnresolvedMethod(orig))
      case Some(d) =>
        var g3 := RecordMethodDef(md, ctx, d, g2);
        MethodRefSteps(md, ctx, m, d, g, g1, g2, g3);
        StepTrans(CurrentKey(ctx), g1, g2, g3);
        StepTrans(CurrentKey(ctx), g, g1, g3);
        RecordedGrows(md, ctx, g1, g3, MethodSpecTargets(m));
        if owner.GenericInst? then
          TypeRecordedGrows(md, ctx, g2, g3, owner);
          Success(g3)
        else Success(g3)
  }

  // ---------------------------------------------------------------------
  // The self-edge guards
  // ---------------------------------------------------------------------

  /** The type guard compares with the current type whatever member is
      current: the current type's own definition records nothing, even from
      a field or a method. */
  lemma CurrentTypeNotRecorded(md: Meta, ctx: Context, g: Registry)
    requires Valid(g)
    ensures RecordType(md, ctx, TDef(ctx.typ), g) == Success(g)
  {
  }

  /** The current field's own definition records nothing. */
  lemma CurrentFieldNotRecorded(md: Meta, ctx: Context, f: FieldId, g: Registry)
    requires Valid(g) && IsCurrentField(ctx, f)
    ensures RecordField(md, ctx, FDef(f), g) == Success(g)
  {
  }

  /** The current method's own definition records nothing. */
  lemma CurrentMethodNotRecorded(md: Meta, ctx: Context, m: MethodId, g: Registry)
    requires Valid(g) && IsCurrentMethod(ctx, m)
    ensures RecordMethod(md, ctx, MDef(m), g) == Success(g)
  {
  }

  /** A generic parameter is neither resolved nor recorded. */
  lemma GenericParameterNotRecorded(md: Meta, ctx: Context, n: string, g: Registry)
    requires Valid(g)
    ensures RecordType(md, ctx, GenericParam(n), g) == Success(g)
  {
  }
}
