/** The walk: every type of every assembly (nested types after their
    container), its fields and its methods, each member processed in its own
    context and tied to its declaring type by a containment edge. */
module Walk {
  import opened Wrappers
  import opened Metadata
  import opened Identity
  import opened Recording
  import opened Attributes

  // ---------------------------------------------------------------------
  // Signatures
  // ---------------------------------------------------------------------

  /** What RecordMarshalSpec needs: a custom marshaler's managed type resolves. */
  ghost predicate MarshalResolves(md: Meta, mi: MarshalInfo) {
    mi.CustomMarshal? && mi.managedType.Some? ==> AllResolve(md, Targets(mi.managedType.value))
  }

  /** What RecordMarshalSpec records: a custom marshaler's managed type. */
  ghost predicate MarshalRecorded(md: Meta, ctx: Context, g: Registry, mi: MarshalInfo) {
    mi.CustomMarshal? && mi.managedType.Some? ==> TypeRecorded(md, ctx, g, mi.managedType.value)
  }

  lemma MarshalRecordedGrows(md: Meta, ctx: Context, g: Registry, g': Registry, mi: MarshalInfo)
    requires Grows(g, g') && MarshalRecorded(md, ctx, g, mi)
    ensures MarshalRecorded(md, ctx, g', mi)
  {
    if mi.CustomMarshal? && mi.managedType.Some? {
      TypeRecordedGrows(md, ctx, g, g', mi.managedType.value);
    }
  }

  /** The reach of RecordMarshalSpec: a custom marshaler's managed type. */
  ghost function MarshalReach(md: Meta, mi: MarshalInfo): Reach {
    if mi.CustomMarshal? then OptTypeReach(md, mi.managedType) else NoReach
  }

  /** RecordMarshalSpec: only a custom marshaler's managed type is recorded. */
  function RecordMarshalSpec(md: Meta, ctx: Context, mi: MarshalInfo, g: Registry): (r: Outcome)
    requires Valid(g)
    ensures r.Success? ==> Step(CurrentKey(ctx), g, r.value) && MarshalRecorded(md, ctx, r.value, mi)
    ensures r.Success? ==> Bounded(ctx, g, r.value, MarshalReach(md, mi))
    ensures r.Success? <==> MarshalResolves(md, mi)
    ensures !(mi.CustomMarshal? && mi.managedType.Some?) ==> r == Success(g)
  {
    match mi
    case CustomMarshal(t) => RecordOptionalType(md, ctx, t, g)
    case _ => Success(g)
  }

  /** What RecordGenericParameter needs: its attributes and its constraints resolve. */
  ghost predicate GenericParamResolves(md: Meta, p: GenericParamDef) {
    AttributesResolve(md, p.attrs) && AllResolve(md, TargetsSeq(p.constraints))
  }

  /** What RecordGenericParameter records: its attributes and its constraints. */
  ghost predicate GenericParamRecorded(md: Meta, ctx: Context, g: Registry, p: GenericParamDef) {
    AttributesRecorded(md, ctx, g, p.attrs) && TypesRecorded(md, ctx, g, p.constraints)
  }

  lemma GenericParamRecordedGrows(md: Meta, ctx: Context, g: Registry, g': Registry, p: GenericParamDef)
    requires Grows(g, g') && GenericParamRecorded(md, ctx, g, p)
    ensures GenericParamRecorded(md, ctx, g', p)
  {
    AttributesRecordedGrows(md, ctx, g, g', p.attrs);
    TypesRecordedGrows(md, ctx, g, g', p.constraints);
  }

  /** The reach of RecordGenericParameter: its attributes' and its
      constraints' reaches. */
  ghost function GenericParamReach(md: Meta, p: GenericParamDef): Reach {
    Join(AttributesReach(md, p.attrs), TypesReach(md, p.constraints))
  }

  /** RecordGenericParameter: its custom attributes, then its constraints. */
  function RecordGenericParameter(md: Meta, ctx: Context, p: GenericParamDef, g: Registry): (r: Outcome)
    requires Valid(g)
    ensures r.Success? ==> Step(CurrentKey(ctx), g, r.value) && GenericParamRecorded(md, ctx, r.value, p)
    ensures r.Success? ==> Bounded(ctx, g, r.value, GenericParamReach(md, p))
    ensures r.Success? <==> GenericParamResolves(md, p)
  {
    var g1 :- RecordCustomAttributes(md, ctx, p.attrs, g);
    var g2 :- RecordTypes(md, ctx, p.constraints, g1);
    StepTrans(CurrentKey(ctx), g, g1, g2);
    BoundedSeq(ctx, g, g1, g2, AttributesReach(md, p.attrs), TypesReach(md, p.constraints));
    AttributesRecordedGrows(md, ctx, g1, g2, p.attrs);
    Success(g2)
  }

  ghost predicate GenericParamsResolve(md: Meta, ps: seq<GenericParamDef>) {
    forall i :: 0 <= i < |ps| ==> GenericParamResolves(md, ps[i])
  }

  ghost predicate GenericParamsRecorded(md: Meta, ctx: Context, g: Registry, ps: seq<GenericParamDef>) {
    forall i :: 0 <= i < |ps| ==> GenericParamRecorded(md, ctx, g, ps[i])
  }

  lemma GenericParamsResolveCons(md: Meta, ps: seq<GenericParamDef>)
    requires |ps| > 0
    ensures GenericParamsResolve(md, ps) <==> GenericParamResolves(md, ps[0]) && GenericParamsResolve(md, ps[1..])
  {
    assert forall i :: 1 <= i < |ps| ==> ps[i] == ps[1..][i - 1];
  }

  lemma GenericParamsRecordedCons(md: Meta, ctx: Context, g: Registry, g': Registry, ps: seq<GenericParamDef>)
    requires |ps| > 0 && Grows(g, g') && GenericParamRecorded(md, ctx, g, ps[0]) && GenericParamsRecorded(md, ctx, g', ps[1..])
    ensures GenericParamsRecorded(md, ctx, g', ps)
  {
    GenericParamRecordedGrows(md, ctx, g, g', ps[0]);
    assert forall i :: 1 <= i < |ps| ==> ps[i] == ps[1..][i - 1];
  }

  lemma GenericParamsRecordedGrows(md: Meta, ctx: Context, g: Registry, g': Registry, ps: seq<GenericParamDef>)
    requires Grows(g, g') && GenericParamsRecorded(md, ctx, g, ps)
    ensures GenericParamsRecorded(md, ctx, g', ps)
  {
    forall i | 0 <= i < |ps| ensures GenericParamRecorded(md, ctx, g', ps[i]) {
      GenericParamRecordedGrows(md, ctx, g, g', ps[i]);
    }
  }

  ghost function GenericParamsReach(md: Meta, ps: seq<GenericParamDef>): Reach {
    if |ps| == 0 then NoReach else Join(GenericParamReach(md, ps[0]), GenericParamsReach(md, ps[1..]))
  }

  /** RecordGenericParameterProvider: every generic parameter in order. */
  function RecordGenericParameterProvider(md: Meta, ctx: Context, ps: seq<GenericParamDef>, g: Registry): (r: Outcome)
    requires Valid(g)
    ensures r.Success? ==> Step(CurrentKey(ctx), g, r.value) && GenericParamsRecorded(md, ctx, r.value, ps)
    ensures r.Success? ==> Bounded(ctx, g, r.value, GenericParamsReach(md, ps))
    ensures r.Success? <==> GenericParamsResolve(md, ps)
    ensures |ps| == 0 ==> r == Success(g)
  {
    if |ps| == 0 then Success(g)
    else
      GenericParamsResolveCons(md, ps);
      var g1 :- RecordGenericParameter(md, ctx, ps[0], g);
      var r := RecordGenericParameterProvider(md, ctx, ps[1..], g1);
      if r.Success? then
        StepTrans(CurrentKey(ctx), g, g1, r.value);
        GenericParamsRecordedCons(md, ctx, g1, r.value, ps);
        BoundedSeq(ctx, g, g1, r.value, GenericParamReach(md, ps[0]), GenericParamsReach(md, ps[1..]));
        r
      else r
  }

  /** What recording a parameter needs: its type, its attributes and its
      marshaling resolve. */
  ghost predicate ParamResolves(md: Meta, p: ParamDef) {
    AllResolve(md, Targets(p.paramType)) && AttributesResolve(md, p.attrs) && MarshalResolves(md, p.marshal)
  }

  /** What recording a parameter records: its type, its attributes and its
      marshaling. */
  ghost predicate ParamRecorded(md: Meta, ctx: Context, g: Registry, p: ParamDef) {
    TypeRecorded(md, ctx, g, p.paramType) && AttributesRecorded(md, ctx, g, p.attrs) && MarshalRecorded(md, ctx, g, p.marshal)
  }

  lemma ParamRecordedGrows(md: Meta, ctx: Context, g: Registry, g': Registry, p: ParamDef)
    requires Grows(g, g') && ParamRecorded(md, ctx, g, p)
    ensures ParamRecorded(md, ctx, g', p)
  {
    TypeRecordedGrows(md, ctx, g, g', p.paramType);
    AttributesRecordedGrows(md, ctx, g, g', p.attrs);
    MarshalRecordedGrows(md, ctx, g, g', p.marshal);
  }

  /** The reach of recording a parameter: its type's, its attributes' and
      its marshaling's reaches. */
  ghost function ParamReach(md: Meta, p: ParamDef): Reach {
    Join(Join(TypeReach(md, p.paramType), AttributesReach(md, p.attrs)), MarshalReach(md, p.marshal))
  }

  /** One parameter: its type, its custom attributes, its marshaling. */
  function RecordParameter(md: Meta, ctx: Context, p: ParamDef, g: Registry): (r: Outcome)
    requires Valid(g)
    ensures r.Success? ==> Step(CurrentKey(ctx), g, r.value) && ParamRecorded(md, ctx, r.value, p)
    ensures r.Success? ==> Bounded(ctx, g, r.value, ParamReach(md, p))
    ensures r.Success? <==> ParamResolves(md, p)
  {
    var g1 :- RecordType(md, ctx, p.paramType, g);
    var g2 :- RecordCustomAttributes(md, ctx, p.attrs, g1);
    var g3 :- RecordMarshalSpec(md, ctx, p.marshal, g2);
    StepTrans(CurrentKey(ctx), g, g1, g2);
    StepTrans(CurrentKey(ctx), g, g2, g3);
    StepTrans(CurrentKey(ctx), g1, g2, g3);
    TypeRecordedGrows(md, ctx, g1, g3, p.paramType);
    AttributesRecordedGrows(md, ctx, g2, g3, p.attrs);
    BoundedSeq(ctx, g, g1, g2, TypeReach(md, p.paramType), AttributesReach(md, p.attrs));
    BoundedSeq(ctx, g, g2, g3, Join(TypeReach(md, p.paramType), AttributesReach(md, p.attrs)), MarshalReach(md, p.marshal));
    Success(g3)
  }

  ghost predicate ParamsResolve(md: Meta, ps: seq<ParamDef>) {
    forall i :: 0 <= i < |ps| ==> ParamResolves(md, ps[i])
  }

  ghost predicate ParamsRecorded(md: Meta, ctx: Context, g: Registry, ps: seq<ParamDef>) {
    forall i :: 0 <= i < |ps| ==> ParamRecorded(md, ctx, g, ps[i])
  }

  lemma ParamsResolveCons(md: Meta, ps: seq<ParamDef>)
    requires |ps| > 0
    ensures ParamsResolve(md, ps) <==> ParamResolves(md, ps[0]) && ParamsResolve(md, ps[1..])
  {
    assert forall i :: 1 <= i < |ps| ==> ps[i] == ps[1..][i - 1];
  }

  lemma ParamsRecordedCons(md: Meta, ctx: Context, g: Registry, g': Registry, ps: seq<ParamDef>)
    requires |ps| > 0 && Grows(g, g') && ParamRecorded(md, ctx, g, ps[0]) && ParamsRecorded(md, ctx, g', ps[1..])
    ensures ParamsRecorded(md, ctx, g', ps)
  {
    ParamRecordedGrows(md, ctx, g, g', ps[0]);
    assert forall i :: 1 <= i < |ps| ==> ps[i] == ps[1..][i - 1];
  }

  lemma ParamsRecordedGrows(md: Meta, ctx: Context, g: Registry, g': Registry, ps: seq<ParamDef>)
    requires Grows(g, g') && ParamsRecorded(md, ctx, g, ps)
    ensures ParamsRecorded(md, ctx, g', ps)
  {
    forall i | 0 <= i < |ps| ensures ParamRecorded(md, ctx, g', ps[i]) {
      ParamRecordedGrows(md, ctx, g, g', ps[i]);
    }
  }

  ghost function ParamsReach(md: Meta, ps: seq<ParamDef>): Reach {
    if |ps| == 0 then NoReach else Join(ParamReach(md, ps[0]), ParamsReach(md, ps[1..]))
  }

  /** Every parameter in order. */
  function RecordParameters(md: Meta, ctx: Context, ps: seq<ParamDef>, g: Registry): (r: Outcome)
    requires Valid(g)
    ensures r.Success? ==> Step(CurrentKey(ctx), g, r.value) && ParamsRecorded(md, ctx, r.value, ps)
    ensures r.Success? ==> Bounded(ctx, g, r.value, ParamsReach(md, ps))
    ensures r.Success? <==> ParamsResolve(md, ps)
  {
    if |ps| == 0 then Success(g)
    else
      ParamsResolveCons(md, ps);
      var g1 :- RecordParameter(md, ctx, ps[0], g);
      var r := RecordParameters(md, ctx, ps[1..], g1);
      if r.Success? then
        StepTrans(CurrentKey(ctx), g, g1, r.value);
        ParamsRecordedCons(md, ctx, g1, r.value, ps);
        BoundedSeq(ctx, g, g1, r.value, ParamReach(md, ps[0]), ParamsReach(md, ps[1..]));
        r
      else r
  }

  /** Every method reference of `ms` resolves as RecordMethod requires. */
  ghost predicate MethodsResolve(md: Meta, ms: seq<MethodRef>) {
    forall i :: 0 <= i < |ms| ==> MethodResolves(md, ms[i])
  }

  /** Every method reference of `ms` is recorded as RecordMethod records it. */
  ghost predicate OverridesRecorded(md: Meta, ctx: Context, g: Registry, ms: seq<MethodRef>) {
    forall i :: 0 <= i < |ms| ==> MethodRefRecorded(md, ctx, g, ms[i])
  }

  lemma MethodsResolveCons(md: Meta, ms: seq<MethodRef>)
    requires |ms| > 0
    ensures MethodsResolve(md, ms) <==> MethodResolves(md, ms[0]) && MethodsResolve(md, ms[1..])
  {
    assert forall i :: 1 <= i < |ms| ==> ms[i] == ms[1..][i - 1];
  }

  lemma OverridesRecordedCons(md: Meta, ctx: Context, g: Registry, g': Registry, ms: seq<MethodRef>)
    requires |ms| > 0 && Grows(g, g') && MethodRefRecorded(md, ctx, g, ms[0]) && OverridesRecorded(md, ctx, g', ms[1..])
    ensures OverridesRecorded(md, ctx, g', ms)
  {
    MethodRefRecordedGrows(md, ctx, g, g', ms[0]);
    assert forall i :: 1 <= i < |ms| ==> ms[i] == ms[1..][i - 1];
  }

  lemma OverridesRecordedGrows(md: Meta, ctx: Context, g: Registry, g': Registry, ms: seq<MethodRef>)
    requires Grows(g, g') && OverridesRecorded(md, ctx, g, ms)
    ensures OverridesRecorded(md, ctx, g', ms)
  {
    forall i | 0 <= i < |ms| ensures MethodRefRecorded(md, ctx, g', ms[i]) {
      MethodRefRecordedGrows(md, ctx, g, g', ms[i]);
    }
  }

  ghost function OverridesReach(md: Meta, ms: seq<MethodRef>): Reach {
    if |ms| == 0 then NoReach else Join(MethodRefReach(md, ms[0]), OverridesReach(md, ms[1..]))
  }

  /** The explicit overrides of a method, in order: the run goes on exactly
      when every one of them resolves. */
  function RecordOverrides(md: Meta, ctx: Context, ms: seq<MethodRef>, g: Registry): (r: Outcome)
    requires Valid(g)
    ensures r.Success? ==> Step(CurrentKey(ctx), g, r.value) && OverridesRecorded(md, ctx, r.value, ms)
    ensures r.Success? ==> Bounded(ctx, g, r.value, OverridesReach(md, ms))
    ensures r.Success? <==> MethodsResolve(md, ms)
  {
    if |ms| == 0 then Success(g)
    else
      MethodsResolveCons(md, ms);
      var g1 :- RecordMethod(md, ctx, ms[0], g);
      var r := RecordOverrides(md, ctx, ms[1..], g1);
      if r.Success? then
        StepTrans(CurrentKey(ctx), g, g1, r.value);
        OverridesRecordedCons(md, ctx, g1, r.value, ms);
        BoundedSeq(ctx, g, g1, r.value, MethodRefReach(md, ms[0]), OverridesReach(md, ms[1..]));
        r
      else r
  }

  /** The base methods the annotation store knows for `m`; none when it
      knows nothing about `m`. */
  ghost function BaseMethods(md: Meta, m: MethodId): set<MethodId> {
    if m in md.baseMethods then set b | b in md.baseMethods[m] else {}
  }

  /** RecordBaseMethods: exactly the base methods the annotation store knows
      for the method gain an edge; a method it knows nothing about records
      nothing. */
  function RecordBaseMethods(md: Meta, ctx: Context, m: MethodId, g: Registry): (r: Registry)
    requires Valid(g)
    ensures Step(CurrentKey(ctx), g, r)
    ensures m !in md.baseMethods ==> r == g
    ensures MethodsRecorded(ctx, g, r, BaseMethods(md, m))
  {
    if m !in md.baseMethods then g else RecordMethodDefs(md, ctx, md.baseMethods[m], g)
  }

  // ---------------------------------------------------------------------
  // Bodies
  // ---------------------------------------------------------------------

  /** Everything recording an instruction's operand resolves. */
  ghost predicate OperandResolves(md: Meta, op: Operand) {
    match op
    case InlineField(f) => FieldResolves(md, f)
    case InlineMethod(m) => MethodResolves(md, m)
    case InlineTok(TokType(t)) => AllResolve(md, Targets(t))
    case InlineTok(TokMethod(m)) => MethodResolves(md, m)
    case InlineTok(TokField(f)) => FieldResolves(md, f)
    case InlineType(t) => AllResolve(md, Targets(t))
    case OtherOperand => true
  }

  /** What recording an instruction records: the field, method or type its
      operand refers to, as RecordField, RecordMethod and RecordType record
      them. */
  ghost predicate OperandRecorded(md: Meta, ctx: Context, g: Registry, op: Operand) {
    match op
    case InlineField(f) => FieldRefRecorded(md, ctx, g, f)
    case InlineMethod(m) => MethodRefRecorded(md, ctx, g, m)
    case InlineTok(TokType(t)) => TypeRecorded(md, ctx, g, t)
    case InlineTok(TokMethod(m)) => MethodRefRecorded(md, ctx, g, m)
    case InlineTok(TokField(f)) => FieldRefRecorded(md, ctx, g, f)
    case InlineType(t) => TypeRecorded(md, ctx, g, t)
    case OtherOperand => true
  }

  lemma OperandRecordedGrows(md: Meta, ctx: Context, g: Registry, g': Registry, op: Operand)
    requires Grows(g, g') && OperandRecorded(md, ctx, g, op)
    ensures OperandRecorded(md, ctx, g', op)
  {
    match op
    case InlineField(f) => FieldRefRecordedGrows(md, ctx, g, g', f);
    case InlineMethod(m) => MethodRefRecordedGrows(md, ctx, g, g', m);
    case InlineTok(TokType(t)) => TypeRecordedGrows(md, ctx, g, g', t);
    case InlineTok(TokMethod(m)) => MethodRefRecordedGrows(md, ctx, g, g', m);
    case InlineTok(TokField(f)) => FieldRefRecordedGrows(md, ctx, g, g', f);
    case InlineType(t) => TypeRecordedGrows(md, ctx, g, g', t);
    case OtherOperand =>
  }

  /** The only new edges of the current node between `g` and `g'` are those
      recording the operand may add: an instruction records nothing beyond
      what its operand refers to. */
  ghost predicate OperandBounded(md: Meta, ctx: Context, g: Registry, g': Registry, op: Operand) {
    Bounded(ctx, g, g', OperandReach(md, op))
  }

  /** The reach of recording an operand: that of the field, method or type
      it refers to. */
  ghost function OperandReach(md: Meta, op: Operand): Reach {
    match op
    case InlineField(f) => FieldRefReach(md, f)
    case InlineMethod(m) => MethodRefReach(md, m)
    case InlineTok(TokType(t)) => TypeReach(md, t)
    case InlineTok(TokMethod(m)) => MethodRefReach(md, m)
    case InlineTok(TokField(f)) => FieldRefReach(md, f)
    case InlineType(t) => TypeReach(md, t)
    case OtherOperand => NoReach
  }

  /** RecordInstruction: a field, method, token or type operand is recorded;
      any other instruction records nothing. */
  function RecordInstruction(md: Meta, ctx: Context, op: Operand, g: Registry): (r: Outcome)
    requires Valid(g)
    ensures r.Success? ==> Step(CurrentKey(ctx), g, r.value) && OperandRecorded(md, ctx, r.value, op)
    ensures r.Success? ==> OperandBounded(md, ctx, g, r.value, op)
    ensures r.Success? <==> OperandResolves(md, op)
    ensures op.OtherOperand? ==> r == Success(g)
  {
    match op
    case InlineField(f) => RecordField(md, ctx, f, g)
    case InlineMethod(m) => RecordMethod(md, ctx, m, g)
    case InlineTok(TokType(t)) => RecordType(md, ctx, t, g)
    case InlineTok(TokMethod(m)) => RecordMethod(md, ctx, m, g)
    case InlineTok(TokField(f)) => RecordField(md, ctx, f, g)
    case InlineType(t) => RecordType(md, ctx, t, g)
    case OtherOperand => Success(g)
  }

  ghost predicate OperandsResolve(md: Meta, ops: seq<Operand>) {
    forall i :: 0 <= i < |ops| ==> OperandResolves(md, ops[i])
  }

  ghost predicate OperandsRecorded(md: Meta, ctx: Context, g: Registry, ops: seq<Operand>) {
    forall i :: 0 <= i < |ops| ==> OperandRecorded(md, ctx, g, ops[i])
  }

  lemma OperandsResolveCons(md: Meta, ops: seq<Operand>)
    requires |ops| > 0
    ensures OperandsResolve(md, ops) <==> OperandResolves(md, ops[0]) && OperandsResolve(md, ops[1..])
  {
    assert forall i :: 1 <= i < |ops| ==> ops[i] == ops[1..][i - 1];
  }

  lemma OperandsRecordedCons(md: Meta, ctx: Context, g: Registry, g': Registry, ops: seq<Operand>)
    requires |ops| > 0 && Grows(g, g') && OperandRecorded(md, ctx, g, ops[0]) && OperandsRecorded(md, ctx, g', ops[1..])
    ensures OperandsRecorded(md, ctx, g', ops)
  {
    OperandRecordedGrows(md, ctx, g, g', ops[0]);
    assert forall i :: 1 <= i < |ops| ==> ops[i] == ops[1..][i - 1];
  }

  lemma OperandsRecordedGrows(md: Meta, ctx: Context, g: Registry, g': Registry, ops: seq<Operand>)
    requires Grows(g, g') && OperandsRecorded(md, ctx, g, ops)
    ensures OperandsRecorded(md, ctx, g', ops)
  {
    forall i | 0 <= i < |ops| ensures OperandRecorded(md, ctx, g', ops[i]) {
      OperandRecordedGrows(md, ctx, g, g', ops[i]);
    }
  }

  ghost function OperandsReach(md: Meta, ops: seq<Operand>): Reach {
    if |ops| == 0 then NoReach else Join(OperandReach(md, ops[0]), OperandsReach(md, ops[1..]))
  }

  /** The instructions in order: the run goes on exactly when every operand
      resolves. */
  function RecordInstructions(md: Meta, ctx: Context, ops: seq<Operand>, g: Registry): (r: Outcome)
    requires Valid(g)
    ensures r.Success? ==> Step(CurrentKey(ctx), g, r.value) && OperandsRecorded(md, ctx, r.value, ops)
    ensures r.Success? ==> Bounded(ctx, g, r.value, OperandsReach(md, ops))
    ensures r.Success? <==> OperandsResolve(md, ops)
  {
    if |ops| == 0 then Success(g)
    else
      OperandsResolveCons(md, ops);
      var g1 :- RecordInstruction(md, ctx, ops[0], g);
      var r := RecordInstructions(md, ctx, ops[1..], g1);
      if r.Success? then
        StepTrans(CurrentKey(ctx), g, g1, r.value);
        OperandsRecordedCons(md, ctx, g1, r.value, ops);
        BoundedSeq(ctx, g, g1, r.value, OperandReach(md, ops[0]), OperandsReach(md, ops[1..]));
        r
      else r
  }

  /** A handler's type is recorded only for a catch clause. */
  ghost predicate HandlerResolves(md: Meta, h: Handler) {
    h.kind == Catch && h.catchType.Some? ==> AllResolve(md, Targets(h.catchType.value))
  }

  ghost predicate HandlerRecorded(md: Meta, ctx: Context, g: Registry, h: Handler) {
    h.kind == Catch && h.catchType.Some? ==> TypeRecorded(md, ctx, g, h.catchType.value)
  }

  ghost predicate HandlersResolve(md: Meta, hs: seq<Handler>) {
    forall i :: 0 <= i < |hs| ==> HandlerResolves(md, hs[i])
  }

  ghost predicate HandlersRecorded(md: Meta, ctx: Context, g: Registry, hs: seq<Handler>) {
    forall i :: 0 <= i < |hs| ==> HandlerRecorded(md, ctx, g, hs[i])
  }

  lemma HandlerRecordedGrows(md: Meta, ctx: Context, g: Registry, g': Registry, h: Handler)
    requires Grows(g, g') && HandlerRecorded(md, ctx, g, h)
    ensures HandlerRecorded(md, ctx, g', h)
  {
    if h.kind == Catch && h.catchType.Some? {
      TypeRecordedGrows(md, ctx, g, g', h.catchType.value);
    }
  }

  lemma HandlersResolveCons(md: Meta, hs: seq<Handler>)
    requires |hs| > 0
    ensures HandlersResolve(md, hs) <==> HandlerResolves(md, hs[0]) && HandlersResolve(md, hs[1..])
  {
    assert forall i :: 1 <= i < |hs| ==> hs[i] == hs[1..][i - 1];
  }

  lemma HandlersRecordedCons(md: Meta, ctx: Context, g: Registry, g': Registry, hs: seq<Handler>)
    requires |hs| > 0 && Grows(g, g') && HandlerRecorded(md, ctx, g, hs[0]) && HandlersRecorded(md, ctx, g', hs[1..])
    ensures HandlersRecorded(md, ctx, g', hs)
  {
    HandlerRecordedGrows(md, ctx, g, g', hs[0]);
    assert forall i :: 1 <= i < |hs| ==> hs[i] == hs[1..][i - 1];
  }

  lemma HandlersRecordedGrows(md: Meta, ctx: Context, g: Registry, g': Registry, hs: seq<Handler>)
    requires Grows(g, g') && HandlersRecorded(md, ctx, g, hs)
    ensures HandlersRecorded(md, ctx, g', hs)
  {
    forall i | 0 <= i < |hs| ensures HandlerRecorded(md, ctx, g', hs[i]) {
      HandlerRecordedGrows(md, ctx, g, g', hs[i]);
    }
  }

  /** The reach of recording a handler: a catch clause's type. */
  ghost function HandlerReach(md: Meta, h: Handler): Reach {
    if h.kind == Catch then OptTypeReach(md, h.catchType) else NoReach
  }

  ghost function HandlersReach(md: Meta, hs: seq<Handler>): Reach {
    if |hs| == 0 then NoReach else Join(HandlerReach(md, hs[0]), HandlersReach(md, hs[1..]))
  }

  /** One exception handler: the catch type of a catch clause, nothing for
      any other clause. */
  function RecordHandler(md: Meta, ctx: Context, h: Handler, g: Registry): (r: Outcome)
    requires Valid(g)
    ensures r.Success? ==> Step(CurrentKey(ctx), g, r.value) && HandlerRecorded(md, ctx, r.value, h)
    ensures r.Success? ==> Bounded(ctx, g, r.value, HandlerReach(md, h))
    ensures r.Success? <==> HandlerResolves(md, h)
    ensures h.kind != Catch ==> r == Success(g)
  {
    if h.kind == Catch then RecordOptionalType(md, ctx, h.catchType, g) else Success(g)
  }

  /** The exception handlers in order: the catch type of every catch clause. */
  function RecordHandlers(md: Meta, ctx: Context, hs: seq<Handler>, g: Registry): (r: Outcome)
    requires Valid(g)
    ensures r.Success? ==> Step(CurrentKey(ctx), g, r.value) && HandlersRecorded(md, ctx, r.value, hs)
    ensures r.Success? ==> Bounded(ctx, g, r.value, HandlersReach(md, hs))
    ensures r.Success? <==> HandlersResolve(md, hs)
  {
    if |hs| == 0 then Success(g)
    else
      HandlersResolveCons(md, hs);
      var g1 :- RecordHandler(md, ctx, hs[0], g);
      var r := RecordHandlers(md, ctx, hs[1..], g1);
      if r.Success? then
        StepTrans(CurrentKey(ctx), g, g1, r.value);
        HandlersRecordedCons(md, ctx, g1, r.value, hs);
        BoundedSeq(ctx, g, g1, r.value, HandlerReach(md, hs[0]), HandlersReach(md, hs[1..]));
        r
      else r
  }

  /** Everything recording a body resolves: its local types, its catch
      types and its operands. An absent body has nothing to resolve. */
  ghost predicate BodyResolves(md: Meta, body: Option<Body>) {
    body.Some? ==>
      && AllResolve(md, TargetsSeq(body.value.locals))
      && HandlersResolve(md, body.value.handlers)
      && OperandsResolve(md, body.value.instructions)
  }

  /** What RecordMethodBody records: the local types, the catch types and
      what every instruction refers to. */
  ghost predicate BodyRecorded(md: Meta, ctx: Context, g: Registry, body: Option<Body>) {
    body.Some? ==>
      && TypesRecorded(md, ctx, g, body.value.locals)
      && HandlersRecorded(md, ctx, g, body.value.handlers)
      && OperandsRecorded(md, ctx, g, body.value.instructions)
  }

  lemma BodyRecordedGrows(md: Meta, ctx: Context, g: Registry, g': Registry, body: Option<Body>)
    requires Grows(g, g') && BodyRecorded(md, ctx, g, body)
    ensures BodyRecorded(md, ctx, g', body)
  {
    if body.Some? {
      TypesRecordedGrows(md, ctx, g, g', body.value.locals);
      HandlersRecordedGrows(md, ctx, g, g', body.value.handlers);
      OperandsRecordedGrows(md, ctx, g, g', body.value.instructions);
    }
  }

  /** The reach of RecordMethodBody: its locals', catch types' and operands'
      reaches. */
  ghost function BodyReach(md: Meta, body: Option<Body>): Reach {
    match body
    case None => NoReach
    case Some(b) => Join(Join(TypesReach(md, b.locals), HandlersReach(md, b.handlers)), OperandsReach(md, b.instructions))
  }

  /** RecordMethodBody: locals, catch types, then instructions; a method
      without a body records nothing. */
  function RecordMethodBody(md: Meta, ctx: Context, body: Option<Body>, g: Registry): (r: Outcome)
    requires Valid(g)
    ensures r.Success? ==> Step(CurrentKey(ctx), g, r.value) && BodyRecorded(md, ctx, r.value, body)
    ensures r.Success? ==> Bounded(ctx, g, r.value, BodyReach(md, body))
    ensures r.Success? <==> BodyResolves(md, body)
    ensures body.None? ==> r == Success(g)
  {
    match body
    case None => Success(g)
    case Some(b) =>
      var g1 :- RecordTypes(md, ctx, b.locals, g);
      var g2 :- RecordHandlers(md, ctx, b.handlers, g1);
      var g3 :- RecordInstructions(md, ctx, b.instructions, g2);
      StepTrans(CurrentKey(ctx), g, g1, g2);
      StepTrans(CurrentKey(ctx), g, g2, g3);
      StepTrans(CurrentKey(ctx), g1, g2, g3);
      TypesRecordedGrows(md, ctx, g1, g3, b.locals);
      HandlersRecordedGrows(md, ctx, g2, g3, b.handlers);
      BoundedSeq(ctx, g, g1, g2, TypesReach(md, b.locals), HandlersReach(md, b.handlers));
      BoundedSeq(ctx, g, g2, g3, Join(TypesReach(md, b.locals), HandlersReach(md, b.handlers)), OperandsReach(md, b.instructions));
      Success(g3)
  }

  // ---------------------------------------------------------------------
  // Where the walk's edges lead
  // ---------------------------------------------------------------------

  /** A node the field `f` of `t` may point to: `t`, or a node ProcessField
      on `f` reaches other than `f` itself. */
  ghost predicate FieldEdge(md: Meta, t: TypeId, f: FieldId, b: NodeKey) {
    b == TypeKey(t) || InReach(Context(t, InField(f)), b, FieldDefReach(md, f))
  }

  /** A node the method `m` of `t` may point to: `t`, or a node ProcessMethod
      on `m` reaches other than `m` itself. */
  ghost predicate MethodEdge(md: Meta, t: TypeId, m: MethodId, b: NodeKey) {
    b == TypeKey(t) || InReach(Context(t, InMethod(m)), b, MethodDefReach(md, m))
  }

  /** An edge the walk of `t` may add: from `t` into its header's reach
      (when `header` holds), from a field of `fs` as FieldEdge allows, or
      from a method of `ms` as MethodEdge allows. */
  ghost predicate WalkEdge(md: Meta, t: TypeId, header: bool, fs: seq<FieldId>, ms: seq<MethodId>, a: NodeKey, b: NodeKey) {
    || (header && a == TypeKey(t) && InReach(Context(t, NoMember), b, HeaderReach(md, t)))
    || (a.FieldKey? && a.f in fs && FieldEdge(md, t, a.f, b))
    || (a.MethodKey? && a.m in ms && MethodEdge(md, t, a.m, b))
  }

  /** Every edge of `g'` that `g` lacks is one the walk of `t` may add. */
  ghost predicate WalkEdgesIn(md: Meta, t: TypeId, header: bool, fs: seq<FieldId>, ms: seq<MethodId>, g: Registry, g': Registry) {
    forall a, b :: HasEdge(g', a, b) ==> HasEdge(g, a, b) || WalkEdge(md, t, header, fs, ms, a, b)
  }

  lemma WalkEdgesTrans(md: Meta, t: TypeId, header: bool, fs: seq<FieldId>, ms: seq<MethodId>, g: Registry, g1: Registry, g2: Registry)
    requires WalkEdgesIn(md, t, header, fs, ms, g, g1) && WalkEdgesIn(md, t, header, fs, ms, g1, g2)
    ensures WalkEdgesIn(md, t, header, fs, ms, g, g2)
  {
  }

  /** Allowing more sources keeps every edge allowed. */
  lemma WalkEdgesWiden(md: Meta, t: TypeId, h: bool, fs: seq<FieldId>, ms: seq<MethodId>,
                       h': bool, fs': seq<FieldId>, ms': seq<MethodId>, g: Registry, g': Registry)
    requires WalkEdgesIn(md, t, h, fs, ms, g, g')
    requires (h ==> h') && (forall x :: x in fs ==> x in fs') && (forall x :: x in ms ==> x in ms')
    ensures WalkEdgesIn(md, t, h', fs', ms', g, g')
  {
  }

  /** An edge the walk of `t` may add: one from `t` into its header's reach,
      or one from a field or method of `t` to `t` or into that member's
      reach. */
  ghost predicate TypeEdge(md: Meta, t: TypeId, a: NodeKey, b: NodeKey) {
    WalkEdge(md, t, true, md.TypeOf(t).fields, md.TypeOf(t).methods, a, b)
  }

  /** Every edge of `g'` that `g` lacks is one the walk of a type of `ts`
      may add. */
  ghost predicate TypesEdgesIn(md: Meta, ts: seq<TypeId>, g: Registry, g': Registry) {
    forall a, b :: HasEdge(g', a, b) ==> HasEdge(g, a, b) || exists t :: t in ts && TypeEdge(md, t, a, b)
  }

  lemma TypesEdgesAppend(md: Meta, ts: seq<TypeId>, us: seq<TypeId>, g: Registry, g1: Registry, g2: Registry)
    requires TypesEdgesIn(md, ts, g, g1) && TypesEdgesIn(md, us, g1, g2)
    ensures TypesEdgesIn(md, ts + us, g, g2)
  {
    forall a, b | HasEdge(g2, a, b) && !HasEdge(g, a, b)
      ensures exists t :: t in ts + us && TypeEdge(md, t, a, b)
    {
      if HasEdge(g1, a, b) {
        var t :| t in ts && TypeEdge(md, t, a, b);
        assert t in ts + us;
      } else {
        var t :| t in us && TypeEdge(md, t, a, b);
        assert t in ts + us;
      }
    }
  }

  /** The edges the walk of `t` adds are those of `t` alone. */
  lemma TypeEdgesOne(md: Meta, t: TypeId, g: Registry, g': Registry)
    requires WalkEdgesIn(md, t, true, md.TypeOf(t).fields, md.TypeOf(t).methods, g, g')
    ensures TypesEdgesIn(md, [t], g, g')
  {
    forall a, b | HasEdge(g', a, b) && !HasEdge(g, a, b)
      ensures exists u :: u in [t] && TypeEdge(md, u, a, b)
    {
      assert t in [t] && TypeEdge(md, t, a, b);
    }
  }

  // ---------------------------------------------------------------------
  // Fields
  // ---------------------------------------------------------------------

  /** Everything ProcessField records resolves: the declaring type, the
      field's type, its custom attributes and its marshaling. */
  ghost predicate FieldDefResolves(md: Meta, f: FieldId) {
    var fd := md.FieldOf(f);
    && AllResolve(md, Targets(TDef(fd.declaringType)))
    && AllResolve(md, Targets(fd.fieldType))
    && AttributesResolve(md, fd.attrs)
    && MarshalResolves(md, fd.marshal)
  }

  /** What ProcessField records, in the context of the field `f` of `t`. */
  ghost predicate FieldDefRecorded(md: Meta, t: TypeId, f: FieldId, g: Registry) {
    var ctx := Context(t, InField(f));
    var fd := md.FieldOf(f);
    && TypeRecorded(md, ctx, g, TDef(fd.declaringType))
    && TypeRecorded(md, ctx, g, fd.fieldType)
    && AttributesRecorded(md, ctx, g, fd.attrs)
    && MarshalRecorded(md, ctx, g, fd.marshal)
  }

  lemma FieldDefRecordedGrows(md: Meta, t: TypeId, f: FieldId, g: Registry, g': Registry)
    requires Grows(g, g') && FieldDefRecorded(md, t, f, g)
    ensures FieldDefRecorded(md, t, f, g')
  {
    var ctx := Context(t, InField(f));
    var fd := md.FieldOf(f);
    TypeRecordedGrows(md, ctx, g, g', TDef(fd.declaringType));
    TypeRecordedGrows(md, ctx, g, g', fd.fieldType);
    AttributesRecordedGrows(md, ctx, g, g', fd.attrs);
    MarshalRecordedGrows(md, ctx, g, g', fd.marshal);
  }

  /** The four recording steps of ProcessField add up to one step that
      records the whole field. */
  lemma FieldSteps(md: Meta, t: TypeId, f: FieldId, g: Registry, g1: Registry, g2: Registry, g3: Registry, g4: Registry)
    requires Step(FieldKey(f), g, g1) && Step(FieldKey(f), g1, g2) && Step(FieldKey(f), g2, g3) && Step(FieldKey(f), g3, g4)
    requires TypeRecorded(md, Context(t, InField(f)), g1, TDef(md.FieldOf(f).declaringType))
    requires TypeRecorded(md, Context(t, InField(f)), g2, md.FieldOf(f).fieldType)
    requires AttributesRecorded(md, Context(t, InField(f)), g3, md.FieldOf(f).attrs)
    requires MarshalRecorded(md, Context(t, InField(f)), g4, md.FieldOf(f).marshal)
    ensures Step(FieldKey(f), g, g4) && FieldDefRecorded(md, t, f, g4)
  {
    var ctx := Context(t, InField(f));
    var fd := md.FieldOf(f);
    StepTrans(FieldKey(f), g2, g3, g4);
    StepTrans(FieldKey(f), g1, g2, g4);
    StepTrans(FieldKey(f), g, g1, g4);
    TypeRecordedGrows(md, ctx, g1, g4, TDef(fd.declaringType));
    TypeRecordedGrows(md, ctx, g2, g4, fd.fieldType);
    AttributesRecordedGrows(md, ctx, g3, g4, fd.attrs);
  }

  /** The reach of ProcessField on `f`: that of its declaring type, its
      type, its custom attributes and its marshaling. */
  ghost function FieldDefReach(md: Meta, f: FieldId): Reach {
    var fd := md.FieldOf(f);
    Join(Join(Join(TypeReach(md, TDef(fd.declaringType)), TypeReach(md, fd.fieldType)),
              AttributesReach(md, fd.attrs)),
         MarshalReach(md, fd.marshal))
  }

  /** ProcessField on a field definition of `t`, in the field's context: its
      declaring type, its type, its custom attributes and its marshaling. */
  function ProcessField(md: Meta, t: TypeId, f: FieldId, g: Registry): (r: Outcome)
    requires Valid(g)
    ensures r.Success? ==> Step(FieldKey(f), g, r.value) && FieldDefRecorded(md, t, f, r.value)
    ensures r.Success? ==> Bounded(Context(t, InField(f)), g, r.value, FieldDefReach(md, f))
    ensures r.Success? <==> FieldDefResolves(md, f)
  {
    var ctx := Context(t, InField(f));
    var fd := md.FieldOf(f);
    var g1 :- RecordType(md, ctx, TDef(fd.declaringType), g);
    var g2 :- RecordType(md, ctx, fd.fieldType, g1);
    var g3 :- RecordCustomAttributes(md, ctx, fd.attrs, g2);
    var g4 :- RecordMarshalSpec(md, ctx, fd.marshal, g3);
    FieldSteps(md, t, f, g, g1, g2, g3, g4);
    BoundedSeq4(ctx, g, g1, g2, g3, g4, TypeReach(md, TDef(fd.declaringType)), TypeReach(md, fd.fieldType),
                AttributesReach(md, fd.attrs), MarshalReach(md, fd.marshal));
    Success(g4)
  }

  /** The field `f` of `t` points to `t` and has been processed. */
  ghost predicate FieldProcessed(md: Meta, t: TypeId, f: FieldId, g: Registry) {
    HasEdge(g, FieldKey(f), TypeKey(t)) && FieldDefRecorded(md, t, f, g)
  }

  lemma FieldProcessedGrows(md: Meta, t: TypeId, f: FieldId, g: Registry, g': Registry)
    requires Grows(g, g') && FieldProcessed(md, t, f, g)
    ensures FieldProcessed(md, t, f, g')
  {
    FieldDefRecordedGrows(md, t, f, g, g');
  }

  /** The containment edge and the bounded processing of `f` add only
      edges from `f` that FieldEdge allows. */
  lemma FieldOfEdges(md: Meta, t: TypeId, f: FieldId, g: Registry, g1: Registry, g2: Registry)
    requires GrowsAt(FieldKey(f), g, g1)
    requires forall x :: HasEdge(g1, FieldKey(f), x) <==> HasEdge(g, FieldKey(f), x) || x == TypeKey(t)
    requires GrowsAt(FieldKey(f), g1, g2) && Bounded(Context(t, InField(f)), g1, g2, FieldDefReach(md, f))
    ensures WalkEdgesIn(md, t, false, [f], [], g, g2)
  {
    StepEdges(Context(t, InField(f)), g1, g2, FieldDefReach(md, f));
    assert f in [f];
  }

  /** One iteration of ProcessFields: the field, made current, points to its
      declaring type, then is processed. */
  function ProcessFieldOf(md: Meta, t: TypeId, f: FieldId, g: Registry): (r: Outcome)
    requires Valid(g)
    ensures r.Success? ==> Extends(g, r.value) && FieldProcessed(md, t, f, r.value)
    ensures r.Success? ==> WalkEdgesIn(md, t, false, [f], [], g, r.value)
    ensures r.Success? <==> FieldDefResolves(md, f)
  {
    var g1 := RecordRelation(md, FieldKey(f), TypeKey(t), g).0;
    assert Extends(g, g1) && HasEdge(g1, FieldKey(f), TypeKey(t));
    var g2 :- ProcessField(md, t, f, g1);
    StepExtends(FieldKey(f), g1, g2);
    ExtendsTrans(g, g1, g2);
    FieldOfEdges(md, t, f, g, g1, g2);
    Success(g2)
  }

  ghost predicate FieldsProcessed(md: Meta, t: TypeId, g: Registry, fs: seq<FieldId>) {
    forall i :: 0 <= i < |fs| ==> FieldProcessed(md, t, fs[i], g)
  }

  ghost predicate FieldDefsResolve(md: Meta, fs: seq<FieldId>) {
    forall i :: 0 <= i < |fs| ==> FieldDefResolves(md, fs[i])
  }

  lemma FieldsProcessedCons(md: Meta, t: TypeId, g: Registry, g': Registry, fs: seq<FieldId>)
    requires |fs| > 0 && Grows(g, g') && FieldProcessed(md, t, fs[0], g) && FieldsProcessed(md, t, g', fs[1..])
    ensures FieldsProcessed(md, t, g', fs)
  {
    FieldProcessedGrows(md, t, fs[0], g, g');
    assert forall i :: 1 <= i < |fs| ==> fs[i] == fs[1..][i - 1];
  }

  lemma FieldsProcessedGrows(md: Meta, t: TypeId, g: Registry, g': Registry, fs: seq<FieldId>)
    requires Grows(g, g') && FieldsProcessed(md, t, g, fs)
    ensures FieldsProcessed(md, t, g', fs)
  {
    forall i | 0 <= i < |fs| ensures FieldProcessed(md, t, fs[i], g') {
      FieldProcessedGrows(md, t, fs[i], g, g');
    }
  }

  lemma FieldDefsResolveCons(md: Meta, fs: seq<FieldId>)
    requires |fs| > 0
    ensures FieldDefsResolve(md, fs) <==> FieldDefResolves(md, fs[0]) && FieldDefsResolve(md, fs[1..])
  {
    assert forall i :: 1 <= i < |fs| ==> fs[i] == fs[1..][i - 1];
  }

  lemma FieldsEdgesCons(md: Meta, t: TypeId, fs: seq<FieldId>, g: Registry, g1: Registry, g2: Registry)
    requires |fs| > 0
    requires WalkEdgesIn(md, t, false, [fs[0]], [], g, g1) && WalkEdgesIn(md, t, false, fs[1..], [], g1, g2)
    ensures WalkEdgesIn(md, t, false, fs, [], g, g2)
  {
    assert forall x :: x in fs[1..] ==> x in fs;
    WalkEdgesWiden(md, t, false, [fs[0]], [], false, fs, [], g, g1);
    WalkEdgesWiden(md, t, false, fs[1..], [], false, fs, [], g1, g2);
    WalkEdgesTrans(md, t, false, fs, [], g, g1, g2);
  }

  /** ProcessFields: every field in order; the walk goes on exactly when
      every field's references resolve. */
  function ProcessFields(md: Meta, t: TypeId, fs: seq<FieldId>, g: Registry): (r: Outcome)
    requires Valid(g)
    ensures r.Success? ==> Extends(g, r.value) && FieldsProcessed(md, t, r.value, fs)
    ensures r.Success? ==> WalkEdgesIn(md, t, false, fs, [], g, r.value)
    ensures r.Success? <==> FieldDefsResolve(md, fs)
  {
    if |fs| == 0 then Success(g)
    else
      FieldDefsResolveCons(md, fs);
      var g1 :- ProcessFieldOf(md, t, fs[0], g);
      var r := ProcessFields(md, t, fs[1..], g1);
      if r.Success? then
        ExtendsTrans(g, g1, r.value);
        FieldsProcessedCons(md, t, g1, r.value, fs);
        FieldsEdgesCons(md, t, fs, g, g1, r.value);
        r
      else r
  }

  // ---------------------------------------------------------------------
  // Methods
  // ---------------------------------------------------------------------

  /** Everything the signature half of ProcessMethod needs resolves. */
  ghost predicate SignatureResolves(md: Meta, m: MethodId) {
    var d := md.MethodOf(m);
    && AllResolve(md, Targets(TDef(d.declaringType)))
    && AttributesResolve(md, d.attrs)
    && GenericParamsResolve(md, d.genericParams)
    && ParamsResolve(md, d.params)
    && MethodsResolve(md, d.overrides)
  }

  /** What the signature half of ProcessMethod records, in the context of
      the method `m` of `t`: the declaring type, the custom attributes, the
      generic parameters, the parameters, the overrides, the SOAP header
      members and the annotated base methods. */
  ghost predicate SignatureRecorded(md: Meta, t: TypeId, m: MethodId, g: Registry) {
    var ctx := Context(t, InMethod(m));
    var d := md.MethodOf(m);
    && TypeRecorded(md, ctx, g, TDef(d.declaringType))
    && AttributesRecorded(md, ctx, g, d.attrs)
    && GenericParamsRecorded(md, ctx, g, d.genericParams)
    && ParamsRecorded(md, ctx, g, d.params)
    && OverridesRecorded(md, ctx, g, d.overrides)
    && SoapHeadersRecorded(md, ctx, g, m)
    && MethodsCovered(ctx, g, BaseMethods(md, m))
  }

  lemma SignatureRecordedGrows(md: Meta, t: TypeId, m: MethodId, g: Registry, g': Registry)
    requires Grows(g, g') && SignatureRecorded(md, t, m, g)
    ensures SignatureRecorded(md, t, m, g')
  {
    var ctx := Context(t, InMethod(m));
    var d := md.MethodOf(m);
    TypeRecordedGrows(md, ctx, g, g', TDef(d.declaringType));
    AttributesRecordedGrows(md, ctx, g, g', d.attrs);
    GenericParamsRecordedGrows(md, ctx, g, g', d.genericParams);
    ParamsRecordedGrows(md, ctx, g, g', d.params);
    OverridesRecordedGrows(md, ctx, g, g', d.overrides);
    SoapHeadersGrow(md, ctx, g, g', m);
  }

  /** The signature's last two (infallible) steps keep what came before. */
  lemma SignatureTail(md: Meta, t: TypeId, m: MethodId, g: Registry, g5: Registry, g6: Registry, g7: Registry)
    requires Step(MethodKey(m), g, g5) && Step(MethodKey(m), g5, g6) && Step(MethodKey(m), g6, g7)
    requires FrontRecorded(md, t, m, g5)
    requires SoapHeadersRecorded(md, Context(t, InMethod(m)), g6, m)
    requires MethodsCovered(Context(t, InMethod(m)), g7, BaseMethods(md, m))
    ensures Step(MethodKey(m), g, g7) && SignatureRecorded(md, t, m, g7)
  {
    var ctx := Context(t, InMethod(m));
    var d := md.MethodOf(m);
    StepTrans(MethodKey(m), g5, g6, g7);
    StepTrans(MethodKey(m), g, g5, g7);
    HeadRecordedGrows(md, t, m, g5, g7);
    ParamsRecordedGrows(md, ctx, g5, g7, d.params);
    OverridesRecordedGrows(md, ctx, g5, g7, d.overrides);
    SoapHeadersGrow(md, ctx, g6, g7, m);
  }

  /** What the declaration steps of the signature record, in the context of
      the method `m` of `t`: its declaring type, its custom attributes and
      its generic parameters. */
  ghost predicate HeadRecorded(md: Meta, t: TypeId, m: MethodId, g: Registry) {
    var ctx := Context(t, InMethod(m));
    var d := md.MethodOf(m);
    && TypeRecorded(md, ctx, g, TDef(d.declaringType))
    && AttributesRecorded(md, ctx, g, d.attrs)
    && GenericParamsRecorded(md, ctx, g, d.genericParams)
  }

  lemma HeadRecordedGrows(md: Meta, t: TypeId, m: MethodId, g: Registry, g': Registry)
    requires Grows(g, g') && HeadRecorded(md, t, m, g)
    ensures HeadRecorded(md, t, m, g')
  {
    var ctx := Context(t, InMethod(m));
    var d := md.MethodOf(m);
    TypeRecordedGrows(md, ctx, g, g', TDef(d.declaringType));
    AttributesRecordedGrows(md, ctx, g, g', d.attrs);
    GenericParamsRecordedGrows(md, ctx, g, g', d.genericParams);
  }

  /** What the five fallible signature steps record: the declaration, then
      the parameters and the overrides. */
  ghost predicate FrontRecorded(md: Meta, t: TypeId, m: MethodId, g: Registry) {
    && HeadRecorded(md, t, m, g)
    && ParamsRecorded(md, Context(t, InMethod(m)), g, md.MethodOf(m).params)
    && OverridesRecorded(md, Context(t, InMethod(m)), g, md.MethodOf(m).overrides)
  }

  /** The reach of the declaration steps on `m`: its declaring type's, its
      attributes' and its generic parameters'. */
  ghost function HeadReach(md: Meta, m: MethodId): Reach {
    var d := md.MethodOf(m);
    Join(Join(TypeReach(md, TDef(d.declaringType)), AttributesReach(md, d.attrs)), GenericParamsReach(md, d.genericParams))
  }

  /** The reach of the five fallible signature steps on `m`: the
      declaration's, its parameters' and its overrides'. */
  ghost function FrontReach(md: Meta, m: MethodId): Reach {
    Join(Join(HeadReach(md, m), ParamsReach(md, md.MethodOf(m).params)), OverridesReach(md, md.MethodOf(m).overrides))
  }

  /** The reach of the signature half of ProcessMethod on `m`: that of the
      five fallible steps, of the SOAP header convention and of the
      annotated base methods. */
  ghost function SignatureReach(md: Meta, m: MethodId): Reach {
    Join(Join(FrontReach(md, m), SoapHeadersReach(md, m, md.MethodOf(m).attrs, 0)), Reach({}, {}, BaseMethods(md, m)))
  }

  /** The three declaration steps add up to one bounded step that records
      them all. */
  lemma HeadSteps(md: Meta, t: TypeId, m: MethodId, g: Registry, g1: Registry, g2: Registry, g3: Registry)
    requires Step(MethodKey(m), g, g1) && Step(MethodKey(m), g1, g2) && Step(MethodKey(m), g2, g3)
    requires TypeRecorded(md, Context(t, InMethod(m)), g1, TDef(md.MethodOf(m).declaringType))
    requires AttributesRecorded(md, Context(t, InMethod(m)), g2, md.MethodOf(m).attrs)
    requires GenericParamsRecorded(md, Context(t, InMethod(m)), g3, md.MethodOf(m).genericParams)
    requires NewEdgesIn(Context(t, InMethod(m)), g, g1, Defs(md, Targets(TDef(md.MethodOf(m).declaringType))), {},
                        Ctors(md, TDef(md.MethodOf(m).declaringType)))
    requires AttributesBounded(md, Context(t, InMethod(m)), g1, g2, md.MethodOf(m).attrs)
    requires Bounded(Context(t, InMethod(m)), g2, g3, GenericParamsReach(md, md.MethodOf(m).genericParams))
    ensures Step(MethodKey(m), g, g3) && HeadRecorded(md, t, m, g3)
    ensures Bounded(Context(t, InMethod(m)), g, g3, HeadReach(md, m))
  {
    var ctx := Context(t, InMethod(m));
    var d := md.MethodOf(m);
    StepTrans(MethodKey(m), g1, g2, g3);
    StepTrans(MethodKey(m), g, g1, g3);
    TypeRecordedGrows(md, ctx, g1, g3, TDef(d.declaringType));
    AttributesRecordedGrows(md, ctx, g2, g3, d.attrs);
    BoundedSeq3(ctx, g, g1, g2, g3, TypeReach(md, TDef(d.declaringType)), AttributesReach(md, d.attrs),
                GenericParamsReach(md, d.genericParams));
  }

  /** The declaration steps of the signature, in the method's context: its
      declaring type, its custom attributes and its generic parameters; the
      run goes on exactly when all of them resolve. */
  function RecordSignatureHead(md: Meta, t: TypeId, m: MethodId, g: Registry): (r: Outcome)
    requires Valid(g)
    ensures r.Success? ==> Step(MethodKey(m), g, r.value) && HeadRecorded(md, t, m, r.value)
    ensures r.Success? ==> Bounded(Context(t, InMethod(m)), g, r.value, HeadReach(md, m))
    ensures r.Success? <==>
              && AllResolve(md, Targets(TDef(md.MethodOf(m).declaringType)))
              && AttributesResolve(md, md.MethodOf(m).attrs)
              && GenericParamsResolve(md, md.MethodOf(m).genericParams)
  {
    var ctx := Context(t, InMethod(m));
    var mdef := md.MethodOf(m);
    var g1 :- RecordType(md, ctx, TDef(mdef.declaringType), g);
    var g2 :- RecordCustomAttributes(md, ctx, mdef.attrs, g1);
    var g3 :- RecordGenericParameterProvider(md, ctx, mdef.genericParams, g2);
    HeadSteps(md, t, m, g, g1, g2, g3);
    Success(g3)
  }

  /** The declaration, the parameters and the overrides add up to one
      bounded step that records them all. */
  lemma FrontSteps(md: Meta, t: TypeId, m: MethodId, g: Registry, g3: Registry, g4: Registry, g5: Registry)
    requires Step(MethodKey(m), g, g3) && Step(MethodKey(m), g3, g4) && Step(MethodKey(m), g4, g5)
    requires HeadRecorded(md, t, m, g3)
    requires ParamsRecorded(md, Context(t, InMethod(m)), g4, md.MethodOf(m).params)
    requires OverridesRecorded(md, Context(t, InMethod(m)), g5, md.MethodOf(m).overrides)
    requires Bounded(Context(t, InMethod(m)), g, g3, HeadReach(md, m))
    requires Bounded(Context(t, InMethod(m)), g3, g4, ParamsReach(md, md.MethodOf(m).params))
    requires Bounded(Context(t, InMethod(m)), g4, g5, OverridesReach(md, md.MethodOf(m).overrides))
    ensures Step(MethodKey(m), g, g5) && FrontRecorded(md, t, m, g5)
    ensures Bounded(Context(t, InMethod(m)), g, g5, FrontReach(md, m))
  {
    var ctx := Context(t, InMethod(m));
    var d := md.MethodOf(m);
    StepTrans(MethodKey(m), g3, g4, g5);
    StepTrans(MethodKey(m), g, g3, g5);
    HeadRecordedGrows(md, t, m, g3, g5);
    ParamsRecordedGrows(md, ctx, g4, g5, d.params);
    BoundedSeq3(ctx, g, g3, g4, g5, HeadReach(md, m), ParamsReach(md, d.params), OverridesReach(md, d.overrides));
  }

  /** The five fallible steps of the signature, in the method's context:
      the declaration, the parameters and the overrides; the run goes on
      exactly when all of them resolve. */
  function RecordSignatureFront(md: Meta, t: TypeId, m: MethodId, g: Registry): (r: Outcome)
    requires Valid(g)
    ensures r.Success? ==> Step(MethodKey(m), g, r.value) && FrontRecorded(md, t, m, r.value)
    ensures r.Success? ==> Bounded(Context(t, InMethod(m)), g, r.value, FrontReach(md, m))
    ensures r.Success? <==> SignatureResolves(md, m)
  {
    var ctx := Context(t, InMethod(m));
    var mdef := md.MethodOf(m);
    var g3 :- RecordSignatureHead(md, t, m, g);
    var g4 :- RecordParameters(md, ctx, mdef.params, g3);
    var g5 :- RecordOverrides(md, ctx, mdef.overrides, g4);
    FrontSteps(md, t, m, g, g3, g4, g5);
    Success(g5)
  }

  /** The front, the SOAP header convention and the base methods together
      are bounded by the signature's reach. */
  lemma TailBounds(md: Meta, t: TypeId, m: MethodId, g: Registry, g5: Registry, g6: Registry, g7: Registry)
    requires Bounded(Context(t, InMethod(m)), g, g5, FrontReach(md, m))
    requires Bounded(Context(t, InMethod(m)), g5, g6, SoapHeadersReach(md, m, md.MethodOf(m).attrs, 0))
    requires NewEdgesIn(Context(t, InMethod(m)), g6, g7, {}, {}, BaseMethods(md, m))
    ensures Bounded(Context(t, InMethod(m)), g, g7, SignatureReach(md, m))
  {
    BoundedSeq3(Context(t, InMethod(m)), g, g5, g6, g7, FrontReach(md, m), SoapHeadersReach(md, m, md.MethodOf(m).attrs, 0),
                Reach({}, {}, BaseMethods(md, m)));
  }

  /** The first half of ProcessMethod: declaring type, custom attributes,
      generic parameters, parameters, overrides, the SOAP header convention
      and the annotated base methods. */
  function ProcessMethodSignature(md: Meta, t: TypeId, m: MethodId, g: Registry): (r: Outcome)
    requires Valid(g)
    ensures r.Success? ==> Step(MethodKey(m), g, r.value) && SignatureRecorded(md, t, m, r.value)
    ensures r.Success? ==> Bounded(Context(t, InMethod(m)), g, r.value, SignatureReach(md, m))
    ensures r.Success? <==> SignatureResolves(md, m)
  {
    var ctx := Context(t, InMethod(m));
    var g5 :- RecordSignatureFront(md, t, m, g);
    var g6 := RecordMethodSpecialCustomAttributes(md, ctx, m, g5);
    var g7 := RecordBaseMethods(md, ctx, m, g6);
    SignatureTail(md, t, m, g, g5, g6, g7);
    TailBounds(md, t, m, g, g5, g6, g7);
    Success(g7)
  }

  /** Everything ProcessMethod needs resolves: the signature, the return
      type, the return's custom attributes and marshaling, and the body. */
  ghost predicate MethodDefResolves(md: Meta, m: MethodId) {
    var d := md.MethodOf(m);
    && SignatureResolves(md, m)
    && AllResolve(md, Targets(d.returnType))
    && AttributesResolve(md, d.returnAttrs)
    && MarshalResolves(md, d.returnMarshal)
    && BodyResolves(md, d.body)
  }

  /** What ProcessMethod records, in the context of the method `m` of `t`. */
  ghost predicate MethodDefRecorded(md: Meta, t: TypeId, m: MethodId, g: Registry) {
    var ctx := Context(t, InMethod(m));
    var d := md.MethodOf(m);
    && SignatureRecorded(md, t, m, g)
    && TypeRecorded(md, ctx, g, d.returnType)
    && AttributesRecorded(md, ctx, g, d.returnAttrs)
    && MarshalRecorded(md, ctx, g, d.returnMarshal)
    && BodyRecorded(md, ctx, g, d.body)
  }

  lemma MethodDefRecordedGrows(md: Meta, t: TypeId, m: MethodId, g: Registry, g': Registry)
    requires Grows(g, g') && MethodDefRecorded(md, t, m, g)
    ensures MethodDefRecorded(md, t, m, g')
  {
    var ctx := Context(t, InMethod(m));
    var d := md.MethodOf(m);
    SignatureRecordedGrows(md, t, m, g, g');
    TypeRecordedGrows(md, ctx, g, g', d.returnType);
    AttributesRecordedGrows(md, ctx, g, g', d.returnAttrs);
    MarshalRecordedGrows(md, ctx, g, g', d.returnMarshal);
    BodyRecordedGrows(md, ctx, g, g', d.body);
  }

  /** The five steps of ProcessMethod add up to one step that records the
      whole method. */
  lemma MethodSteps(md: Meta, t: TypeId, m: MethodId, g: Registry, g1: Registry, g2: Registry, g3: Registry, g4: Registry, g5: Registry)
    requires Step(MethodKey(m), g, g1) && Step(MethodKey(m), g1, g2) && Step(MethodKey(m), g2, g3)
    requires Step(MethodKey(m), g3, g4) && Step(MethodKey(m), g4, g5)
    requires SignatureRecorded(md, t, m, g1)
    requires TypeRecorded(md, Context(t, InMethod(m)), g2, md.MethodOf(m).returnType)
    requires AttributesRecorded(md, Context(t, InMethod(m)), g3, md.MethodOf(m).returnAttrs)
    requires MarshalRecorded(md, Context(t, InMethod(m)), g4, md.MethodOf(m).returnMarshal)
    requires BodyRecorded(md, Context(t, InMethod(m)), g5, md.MethodOf(m).body)
    ensures Step(MethodKey(m), g, g5) && MethodDefRecorded(md, t, m, g5)
  {
    var ctx := Context(t, InMethod(m));
    var d := md.MethodOf(m);
    StepTrans(MethodKey(m), g3, g4, g5);
    StepTrans(MethodKey(m), g2, g3, g5);
    StepTrans(MethodKey(m), g1, g2, g5);
    StepTrans(MethodKey(m), g, g1, g5);
    SignatureRecordedGrows(md, t, m, g1, g5);
    TypeRecordedGrows(md, ctx, g2, g5, d.returnType);
    AttributesRecordedGrows(md, ctx, g3, g5, d.returnAttrs);
    MarshalRecordedGrows(md, ctx, g4, g5, d.returnMarshal);
  }

  /** The reach of ProcessMethod on `m`: its signature's, then its return
      type's, its return attributes', its return marshaling's and its
      body's. */
  ghost function MethodDefReach(md: Meta, m: MethodId): Reach {
    var d := md.MethodOf(m);
    Join(Join(Join(Join(SignatureReach(md, m), TypeReach(md, d.returnType)), AttributesReach(md, d.returnAttrs)),
              MarshalReach(md, d.returnMarshal)),
         BodyReach(md, d.body))
  }

  /** ProcessMethod on a method definition of `t`, in the method's context:
      its signature, then its return type, the return's custom attributes and
      marshaling, and its body. */
  function ProcessMethod(md: Meta, t: TypeId, m: MethodId, g: Registry): (r: Outcome)
    requires Valid(g)
    ensures r.Success? ==> Step(MethodKey(m), g, r.value) && MethodDefRecorded(md, t, m, r.value)
    ensures r.Success? ==> Bounded(Context(t, InMethod(m)), g, r.value, MethodDefReach(md, m))
    ensures r.Success? <==> MethodDefResolves(md, m)
  {
    var ctx := Context(t, InMethod(m));
    var mdef := md.MethodOf(m);
    var g1 :- ProcessMethodSignature(md, t, m, g);
    var g2 :- RecordType(md, ctx, mdef.returnType, g1);
    var g3 :- RecordCustomAttributes(md, ctx, mdef.returnAttrs, g2);
    var g4 :- RecordMarshalSpec(md, ctx, mdef.returnMarshal, g3);
    var g5 :- RecordMethodBody(md, ctx, mdef.body, g4);
    MethodSteps(md, t, m, g, g1, g2, g3, g4, g5);
    BoundedSeq4(ctx, g, g1, g2, g3, g4, SignatureReach(md, m), TypeReach(md, mdef.returnType),
                AttributesReach(md, mdef.returnAttrs), MarshalReach(md, mdef.returnMarshal));
    BoundedSeq(ctx, g, g4, g5, Join(Join(Join(SignatureReach(md, m), TypeReach(md, mdef.returnType)),
                                         AttributesReach(md, mdef.returnAttrs)), MarshalReach(md, mdef.returnMarshal)),
               BodyReach(md, mdef.body));
    Success(g5)
  }

  /** The method `m` of `t` points to `t` and has been processed. */
  ghost predicate MethodProcessed(md: Meta, t: TypeId, m: MethodId, g: Registry) {
    HasEdge(g, MethodKey(m), TypeKey(t)) && MethodDefRecorded(md, t, m, g)
  }

  lemma MethodProcessedGrows(md: Meta, t: TypeId, m: MethodId, g: Registry, g': Registry)
    requires Grows(g, g') && MethodProcessed(md, t, m, g)
    ensures MethodProcessed(md, t, m, g')
  {
    MethodDefRecordedGrows(md, t, m, g, g');
  }

  /** The containment edge and the bounded processing of `m` add only
      edges from `m` that MethodEdge allows. */
  lemma MethodOfEdges(md: Meta, t: TypeId, m: MethodId, g: Registry, g1: Registry, g2: Registry)
    requires GrowsAt(MethodKey(m), g, g1)
    requires forall x :: HasEdge(g1, MethodKey(m), x) <==> HasEdge(g, MethodKey(m), x) || x == TypeKey(t)
    requires GrowsAt(MethodKey(m), g1, g2) && Bounded(Context(t, InMethod(m)), g1, g2, MethodDefReach(md, m))
    ensures WalkEdgesIn(md, t, false, [], [m], g, g2)
  {
    StepEdges(Context(t, InMethod(m)), g1, g2, MethodDefReach(md, m));
    assert m in [m];
  }

  /** One iteration of ProcessMethods: the method, made current, points to
      its declaring type, then is processed. */
  function ProcessMethodOf(md: Meta, t: TypeId, m: MethodId, g: Registry): (r: Outcome)
    requires Valid(g)
    ensures r.Success? ==> Extends(g, r.value) && MethodProcessed(md, t, m, r.value)
    ensures r.Success? ==> WalkEdgesIn(md, t, false, [], [m], g, r.value)
    ensures r.Success? <==> MethodDefResolves(md, m)
  {
    var g1 := RecordRelation(md, MethodKey(m), TypeKey(t), g).0;
    assert Extends(g, g1) && HasEdge(g1, MethodKey(m), TypeKey(t));
    var g2 :- ProcessMethod(md, t, m, g1);
    StepExtends(MethodKey(m), g1, g2);
    ExtendsTrans(g, g1, g2);
    MethodOfEdges(md, t, m, g, g1, g2);
    Success(g2)
  }

  ghost predicate MethodsProcessed(md: Meta, t: TypeId, g: Registry, ms: seq<MethodId>) {
    forall i :: 0 <= i < |ms| ==> MethodProcessed(md, t, ms[i], g)
  }

  ghost predicate MethodDefsResolve(md: Meta, ms: seq<MethodId>) {
    forall i :: 0 <= i < |ms| ==> MethodDefResolves(md, ms[i])
  }

  lemma MethodsProcessedCons(md: Meta, t: TypeId, g: Registry, g': Registry, ms: seq<MethodId>)
    requires |ms| > 0 && Grows(g, g') && MethodProcessed(md, t, ms[0], g) && MethodsProcessed(md, t, g', ms[1..])
    ensures MethodsProcessed(md, t, g', ms)
  {
    MethodProcessedGrows(md, t, ms[0], g, g');
    assert forall i :: 1 <= i < |ms| ==> ms[i] == ms[1..][i - 1];
  }

  lemma MethodsProcessedGrows(md: Meta, t: TypeId, g: Registry, g': Registry, ms: seq<MethodId>)
    requires Grows(g, g') && MethodsProcessed(md, t, g, ms)
    ensures MethodsProcessed(md, t, g', ms)
  {
    forall i | 0 <= i < |ms| ensures MethodProcessed(md, t, ms[i], g') {
      MethodProcessedGrows(md, t, ms[i], g, g');
    }
  }

  lemma MethodDefsResolveCons(md: Meta, ms: seq<MethodId>)
    requires |ms| > 0
    ensures MethodDefsResolve(md, ms) <==> MethodDefResolves(md, ms[0]) && MethodDefsResolve(md, ms[1..])
  {
    assert forall i :: 1 <= i < |ms| ==> ms[i] == ms[1..][i - 1];
  }

  lemma MethodsEdgesCons(md: Meta, t: TypeId, ms: seq<MethodId>, g: Registry, g1: Registry, g2: Registry)
    requires |ms| > 0
    requires WalkEdgesIn(md, t, false, [], [ms[0]], g, g1) && WalkEdgesIn(md, t, false, [], ms[1..], g1, g2)
    ensures WalkEdgesIn(md, t, false, [], ms, g, g2)
  {
    assert forall x :: x in ms[1..] ==> x in ms;
    WalkEdgesWiden(md, t, false, [], [ms[0]], false, [], ms, g, g1);
    WalkEdgesWiden(md, t, false, [], ms[1..], false, [], ms, g1, g2);
    WalkEdgesTrans(md, t, false, [], ms, g, g1, g2);
  }

  /** ProcessMethods: every method in order; the walk goes on exactly when
      every method's references resolve. */
  function ProcessMethods(md: Meta, t: TypeId, ms: seq<MethodId>, g: Registry): (r: Outcome)
    requires Valid(g)
    ensures r.Success? ==> Extends(g, r.value) && MethodsProcessed(md, t, r.value, ms)
    ensures r.Success? ==> WalkEdgesIn(md, t, false, [], ms, g, r.value)
    ensures r.Success? <==> MethodDefsResolve(md, ms)
  {
    if |ms| == 0 then Success(g)
    else
      MethodDefsResolveCons(md, ms);
      var g1 :- ProcessMethodOf(md, t, ms[0], g);
      var r := ProcessMethods(md, t, ms[1..], g1);
      if r.Success? then
        ExtendsTrans(g, g1, r.value);
        MethodsProcessedCons(md, t, g1, r.value, ms);
        MethodsEdgesCons(md, t, ms, g, g1, r.value);
        r
      else r
  }

  // ---------------------------------------------------------------------
  // Types
  // ---------------------------------------------------------------------

  /** The declaring type of a nested type, as a type reference. */
  function DeclaringRef(td: TypeDef): Option<TypeRef> {
    if td.declaringType.Some? then Some(TDef(td.declaringType.value)) else None
  }

  /** Everything ProcessTypeHeader needs resolves. */
  ghost predicate HeaderResolves(md: Meta, t: TypeId) {
    var td := md.TypeOf(t);
    && (td.baseType.Some? ==> AllResolve(md, Targets(td.baseType.value)))
    && (td.declaringType.Some? ==> AllResolve(md, Targets(TDef(td.declaringType.value))))
    && AttributesResolve(md, td.attrs)
    && GenericParamsResolve(md, td.genericParams)
    && AllResolve(md, TargetsSeq(td.interfaces))
  }

  /** What ProcessTypeHeader records in the context of `t`: its base type,
      its declaring type, its custom attributes, its XML schema providers,
      its generic parameters and its interfaces. */
  ghost predicate HeaderRecorded(md: Meta, t: TypeId, g: Registry) {
    var ctx := Context(t, NoMember);
    var td := md.TypeOf(t);
    && (td.baseType.Some? ==> TypeRecorded(md, ctx, g, td.baseType.value))
    && (td.declaringType.Some? ==> TypeRecorded(md, ctx, g, TDef(td.declaringType.value)))
    && AttributesRecorded(md, ctx, g, td.attrs)
    && SchemaProvidersRecorded(md, ctx, g, t)
    && GenericParamsRecorded(md, ctx, g, td.genericParams)
    && TypesRecorded(md, ctx, g, td.interfaces)
  }

  lemma HeaderRecordedGrows(md: Meta, t: TypeId, g: Registry, g': Registry)
    requires Grows(g, g') && HeaderRecorded(md, t, g)
    ensures HeaderRecorded(md, t, g')
  {
    var ctx := Context(t, NoMember);
    var td := md.TypeOf(t);
    if td.baseType.Some? {
      TypeRecordedGrows(md, ctx, g, g', td.baseType.value);
    }
    if td.declaringType.Some? {
      TypeRecordedGrows(md, ctx, g, g', TDef(td.declaringType.value));
    }
    AttributesRecordedGrows(md, ctx, g, g', td.attrs);
    SchemaProvidersGrow(md, ctx, g, g', t);
    GenericParamsRecordedGrows(md, ctx, g, g', td.genericParams);
    TypesRecordedGrows(md, ctx, g, g', td.interfaces);
  }

  /** The three steps of RecordTypeLinks add up to one step that keeps the
      base type and the declaring type recorded. */
  lemma LinkSteps(md: Meta, t: TypeId, g: Registry, g1: Registry, g2: Registry, g3: Registry)
    requires Step(TypeKey(t), g, g1) && Step(TypeKey(t), g1, g2) && Step(TypeKey(t), g2, g3)
    requires md.TypeOf(t).baseType.Some? ==> TypeRecorded(md, Context(t, NoMember), g1, md.TypeOf(t).baseType.value)
    requires md.TypeOf(t).declaringType.Some? ==> TypeRecorded(md, Context(t, NoMember), g2, TDef(md.TypeOf(t).declaringType.value))
    ensures Step(TypeKey(t), g, g3)
    ensures md.TypeOf(t).baseType.Some? ==> TypeRecorded(md, Context(t, NoMember), g3, md.TypeOf(t).baseType.value)
    ensures md.TypeOf(t).declaringType.Some? ==> TypeRecorded(md, Context(t, NoMember), g3, TDef(md.TypeOf(t).declaringType.value))
  {
    var ctx := Context(t, NoMember);
    var td := md.TypeOf(t);
    StepTrans(TypeKey(t), g1, g2, g3);
    StepTrans(TypeKey(t), g, g1, g3);
    if td.baseType.Some? {
      TypeRecordedGrows(md, ctx, g1, g3, td.baseType.value);
    }
    if td.declaringType.Some? {
      TypeRecordedGrows(md, ctx, g2, g3, TDef(td.declaringType.value));
    }
  }

  /** The reach of RecordTypeLinks on `t`. */
  ghost function LinksReach(md: Meta, t: TypeId): Reach {
    var td := md.TypeOf(t);
    Join(Join(OptTypeReach(md, td.baseType), OptTypeReach(md, DeclaringRef(td))), AttributesReach(md, td.attrs))
  }

  /** The reach of ProcessTypeHeader on `t`: its links', its XML schema
      providers', its generic parameters' and its interfaces'. */
  ghost function HeaderReach(md: Meta, t: TypeId): Reach {
    var td := md.TypeOf(t);
    Join(Join(Join(LinksReach(md, t), ProvidersReach(md, t, td.attrs, 0)), GenericParamsReach(md, td.genericParams)),
         TypesReach(md, td.interfaces))
  }

  /** The first three steps of ProcessTypeHeader: the base type, the
      declaring type and the custom attributes of `t`. */
  function RecordTypeLinks(md: Meta, t: TypeId, g: Registry): (r: Outcome)
    requires Valid(g)
    ensures r.Success? ==> Step(TypeKey(t), g, r.value)
    ensures r.Success? && md.TypeOf(t).baseType.Some? ==>
              TypeRecorded(md, Context(t, NoMember), r.value, md.TypeOf(t).baseType.value)
    ensures r.Success? && md.TypeOf(t).declaringType.Some? ==>
              TypeRecorded(md, Context(t, NoMember), r.value, TDef(md.TypeOf(t).declaringType.value))
    ensures r.Success? ==> AttributesRecorded(md, Context(t, NoMember), r.value, md.TypeOf(t).attrs)
    ensures r.Success? ==> Bounded(Context(t, NoMember), g, r.value, LinksReach(md, t))
    ensures r.Success? <==>
              && (md.TypeOf(t).baseType.Some? ==> AllResolve(md, Targets(md.TypeOf(t).baseType.value)))
              && (md.TypeOf(t).declaringType.Some? ==> AllResolve(md, Targets(TDef(md.TypeOf(t).declaringType.value))))
              && AttributesResolve(md, md.TypeOf(t).attrs)
  {
    var ctx := Context(t, NoMember);
    var td := md.TypeOf(t);
    var g1 :- RecordOptionalType(md, ctx, td.baseType, g);
    var g2 :- RecordOptionalType(md, ctx, DeclaringRef(td), g1);
    var g3 :- RecordCustomAttributes(md, ctx, td.attrs, g2);
    LinkSteps(md, t, g, g1, g2, g3);
    BoundedSeq3(ctx, g, g1, g2, g3, OptTypeReach(md, td.baseType), OptTypeReach(md, DeclaringRef(td)), AttributesReach(md, td.attrs));
    Success(g3)
  }

  /** The remaining steps of ProcessTypeHeader complete the header. */
  lemma HeaderBack(md: Meta, t: TypeId, g: Registry, g3: Registry, g4: Registry, g5: Registry, g6: Registry)
    requires Step(TypeKey(t), g, g3) && Step(TypeKey(t), g3, g4) && Step(TypeKey(t), g4, g5) && Step(TypeKey(t), g5, g6)
    requires md.TypeOf(t).baseType.Some? ==> TypeRecorded(md, Context(t, NoMember), g3, md.TypeOf(t).baseType.value)
    requires md.TypeOf(t).declaringType.Some? ==> TypeRecorded(md, Context(t, NoMember), g3, TDef(md.TypeOf(t).declaringType.value))
    requires AttributesRecorded(md, Context(t, NoMember), g3, md.TypeOf(t).attrs)
    requires SchemaProvidersRecorded(md, Context(t, NoMember), g4, t)
    requires GenericParamsRecorded(md, Context(t, NoMember), g5, md.TypeOf(t).genericParams)
    requires TypesRecorded(md, Context(t, NoMember), g6, md.TypeOf(t).interfaces)
    ensures Step(TypeKey(t), g, g6) && HeaderRecorded(md, t, g6)
  {
    var ctx := Context(t, NoMember);
    var td := md.TypeOf(t);
    StepTrans(TypeKey(t), g4, g5, g6);
    StepTrans(TypeKey(t), g3, g4, g6);
    StepTrans(TypeKey(t), g, g3, g6);
    if td.baseType.Some? {
      TypeRecordedGrows(md, ctx, g3, g6, td.baseType.value);
    }
    if td.declaringType.Some? {
      TypeRecordedGrows(md, ctx, g3, g6, TDef(td.declaringType.value));
    }
    AttributesRecordedGrows(md, ctx, g3, g6, td.attrs);
    SchemaProvidersGrow(md, ctx, g4, g6, t);
    GenericParamsRecordedGrows(md, ctx, g5, g6, td.genericParams);
  }

  /** The first half of ProcessType, in the type's context: base type,
      declaring type, custom attributes, the XML schema provider convention,
      generic parameters and interfaces. */
  function ProcessTypeHeader(md: Meta, t: TypeId, g: Registry): (r: Outcome)
    requires Valid(g)
    ensures r.Success? ==> Step(TypeKey(t), g, r.value) && HeaderRecorded(md, t, r.value)
    ensures r.Success? ==> Bounded(Context(t, NoMember), g, r.value, HeaderReach(md, t))
    ensures r.Success? <==> HeaderResolves(md, t)
  {
    var ctx := Context(t, NoMember);
    var td := md.TypeOf(t);
    var g3 :- RecordTypeLinks(md, t, g);
    var g4 := RecordTypeSpecialCustomAttributes(md, ctx, t, g3);
    var g5 :- RecordGenericParameterProvider(md, ctx, td.genericParams, g4);
    var g6 :- RecordTypes(md, ctx, td.interfaces, g5);
    HeaderBack(md, t, g, g3, g4, g5, g6);
    BoundedSeq4(ctx, g, g3, g4, g5, g6, LinksReach(md, t), ProvidersReach(md, t, td.attrs, 0),
                GenericParamsReach(md, td.genericParams), TypesReach(md, td.interfaces));
    Success(g6)
  }

  /** Everything processing `t` itself needs resolves: its header, its
      fields and its methods. */
  ghost predicate TypeResolves(md: Meta, t: TypeId) {
    HeaderResolves(md, t) && FieldDefsResolve(md, md.TypeOf(t).fields) && MethodDefsResolve(md, md.TypeOf(t).methods)
  }

  /** `t` has been processed: its header is recorded, and every field and
      method of it points to it and has been processed. */
  ghost predicate TypeProcessed(md: Meta, g: Registry, t: TypeId) {
    && HeaderRecorded(md, t, g)
    && FieldsProcessed(md, t, g, md.TypeOf(t).fields)
    && MethodsProcessed(md, t, g, md.TypeOf(t).methods)
  }

  lemma TypeProcessedGrows(md: Meta, g: Registry, g': Registry, t: TypeId)
    requires Grows(g, g') && TypeProcessed(md, g, t)
    ensures TypeProcessed(md, g', t)
  {
    HeaderRecordedGrows(md, t, g, g');
    FieldsProcessedGrows(md, t, g, g', md.TypeOf(t).fields);
    MethodsProcessedGrows(md, t, g, g', md.TypeOf(t).methods);
  }

  /** The header, the fields and the methods of `t` add only edges the walk
      of `t` allows. */
  lemma OwnEdges(md: Meta, t: TypeId, g: Registry, g1: Registry, g2: Registry, g3: Registry)
    requires GrowsAt(TypeKey(t), g, g1) && Bounded(Context(t, NoMember), g, g1, HeaderReach(md, t))
    requires WalkEdgesIn(md, t, false, md.TypeOf(t).fields, [], g1, g2)
    requires WalkEdgesIn(md, t, false, [], md.TypeOf(t).methods, g2, g3)
    ensures TypesEdgesIn(md, [t], g, g3)
  {
    var td := md.TypeOf(t);
    StepEdges(Context(t, NoMember), g, g1, HeaderReach(md, t));
    assert WalkEdgesIn(md, t, true, [], [], g, g1);
    WalkEdgesWiden(md, t, true, [], [], true, td.fields, td.methods, g, g1);
    WalkEdgesWiden(md, t, false, td.fields, [], true, td.fields, td.methods, g1, g2);
    WalkEdgesWiden(md, t, false, [], td.methods, true, td.fields, td.methods, g2, g3);
    WalkEdgesTrans(md, t, true, td.fields, td.methods, g, g1, g2);
    WalkEdgesTrans(md, t, true, td.fields, td.methods, g, g2, g3);
    TypeEdgesOne(md, t, g, g3);
  }

  /** ProcessType without its nested types: header, then fields, then methods. */
  function ProcessTypeOwn(md: Meta, t: TypeId, g: Registry): (r: Outcome)
    requires Valid(g)
    ensures r.Success? ==> Extends(g, r.value) && TypeProcessed(md, r.value, t)
    ensures r.Success? ==> TypesEdgesIn(md, [t], g, r.value)
    ensures r.Success? <==> TypeResolves(md, t)
  {
    var g1 :- ProcessTypeHeader(md, t, g);
    var g2 :- ProcessFields(md, t, md.TypeOf(t).fields, g1);
    var g3 :- ProcessMethods(md, t, md.TypeOf(t).methods, g2);
    StepExtends(TypeKey(t), g, g1);
    ExtendsTrans(g, g1, g2);
    ExtendsTrans(g, g2, g3);
    HeaderRecordedGrows(md, t, g1, g3);
    FieldsProcessedGrows(md, t, g2, g3, md.TypeOf(t).fields);
    OwnEdges(md, t, g, g1, g2, g3);
    Success(g3)
  }

  /** The types of a tree (the type, then its nested types), in walk order. */
  ghost function TreeTypes(tt: TypeTree): seq<TypeId>
    decreases ForestSize(tt.nested), 1
  {
    [tt.id] + ForestTypes(tt.nested)
  }

  ghost function ForestTypes(ts: seq<TypeTree>): seq<TypeId>
    decreases ForestSize(ts), 0
  {
    if |ts| == 0 then [] else TreeTypes(ts[0]) + ForestTypes(ts[1..])
  }

  ghost predicate AllProcessed(md: Meta, g: Registry, ts: seq<TypeId>) {
    forall i :: 0 <= i < |ts| ==> TypeProcessed(md, g, ts[i])
  }

  ghost predicate AllTypesResolve(md: Meta, ts: seq<TypeId>) {
    forall i :: 0 <= i < |ts| ==> TypeResolves(md, ts[i])
  }

  lemma AllProcessedGrows(md: Meta, g: Registry, g': Registry, ts: seq<TypeId>)
    requires Grows(g, g') && AllProcessed(md, g, ts)
    ensures AllProcessed(md, g', ts)
  {
    forall i | 0 <= i < |ts| ensures TypeProcessed(md, g', ts[i]) {
      TypeProcessedGrows(md, g, g', ts[i]);
    }
  }

  lemma AllProcessedAppend(md: Meta, g: Registry, a: seq<TypeId>, b: seq<TypeId>)
    requires AllProcessed(md, g, a) && AllProcessed(md, g, b)
    ensures AllProcessed(md, g, a + b)
  {
    forall i | 0 <= i < |a + b| ensures TypeProcessed(md, g, (a + b)[i]) {
      if i >= |a| {
        assert (a + b)[i] == b[i - |a|];
      }
    }
  }

  lemma AllTypesResolveAppend(md: Meta, a: seq<TypeId>, b: seq<TypeId>)
    ensures AllTypesResolve(md, a + b) <==> AllTypesResolve(md, a) && AllTypesResolve(md, b)
  {
    assert forall i :: 0 <= i < |a| ==> (a + b)[i] == a[i];
    assert forall i :: 0 <= i < |b| ==> (a + b)[|a| + i] == b[i];
  }

  lemma TreeProcessedAfter(md: Meta, tt: TypeTree, g: Registry, g1: Registry, g2: Registry)
    requires Extends(g, g1) && TypeProcessed(md, g1, tt.id)
    requires Extends(g1, g2) && AllProcessed(md, g2, ForestTypes(tt.nested))
    ensures Extends(g, g2) && AllProcessed(md, g2, TreeTypes(tt))
  {
    ExtendsTrans(g, g1, g2);
    TypeProcessedGrows(md, g1, g2, tt.id);
    assert AllProcessed(md, g2, [tt.id]);
    AllProcessedAppend(md, g2, [tt.id], ForestTypes(tt.nested));
  }

  /** A tree resolves exactly when its root and its nested types do. */
  lemma TreeTypesResolve(md: Meta, tt: TypeTree)
    ensures AllTypesResolve(md, TreeTypes(tt)) <==> TypeResolves(md, tt.id) && AllTypesResolve(md, ForestTypes(tt.nested))
  {
    AllTypesResolveAppend(md, [tt.id], ForestTypes(tt.nested));
    assert [tt.id][0] == tt.id;
  }

  /** ProcessType: the type itself, then each nested type. The walk goes on
      exactly when every type of the tree resolves. */
  function ProcessType(md: Meta, tt: TypeTree, g: Registry): (r: Outcome)
    requires Valid(g)
    ensures r.Success? ==> Extends(g, r.value) && AllProcessed(md, r.value, TreeTypes(tt))
    ensures r.Success? ==> TypesEdgesIn(md, TreeTypes(tt), g, r.value)
    ensures r.Success? <==> AllTypesResolve(md, TreeTypes(tt))
    decreases ForestSize(tt.nested), 1
  {
    TreeTypesResolve(md, tt);
    var g1 :- ProcessTypeOwn(md, tt.id, g);
    var g2 :- ProcessTypes(md, tt.nested, g1);
    TreeProcessedAfter(md, tt, g, g1, g2);
    TypesEdgesAppend(md, [tt.id], ForestTypes(tt.nested), g, g1, g2);
    Success(g2)
  }

  /** The types of a forest in order (ProcessAssembly on a module's types). */
  function ProcessTypes(md: Meta, ts: seq<TypeTree>, g: Registry): (r: Outcome)
    requires Valid(g)
    ensures r.Success? ==> Extends(g, r.value) && AllProcessed(md, r.value, ForestTypes(ts))
    ensures r.Success? ==> TypesEdgesIn(md, ForestTypes(ts), g, r.value)
    ensures r.Success? <==> AllTypesResolve(md, ForestTypes(ts))
    decreases ForestSize(ts), 0
  {
    if |ts| == 0 then Success(g)
    else
      AllTypesResolveAppend(md, TreeTypes(ts[0]), ForestTypes(ts[1..]));
      var g1 :- ProcessType(md, ts[0], g);
      var g2 :- ProcessTypes(md, ts[1..], g1);
      ExtendsTrans(g, g1, g2);
      AllProcessedGrows(md, g1, g2, TreeTypes(ts[0]));
      AllProcessedAppend(md, g2, TreeTypes(ts[0]), ForestTypes(ts[1..]));
      TypesEdgesAppend(md, TreeTypes(ts[0]), ForestTypes(ts[1..]), g, g1, g2);
      Success(g2)
  }

  // ---------------------------------------------------------------------
  // The whole step
  // ---------------------------------------------------------------------

  /** The types of every assembly, in walk order. */
  ghost function AssemblyTypes(asms: seq<Assembly>): seq<TypeId> {
    if |asms| == 0 then [] else ForestTypes(asms[0].types) + AssemblyTypes(asms[1..])
  }

  /** Every assembly in order; the walk goes on exactly when every type of
      every assembly resolves. */
  function ProcessAssemblies(md: Meta, asms: seq<Assembly>, g: Registry): (r: Outcome)
    requires Valid(g)
    ensures r.Success? ==> Extends(g, r.value) && AllProcessed(md, r.value, AssemblyTypes(asms))
    ensures r.Success? ==> TypesEdgesIn(md, AssemblyTypes(asms), g, r.value)
    ensures r.Success? <==> AllTypesResolve(md, AssemblyTypes(asms))
  {
    if |asms| == 0 then Success(g)
    else
      AllTypesResolveAppend(md, ForestTypes(asms[0].types), AssemblyTypes(asms[1..]));
      var g1 :- ProcessTypes(md, asms[0].types, g);
      var g2 :- ProcessAssemblies(md, asms[1..], g1);
      ExtendsTrans(g, g1, g2);
      AllProcessedGrows(md, g1, g2, ForestTypes(asms[0].types));
      AllProcessedAppend(md, g2, ForestTypes(asms[0].types), AssemblyTypes(asms[1..]));
      TypesEdgesAppend(md, ForestTypes(asms[0].types), AssemblyTypes(asms[1..]), g, g1, g2);
      Success(g2)
  }

  /** Process: every assembly from an empty registry. A completed run leaves
      a well-formed graph without self-edges in which every walked type has
      been processed, and every edge of which the walk of some type allows:
      a containment edge from a member to its type, or an edge from a type
      or member to something it references. The run completes exactly when
      every reference the walk meets resolves. */
  function Mark(md: Meta): (r: Outcome)
    ensures r.Success? ==> Valid(r.value) && Irreflexive(r.value)
    ensures r.Success? ==> AllProcessed(md, r.value, AssemblyTypes(md.assemblies))
    ensures r.Success? ==> forall a, b :: HasEdge(r.value, a, b) ==>
              exists t :: t in AssemblyTypes(md.assemblies) && TypeEdge(md, t, a, b)
    ensures r.Success? <==> AllTypesResolve(md, AssemblyTypes(md.assemblies))
  {
    assert Valid(EmptyRegistry) && Irreflexive(EmptyRegistry);
    ProcessAssemblies(md, md.assemblies, EmptyRegistry)
  }
}
