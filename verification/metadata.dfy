/** The read-only metadata the mark step walks: assemblies, their type
    definitions (with nested types), fields, methods, custom attributes,
    method bodies, and the references that mention them. The metadata
    reader and its resolver are outside the model; resolution is given as
    lookup tables, and the annotation store as a map from a method to the
    base methods it is known to override. */
module Metadata {
  import opened Wrappers

  type TypeId = nat
  type FieldId = nat
  type MethodId = nat

  /** A type as an operand, a signature or a base list mentions it. The
      specification layers wrap an element type; TDef is a definition itself;
      TRef must be looked up by the resolver. */
  datatype TypeRef =
    | TDef(id: TypeId)
    | TRef(scope: string, fullName: string)
    | GenericParam(name: string)
    | GenericInst(elem: TypeRef, args: seq<TypeRef>)
    | Modifier(elem: TypeRef, modType: TypeRef, required: bool)
    | ArrayOf(elem: TypeRef)
    | ByRef(elem: TypeRef)
    | Pointer(elem: TypeRef)
  {
    /** A type specification: a layer around an element type. */
    predicate IsSpec() {
      GenericInst? || Modifier? || ArrayOf? || ByRef? || Pointer?
    }
  }

  /** A method as an instruction, an override list or an attribute mentions it. */
  datatype MethodRef =
    | MDef(id: MethodId)
    | MRef(declaringType: TypeRef, name: string, arity: nat)
    | GenericInstMethod(elem: MethodRef, args: seq<TypeRef>)

  /** A field as an instruction or a lookup mentions it. */
  datatype FieldRef =
    | FDef(id: FieldId)
    | FRef(declaringType: TypeRef, name: string)

  /** The value of a custom-attribute argument. */
  datatype AttrValue = StringValue(s: string) | TypeValue(t: TypeRef) | NullValue | OtherValue

  datatype AttrArg = AttrArg(argType: TypeRef, value: AttrValue)

  datatype NamedArg = NamedArg(name: string, argument: AttrArg)

  datatype CustomAttribute = CustomAttribute(
    ctor: MethodRef,
    ctorArgs: seq<AttrArg>,
    properties: seq<NamedArg>,
    fields: seq<NamedArg>)

  /** Marshaling information; only a custom marshaler names a type. */
  datatype MarshalInfo = NoMarshal | CustomMarshal(managedType: Option<TypeRef>) | OtherMarshal

  datatype GenericParamDef = GenericParamDef(
    name: string,
    attrs: seq<CustomAttribute>,
    constraints: seq<TypeRef>,
    defaultCtorConstraint: bool)

  datatype ParamDef = ParamDef(paramType: TypeRef, attrs: seq<CustomAttribute>, marshal: MarshalInfo)

  datatype HandlerKind = Catch | Filter | Finally | Fault

  datatype Handler = Handler(kind: HandlerKind, catchType: Option<TypeRef>)

  /** The operand of an InlineTok instruction: a type, a method or a field. */
  datatype Token = TokType(t: TypeRef) | TokMethod(m: MethodRef) | TokField(f: FieldRef)

  /** An instruction reduced to its operand, tagged by the opcode's operand kind. */
  datatype Operand =
    | InlineField(f: FieldRef)
    | InlineMethod(m: MethodRef)
    | InlineTok(tok: Token)
    | InlineType(t: TypeRef)
    | OtherOperand

  datatype Body = Body(locals: seq<TypeRef>, handlers: seq<Handler>, instructions: seq<Operand>)

  datatype PropertyDef = PropertyDef(name: string, getter: Option<MethodId>, setter: Option<MethodId>)

  datatype TypeDef = TypeDef(
    fullName: string,
    moduleName: string,
    declaringType: Option<TypeId>,
    baseType: Option<TypeRef>,
    interfaces: seq<TypeRef>,
    genericParams: seq<GenericParamDef>,
    attrs: seq<CustomAttribute>,
    fields: seq<FieldId>,
    methods: seq<MethodId>,
    properties: seq<PropertyDef>)

  datatype FieldDef = FieldDef(
    name: string,
    declaringType: TypeId,
    fieldType: TypeRef,
    attrs: seq<CustomAttribute>,
    marshal: MarshalInfo)

  datatype MethodDef = MethodDef(
    name: string,
    declaringType: TypeId,
    isStatic: bool,
    isConstructor: bool,
    params: seq<ParamDef>,
    genericParams: seq<GenericParamDef>,
    attrs: seq<CustomAttribute>,
    overrides: seq<MethodRef>,
    returnType: TypeRef,
    returnAttrs: seq<CustomAttribute>,
    returnMarshal: MarshalInfo,
    body: Option<Body>)

  /** A type declared in a module, with its nested types. */
  datatype TypeTree = TypeTree(id: TypeId, nested: seq<TypeTree>)

  datatype Assembly = Assembly(name: string, types: seq<TypeTree>)

  /** The number of types in a forest, the termination measure of the walk. */
  function ForestSize(ts: seq<TypeTree>): (n: nat)
    ensures |ts| > 0 ==> n > ForestSize(ts[0].nested) && n > ForestSize(ts[1..])
    decreases ts
  {
    if |ts| == 0 then 0 else 1 + ForestSize(ts[0].nested) + ForestSize(ts[1..])
  }

  /** Everything loaded: the assemblies to walk, the definition tables, the
      resolver's tables for references, and the annotation store's base
      methods. */
  datatype Meta = Meta(
    assemblies: seq<Assembly>,
    types: map<TypeId, TypeDef>,
    fields: map<FieldId, FieldDef>,
    methods: map<MethodId, MethodDef>,
    typeRefs: map<TypeRef, TypeId>,
    fieldRefs: map<FieldRef, FieldId>,
    methodRefs: map<MethodRef, MethodId>,
    baseMethods: map<MethodId, seq<MethodId>>)
  {
    // Definitions are looked up by id; an id outside a table reads as an
    // empty definition, which only a malformed table can produce.
    function TypeOf(id: TypeId): TypeDef {
      if id in types then types[id] else TypeDef("", "", None, None, [], [], [], [], [], [])
    }

    function FieldOf(id: FieldId): FieldDef {
      if id in fields then fields[id] else FieldDef("", 0, GenericParam(""), [], NoMarshal)
    }

    function MethodOf(id: MethodId): MethodDef {
      if id in methods then methods[id]
      else MethodDef("", 0, false, false, [], [], [], [], GenericParam(""), [], NoMarshal, None)
    }
  }

  const SystemTypeName := "System.Type"
  const SoapHeaderAttributeName := "System.Web.Services.Protocols.SoapHeaderAttribute"
  const XmlSchemaProviderAttributeName := "System.Xml.Serialization.XmlSchemaProviderAttribute"

  /** Structural size of a type reference, the termination measure of the
      recursive walks over reference trees. */
  function Size(t: TypeRef): (n: nat)
    ensures n >= 1
  {
    match t
    case GenericInst(e, args) => 1 + Size(e) + SizeSeq(args)
    case Modifier(e, m, _) => 1 + Size(e) + Size(m)
    case ArrayOf(e) => 1 + Size(e)
    case ByRef(e) => 1 + Size(e)
    case Pointer(e) => 1 + Size(e)
    case _ => 1
  }

  function SizeSeq(ts: seq<TypeRef>): (n: nat)
    ensures |ts| > 0 ==> n > Size(ts[0]) && n > SizeSeq(ts[1..])
  {
    if |ts| == 0 then 0 else 1 + Size(ts[0]) + SizeSeq(ts[1..])
  }

  /** The element left once every specification layer is peeled off. */
  function ElementType(t: TypeRef): (e: TypeRef)
    ensures !e.IsSpec()
  {
    if t.IsSpec() then ElementType(t.elem) else t
  }

  /** Cecil's full name of a reference. */
  function FullName(md: Meta, t: TypeRef): string
    decreases Size(t), 1
  {
    match t
    case TDef(id) => md.TypeOf(id).fullName
    case TRef(_, n) => n
    case GenericParam(n) => n
    case GenericInst(e, args) => FullName(md, e) + "<" + JoinNames(md, args) + ">"
    case Modifier(e, m, req) =>
      FullName(md, e) + (if req then " modreq(" else " modopt(") + FullName(md, m) + ")"
    case ArrayOf(e) => FullName(md, e) + "[]"
    case ByRef(e) => FullName(md, e) + "&"
    case Pointer(e) => FullName(md, e) + "*"
  }

  function JoinNames(md: Meta, ts: seq<TypeRef>): string
    decreases SizeSeq(ts), 0
  {
    if |ts| == 0 then ""
    else if |ts| == 1 then FullName(md, ts[0])
    else FullName(md, ts[0]) + "," + JoinNames(md, ts[1..])
  }

  /** The resolver (ResolveTypeDefinition): a definition resolves to itself,
      a reference through the resolver's table, a generic parameter to
      nothing, and a specification to its element's definition. */
  function ResolveType(md: Meta, t: TypeRef): Option<TypeId> {
    match t
    case TDef(id) => Some(id)
    case TRef(_, _) => if t in md.typeRefs then Some(md.typeRefs[t]) else None
    case GenericParam(_) => None
    case _ => ResolveType(md, t.elem)
  }

  function ResolveField(md: Meta, f: FieldRef): Option<FieldId> {
    match f
    case FDef(id) => Some(id)
    case FRef(_, _) => if f in md.fieldRefs then Some(md.fieldRefs[f]) else None
  }

  function ResolveMethod(md: Meta, m: MethodRef): Option<MethodId> {
    match m
    case MDef(id) => Some(id)
    case MRef(_, _, _) => if m in md.methodRefs then Some(md.methodRefs[m]) else None
    case GenericInstMethod(e, _) => ResolveMethod(md, e)
  }

  /** The declaring type of a method reference; a generic method instance
      reports its element method's. */
  function MethodDeclaringType(md: Meta, m: MethodRef): TypeRef {
    match m
    case MDef(id) => TDef(md.MethodOf(id).declaringType)
    case MRef(dt, _, _) => dt
    case GenericInstMethod(e, _) => MethodDeclaringType(md, e)
  }

  /** The method left once every generic-instance layer is peeled off. */
  function OriginalMethod(m: MethodRef): (r: MethodRef)
    ensures !r.GenericInstMethod?
  {
    if m.GenericInstMethod? then OriginalMethod(m.elem) else m
  }

  /** The generic parameters of the definition a generic instance is built
      from (GetGenericProviderFromInstance), when that definition resolves. */
  function TypeInstanceParams(md: Meta, elem: TypeRef): Option<seq<GenericParamDef>> {
    match ResolveType(md, elem)
    case None => None
    case Some(d) => Some(md.TypeOf(d).genericParams)
  }

  function MethodInstanceParams(md: Meta, elem: MethodRef): Option<seq<GenericParamDef>> {
    match ResolveMethod(md, elem)
    case None => None
    case Some(d) => Some(md.MethodOf(d).genericParams)
  }

  /** The resolved base type of a definition, if it has one that resolves. */
  function BaseOf(md: Meta, t: TypeId): Option<TypeId> {
    match md.TypeOf(t).baseType
    case None => None
    case Some(b) => ResolveType(md, b)
  }

  /** A bound on base-chain walks: more steps than there are definitions. */
  function BaseWalkFuel(md: Meta): nat {
    |md.types| + 1
  }
}
