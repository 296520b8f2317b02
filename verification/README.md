# ildep mark step: a verified model of the dependency-graph builder

ildep's mark step walks every type of every loaded assembly. For each type it
also walks the type's fields, methods, custom attributes, generic parameters
and method bodies. It resolves every type, field and method reference it meets
to a definition. It then records an edge from the *current* node to the
definition's node. The current node is the field being processed, else the
method being processed, else the type being processed. Nodes are created on
first request with a sequential id and a label cleaned of `\ / < >`. Each
node's outgoing edges form a set, so recording the same edge twice changes
nothing. A reference that does not resolve aborts the run.

The model is functional:

- The metadata is immutable data (`Metadata`): type, field and method
  definitions indexed by id, references as trees of specification layers, and
  the resolver and the annotation store's base-method lists given as tables.
- The node registry (`Identity`) is a value threaded through pure recording
  functions that return `Success(registry)` or `Failure(error)`.
- Recording of references is in `Recording`, custom attributes and the
  named-member conventions are in `Attributes`, and the walk over assemblies,
  types, fields, methods and bodies is in `Walk`.

Every recording function keeps the registry invariant `Valid`:

- exactly the nodes have edge sets;
- a node's id is its position in creation order, so ids are distinct and
  below the counter;
- labels are clean;
- edges end at nodes.

Every recording function also grows the registry, adds edges only at the
current node, and never adds a self-edge. Each one succeeds exactly when the
references it meets resolve, and then everything it walked is recorded. A
whole run (`Walk.Mark`) completes exactly when every reference of every
walked type resolves. It then ends with an edge from every field and every
method of every walked type to that type's node, and with every reference
the walk met recorded in the context of its field, method or type. Conversely,
every edge it holds is one of these: a containment edge from a member to its
type, or an edge from a type, field or method to a definition that its own
walk references.

## Model

| member | source | states |
|---|---|---|
| Metadata.ElementType | Mono.Linker.Steps/MarkStep.cs:447-462 | the reference left after peeling every specification layer is not itself a specification |
| Metadata.OriginalMethod | Mono.Linker.Steps/MarkStep.cs:790-801 | the method left after peeling every generic-instance layer is not a generic instance |
| Identity.Massage | Mono.Linker.Steps/MarkStep.cs:494-501 | the label keeps its length; each of `\ / < >` becomes `_` and every other character is kept; the result is clean |
| Identity.MassageIdempotent | Mono.Linker.Steps/MarkStep.cs:494-501 | cleaning twice equals cleaning once, and a clean label is left as it is |
| Identity.NewNode | Mono.Linker.Steps/MarkStep.cs:503-532 | a fresh node takes the given counter value as its id and has a clean label |
| Identity.IdsDistinct | Mono.Linker.Steps/MarkStep.cs:503-532 | in a valid registry, two different definitions have different node ids |
| Identity.NodeFor | Mono.Linker.Steps/MarkStep.cs:539-557 | a known definition returns its stored node and leaves the registry unchanged; an unknown one gets the counter as its id and the counter grows by one; no edge changes |
| Identity.NodeForMemoised | Mono.Linker.Steps/MarkStep.cs:539-557 | asking twice for the same definition returns the same node and leaves the registry as the first request left it |
| Identity.AddEdge | Mono.Linker.Steps/MarkStep.cs:574 | the source's edge set becomes the old set plus the target; no other node gains an edge |
| Identity.RecordRelation | Mono.Linker.Steps/MarkStep.cs:572-594 | the registry stays valid and only the source gains edges; the source's set gains exactly the target; the first-insertion flag is true iff the edge was absent; no self-edge appears between different nodes |
| Identity.RecordRelationDeduplicates | Mono.Linker.Steps/MarkStep.cs:572-594 | recording an edge a second time leaves the registry unchanged and reports no insertion |
| Recording.RecordMethodDef | Mono.Linker.Steps/MarkStep.cs:682-687 | a method definition gains an edge from the current node unless it is the current method; nothing else gains an edge |
| Recording.RecordFieldDef | Mono.Linker.Steps/MarkStep.cs:663-669 | a field definition gains an edge from the current node unless it is the current field; nothing else gains an edge |
| Recording.RecordMethodDefs | Mono.Linker.Steps/MarkStep.cs:395-400 | every listed method except the current one gains an edge, and no other target does |
| Recording.FilterActivatable | Mono.Linker.Steps/MarkStep.cs:443 | keeps exactly the listed methods that are non-static and parameterless; whether they are constructors is not asked |
| Recording.RecordActivatable | Mono.Linker.Steps/MarkStep.cs:395-400 | exactly the non-static parameterless methods of the list gain an edge |
| Recording.CtorTargetsSpec | Mono.Linker.Steps/MarkStep.cs:419-445 | a method is pulled in iff the argument count equals the definition's parameter count and some argument bound to a constrained parameter resolves to a type declaring that method non-static and parameterless |
| Recording.RecordCtorsFrom | Mono.Linker.Steps/MarkStep.cs:432-444 | from argument `i` on, exactly the pulled-in methods gain an edge; an unresolvable argument is skipped, not fatal |
| Recording.RecordGenericArgumentConstructors | Mono.Linker.Steps/MarkStep.cs:419-445 | an unresolvable definition or an argument-count mismatch records nothing; otherwise exactly the pulled-in methods gain an edge |
| Recording.RecordType | Mono.Linker.Steps/MarkStep.cs:639-656 | succeeds iff every generic argument, modifier type and the element resolve; on success each one resolves and is the current type or has an edge, and so does every default constructor a generic-instance layer pulls in; the current node gains edges to nothing else; on failure the error names a reference that does not resolve |
| Recording.RecordOptionalType | Mono.Linker.Steps/MarkStep.cs:641-642 | a null reference records nothing and cannot fail |
| Recording.RecordOriginalType | Mono.Linker.Steps/MarkStep.cs:447-462 | returns the element type, which is not a specification; the generic arguments and modifier types of every layer are recorded with the default constructors they pull in, and the current node gains no other edge; it fails iff one of them does not resolve |
| Recording.RecordGenericArguments | Mono.Linker.Steps/MarkStep.cs:411-417 | every argument is recorded, then every method the default-constructor rule pulls in gains an edge, and the current node gains no other edge; it fails iff an argument does not resolve |
| Recording.RecordTypes | Mono.Linker.Steps/MarkStep.cs:411-414 | every reference of the list is recorded with its pulled-in constructors and the current node gains no other edge; it fails iff one does not resolve, naming it |
| Recording.RecordField | Mono.Linker.Steps/MarkStep.cs:658-670 | succeeds iff a generic declaring type and the field resolve; an unresolvable field is fatal; on success a generic declaring type is recorded and the field is the current field or has an edge; the current node gains no edge other than to the definitions and constructors of a generic declaring type and to the field |
| Recording.GetOriginalMethod | Mono.Linker.Steps/MarkStep.cs:790-801 | returns the method with every generic-instance layer peeled off, recording every layer's arguments and the default constructors they pull in; it succeeds iff they all resolve; the current node gains no edge other than to those arguments' definitions and those constructors |
| Recording.RecordMethod | Mono.Linker.Steps/MarkStep.cs:672-688 | succeeds iff the layers' arguments, a generic declaring type and the method resolve, except that a method of an array type stops without resolving; an array method reference records nothing; on success the arguments, their pulled-in constructors and a generic declaring type are recorded, and the method is current or has an edge; the current node gains no edge other than to those definitions, those constructors and the method |
| Recording.CurrentTypeNotRecorded | Mono.Linker.Steps/MarkStep.cs:654-655 | the current type's own definition records nothing, whatever member is current |
| Recording.CurrentFieldNotRecorded | Mono.Linker.Steps/MarkStep.cs:668-669 | the current field's own definition records nothing |
| Recording.CurrentMethodNotRecorded | Mono.Linker.Steps/MarkStep.cs:686-687 | the current method's own definition records nothing |
| Recording.GenericParameterNotRecorded | Mono.Linker.Steps/MarkStep.cs:644-647 | a generic parameter records nothing and cannot fail |
| Attributes.FirstIndex | Mono.Linker.Steps/MarkStep.cs:693 | FirstOrDefault by name: the position found holds the name and no earlier position does; nothing is found iff the name is absent |
| Attributes.FindMember | Mono.Linker.Steps/MarkStep.cs:690-714 | the member found is the first one carrying the name in the type where the walk stops |
| Attributes.FindMemberSpec | Mono.Linker.Steps/MarkStep.cs:690-714 | the walk finds nothing iff no type on the base chain declares the name; otherwise it stops at the first type on the chain that does |
| Attributes.OwnProperty | Mono.Linker.Steps/MarkStep.cs:693 | a property of the type itself is found iff one carries the name, and the one found does |
| Attributes.OwnField | Mono.Linker.Steps/MarkStep.cs:706 | a field of the type itself is found iff one carries the name, and the one found does |
| Attributes.GetPropertySpec | Mono.Linker.Steps/MarkStep.cs:690-701 | GetProperty returns null iff no type on the base chain has a property of that name; otherwise it returns the first such property of the first such type |
| Attributes.GetFieldSpec | Mono.Linker.Steps/MarkStep.cs:703-714 | GetField returns null iff no type on the base chain has a field of that name; otherwise it returns the first such field of the first such type |
| Attributes.GetFieldPrefersOwnField | Mono.Linker.Steps/MarkStep.cs:703-714 | a field the type itself declares hides every base-type field of the same name |
| Attributes.BaseChainEnd | Mono.Linker.Steps/MarkStep.cs:690-714 | a base walk that stops before its bound stops at a type without a resolvable base type |
| Attributes.BaseWalkFuelSuffices | Mono.Linker.Steps/MarkStep.cs:690-714 | on a base chain that repeats no type and stays within the type table, the bound of one more step than there are types is never reached |
| Attributes.TryGetStringArgument | Mono.Linker.Steps/MarkStep.cs:724-734 | an argument is returned iff there is a first constructor argument and it is a string, and the argument returned is that string |
| Attributes.RecordIfType | Mono.Linker.Steps/MarkStep.cs:402-409 | an argument not of type System.Type records nothing; otherwise it succeeds iff the argument type resolves and the value is a null or resolvable type reference, and then both are recorded; a failure is an unresolved type, or an invalid cast of a value that is not a type reference; the current node gains no edge other than to the definitions of those two types and the constructors they pull in |
| Attributes.RecordAttrArgs | Mono.Linker.Steps/MarkStep.cs:350-354 | succeeds iff every constructor argument passes RecordIfType, and then every System.Type argument's type and value are recorded; with no System.Type argument nothing is recorded; the current node gains no edge beyond what RecordIfType may add for the arguments |
| Attributes.RecordSetterOf | Mono.Linker.Steps/MarkStep.cs:358-361 | when the base walk finds the named property, its setter is recorded; the current node gains no edge other than to that setter |
| Attributes.RecordNamedPropertyArg | Mono.Linker.Steps/MarkStep.cs:358-364 | the setter of the property the base walk finds is recorded, then the argument; it succeeds iff the argument passes RecordIfType; the current node gains no edge other than to that setter and what RecordIfType may add for the argument |
| Attributes.RecordNamedPropertyArgs | Mono.Linker.Steps/MarkStep.cs:356-365 | succeeds iff every named property argument passes RecordIfType; then, for each, the setter of the property the base walk finds on the attribute type and the argument's type and value are recorded; the current node gains no edge beyond those setters and what RecordIfType may add for the arguments |
| Attributes.RecordFieldOf | Mono.Linker.Steps/MarkStep.cs:369-372 | when the base walk finds the named field, exactly that field gains an edge unless it is current; otherwise nothing is recorded |
| Attributes.RecordNamedFieldArg | Mono.Linker.Steps/MarkStep.cs:369-375 | the field the base walk finds is recorded, then the argument; it succeeds iff the argument passes RecordIfType; the current node gains no edge other than to that field and what RecordIfType may add for the argument |
| Attributes.RecordNamedFieldArgs | Mono.Linker.Steps/MarkStep.cs:367-376 | succeeds iff every named field argument passes RecordIfType; then, for each, the field the base walk finds on the attribute type and the argument's type and value are recorded; the current node gains no edge beyond those fields and what RecordIfType may add for the arguments |
| Attributes.RecordCustomAttribute | Mono.Linker.Steps/MarkStep.cs:335-348 | succeeds iff the constructor, every constructor argument, the attribute type and every named argument resolve; an unresolvable attribute type is fatal; on success the constructor, the arguments, the named properties' setters and the named fields are recorded; the current node gains no edge beyond the union of what those four steps may add |
| Attributes.RecordCustomAttributes | Mono.Linker.Steps/MarkStep.cs:326-333 | succeeds iff every attribute resolves, and then every attribute is recorded as RecordCustomAttribute records it; no attributes record nothing; the current node gains no edge beyond the union of what RecordCustomAttribute may add for each attribute |
| Attributes.FilterNamedFields | Mono.Linker.Steps/MarkStep.cs:268-271 | keeps exactly the fields with the exact name |
| Attributes.FilterNamedMethods | Mono.Linker.Steps/MarkStep.cs:318-321 | keeps exactly the methods with the exact name |
| Attributes.RecordNamedField | Mono.Linker.Steps/MarkStep.cs:263-274 | exactly the fields the type itself declares under the name gain an edge; base types are not searched |
| Attributes.RecordNamedMethod | Mono.Linker.Steps/MarkStep.cs:313-324 | exactly the methods the type itself declares under the name gain an edge |
| Attributes.NamedAccessorsSpec | Mono.Linker.Steps/MarkStep.cs:281-287 | the accessors pulled in are exactly the getters and setters of the properties carrying the name |
| Attributes.RecordNamedProperty | Mono.Linker.Steps/MarkStep.cs:276-288 | exactly those accessors gain an edge; an absent accessor is skipped |
| Attributes.RecordNamedPropertiesAsWritten | Mono.Linker.Steps/MarkStep.cs:276-288 | as written, the run goes on iff every property carrying the name has both accessors; otherwise it aborts on the missing accessor |
| Attributes.AsWrittenAgreesWhenComplete | Mono.Linker.Steps/MarkStep.cs:276-288 | when every such property has both accessors, the as-written and the corrected versions record the same edges |
| Attributes.GetterOnlyPropertyAborts | Mono.Linker.Steps/MarkStep.cs:284-285 | a getter-only property named by a SOAP header makes the as-written version abort |
| Attributes.GetterOnlyPropertyRecorded | Mono.Linker.Steps/MarkStep.cs:276-288 | on the same input, the corrected version records the getter |
| Attributes.RecordSoapHeader | Mono.Linker.Steps/MarkStep.cs:253-261 | without a string first argument nothing is recorded; otherwise the declaring type's fields and property accessors under that name are recorded, and no other target gains an edge |
| Attributes.RecordXmlSchemaProvider | Mono.Linker.Steps/MarkStep.cs:304-311 | without a string first argument nothing is recorded; otherwise exactly the type's methods under that name gain an edge |
| Attributes.RecordMethodSpecialsFrom | Mono.Linker.Steps/MarkStep.cs:244-250 | attributes of other types are ignored; for every SOAP-header attribute from the given position on with a string argument, the named members are recorded; the current node gains no edge other than to the fields and property accessors those attributes name |
| Attributes.RecordMethodSpecialCustomAttributes | Mono.Linker.Steps/MarkStep.cs:239-251 | for every SOAP-header attribute of the method with a string argument, the named members of its declaring type are recorded; the current node gains no edge other than to the fields and property accessors those attributes name |
| Attributes.RecordTypeSpecialsFrom | Mono.Linker.Steps/MarkStep.cs:295-301 | attributes of other types are ignored; for every XML-schema-provider attribute from the given position on with a string argument, the named methods are recorded; the current node gains no edge other than to the methods those attributes name |
| Attributes.RecordTypeSpecialCustomAttributes | Mono.Linker.Steps/MarkStep.cs:290-302 | for every XML-schema-provider attribute of the type with a string argument, the type's methods under that name are recorded; the current node gains no edge other than to the methods those attributes name |
| Walk.RecordMarshalSpec | Mono.Linker.Steps/MarkStep.cs:378-388 | only a custom marshaler with a managed type records anything; then it succeeds iff that type resolves, and records it; the current node gains no edge other than to that type's definitions and the constructors it pulls in |
| Walk.RecordGenericParameter | Mono.Linker.Steps/MarkStep.cs:223-228 | succeeds iff its custom attributes and its constraints resolve, and then all of them are recorded; the current node gains no edge beyond what recording those attributes and constraints may add |
| Walk.RecordGenericParameterProvider | Mono.Linker.Steps/MarkStep.cs:230-237 | succeeds iff every generic parameter resolves, and then every parameter's attributes and constraints are recorded; no parameters record nothing; the current node gains no edge beyond what recording each parameter may add |
| Walk.RecordParameter | Mono.Linker.Steps/MarkStep.cs:149-153 | succeeds iff the parameter type, its custom attributes and its custom marshaler resolve, and then all three are recorded; the current node gains no edge beyond what recording those three may add |
| Walk.RecordParameters | Mono.Linker.Steps/MarkStep.cs:148-154 | succeeds iff every parameter resolves, and then every parameter is recorded; the current node gains no edge beyond what recording each parameter may add |
| Walk.RecordOverrides | Mono.Linker.Steps/MarkStep.cs:156-159 | the run goes on iff every explicit override resolves, and then every override is recorded as RecordMethod records it; the current node gains no edge beyond what RecordMethod may add for the overrides |
| Walk.RecordBaseMethods | Mono.Linker.Steps/MarkStep.cs:213-221 | without an annotation nothing is recorded; otherwise exactly the annotated base methods gain an edge |
| Walk.RecordInstruction | Mono.Linker.Steps/MarkStep.cs:187-211 | succeeds iff the operand of a field, method, token or type instruction resolves, and then it is recorded as RecordField, RecordMethod or RecordType records it; any other instruction records nothing, and the current node gains no edge beyond what that call may add |
| Walk.RecordInstructions | Mono.Linker.Steps/MarkStep.cs:183-184 | the run goes on iff every instruction's operand resolves, and then every operand is recorded; the current node gains no edge beyond what recording each operand may add |
| Walk.RecordHandler | Mono.Linker.Steps/MarkStep.cs:180-181 | a catch clause records its catch type and succeeds iff it resolves; any other clause records nothing; the current node gains no edge beyond what recording the catch type may add |
| Walk.RecordHandlers | Mono.Linker.Steps/MarkStep.cs:179-181 | the run goes on iff the catch type of every catch clause resolves, and then every such catch type is recorded; the current node gains no edge beyond what recording those catch types may add |
| Walk.RecordMethodBody | Mono.Linker.Steps/MarkStep.cs:172-185 | no body records nothing; otherwise it succeeds iff locals, catch types and operands resolve, and then all of them are recorded; the current node gains no edge beyond what recording the locals, the catch types and the operands may add |
| Walk.ProcessField | Mono.Linker.Steps/MarkStep.cs:120-134 | only the field's node gains edges; it succeeds iff the declaring type, the field type, the custom attributes and the marshaler resolve, and then all four are recorded in the field's context; the field gains no edge beyond what recording those four may add |
| Walk.ProcessFieldOf | Mono.Linker.Steps/MarkStep.cs:102-107 | the field, made current, points to its declaring type and is processed; it succeeds iff the field resolves as ProcessField requires; every new edge leaves the field and leads to the declaring type or to something ProcessField may record for it |
| Walk.ProcessFields | Mono.Linker.Steps/MarkStep.cs:100-108 | succeeds iff every field resolves; then every field of the list points to the type and is processed; every new edge leaves a field of the list and leads to the type or to something ProcessField may record for that field |
| Walk.RecordSignatureHead | Mono.Linker.Steps/MarkStep.cs:136-140 | succeeds iff the declaring type, the custom attributes and the generic parameters resolve, and then all three are recorded in the method's context; the method gains no edge beyond what recording those three may add |
| Walk.RecordSignatureFront | Mono.Linker.Steps/MarkStep.cs:136-159 | succeeds iff the declaring type, custom attributes, generic parameters, parameters and overrides resolve, and then all of them are recorded in the method's context; the method gains no edge beyond what recording them may add |
| Walk.ProcessMethodSignature | Mono.Linker.Steps/MarkStep.cs:136-163 | only the method's node gains edges; it succeeds iff the declaring type, custom attributes, generic parameters, parameters and overrides resolve, and then all of them are recorded, as are the SOAP header members and the annotated base methods; the method gains no edge beyond what those seven steps may add |
| Walk.ProcessMethod | Mono.Linker.Steps/MarkStep.cs:136-170 | additionally the return type, the return's attributes and marshaler, and the body; it succeeds iff all of them and the signature resolve, and then all are recorded; the method gains no edge beyond what the signature and those four steps may add |
| Walk.ProcessMethodOf | Mono.Linker.Steps/MarkStep.cs:112-117 | the method, made current, points to its declaring type and is processed; it succeeds iff the method resolves as ProcessMethod requires; every new edge leaves the method and leads to the declaring type or to something ProcessMethod may record for it |
| Walk.ProcessMethods | Mono.Linker.Steps/MarkStep.cs:110-118 | succeeds iff every method resolves; then every method of the list points to the type and is processed; every new edge leaves a method of the list and leads to the type or to something ProcessMethod may record for that method |
| Walk.RecordTypeLinks | Mono.Linker.Steps/MarkStep.cs:77-79 | succeeds iff the base type, the declaring type and the custom attributes resolve, and then all three are recorded; the type gains no edge beyond what recording those three may add |
| Walk.ProcessTypeHeader | Mono.Linker.Steps/MarkStep.cs:73-86 | only the type's node gains edges; it succeeds iff the base type, the declaring type, the custom attributes, the generic parameters and the interfaces resolve, and then all of them are recorded, as are the XML schema provider methods; the type gains no edge beyond what those steps may add |
| Walk.ProcessTypeOwn | Mono.Linker.Steps/MarkStep.cs:73-91 | succeeds iff the header, every field and every method resolve; then the header is recorded and every field and method points to the type and is processed; every new edge leaves the type for something its header may record, or leaves one of its fields or methods for the type or for something that member's processing may record |
| Walk.ProcessType | Mono.Linker.Steps/MarkStep.cs:73-98 | succeeds iff every type of the tree resolves; then the type and all its nested types, at any depth, are processed; every new edge is one that ProcessTypeOwn allows for some type of the tree |
| Walk.ProcessTypes | Mono.Linker.Steps/MarkStep.cs:67-71 | succeeds iff every type of the forest resolves; then every one is processed; every new edge is one that ProcessTypeOwn allows for some type of the forest |
| Walk.ProcessAssemblies | Mono.Linker.Steps/MarkStep.cs:61-62 | succeeds iff every type of every assembly resolves; then every one is processed; every new edge is one that ProcessTypeOwn allows for some type of those assemblies |
| Walk.Mark | Mono.Linker.Steps/MarkStep.cs:56-65 | a run completes iff every reference the walk meets resolves; a completed run leaves a valid registry without self-edges in which every walked type, field and method has been processed; every edge of it belongs to some walked type: from the type to something its header references, or from one of its fields or methods to the type itself or to something that member references |

## Left out

- The GEXF dump and the console trace are output only: DumpNodes, DumpEdges and DumpXmp (MarkStep.cs:596-636), the WriteLine calls of the Record*Relation methods, and CurrentContext (464-472), which only feeds the trace. The model keeps the first-insertion flag those methods test.
- Main.cs, the driver, is not part of this model. It does I/O and pipeline assembly.
- Cecil's Resolve, LinkContext, ResolveAssembly and the annotation store are foreign code. They are given as lookup tables: `typeRefs`, `fieldRefs`, `methodRefs` and `baseMethods`.
- Dead helpers that the walk never calls are left out: IsSpecialSerializationConstructor, IsConstructor, IsStaticConstructor, IsPropertyMethod, IsEventMethod, GetProperty(MethodDefinition), GetEvent (MarkStep.cs:737-760, 812-843), and the commented-out block at 142-146.
- Metadata.TypeOf: definitions are looked up by id. An id outside its table reads as an empty definition, which stands in for an object reference that cannot dangle.
- Metadata.FullName: composes names for generic instances, modifiers, arrays, by-refs and pointers. It does not reproduce every detail of Cecil's formatting. It is compared only with System.Type and the two special attribute names, which are plain names.
- Identity.NewNode: the parameter count in a method label is the decimal form of the count. `HasParameters ? Count : 0` is the count itself.
- Attributes.GetProperty: the base walk is bounded by one more step than there are type definitions. Attributes.BaseWalkFuelSuffices shows that a base chain that repeats no type never reaches the bound. On a cyclic base chain the source stops at the first type that declares the name, as the model does. Only when no type on the cycle declares the name does the source loop forever; there the model stops at the bound and reports nothing found.
- Attributes.GetField: bounded the same way as GetProperty.
- Walk.ProcessField: takes a field definition, which is all that ProcessFields passes to it. So the branch for a generic-instance declaring type (121-122) and the resolution failure (125-128) cannot arise, and they are not modelled.
- Metadata.TypeRef: Cecil's pinned, sentinel and function-pointer types are not represented. Pinned and sentinel types are plain specification layers with no arguments and no modifier type, so the walk treats them as it treats `ArrayOf`, `ByRef` and `Pointer`, which stand in for them. A function pointer's signature is not walked here; what the source does with it depends on Cecil's representation, which is foreign code.
- Attributes.RecordSetterOf: when the property the base walk finds has no setter, nothing is recorded. The source (361) passes the null setter to RecordMethod and aborts, just as in the finding below. A named property argument normally names a settable property, so the model follows the corrected behaviour here.
- Walk.Mark and Attributes.RecordSoapHeader use the corrected RecordNamedProperty and RecordSetterOf. So on `Attributes.ServiceMeta`, a getter-only property named by a SOAP header, the model records the getter and goes on where the source throws.
- The exceptions the source throws are error values: an unresolved type, field or method, and an invalid cast. A null dereference appears only in the as-written model of RecordNamedProperty.
- The static node counter shared by all instances is the registry's `nextId`. Node equality by underlying definition is map-key equality.

## Findings

| source | as written | input that shows it | evidently intended | confidence | as-written member | corrected member |
|---|---|---|---|---|---|---|
| Mono.Linker.Steps/MarkStep.cs:276-288 | RecordNamedProperty calls RecordMethod on both GetMethod and SetMethod of every property with the name. RecordMethod dereferences its argument, so a missing accessor throws a NullReferenceException and the whole run aborts | a web method carrying a SOAP-header attribute that names a property with a getter and no setter (type `Svc`, property `State`, in `Attributes.ServiceMeta`) | record the accessors the property has and skip the absent one, as RecordMarshalSpec and RecordType do for their absent inputs | not executed | Attributes.RecordNamedPropertiesAsWritten (with Attributes.GetterOnlyPropertyAborts) | Attributes.RecordNamedProperty (with Attributes.GetterOnlyPropertyRecorded and Attributes.AsWrittenAgreesWhenComplete) |
