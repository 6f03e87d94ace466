/** The synthesis policy of `TypeAccessorBuilder`: from a type description to
    either a configuration error or the plan of the generated accessor type.
    Each function here is one of the builder's private methods, with the
    instructions it emits reduced to the decisions they encode. */
module TypeAccessorBuilder {
  import opened Wrappers
  import opened TypeDescriptor
  import opened Names
  import opened Plans

  /** The two `CreateInstance` bodies, or the configuration error when the
      type has neither a public default constructor nor a public
      `InitContext` constructor. `CreateInstance()` prefers the default
      constructor and otherwise passes a null context; `CreateInstance(ctx)`
      prefers the `InitContext` constructor and otherwise drops `ctx`. */
  function BuildCreateInstanceMethods(t: TypeDesc): (r: Result<(Construction, Construction), BuildError>)
    ensures r.Failure? <==> !t.hasDefaultCtor && !t.hasInitCtor
    ensures r.Failure? ==>
      r.error == ConfigurationError(t.decorated.name, ConfigErrorHead + t.decorated.name + ConfigErrorTail)
    ensures r.Success? ==> Resolves(t, r.value.0) && Resolves(t, r.value.1)
    ensures r.Success? ==> (r.value.0 == NewDefault <==> t.hasDefaultCtor)
    ensures r.Success? && r.value.0.NewInit? ==> r.value.0.argument == NullContext
    ensures r.Success? ==> (r.value.1.NewInit? <==> t.hasInitCtor)
    ensures r.Success? && r.value.1.NewInit? ==> r.value.1.argument == CallerContext
  {
    if !t.hasDefaultCtor && !t.hasInitCtor then
      Failure(ConfigurationError(t.decorated.name, ConfigErrorMessage(t.decorated.name)))
    else
      var create := if t.hasDefaultCtor then NewDefault else NewInit(NullContext);
      var createWithContext := if t.hasInitCtor then NewInit(CallerContext) else NewDefault;
      Success((create, createWithContext))
  }

  /** The constants returned by the `Type` and `OriginalType` properties. */
  function BuildTypeProperties(t: TypeDesc): (r: (TypeRef, TypeRef))
    ensures r.0 == t.decorated && r.1 == t.original
    ensures r.0 != r.1 <==> t.IsDecorated()
  {
    (t.decorated, t.original)
  }

  /** The properties that take no index parameters, in their original order. */
  function NonIndexed(ps: seq<PropertyDesc>): (r: seq<PropertyDesc>)
    ensures |r| <= |ps|
    ensures forall p :: p in r <==> p in ps && !p.IsIndexed()
  {
    if |ps| == 0 then []
    else
      assert ps == [ps[0]] + ps[1..];
      if ps[0].IsIndexed() then NonIndexed(ps[1..])
      else [ps[0]] + NonIndexed(ps[1..])
  }

  /** Fields as members, in order. */
  function FieldMembers(fs: seq<FieldDesc>): (r: seq<Member>)
    ensures |r| == |fs|
    ensures forall i :: 0 <= i < |fs| ==> r[i] == FieldMember(fs[i])
    ensures forall m :: m in r ==> m.FieldMember? && m.field in fs
  {
    seq(|fs|, i requires 0 <= i < |fs| => FieldMember(fs[i]))
  }

  /** Properties as members, in order. */
  function PropertyMembers(ps: seq<PropertyDesc>): (r: seq<Member>)
    ensures |r| == |ps|
    ensures forall i :: 0 <= i < |ps| ==> r[i] == PropertyMember(ps[i])
    ensures forall m :: m in r <==> m.PropertyMember? && m.property in ps
  {
    if |ps| == 0 then []
    else [PropertyMember(ps[0])] + PropertyMembers(ps[1..])
  }

  /** The members an accessor is built for: every public field, then every
      public property without index parameters, each group in reflection order. */
  function EnumerateMembers(t: TypeDesc): (r: seq<Member>)
    ensures |r| == |t.fields| + |NonIndexed(t.properties)|
    ensures forall i :: 0 <= i < |t.fields| ==> r[i] == FieldMember(t.fields[i])
    ensures forall i :: |t.fields| <= i < |r| ==> r[i] == PropertyMember(NonIndexed(t.properties)[i - |t.fields|])
    ensures forall m :: m in r && m.PropertyMember? ==> m.property in t.properties && !m.property.IsIndexed()
    ensures forall p :: p in t.properties && !p.IsIndexed() ==> PropertyMember(p) in r
  {
    FieldMembers(t.fields) + PropertyMembers(NonIndexed(t.properties))
  }

  /** The `(kind, name)` pair the outer constructor registers the member under:
      kind 1 for a field, kind 2 for a property. */
  function BuildInitMember(m: Member): (r: MemberKey)
    ensures r.name == m.Name()
    ensures r.kindCode == FieldKind <==> m.FieldMember?
    ensures r.kindCode == PropertyKind <==> m.PropertyMember?
  {
    MemberKey(if m.FieldMember? then FieldKind else PropertyKind, m.Name())
  }

  /** The getter a property has once the fallback is taken into account: its
      own public getter; otherwise, for a decorated type only, the public
      method `get_<Name>` of the decorated type. */
  function PropertyGetMethod(t: TypeDesc, p: PropertyDesc): Option<MethodRef>
  {
    if p.getMethod.Some? then p.getMethod
    else if t.IsDecorated() then t.GetMethod(GetterName(p.name))
    else None
  }

  /** The setter counterpart of `PropertyGetMethod`, using `set_<Name>`. */
  function PropertySetMethod(t: TypeDesc, p: PropertyDesc): Option<MethodRef>
  {
    if p.setMethod.Some? then p.setMethod
    else if t.IsDecorated() then t.GetMethod(SetterName(p.name))
    else None
  }

  /** The `GetValue` body of a member's accessor, or none when no getter is
      emitted (and `HasGetter` keeps its inherited false). */
  function BuildGetter(t: TypeDesc, m: Member): (r: Option<GetterSource>)
    ensures r.Some? <==>
      || m.FieldMember?
      || m.property.getMethod.Some?
      || (t.IsDecorated() && GetterName(m.property.name) in t.publicMethods)
    ensures m.FieldMember? ==> r == Some(LoadField(m.field))
    ensures m.PropertyMember? && r.Some? ==>
      r.value.CallGetter? && r.value.valueType == m.property.propertyType
    ensures m.PropertyMember? && m.property.getMethod.Some? ==>
      r.Some? && r.value.accessor == m.property.getMethod.value
    ensures m.PropertyMember? && m.property.getMethod.None? && r.Some? ==>
      t.IsDecorated() && r.value.accessor == t.publicMethods[GetterName(m.property.name)]
  {
    match m
    case FieldMember(f) => Some(LoadField(f))
    case PropertyMember(p) =>
      var getMethod := PropertyGetMethod(t, p);
      if getMethod.None? then None else Some(CallGetter(getMethod.value, p.propertyType))
  }

  /** The `SetValue` body of a member's accessor, or none when no setter is
      emitted (and `HasSetter` keeps its inherited false). */
  function BuildSetter(t: TypeDesc, m: Member): (r: Option<SetterSource>)
    ensures r.Some? <==>
      || m.FieldMember?
      || m.property.setMethod.Some?
      || (t.IsDecorated() && SetterName(m.property.name) in t.publicMethods)
    ensures m.FieldMember? ==> r == Some(StoreField(m.field))
    ensures m.PropertyMember? && r.Some? ==>
      r.value.CallSetter? && r.value.valueType == m.property.propertyType
    ensures m.PropertyMember? && m.property.setMethod.Some? ==>
      r.Some? && r.value.accessor == m.property.setMethod.value
    ensures m.PropertyMember? && m.property.setMethod.None? && r.Some? ==>
      t.IsDecorated() && r.value.accessor == t.publicMethods[SetterName(m.property.name)]
  {
    match m
    case FieldMember(f) => Some(StoreField(f))
    case PropertyMember(p) =>
      var setMethod := PropertySetMethod(t, p);
      if setMethod.None? then None else Some(CallSetter(setMethod.value, p.propertyType))
  }

  /** The nested accessor type of one member and its registration. */
  function BuildMember(t: TypeDesc, m: Member): (r: MemberEntry)
    ensures |r.nestedTypeName| == |NestedTypePrefix| + |m.Name()|
    ensures r.nestedTypeName[..|NestedTypePrefix|] == NestedTypePrefix
    ensures r.nestedTypeName[|NestedTypePrefix|..] == m.Name()
    ensures r.info == m && r.key == BuildInitMember(m)
    ensures r.getter == BuildGetter(t, m) && r.setter == BuildSetter(t, m)
    ensures r.HasGetter() == BuildGetter(t, m).Some?
    ensures r.HasSetter() == BuildSetter(t, m).Some?
  {
    MemberEntry(NestedTypeName(m.Name()), m, BuildInitMember(m), BuildGetter(t, m), BuildSetter(t, m))
  }

  /** One accessor per enumerated member, in enumeration order. */
  function BuildMembers(t: TypeDesc): (r: seq<MemberEntry>)
    ensures |r| == |t.fields| + |NonIndexed(t.properties)|
    ensures forall i :: 0 <= i < |r| ==> r[i].info == EnumerateMembers(t)[i]
    ensures forall i :: 0 <= i < |t.fields| ==>
      r[i].key == MemberKey(FieldKind, t.fields[i].name)
    ensures forall i :: |t.fields| <= i < |r| ==>
      r[i].key == MemberKey(PropertyKind, NonIndexed(t.properties)[i - |t.fields|].name)
  {
    var ms := EnumerateMembers(t);
    seq(|ms|, i requires 0 <= i < |ms| => BuildMember(t, ms[i]))
  }

  /** The whole synthesis: the accessor type's name, then the `CreateInstance`
      methods (which may fail), the type constants and the members. */
  function Build(t: TypeDesc): (r: Result<AccessorPlan, BuildError>)
    ensures r.Failure? <==> !t.hasDefaultCtor && !t.hasInitCtor
    ensures r.Success? ==>
      && '+' !in r.value.typeName
      && |r.value.typeName| == |t.decorated.fullName| + |TypeNameSuffix|
      && r.value.typeName[..|t.decorated.fullName|] == ReplaceChar(t.decorated.fullName, '+', '.')
      && r.value.typeName[|t.decorated.fullName|..] == TypeNameSuffix
    ensures r.Success? ==>
      && Resolves(t, r.value.createInstance)
      && Resolves(t, r.value.createInstanceWithContext)
    ensures r.Success? ==>
      r.value.typeConstant == t.decorated && r.value.originalTypeConstant == t.original
    ensures r.Success? ==> |r.value.members| == |t.fields| + |NonIndexed(t.properties)|
  {
    var typeName := AccessorTypeName(t.decorated.fullName);
    match BuildCreateInstanceMethods(t)
    case Failure(e) => Failure(e)
    case Success(ctors) =>
      var (typeConstant, originalTypeConstant) := BuildTypeProperties(t);
      Success(AccessorPlan(typeName, ctors.0, ctors.1, typeConstant, originalTypeConstant, BuildMembers(t)))
  }
}
