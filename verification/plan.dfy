/** The abstract shape of a generated `TypeAccessor`: what each generated
    method does, with the emitted instructions reduced to tags. */
module Plans {
  import opened Wrappers
  import opened TypeDescriptor

  /** The argument passed to the `InitContext` constructor. */
  datatype InitArgument =
    | NullContext     // `ldnull`: no context at all
    | CallerContext   // `ldarg_1`: the context the caller passed in

  /** The body of a `CreateInstance` method: which constructor it calls. */
  datatype Construction = NewDefault | NewInit(argument: InitArgument)

  /** The body of a nested accessor's `GetValue`: read the field, or call a
      getter method and box a value of `valueType`. */
  datatype GetterSource =
    | LoadField(field: FieldDesc)
    | CallGetter(accessor: MethodRef, valueType: TypeRef)

  /** The body of a nested accessor's `SetValue`: unbox into the field's type
      and store it, or unbox into `valueType` and call a setter method. */
  datatype SetterSource =
    | StoreField(field: FieldDesc)
    | CallSetter(accessor: MethodRef, valueType: TypeRef)

  /** Kind codes the accessor's constructor passes to `GetMember`. */
  const FieldKind: int := 1
  const PropertyKind: int := 2

  /** The `(kind, name)` pair a member is registered under. */
  datatype MemberKey = MemberKey(kindCode: int, name: string)

  /** One nested accessor type and its registration:
      - `nestedTypeName` is the nested type's name;
      - `info` is the member handle its constructor receives;
      - `key` is what the outer constructor passes to `GetMember`;
      - `getter`/`setter` are the generated bodies, absent when none is emitted. */
  datatype MemberEntry = MemberEntry(
    nestedTypeName: string,
    info: Member,
    key: MemberKey,
    getter: Option<GetterSource>,
    setter: Option<SetterSource>)
  {
    /** `HasGetter` is overridden to return true exactly when a getter is emitted. */
    predicate HasGetter() { getter.Some? }
    /** `HasSetter` is overridden to return true exactly when a setter is emitted. */
    predicate HasSetter() { setter.Some? }
  }

  /** The generated accessor type: its name, both `CreateInstance` bodies, the
      `Type` and `OriginalType` constants and the members in registration order. */
  datatype AccessorPlan = AccessorPlan(
    typeName: string,
    createInstance: Construction,
    createInstanceWithContext: Construction,
    typeConstant: TypeRef,
    originalTypeConstant: TypeRef,
    members: seq<MemberEntry>)

  /** The configuration error (`TypeBuilderException`) and its message. */
  datatype BuildError = ConfigurationError(typeName: string, message: string)

  /** A constructor call only uses a constructor the type actually has. */
  predicate Resolves(t: TypeDesc, c: Construction) {
    match c
    case NewDefault => t.hasDefaultCtor
    case NewInit(_) => t.hasInitCtor
  }
}
