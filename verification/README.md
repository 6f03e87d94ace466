# TypeAccessor synthesis policy

A Dafny model of the decision logic of BLToolkit's `TypeAccessorBuilder`, the
Reflection.Emit code generator that builds, once per type, a `TypeAccessor`
subclass able to create instances of the type and to get and set each of its
public fields and properties by name.

The model is a pure function `TypeAccessorBuilder.Build` from a description of
the decorated type (`TypeDescriptor.TypeDesc`) to either the configuration
error the builder throws (`Plans.BuildError`) or an abstract plan of the
generated type (`Plans.AccessorPlan`). The emitted IL is reduced to tags:

- `Construction` says which constructor a `CreateInstance` body calls and,
  for the `InitContext` constructor, whether it passes `null` or the caller's
  context;
- `GetterSource` / `SetterSource` say whether a nested accessor's
  `GetValue` / `SetValue` reads or writes a field directly or calls a getter or
  setter method (with the value type that gets boxed or unboxed);
- `MemberEntry` holds the nested type's name, the member handle its
  constructor receives, the `(kind, name)` pair the outer constructor passes to
  `GetMember`, and the two bodies, from which `HasGetter` / `HasSetter` follow.
  The nested type's constructor (`BuildNestedTypeConstructor`) only forwards
  the member handle to `MemberAccessor`, so it is represented by the handle
  stored in the entry.

Modules:

- `Wrappers` (wrappers.dfy): `Option`, `Result`.
- `TypeDescriptor` (descriptor.dfy): types, methods, fields, properties, the
  type description, members.
- `Names` (names.dfy): the names built by string rewriting and the error text.
- `Plans` (plan.dfy): the plan datatypes.
- `TypeAccessorBuilder` (builder.dfy): one function per private method of the
  builder, and `Build`.
- `BuilderProperties` (properties.dfy): lemmas relating several calls, and
  what the generated `CreateInstance` methods call when they run.

Two types are the same type exactly when their `TypeRef` descriptions are
equal; "the type is decorated" means the decorated and the original type
differ. The builder makes that test with `!=` on two `TypeHelper` wrappers;
the model reads it as a comparison of the wrapped types (see "Left out"). The reflection lookups the builder performs are fields of the input:
`hasDefaultCtor` and `hasInitCtor`, the public `fields` and `properties` in
reflection order, each property's index-parameter count and public
`get`/`set` accessors, and the decorated type's public methods by name, used
for the `get_<Name>` / `set_<Name>` fallback.

## Model

| member | source | states |
|---|---|---|
| `TypeAccessorBuilder.Build` | 2/Source/TypeBuilder/Builders/TypeAccessorBuilder.cs:31-62 | Synthesis fails exactly when the type has neither a public default nor a public `InitContext` constructor; otherwise the accessor type's name contains no `+`, is the full name with `+` replaced by `.` followed by `.TypeAccessor`, both `CreateInstance` bodies call a constructor the type has, the `Type`/`OriginalType` constants are the decorated and original types, and there is one member per field and per non-indexed property |
| `TypeAccessorBuilder.BuildCreateInstanceMethods` | 2/Source/TypeBuilder/Builders/TypeAccessorBuilder.cs:64-116 | Error exactly when neither constructor exists, carrying the type's short name in the message; otherwise `CreateInstance()` calls the default constructor exactly when it exists and else the `InitContext` constructor with null, and `CreateInstance(ctx)` calls the `InitContext` constructor exactly when it exists, passing `ctx`, and else the default constructor; both resolve to existing constructors |
| `TypeAccessorBuilder.BuildTypeProperties` | 2/Source/TypeBuilder/Builders/TypeAccessorBuilder.cs:118-139 | `Type` returns the decorated type and `OriginalType` the original type; they differ exactly when the type is decorated |
| `TypeAccessorBuilder.NonIndexed` | 2/Source/TypeBuilder/Builders/TypeAccessorBuilder.cs:146-148 | A property is kept exactly when it occurs in the input and has no index parameters; never more properties than the input |
| `TypeAccessorBuilder.EnumerateMembers` | 2/Source/TypeBuilder/Builders/TypeAccessorBuilder.cs:141-149 | All fields in order, then the non-indexed properties in order; length is field count plus non-indexed property count; no indexed property appears and every non-indexed one does |
| `TypeAccessorBuilder.BuildMembers` | 2/Source/TypeBuilder/Builders/TypeAccessorBuilder.cs:141-149 | One entry per enumerated member in enumeration order; fields registered under kind 1, properties under kind 2, each with its own name |
| `TypeAccessorBuilder.BuildMember` | 2/Source/TypeBuilder/Builders/TypeAccessorBuilder.cs:151-165 | The nested type is named `Accessor$` followed by the member name, its constructor receives the member handle, it is registered under the member's kind code and name, its `GetValue`/`SetValue` bodies are the getter and setter the fallback chain chose, and `HasGetter`/`HasSetter` hold exactly when such a body is emitted |
| `TypeAccessorBuilder.BuildInitMember` | 2/Source/TypeBuilder/Builders/TypeAccessorBuilder.cs:167-178 | The member is registered under its own name, with kind 1 exactly for a field and kind 2 exactly for a property |
| `TypeAccessorBuilder.BuildGetter` | 2/Source/TypeBuilder/Builders/TypeAccessorBuilder.cs:180-235 | A getter is emitted exactly for a field, a property with a public getter, or (decorated type only) a property whose type has a public `get_<Name>`; a field is read directly; a declared getter wins over the fallback; a property getter boxes the property's type |
| `TypeAccessorBuilder.BuildSetter` | 2/Source/TypeBuilder/Builders/TypeAccessorBuilder.cs:237-293 | The setter counterpart: emitted exactly for a field, a property with a public setter, or (decorated type only) a public `set_<Name>`; a field is written directly; a declared setter wins over the fallback |
| `Names.ReplaceChar` | 2/Source/TypeBuilder/Builders/TypeAccessorBuilder.cs:33 | `String.Replace(char, char)` keeps the length, replaces every occurrence and only those, and leaves no occurrence of the replaced character |
| `Names.AccessorTypeName` | 2/Source/TypeBuilder/Builders/TypeAccessorBuilder.cs:33 | The name is the rewritten full name followed by `.TypeAccessor` and contains no `+` |
| `Names.NestedTypeName` | 2/Source/TypeBuilder/Builders/TypeAccessorBuilder.cs:153-154 | The nested type's name is `Accessor$` followed by exactly the member name |
| `Names.NestedTypeNameInjective` | 2/Source/TypeBuilder/Builders/TypeAccessorBuilder.cs:153-154 | Dropping the prefix recovers the member name, and two nested type names are equal exactly when the member names are, so members with distinct names get distinct nested types |
| `Names.AccessorMethodNamesDistinct` | 2/Source/TypeBuilder/Builders/TypeAccessorBuilder.cs:190-248 | The getter fallback never looks up a setter's name, and each fallback name determines its property |
| `Names.ConfigErrorMessage` | 2/Source/TypeBuilder/Builders/TypeAccessorBuilder.cs:69-73 | The configuration error's message quotes the type's name at a fixed position |
| `BuilderProperties.OnlyDefaultConstructor` | 2/Source/TypeBuilder/Builders/TypeAccessorBuilder.cs:80-115 | With only a default constructor both entry points call it, ignoring the context |
| `BuilderProperties.OnlyInitConstructor` | 2/Source/TypeBuilder/Builders/TypeAccessorBuilder.cs:80-115 | With only an `InitContext` constructor both entry points call it, with null and with the caller's context respectively |
| `BuilderProperties.BothConstructors` | 2/Source/TypeBuilder/Builders/TypeAccessorBuilder.cs:80-115 | With both constructors `CreateInstance()` calls the default one and `CreateInstance(ctx)` the `InitContext` one with `ctx` |
| `BuilderProperties.NonIndexedAppend` | 2/Source/TypeBuilder/Builders/TypeAccessorBuilder.cs:146-148 | Filtering distributes over concatenation, so the kept properties stay in reflection order |
| `BuilderProperties.NonIndexedCounts` | 2/Source/TypeBuilder/Builders/TypeAccessorBuilder.cs:146-148 | Each non-indexed property is kept as many times as it occurs and no indexed property is kept |
| `BuilderProperties.NonIndexedKeepsAll` | 2/Source/TypeBuilder/Builders/TypeAccessorBuilder.cs:146-148 | Without indexed properties every property is kept, unchanged and in order |
| `BuilderProperties.MemberLayout` | 2/Source/TypeBuilder/Builders/TypeAccessorBuilder.cs:141-178 | Entry i is field i (kind 1, direct read and write) for i below the field count, and otherwise the corresponding non-indexed property (kind 2) with the getter and setter the fallback chain chose for it (declared accessor first, `get_`/`set_` method on a decorated type); each is named `Accessor$<Name>` |
| `BuilderProperties.IndexedPropertiesExcluded` | 2/Source/TypeBuilder/Builders/TypeAccessorBuilder.cs:146-148 | A property of the type is registered if and only if it has no index parameters |
| `BuilderProperties.EntryCapabilities` | 2/Source/TypeBuilder/Builders/TypeAccessorBuilder.cs:180-293 | For every registered member, `HasGetter`/`HasSetter` hold exactly when it is a field, declares the accessor, or the type is decorated and has the `get_`/`set_` method |
| `BuilderProperties.UndecoratedIgnoresFallback` | 2/Source/TypeBuilder/Builders/TypeAccessorBuilder.cs:180-293 | On an undecorated type the members do not depend on the type's other public methods: the fallback is never consulted |
| `BuilderProperties.GetterSetterIndependent` | 2/Source/TypeBuilder/Builders/TypeAccessorBuilder.cs:158-160 | The getter choice ignores the declared setter and the setter choice ignores the declared getter |
| `BuilderProperties.ReadOnlyProperty` | 2/Source/TypeBuilder/Builders/TypeAccessorBuilder.cs:237-253 | A property with a getter and no setter on an undecorated type reports a getter and no setter |
| `BuilderProperties.NestedTypeAccessorName` | 2/Source/TypeBuilder/Builders/TypeAccessorBuilder.cs:33 | A nested type `Outer+Inner` gets the accessor type name `Outer.Inner.TypeAccessor` |
| `BuilderProperties.TopLevelTypeAccessorName` | 2/Source/TypeBuilder/Builders/TypeAccessorBuilder.cs:33 | A full name without `+` is used unchanged before `.TypeAccessor` |
| `BuilderProperties.SharedNameSharesNestedType` | 2/Source/TypeBuilder/Builders/TypeAccessorBuilder.cs:141-165 | A field and a non-indexed property with the same name are both registered, as different members, under one nested type name |
| `BuilderProperties.FallbacksDoNotCross` | 2/Source/TypeBuilder/Builders/TypeAccessorBuilder.cs:180-293 | A `set_` method of the type never changes any getter choice and a `get_` method never changes any setter choice |
| `BuilderProperties.PointExample` | 2/Source/TypeBuilder/Builders/TypeAccessorBuilder.cs:31-62 | A type with one field, one read-write property and only a default constructor gets the two members in that order, both readable and writable, and both entry points call the default constructor |

## Left out

- IL emission (`ldarg`, `castclass`, `ldfld`/`stfld`, `callvirt`, `newobj`, `boxIfValueType`, `CastFromObject`) is foreign code in Reflection.Emit and the `EmitHelper` backend; it is represented only by the source tags above.
- The runtime behaviour of the generated accessors (cast failures on a wrong instance, get/set round trips, boxing) lives in `MemberAccessor`, `TypeAccessor` and the CLR, which are not part of this model.
- The reflection lookups (`GetPublicDefaultConstructor`, `GetPublicConstructor(typeof(InitContext))`, `GetFields`, `GetProperties`, `GetIndexParameters`, `GetGetMethod`/`GetSetMethod`, `Type.GetMethod`) are inputs of the description; `Type.GetMethod` throwing on an ambiguous overloaded name is not modelled, since the methods are keyed by name.
- The `#if FW2` choice of the generic base type `TypeAccessor<T>` and `AssemblyBuilderHelper.DefineType`, with the base constructor call in the generated default constructor, are backend plumbing.
- The order in which the outer and nested types are finalized (`Create` calls after the body is complete) is a constraint of the emission backend, not a decision of the policy.
- `TypeDescriptor.TypeDesc.IsDecorated` assumes that `_type != _originalType` on the two `TypeHelper` wrappers compares the wrapped types. `TypeHelper` is not part of this model, so this file cannot settle it. If the operator compared the wrapper references, the test would always be true and the `get_`/`set_` fallback would always be consulted; `UndecoratedIgnoresFallback` and `ReadOnlyProperty` describe the type-identity reading.
- Two members sharing a name (a field and a property, say) are both given a nested type named `Accessor$<Name>`. The plan keeps both entries (`SharedNameSharesNestedType`). Whether `DefineNestedType` then rejects the second definition is decided by the emission backend, which is not part of this model.
- What `TypeAccessor.AddMember` does with two members of the same name is decided in `TypeAccessor`, which is not part of this model; the plan keeps every registration in order.
- Caching and concurrency around synthesis happen in the callers, which are not part of this model.
