/** Properties of the synthesis policy that relate several calls or several
    parts of the plan, and what the generated `CreateInstance` methods do when
    they run. */
module BuilderProperties {
  import opened Wrappers
  import opened TypeDescriptor
  import opened Names
  import opened Plans
  import opened TypeAccessorBuilder

  /** The constructor a generated `CreateInstance` body ends up calling, with
      the context the `InitContext` constructor receives (`None` is null). */
  datatype CtorCall<C> = DefaultCalled | InitCalled(context: Option<C>)

  /** Run a `CreateInstance` body; `supplied` is the caller's context, absent
      for the parameterless entry point. */
  function Invoke<C>(c: Construction, supplied: Option<C>): CtorCall<C>
  {
    match c
    case NewDefault => DefaultCalled
    case NewInit(NullContext) => InitCalled(None)
    case NewInit(CallerContext) => InitCalled(supplied)
  }

  /** A type with only a default constructor: both entry points call it and
      the supplied context is ignored. */
  lemma OnlyDefaultConstructor<C>(t: TypeDesc, ctx: C)
    requires t.hasDefaultCtor && !t.hasInitCtor
    ensures Build(t).Success?
    ensures Invoke<C>(Build(t).value.createInstance, None) == DefaultCalled
    ensures Invoke(Build(t).value.createInstanceWithContext, Some(ctx)) == DefaultCalled
  {
  }

  /** A type with only an `InitContext` constructor: both entry points call
      it, `CreateInstance()` with a null context and `CreateInstance(ctx)`
      with `ctx`. */
  lemma OnlyInitConstructor<C>(t: TypeDesc, ctx: C)
    requires !t.hasDefaultCtor && t.hasInitCtor
    ensures Build(t).Success?
    ensures Invoke<C>(Build(t).value.createInstance, None) == InitCalled(None)
    ensures Invoke(Build(t).value.createInstanceWithContext, Some(ctx)) == InitCalled(Some(ctx))
  {
  }

  /** A type with both constructors: each entry point calls the constructor
      whose shape matches it. */
  lemma BothConstructors<C>(t: TypeDesc, ctx: C)
    requires t.hasDefaultCtor && t.hasInitCtor
    ensures Build(t).Success?
    ensures Invoke<C>(Build(t).value.createInstance, None) == DefaultCalled
    ensures Invoke(Build(t).value.createInstanceWithContext, Some(ctx)) == InitCalled(Some(ctx))
  {
  }

  /** Filtering out indexed properties distributes over concatenation, so it
      keeps the relative order of the properties it retains. */
  lemma {:induction false} NonIndexedAppend(a: seq<PropertyDesc>, b: seq<PropertyDesc>)
    ensures NonIndexed(a + b) == NonIndexed(a) + NonIndexed(b)
    decreases |a|
  {
    if |a| == 0 {
      assert a + b == b;
    } else {
      assert (a + b)[0] == a[0];
      assert (a + b)[1..] == a[1..] + b;
      NonIndexedAppend(a[1..], b);
    }
  }

  /** Each non-indexed property is kept as many times as it occurs, and no
      indexed property is kept at all. */
  lemma {:induction false} NonIndexedCounts(ps: seq<PropertyDesc>, p: PropertyDesc)
    ensures multiset(NonIndexed(ps))[p] == (if p.IsIndexed() then 0 else multiset(ps)[p])
    decreases |ps|
  {
    if |ps| != 0 {
      NonIndexedCounts(ps[1..], p);
      assert ps == [ps[0]] + ps[1..];
      assert multiset(ps) == multiset([ps[0]]) + multiset(ps[1..]);
    }
  }

  /** When no property is indexed, every property becomes a member. */
  lemma {:induction false} NonIndexedKeepsAll(ps: seq<PropertyDesc>)
    requires forall i :: 0 <= i < |ps| ==> !ps[i].IsIndexed()
    ensures NonIndexed(ps) == ps
    decreases |ps|
  {
    if |ps| != 0 {
      var rest := ps[1..];
      assert forall i :: 0 <= i < |rest| ==> rest[i] == ps[i + 1];
      NonIndexedKeepsAll(rest);
      assert !ps[0].IsIndexed();
      assert NonIndexed(ps) == [ps[0]] + NonIndexed(rest);
      assert ps == [ps[0]] + rest;
    }
  }

  /** Every entry of a plan: fields come first with kind 1, a direct read and
      a direct write; then the non-indexed properties with kind 2 and the
      getter and setter the fallback chain chose for them; each entry is named
      `Accessor$<Name>` after its member. */
  lemma MemberLayout(t: TypeDesc)
    requires t.hasDefaultCtor || t.hasInitCtor
    ensures var ms := Build(t).value.members;
      && (forall i :: 0 <= i < |t.fields| ==>
            && ms[i].info == FieldMember(t.fields[i])
            && ms[i].key == MemberKey(FieldKind, t.fields[i].name)
            && ms[i].nestedTypeName == NestedTypeName(t.fields[i].name)
            && ms[i].getter == Some(LoadField(t.fields[i]))
            && ms[i].setter == Some(StoreField(t.fields[i])))
      && (forall i :: |t.fields| <= i < |ms| ==>
            var p := NonIndexed(t.properties)[i - |t.fields|];
            && ms[i].info == PropertyMember(p)
            && ms[i].key == MemberKey(PropertyKind, p.name)
            && ms[i].nestedTypeName == NestedTypeName(p.name)
            && ms[i].getter == BuildGetter(t, PropertyMember(p))
            && ms[i].setter == BuildSetter(t, PropertyMember(p)))
  {
    var ms := Build(t).value.members;
    var es := EnumerateMembers(t);
    assert ms == BuildMembers(t);
    forall i | 0 <= i < |t.fields|
      ensures ms[i].info == FieldMember(t.fields[i])
      ensures ms[i].key == MemberKey(FieldKind, t.fields[i].name)
      ensures ms[i].nestedTypeName == NestedTypeName(t.fields[i].name)
      ensures ms[i].getter == Some(LoadField(t.fields[i]))
      ensures ms[i].setter == Some(StoreField(t.fields[i]))
    {
      assert es[i] == FieldMember(t.fields[i]);
      assert ms[i] == BuildMember(t, es[i]);
    }
    forall i | |t.fields| <= i < |ms|
      ensures ms[i].info == PropertyMember(NonIndexed(t.properties)[i - |t.fields|])
      ensures ms[i].key == MemberKey(PropertyKind, NonIndexed(t.properties)[i - |t.fields|].name)
      ensures ms[i].nestedTypeName == NestedTypeName(NonIndexed(t.properties)[i - |t.fields|].name)
      ensures ms[i].getter == BuildGetter(t, PropertyMember(NonIndexed(t.properties)[i - |t.fields|]))
      ensures ms[i].setter == BuildSetter(t, PropertyMember(NonIndexed(t.properties)[i - |t.fields|]))
    {
      assert es[i] == PropertyMember(NonIndexed(t.properties)[i - |t.fields|]);
      assert ms[i] == BuildMember(t, es[i]);
    }
  }

  /** No indexed property is ever registered, and every non-indexed property is. */
  lemma IndexedPropertiesExcluded(t: TypeDesc, p: PropertyDesc)
    requires (t.hasDefaultCtor || t.hasInitCtor) && p in t.properties
    ensures (exists i :: 0 <= i < |Build(t).value.members| && Build(t).value.members[i].info == PropertyMember(p))
      <==> !p.IsIndexed()
  {
    var ms := Build(t).value.members;
    var es := EnumerateMembers(t);
    if !p.IsIndexed() {
      assert PropertyMember(p) in es;
      var i :| 0 <= i < |es| && es[i] == PropertyMember(p);
      assert ms[i].info == PropertyMember(p);
    } else {
      forall i | 0 <= i < |ms|
        ensures ms[i].info != PropertyMember(p)
      {
        assert ms[i].info == es[i] && es[i] in es;
      }
    }
  }

  /** What `HasGetter` and `HasSetter` report for a registered member: a field
      has both; a property has a getter exactly when it declares one or, on a
      decorated type only, the type has a public `get_<Name>` method (and
      likewise for the setter with `set_<Name>`). */
  lemma EntryCapabilities(t: TypeDesc, i: int)
    requires (t.hasDefaultCtor || t.hasInitCtor) && 0 <= i < |t.fields| + |NonIndexed(t.properties)|
    ensures var e := Build(t).value.members[i];
      && (e.HasGetter() <==>
            || e.info.FieldMember?
            || e.info.property.getMethod.Some?
            || (t.IsDecorated() && GetterName(e.info.property.name) in t.publicMethods))
      && (e.HasSetter() <==>
            || e.info.FieldMember?
            || e.info.property.setMethod.Some?
            || (t.IsDecorated() && SetterName(e.info.property.name) in t.publicMethods))
  {
  }

  /** On a type that is not decorated the `get_`/`set_` fallback is never
      consulted: the members do not depend on the type's other public methods. */
  lemma UndecoratedIgnoresFallback(t: TypeDesc, methods: map<string, MethodRef>)
    requires !t.IsDecorated()
    ensures BuildMembers(t.(publicMethods := methods)) == BuildMembers(t)
  {

  }

  /** The getter choice does not look at the declared setter and the setter
      choice does not look at the declared getter. */
  lemma GetterSetterIndependent(t: TypeDesc, p: PropertyDesc, g: Option<MethodRef>, s: Option<MethodRef>)
    ensures BuildGetter(t, PropertyMember(p.(setMethod := s))) == BuildGetter(t, PropertyMember(p))
    ensures BuildSetter(t, PropertyMember(p.(getMethod := g))) == BuildSetter(t, PropertyMember(p))
  {
  }

  /** A read-only property of a type that is not decorated reports a getter and
      no setter. */
  lemma ReadOnlyProperty(t: TypeDesc, p: PropertyDesc)
    requires !t.IsDecorated() && p.getMethod.Some? && p.setMethod.None?
    ensures BuildMember(t, PropertyMember(p)).HasGetter()
    ensures !BuildMember(t, PropertyMember(p)).HasSetter()
  {
  }

  /** A type nested in another type: the `+` separator between the outer and
      the inner type's names becomes `.` in the accessor type's name. */
  lemma NestedTypeAccessorName(outer: string, inner: string)
    requires '+' !in outer && '+' !in inner
    ensures AccessorTypeName(outer + "+" + inner) == outer + "." + inner + TypeNameSuffix
  {

  }

  /** A full name without `+` is used unchanged. */
  lemma TopLevelTypeAccessorName(fullName: string)
    requires '+' !in fullName
    ensures AccessorTypeName(fullName) == fullName + TypeNameSuffix
  {

  }

  /** The `Point` example, for any type of that shape: a public field `X`, a
      read-write property `Y` and only a public default constructor give the
      members `X` then `Y`, both readable and writable, and both
      `CreateInstance` methods call the default constructor. */
  lemma PointExample(point: TypeRef, x: FieldDesc, y: PropertyDesc, methods: map<string, MethodRef>)
    requires '+' !in point.fullName
    requires !y.IsIndexed() && y.getMethod.Some? && y.setMethod.Some?
    ensures var r := Build(TypeDesc(point, point, true, false, [x], [y], methods));
      && r.Success?
      && r.value.typeName == point.fullName + TypeNameSuffix
      && r.value.createInstance == NewDefault
      && r.value.createInstanceWithContext == NewDefault
      && |r.value.members| == 2
      && r.value.members[0].key == MemberKey(FieldKind, x.name)
      && r.value.members[1].key == MemberKey(PropertyKind, y.name)
      && r.value.members[0].HasGetter() && r.value.members[0].HasSetter()
      && r.value.members[1].HasGetter() && r.value.members[1].HasSetter()
  {

  }

  /** A field and a non-indexed property with the same name (a base-class
      field hidden by a `new` property, say) are both registered, as two
      different members, under one nested accessor type name. */
  lemma SharedNameSharesNestedType(t: TypeDesc, f: FieldDesc, p: PropertyDesc)
    requires t.hasDefaultCtor || t.hasInitCtor
    requires t.fields == [f] && t.properties == [p]
    requires !p.IsIndexed() && f.name == p.name
    ensures |Build(t).value.members| == 2
    ensures Build(t).value.members[0].info != Build(t).value.members[1].info
    ensures Build(t).value.members[0].nestedTypeName == Build(t).value.members[1].nestedTypeName
  {
  }

  /** Adding or replacing a `set_` method never changes any getter choice,
      and adding or replacing a `get_` method never changes any setter choice. */
  lemma FallbacksDoNotCross(t: TypeDesc, m: Member, n: string, mr: MethodRef)
    ensures BuildGetter(t.(publicMethods := t.publicMethods[SetterName(n) := mr]), m) == BuildGetter(t, m)
    ensures BuildSetter(t.(publicMethods := t.publicMethods[GetterName(n) := mr]), m) == BuildSetter(t, m)
  {
    if m.PropertyMember? {
      AccessorMethodNamesDistinct(m.property.name, n);
      AccessorMethodNamesDistinct(n, m.property.name);
    }
  }
}
