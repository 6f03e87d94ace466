/** The abstract description of a decorated type, as the reflection
    collaborator would report it. Everything the builder asks of
    `System.Type` is a field here. */
module TypeDescriptor {
  import opened Wrappers

  /** A runtime type. Two types are the same type exactly when their
      descriptions are equal. */
  datatype TypeRef = TypeRef(fullName: string, name: string, assembly: string)

  /** A method handle: its name and the type that declares it. */
  datatype MethodRef = MethodRef(name: string, declaringType: TypeRef)

  /** A public field. */
  datatype FieldDesc = FieldDesc(name: string, fieldType: TypeRef)

  /** A public property with the number of its index parameters and the
      public accessors the property itself declares, when it has them. */
  datatype PropertyDesc = PropertyDesc(
    name: string,
    propertyType: TypeRef,
    indexParameterCount: nat,
    getMethod: Option<MethodRef>,
    setMethod: Option<MethodRef>)
  {
    predicate IsIndexed() { indexParameterCount != 0 }
  }

  /** The type an accessor is built for.
      - `decorated` is the type the accessor works on, `original` the type it
        stands for (equal when there is no decoration);
      - the two constructor flags say whether a public parameterless constructor
        and a public constructor taking one `InitContext` exist;
      - `fields` and `properties` are the public members in reflection order;
      - `publicMethods` are the public methods of the decorated type by name. */
  datatype TypeDesc = TypeDesc(
    decorated: TypeRef,
    original: TypeRef,
    hasDefaultCtor: bool,
    hasInitCtor: bool,
    fields: seq<FieldDesc>,
    properties: seq<PropertyDesc>,
    publicMethods: map<string, MethodRef>)
  {
    /** The decorated type is a proxy over a different original type. */
    predicate IsDecorated() { decorated != original }

    /** `Type.GetMethod(name)` on the decorated type. */
    function GetMethod(methodName: string): (r: Option<MethodRef>)
      ensures r.Some? <==> methodName in publicMethods
      ensures r.Some? ==> r.value == publicMethods[methodName]
    {
      if methodName in publicMethods then Some(publicMethods[methodName]) else None
    }
  }

  /** A member the accessor exposes: a field or a property. */
  datatype Member = FieldMember(field: FieldDesc) | PropertyMember(property: PropertyDesc)
  {
    function Name(): string {
      match this
      case FieldMember(f) => f.name
      case PropertyMember(p) => p.name
    }
  }
}
