/** The names the builder constructs by string rewriting: the generated type's
    name, the nested accessor types' names, the accessor-method names it looks
    up as a fallback, and the text of the configuration error. */
module Names {

  /** The suffix the builder reports for the dynamic assembly it writes into. */
  const AssemblyNameSuffix: string := "TypeAccessor"

  /** The suffix appended to the decorated type's rewritten full name to name
      the generated accessor type. */
  const TypeNameSuffix: string := ".TypeAccessor"

  const NestedTypePrefix: string := "Accessor$"
  const GetterPrefix: string := "get_"
  const SetterPrefix: string := "set_"

  /** `String.Replace(char, char)`: every occurrence of `from` becomes `to`,
      every other character is kept, and the length does not change. */
  function ReplaceChar(s: string, from: char, to: char): (r: string)
    ensures |r| == |s|
    ensures forall i :: 0 <= i < |s| ==> r[i] == (if s[i] == from then to else s[i])
    ensures from != to ==> from !in r
  {
    if |s| == 0 then ""
    else [if s[0] == from then to else s[0]] + ReplaceChar(s[1..], from, to)
  }

  /** The name of the generated accessor type: the decorated type's full name,
      nested-type separators `+` turned into `.`, followed by `.TypeAccessor`. */
  function AccessorTypeName(fullName: string): (r: string)
    ensures |r| == |fullName| + |TypeNameSuffix|
    ensures r[..|fullName|] == ReplaceChar(fullName, '+', '.')
    ensures r[|fullName|..] == TypeNameSuffix
    ensures '+' !in r
  {
    ReplaceChar(fullName, '+', '.') + TypeNameSuffix
  }

  /** The name of the nested accessor type generated for the member `memberName`. */
  function NestedTypeName(memberName: string): (r: string)
    ensures |r| == |NestedTypePrefix| + |memberName|
    ensures r[..|NestedTypePrefix|] == NestedTypePrefix && r[|NestedTypePrefix|..] == memberName
  {
    NestedTypePrefix + memberName
  }

  /** Members with distinct names get distinct nested accessor types, and the
      member name is recovered from the nested type's name by dropping the
      prefix. Two members that share a name (a field and a property, say) get
      the same nested type name. */
  lemma NestedTypeNameInjective(a: string, b: string)
    ensures NestedTypeName(a)[|NestedTypePrefix|..] == a
    ensures NestedTypeName(a) == NestedTypeName(b) <==> a == b
  {
  }

  /** The name of the getter method a property `propertyName` compiles to. */
  function GetterName(propertyName: string): string { GetterPrefix + propertyName }

  /** The name of the setter method a property `propertyName` compiles to. */
  function SetterName(propertyName: string): string { SetterPrefix + propertyName }

  /** The getter fallback and the setter fallback never look up the same
      method, and each is specific to its property. */
  lemma AccessorMethodNamesDistinct(a: string, b: string)
    ensures GetterName(a) != SetterName(b)
    ensures GetterName(a) == GetterName(b) <==> a == b
    ensures SetterName(a) == SetterName(b) <==> a == b
  {
    assert GetterName(a)[0] == 'g' && SetterName(b)[0] == 's';
    assert GetterName(a)[|GetterPrefix|..] == a && GetterName(b)[|GetterPrefix|..] == b;
    assert SetterName(a)[|SetterPrefix|..] == a && SetterName(b)[|SetterPrefix|..] == b;
  }

  const ConfigErrorHead: string := "The '"
  const ConfigErrorTail: string := "' type must have public default or init constructor."

  /** The message of the configuration error raised for the type `typeName`. */
  function ConfigErrorMessage(typeName: string): (r: string)
    ensures |r| == |ConfigErrorHead| + |typeName| + |ConfigErrorTail|
    ensures r[|ConfigErrorHead|..|ConfigErrorHead| + |typeName|] == typeName
  {
    ConfigErrorHead + typeName + ConfigErrorTail
  }
}
