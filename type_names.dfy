/**
 * TypeName, the reference to a (possibly generic) type that a UML Type carries.
 * Only the parts Type.java relies on are modelled: the qualified name, the generic
 * arguments, and an order and hash that look at the qualified name alone.
 */
module TypeNames {
  import JavaStrings

  datatype TypeName = TypeName(qualified: string, generics: seq<TypeName>)

  /** TypeName.compareTo: the qualified names compared as Java strings; generics play no part. */
  function Compare(a: TypeName, b: TypeName): (r: int)
    ensures r == 0 <==> a.qualified == b.qualified
  {
    JavaStrings.CompareTo(a.qualified, b.qualified)
  }

  /** TypeName.hashCode: the Java hash of the qualified name. */
  function Hash(n: TypeName): (h: int)
    ensures JavaStrings.Int32Min <= h <= JavaStrings.Int32Max
  {
    JavaStrings.HashCode(n.qualified)
  }

  /** Compare is a total order up to equal qualified names: antisymmetric and transitive. */
  lemma CompareIsOrder(a: TypeName, b: TypeName, c: TypeName)
    ensures Compare(a, b) == -Compare(b, a)
    ensures Compare(a, b) < 0 && Compare(b, c) < 0 ==> Compare(a, c) < 0
  {
    JavaStrings.CompareToAntisymmetric(a.qualified, b.qualified);
    if Compare(a, b) < 0 && Compare(b, c) < 0 {
      JavaStrings.CompareToTransitive(a.qualified, b.qualified, c.qualified);
    }
  }
}
