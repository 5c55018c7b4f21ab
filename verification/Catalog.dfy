/** Resource types and their outputs: `crates/core/src/catalog.rs`. */
module Catalog {
  import opened Basics

  datatype ResourceUse = Direct | Indirect | Implicit

  datatype OutputKind = ValueOutput | SecretOutput

  /** A resource type, with the outputs its schema declares. */
  datatype ResourceType = ResourceType(
    id: string,
    use: ResourceUse,
    values: set<string>,
    secrets: set<string>,
    openOutputs: bool)
  {
    function KindOf(output: string): Option<OutputKind> {
      if output in values then Some(ValueOutput)
      else if output in secrets then Some(SecretOutput)
      else None
    }
  }

  /** The first type with this ID. */
  function FindType(types: seq<ResourceType>, id: string): (r: Option<ResourceType>)
    ensures r.Some? ==> r.value in types && r.value.id == id
    ensures r.None? ==> forall t :: t in types ==> t.id != id
  {
    if types == [] then None
    else if types[0].id == id then Some(types[0])
    else FindType(types[1..], id)
  }

  /** Whether resources of the type exist once per environment. */
  predicate IsImplicit(types: seq<ResourceType>, ty: string) {
    var t := FindType(types, ty);
    t.Some? && t.value.use == Implicit
  }
}
