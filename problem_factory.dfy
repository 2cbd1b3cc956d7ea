/**
 * The instantiator: a problem type's name selects the value-function class
 * and its flag. The instance itself is then built by that class's
 * constructor from the tasks, the order, the agents and the class's draws.
 */
module ProblemFactory {
  import opened Wrappers

  /** The value-function classes and their flags. */
  datatype Kind =
    | LinearPerturbedKind(perturbed: bool)
    | UniformKind(modified: bool)
    | NormalKind(modified: bool)
    | AgentBasedKind
    | CongestedNdcsKind(perturbed: bool)
    | NdcsKind(urgent: bool, congested: bool)

  /** getInstance: the class for each recognised name, and None (the source's null) for any other. */
  function GetInstance(name: string): (r: Option<Kind>)
  {
    if name == "SUPERADDITIVE" then Some(LinearPerturbedKind(false))
    else if name == "LINEAR_PERTURBED" then Some(LinearPerturbedKind(true))
    else if name == "UNIFORM" then Some(UniformKind(false))
    else if name == "NORMAL" then Some(NormalKind(false))
    else if name == "MODIFIED_UNIFORM" then Some(UniformKind(true))
    else if name == "MODIFIED_NORMAL" then Some(NormalKind(true))
    else if name == "AGENT_BASED" then Some(AgentBasedKind)
    else if name == "NDCS" then Some(CongestedNdcsKind(false))
    else if name == "CONGESTED_NDCS" then Some(CongestedNdcsKind(true))
    else None
  }

  /** The name that selects a class and flag, if any does. */
  function NameOf(k: Kind): (r: Option<string>)
  {
    match k
    case LinearPerturbedKind(perturbed) => Some(if perturbed then "LINEAR_PERTURBED" else "SUPERADDITIVE")
    case UniformKind(modified) => Some(if modified then "MODIFIED_UNIFORM" else "UNIFORM")
    case NormalKind(modified) => Some(if modified then "MODIFIED_NORMAL" else "NORMAL")
    case AgentBasedKind => Some("AGENT_BASED")
    case CongestedNdcsKind(perturbed) => Some(if perturbed then "CONGESTED_NDCS" else "NDCS")
    case NdcsKind(_, _) => None
  }

  /**
   * The dispatch and the names are inverse: every name getInstance accepts
   * selects the kind with that name, and every kind with a name is
   * selected by it. So an unrecognised name (such as "UC_AGENT_BASED")
   * gives None, and the two-flag NDCS class is never produced.
   */
  lemma DispatchInverse(name: string, k: Kind)
    ensures GetInstance(name).Some? ==> NameOf(GetInstance(name).value) == Some(name)
    ensures NameOf(k).Some? ==> GetInstance(NameOf(k).value) == Some(k)
    ensures GetInstance(name).Some? ==> !GetInstance(name).value.NdcsKind?
    ensures NameOf(k).None? <==> k.NdcsKind?
  {
  }
}
