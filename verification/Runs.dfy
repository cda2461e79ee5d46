/** Runs: any interleaving of Reconcile calls with whatever users, Argo and the host may do between them. */
module Runs {
  import opened Api
  import opened Cluster

  datatype Action =
    | Call(name: string, env: Env)                // Reconcile, with these answers
    | Create(name: string, spec: Spec)
    | Edit(name: string, spec: Spec)
    | Delete(name: string)                        // with the Secret the network owns
    | Progress(id: nat, phase: Phase)             // Argo; the two final phases are final
    | LoseDir(name: string)                       // the operator's pod moved

  ghost function Next(c: Cluster, a: Action): Cluster {
    match a
    case Call(name, env) => Reconciled(c, name, env)
    case Create(name, spec) =>
      if name in c.networks then c
      else c.(networks := c.networks[name := Resource(spec, INITIAL_STATUS, [])])
    case Edit(name, spec) =>
      if name !in c.networks then c
      else c.(networks := c.networks[name := c.networks[name].(spec := spec)])
    case Delete(name) =>
      c.(networks := c.networks - {name},
         secret := if c.secret.Some? && c.secret.value.owner == name then None else c.secret)
    case Progress(id, phase) =>
      if id < |c.workflows| && c.workflows[id].phase.OtherPhase? && !c.workflows[id].deleted
      then c.(workflows := c.workflows[id := c.workflows[id].(phase := phase)])
      else c
    case LoseDir(name) => c.(dirs := c.dirs - {name})
  }

  // Status and journal of a network change in its own calls only.
  lemma OthersKeepResource(c: Cluster, a: Action, name: string)
    requires name in c.networks && a != Delete(name) && !(a.Call? && a.name == name)
    ensures name in Next(c, a).networks
    ensures var n, r := c.networks[name], Next(c, a).networks[name];
            r.status == n.status && r.journal == n.journal
  {
  }

  ghost function Run(c: Cluster, acts: seq<Action>): Cluster
    decreases |acts|
  {
    if acts == [] then c else Run(Next(c, acts[0]), acts[1..])
  }

  // The schema admits the forced states of Forceable only.
  predicate Admitted(a: Action) {
    (a.Create? || a.Edit?) ==> a.spec.forceState.StateUnset? || Forceable(a.spec.forceState)
  }

  predicate ForceFree(a: Action) {
    (a.Create? || a.Edit?) ==> a.spec.forceState.StateUnset?
  }

  // A namespace before its first FabricNetwork; the rest of it may hold anything.
  predicate Fresh(c: Cluster) { c.networks == map[] }

  ghost predicate AllAdmitted(acts: seq<Action>) { forall a :: a in acts ==> Admitted(a) }

  ghost predicate AllForceFree(acts: seq<Action>) { forall a :: a in acts ==> ForceFree(a) }
}
