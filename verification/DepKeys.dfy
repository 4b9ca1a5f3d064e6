/** Coordinates of the dependency map: GVRs, dependency keys, the events that move
    them and the forward buckets one event reaches. */
module DepKeys {

  datatype GVR = GVR(group: string, version: string, resource: string)

  /** The Name of a list-scope dependency; no Kubernetes object can carry it. */
  const LIST_WILDCARD: string := "*"

  datatype DepKey = DepKey(gvr: GVR, namespace: string, name: string) {
    predicate IsList() { name == LIST_WILDCARD }
  }

  type L1Key = string

  /** What the worker's probe found, once it hands an event over: an unknown object past its
      budget is degraded. */
  datatype ObjectState = Exists | Absent | Degraded

  /** What an informer or a CRD lifecycle handler announces. */
  datatype Change =
    | ObjectChange(gvr: GVR, namespace: string, name: string)
    | TypeChange(gvr: GVR, listOnly: bool)

  /** The dependency keys a change invalidates. An object change reaches the exact and the
      list key of its namespace and of the cluster scope; a type change reaches every key
      of the GVR, or only its list keys. */
  predicate Hits(c: Change, dk: DepKey) {
    && dk.gvr == c.gvr
    && match c
       case ObjectChange(_, ns, name) => dk.namespace in {ns, ""} && dk.name in {name, LIST_WILDCARD}
       case TypeChange(_, listOnly) => listOnly ==> dk.IsList()
  }

  /** The buckets an object event stamps and fans out to, exact forms before list forms. */
  function CoordinateBuckets(gvr: GVR, namespace: string, name: string): (bs: seq<DepKey>)
    ensures forall dk :: dk in bs <==> Hits(ObjectChange(gvr, namespace, name), dk)
    ensures |bs| <= 4
    ensures forall i, j :: 0 <= i < j < |bs| && bs[i].name == LIST_WILDCARD ==> bs[j].name == LIST_WILDCARD
  {
    [DepKey(gvr, namespace, name)]
    + (if namespace != "" then [DepKey(gvr, "", name)] else [])
    + [DepKey(gvr, namespace, LIST_WILDCARD)]
    + (if namespace != "" then [DepKey(gvr, "", LIST_WILDCARD)] else [])
  }

  /** What an event hits, spelled out. */
  lemma HitsMeaning(gvr: GVR, namespace: string, name: string, listOnly: bool, dk: DepKey)
    ensures Hits(ObjectChange(gvr, namespace, name), dk) <==>
              dk.gvr == gvr && (dk.namespace == namespace || dk.namespace == "") && (dk.name == name || dk.name == "*")
    ensures Hits(TypeChange(gvr, listOnly), dk) <==> dk.gvr == gvr && (listOnly ==> dk.name == "*")
  {
  }

  function Max(a: nat, b: nat): nat { if a < b then b else a }

  function Min(a: nat, b: nat): nat { if a < b then a else b }
}
