/** The parts of the Kubernetes objects the bot reads and writes. */
module KubeObjects {
  import opened Decimal
  import opened Wrappers

  type Int32 = n: int | -0x8000_0000 <= n < 0x8000_0000

  datatype Container = Container(name: string, image: string)

  /** annotations is None for a nil map. */
  datatype PodTemplate = PodTemplate(annotations: Option<map<string, string>>, containers: seq<Container>)

  datatype Spec = Spec(replicas: Int32, template: PodTemplate)

  datatype Status = Status(observedGeneration: nat, replicas: int, updatedReplicas: int,
                           availableReplicas: int, unavailableReplicas: int)

  datatype Deployment = Deployment(annotations: map<string, string>, resourceVersion: nat, generation: nat,
                                   selectorOk: bool, spec: Spec, status: Status)

  datatype ReplicaSet = ReplicaSet(name: string, annotations: map<string, string>, created: int,
                                   template: PodTemplate)

  /** Why an operation returned a non-nil error. */
  datatype Failure =
    | NotInitialised
    | FetchFailed(message: string)
    | BadSelector
    | ListFailed(message: string)
    | TooFewRevisions
    | NoCurrentRevision
    | BadCurrentRevision
    | RevisionNotFound(revision: Int64)
    | PreviousNotFound(revision: Int64)
    | UpdateRefused(message: string)
    | PollFailed(message: string)
    | ContextEnded
}
