/** The API objects that the controllers read and write, cut down to the fields they decide on. */
module ApiTypes {
  datatype NodePhase =
    NodeCreating | NodeCreated | NodeAvailable | NodeClaimed | NodeCleaning | NodeTerminating | NodeTerminated

  datatype PodPhase = PodWaiting | PodDispatching | PodRunning | PodSucceeded | PodFailed | PodTerminated

  datatype SpotPolicy = SpotAlways | SpotNever | SpotOther(policy: string)

  datatype Resources = Resources(volumeSize: string, gpu: string, privateIPOnly: bool)

  datatype NodeSpec = NodeSpec(instanceType: string, spot: bool, resources: Resources, zone: string)

  /** `bound` is Status.BoundPodName; the empty string means that no pod is bound. */
  datatype Node = Node(name: string, spec: NodeSpec, phase: NodePhase, bound: string)

  datatype PodSpec = PodSpec(instanceType: string, spot: SpotPolicy, resources: Resources, zone: string)

  datatype Pod = Pod(name: string, spec: PodSpec, phase: PodPhase)
}
