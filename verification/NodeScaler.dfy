/** What one round of BindingNodeScaler.Compute decides, as a function of the listed nodes and pods
  * and of the orders in which Go happens to iterate its maps. */
module NodeScaler {
  import opened Wrappers
  import opened ApiTypes
  import opened Partition

  datatype StandbySpec = StandbySpec(instanceType: string, count: int, spot: bool)

  datatype Config = Config(
    standby: seq<StandbySpec>, defaultVolumeSize: string, fixedSizeVolume: bool,
    unavailable: (string, bool, bool, string) -> bool)  // StatusKeeper.IsUnavailableZone

  // ---- matching predicates ----

  predicate SpotMatches(pod: PodSpec, node: NodeSpec) {
    (pod.spot == SpotNever && !node.spot) || (pod.spot == SpotAlways && node.spot)
  }

  predicate PlacementMatches(pod: PodSpec, node: NodeSpec) {
    pod.zone == "" || pod.zone == node.zone
  }

  predicate DiskMatches(cfg: Config, pod: PodSpec, node: NodeSpec) {
    cfg.fixedSizeVolume ==>
      || pod.resources.volumeSize == node.resources.volumeSize
      || (pod.resources.volumeSize == "" && node.resources.volumeSize == cfg.defaultVolumeSize)
  }

  predicate PodMatchesNode(cfg: Config, pod: PodSpec, node: NodeSpec) {
    && node.instanceType == pod.instanceType
    && node.resources.privateIPOnly == pod.resources.privateIPOnly
    && node.resources.gpu == pod.resources.gpu
    && SpotMatches(pod, node)
    && PlacementMatches(pod, node)
    && DiskMatches(cfg, pod, node)
  }

  /** The volume that a disk which cannot be resized must have for the pod. */
  predicate VolumeSuits(cfg: Config, asked: string, has: string) {
    if asked == "" then has == "" || has == cfg.defaultVolumeSize else has == asked
  }

  /** What a pod asks of a node, field by field. */
  predicate Suits(cfg: Config, pod: PodSpec, node: NodeSpec) {
    && pod.instanceType == node.instanceType
    && pod.resources.gpu == node.resources.gpu && pod.resources.privateIPOnly == node.resources.privateIPOnly
    && (pod.zone != "" ==> pod.zone == node.zone)
    && (cfg.fixedSizeVolume ==> VolumeSuits(cfg, pod.resources.volumeSize, node.resources.volumeSize))
    && match pod.spot
       case SpotAlways => node.spot
       case SpotNever => !node.spot
       case SpotOther(_) => false
  }

  /** The test that the scaler makes is neither too weak nor too strict. */
  lemma MatchMeans(cfg: Config, pod: PodSpec, node: NodeSpec)
    ensures PodMatchesNode(cfg, pod, node) <==> Suits(cfg, pod, node)
  {}

  predicate NodeMatchesStandbySpec(cfg: Config, node: NodeSpec, spec: StandbySpec) {
    node.spot == spec.spot && node.instanceType == spec.instanceType
      && node.resources.volumeSize == cfg.defaultVolumeSize
  }

  // ---- node creation ----

  function CreateNodeForPod(cfg: Config, pod: Pod, name: string): Option<Node> {
    var isSpot := pod.spec.spot == SpotAlways;
    if cfg.unavailable(pod.spec.instanceType, isSpot, pod.spec.resources.privateIPOnly, pod.spec.zone) then None
    else
      var volume := if cfg.fixedSizeVolume && pod.spec.resources.volumeSize != "" then pod.spec.resources.volumeSize
                    else cfg.defaultVolumeSize;
      Some(Node(name,
        NodeSpec(pod.spec.instanceType, isSpot, pod.spec.resources.(volumeSize := volume), pod.spec.zone),
        NodeCreating, pod.name))
  }

  function CreateNodeForStandbySpec(cfg: Config, spec: StandbySpec, name: string): Node {
    var nodeSpec := NodeSpec(spec.instanceType, spec.spot, Resources(cfg.defaultVolumeSize, "", false), "");
    Node(name, nodeSpec, NodeCreating, "")
  }

  /** A node made for a pod fits it exactly when the pod's spot policy is one of the two known ones. */
  lemma CreatedNodeFits(cfg: Config, pod: Pod, name: string)
    requires CreateNodeForPod(cfg, pod, name).Some?
    ensures PodMatchesNode(cfg, pod.spec, CreateNodeForPod(cfg, pod, name).value.spec) <==> !pod.spec.spot.SpotOther?
  {}

  /** A node is made for every pod that the cloud can serve: named and new, bound to the pod, and as the
    * pod asks; its disk has the default size unless that could not be changed later. */
  lemma CreatedNodeIsAsAsked(cfg: Config, pod: Pod, name: string)
    ensures
      var r, p := CreateNodeForPod(cfg, pod, name), pod.spec;
      && (r.None? <==> cfg.unavailable(p.instanceType, p.spot == SpotAlways, p.resources.privateIPOnly, p.zone))
      && (r.Some? ==>
          var n := r.value;
          && n.name == name && n.phase == NodeCreating && n.bound == pod.name
          && n.spec.instanceType == p.instanceType && n.spec.spot == p.spot.SpotAlways? && n.spec.zone == p.zone
          && n.spec.resources.gpu == p.resources.gpu && n.spec.resources.privateIPOnly == p.resources.privateIPOnly
          && (p.resources.volumeSize == "" || !cfg.fixedSizeVolume ==>
              n.spec.resources.volumeSize == cfg.defaultVolumeSize)
          && (p.resources.volumeSize != "" && cfg.fixedSizeVolume ==>
              n.spec.resources.volumeSize == p.resources.volumeSize))
  {}

  /** A standby node is for pods of its type and spot policy that ask for nothing special. */
  lemma StandbyNodeSuits(cfg: Config, spec: StandbySpec, name: string, pod: PodSpec)
    ensures
      var n := CreateNodeForStandbySpec(cfg, spec, name);
      && n.name == name && n.phase == NodeCreating && n.bound == ""
      && (Suits(cfg, pod, n.spec) <==>
          && pod.instanceType == spec.instanceType && pod.spot == (if spec.spot then SpotAlways else SpotNever)
          && pod.resources.gpu == "" && !pod.resources.privateIPOnly && pod.zone == ""
          && (cfg.fixedSizeVolume ==> pod.resources.volumeSize in {"", cfg.defaultVolumeSize}))
  {}

  // ---- step 1 and 2: waiting pods, old bindings, unbound nodes ----

  function Waiting(pods: seq<Pod>): (w: map<string, Pod>)
    ensures forall p :: p in w ==> w[p].name == p && w[p] in pods && w[p].phase == PodWaiting
    ensures forall i :: 0 <= i < |pods| && pods[i].phase == PodWaiting ==> pods[i].name in w
  {
    if pods == [] then map[] else
      var last := pods[|pods| - 1];
      var w := Waiting(pods[..|pods| - 1]);
      if last.phase == PodWaiting then w[last.name := last] else w
  }

  predicate AvailableOrBaking(n: Node) {
    n.phase == NodeCreating || n.phase == NodeCreated || n.phase == NodeAvailable
  }

  /** The node keeps the pod it was bound to. */
  predicate StillBound(n: Node, waiting: map<string, Pod>) {
    AvailableOrBaking(n) && n.bound != "" && n.bound in waiting
  }

  predicate Unbound(n: Node, waiting: map<string, Pod>) {
    AvailableOrBaking(n) && !StillBound(n, waiting)
  }

  function OldBindings(nodes: seq<Node>, waiting: map<string, Pod>): map<string, string> {
    if nodes == [] then map[] else
      var n := nodes[|nodes| - 1];
      var b := OldBindings(nodes[..|nodes| - 1], waiting);
      if StillBound(n, waiting) then b[n.bound := n.name] else b
  }

  function UnboundNodes(nodes: seq<Node>, waiting: map<string, Pod>): seq<Node> {
    if nodes == [] then [] else
      var n := nodes[|nodes| - 1];
      var u := UnboundNodes(nodes[..|nodes| - 1], waiting);
      if Unbound(n, waiting) then u + [n.(bound := "")] else u
  }

  predicate NeedsNode(p: string, waiting: map<string, Pod>, bindings: map<string, string>) {
    p in waiting && (p !in bindings || bindings[p] == "")
  }

  // ---- step 3: greedy matching ----

  function FirstMatch(cfg: Config, pod: PodSpec, nodes: seq<Node>): (i: nat)
    ensures i <= |nodes|
    ensures i < |nodes| ==> PodMatchesNode(cfg, pod, nodes[i].spec)
    ensures forall j :: 0 <= j < i ==> !PodMatchesNode(cfg, pod, nodes[j].spec)
  {
    if nodes == [] || PodMatchesNode(cfg, pod, nodes[0].spec) then 0
    else
      assert forall j :: 0 < j < |nodes| ==> nodes[j] == nodes[1..][j - 1];
      1 + FirstMatch(cfg, pod, nodes[1..])
  }

  function Without<T>(s: seq<T>, i: nat): seq<T>
    requires i < |s|
  {
    s[..i] + s[i + 1..]
  }

  lemma WithoutOne<T>(s: seq<T>, i: nat)
    requires i < |s|
    ensures multiset(Without(s, i)) + multiset{s[i]} == multiset(s)
  {
    assert s == s[..i] + [s[i]] + s[i + 1..];
  }

  datatype Pair = Pair(pod: Pod, node: Node)

  datatype Matching = Matching(pairs: seq<Pair>, needy: seq<Pod>, left: seq<Node>)

  function Match(cfg: Config, pods: seq<Pod>, nodes: seq<Node>): Matching {
    if pods == [] then Matching([], [], nodes)
    else
      var i := FirstMatch(cfg, pods[0].spec, nodes);
      if i < |nodes| then
        var m := Match(cfg, pods[1..], Without(nodes, i));
        m.(pairs := [Pair(pods[0], nodes[i])] + m.pairs)
      else
        var m := Match(cfg, pods[1..], nodes);
        m.(needy := [pods[0]] + m.needy)
  }

  // ---- step 4: nodes for the pods left over ----

  /** `uuid` yields the names of new nodes (UUIDs); `k` of them are in use. */
  function NodesForPods(cfg: Config, needy: seq<Pod>, uuid: nat -> string, k: nat): seq<Node> {
    if needy == [] then [] else
      match CreateNodeForPod(cfg, needy[0], uuid(k))
      case Some(n) => [n] + NodesForPods(cfg, needy[1..], uuid, k + 1)
      case None => NodesForPods(cfg, needy[1..], uuid, k)
  }

  // ---- step 5: standby pools ----

  datatype Taken = Taken(kept: seq<Node>, left: seq<Node>, needed: int)

  /** Takes nodes that fit the spec until `needed` of them are found.  A negative `needed` is never reached. */
  function Take(cfg: Config, spec: StandbySpec, nodes: seq<Node>, needed: int): (t: Taken)
    ensures |t.kept| + t.needed == needed
    ensures needed >= 0 ==> t.needed >= 0
  {
    if nodes == [] || needed == 0 then Taken([], nodes, needed)
    else if NodeMatchesStandbySpec(cfg, nodes[0].spec, spec) then
      var t := Take(cfg, spec, nodes[1..], needed - 1);
      t.(kept := [nodes[0]] + t.kept)
    else
      var t := Take(cfg, spec, nodes[1..], needed);
      t.(left := [nodes[0]] + t.left)
  }

  datatype Pool = Pool(kept: seq<seq<Node>>, left: seq<Node>, needed: map<StandbySpec, int>)

  /** Serves the specs in order; `needed` is keyed by the whole spec, so a later equal spec overwrites. */
  function FillPools(cfg: Config, specs: seq<StandbySpec>, nodes: seq<Node>): (p: Pool)
    ensures |p.kept| == |specs|
    ensures forall s :: s in p.needed <==> s in specs
  {
    if specs == [] then Pool([], nodes, map[]) else
      var t := Take(cfg, specs[0], nodes, specs[0].count);
      var p := FillPools(cfg, specs[1..], t.left);
      assert specs == [specs[0]] + specs[1..];
      Pool([t.kept] + p.kept, p.left, map[specs[0] := t.needed] + p.needed)
  }

  function StandbyNodes(cfg: Config, spec: StandbySpec, n: int, uuid: nat -> string, k: nat): (r: seq<Node>)
    ensures |r| == if n < 0 then 0 else n
    ensures forall i :: 0 <= i < |r| ==> r[i] == CreateNodeForStandbySpec(cfg, spec, uuid(k + i))
    decreases if n < 0 then 0 else n
  {
    if n <= 0 then [] else [CreateNodeForStandbySpec(cfg, spec, uuid(k))] + StandbyNodes(cfg, spec, n - 1, uuid, k + 1)
  }

  function NodesForPools(cfg: Config, order: seq<StandbySpec>, needed: map<StandbySpec, int>, uuid: nat -> string,
                         k: nat): seq<Node>
    requires forall s :: s in order ==> s in needed
  {
    if order == [] then [] else
      var r := StandbyNodes(cfg, order[0], needed[order[0]], uuid, k);
      r + NodesForPools(cfg, order[1..], needed, uuid, k + |r|)
  }

  // ---- the round ----

  /** The orders that Go's map iteration and the partitioning settle on. */
  datatype Choice = Choice(pods: seq<Pod>, nodes: seq<Node>, specs: seq<StandbySpec>)

  predicate Placed(p: Pod) {
    p.spec.zone != ""
  }

  predicate OnSpot(n: Node) {
    n.spec.spot
  }

  ghost predicate PodsChosen(chosen: seq<Pod>, nodes: seq<Node>, waiting: map<string, Pod>) {
    && (forall i, j :: 0 <= i < j < |chosen| ==> chosen[i].name != chosen[j].name)
    && (forall p :: p in chosen <==> NeedsNode(p.name, waiting, OldBindings(nodes, waiting)) && waiting[p.name] == p)
    && FrontFirst(chosen, Placed)
  }

  ghost predicate NodesChosen(chosen: seq<Node>, nodes: seq<Node>, waiting: map<string, Pod>) {
    multiset(chosen) == multiset(UnboundNodes(nodes, waiting)) && FrontFirst(chosen, OnSpot)
  }

  ghost predicate SpecsChosen(chosen: seq<StandbySpec>, cfg: Config) {
    && (forall i, j :: 0 <= i < j < |chosen| ==> chosen[i] != chosen[j])
    && (forall s :: s in chosen <==> s in cfg.standby)
  }

  ghost predicate ValidChoice(cfg: Config, nodes: seq<Node>, waiting: map<string, Pod>, c: Choice) {
    PodsChosen(c.pods, nodes, waiting) && NodesChosen(c.nodes, nodes, waiting) && SpecsChosen(c.specs, cfg)
  }

  datatype Outcome = Outcome(
    forPods: seq<Node>, forPools: seq<Node>, stop: seq<Node>, bindings: map<string, string>,
    matching: Matching, pool: Pool)
  {
    function Start(): seq<Node> {
      forPods + forPools
    }
  }

  function PairBindings(pairs: seq<Pair>): map<string, string> {
    if pairs == [] then map[] else
      var last := pairs[|pairs| - 1];
      PairBindings(pairs[..|pairs| - 1])[last.pod.name := last.node.name]
  }

  function NewBindings(nodes: seq<Node>): map<string, string> {
    if nodes == [] then map[] else
      var last := nodes[|nodes| - 1];
      NewBindings(nodes[..|nodes| - 1])[last.bound := last.name]
  }

  ghost function Round(cfg: Config, nodes: seq<Node>, pods: seq<Pod>, c: Choice, uuid: nat -> string): Outcome
    requires SpecsChosen(c.specs, cfg)
  {
    var m := Match(cfg, c.pods, c.nodes);
    var forPods := NodesForPods(cfg, m.needy, uuid, 0);
    var pool := FillPools(cfg, cfg.standby, m.left);
    Outcome(
      forPods, NodesForPools(cfg, c.specs, pool.needed, uuid, |forPods|), pool.left,
      OldBindings(nodes, Waiting(pods)) + PairBindings(m.pairs) + NewBindings(forPods), m, pool)
  }
}
