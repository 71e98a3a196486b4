/** Reconcilers that act on what they find wrong twice in a row: checkClaimedNodes
  * (pkg/server/pod_controller.go) and the cleaning of Azure resource groups
  * (pkg/server/garbage_controller.go). */
module Reconcilers {
  import opened Wrappers
  import opened ApiTypes

  /** A pod that is Dispatching or Running, and the node it says it is on. */
  datatype BoundPod = BoundPod(name: string, node: string)

  // ---- claimed nodes ----

  /** The node is Claimed for a pod that does not claim it in turn. */
  ghost predicate Wrong(pods: seq<BoundPod>, n: Node) {
    n.phase == NodeClaimed && (forall p :: p in pods && p.name == n.bound ==> p.node != n.name)
  }

  function PodToNode(pods: seq<BoundPod>): map<string, string> {
    if pods == [] then map[] else
      var last := pods[|pods| - 1];
      PodToNode(pods[..|pods| - 1])[last.name := last.node]
  }

  predicate Mismatch(podToNode: map<string, string>, n: Node) {
    n.phase == NodeClaimed && (n.bound !in podToNode || podToNode[n.bound] != n.name)
  }

  /** Node name to pod name, for the nodes found wrong. */
  function WrongPods(podToNode: map<string, string>, nodes: seq<Node>): map<string, string> {
    if nodes == [] then map[] else
      var last := nodes[|nodes| - 1];
      var w := WrongPods(podToNode, nodes[..|nodes| - 1]);
      if Mismatch(podToNode, last) then w[last.name := last.bound] else w
  }

  /** What the registry lists: one entry per name. */
  ghost predicate Listed(pods: seq<BoundPod>, nodes: seq<Node>) {
    && (forall i, j :: 0 <= i < j < |pods| ==> pods[i].name != pods[j].name)
    && (forall i, j :: 0 <= i < j < |nodes| ==> nodes[i].name != nodes[j].name)
  }

  /** The map holds exactly the nodes claimed for a pod that does not claim them in turn. */
  lemma {:induction false} WrongPodsAre(pods: seq<BoundPod>, nodes: seq<Node>, x: string)
    requires Listed(pods, nodes)
    ensures x in WrongPods(PodToNode(pods), nodes) <==> exists n :: n in nodes && n.name == x && Wrong(pods, n)
    ensures forall n :: n in nodes && n.name == x && Wrong(pods, n) ==>
      x in WrongPods(PodToNode(pods), nodes) && WrongPods(PodToNode(pods), nodes)[x] == n.bound
  {
    if nodes != [] {
      var init, last := nodes[..|nodes| - 1], nodes[|nodes| - 1];
      assert nodes == init + [last];
      WrongPodsAre(pods, init, x);
      MismatchIsWrong(pods, last);
      hide Wrong, Mismatch, PodToNode;
      forall n | n in nodes && n.name == x && Wrong(pods, n)
        ensures x in WrongPods(PodToNode(pods), nodes) && WrongPods(PodToNode(pods), nodes)[x] == n.bound
      {
        if n.name == last.name { assert n == last; } else { assert n in init; }
      }
      if x in WrongPods(PodToNode(pods), nodes) && !(x == last.name && Wrong(pods, last)) {
        var n :| n in init && n.name == x && Wrong(pods, n);
        assert n in nodes;
      }
    }
  }

  lemma MismatchIsWrong(pods: seq<BoundPod>, n: Node)
    requires forall i, j :: 0 <= i < j < |pods| ==> pods[i].name != pods[j].name
    ensures Mismatch(PodToNode(pods), n) <==> Wrong(pods, n)
  {}

  /** The nodes wrong for the same pod in both maps. */
  function Repeated(last: map<string, string>, now: map<string, string>): set<string> {
    set x | x in last && x in now && last[x] == now[x]
  }

  /** What one pass finds; None stands for a listing that failed. */
  datatype ClaimPass = ClaimPass(pods: Option<seq<BoundPod>>, nodes: Option<seq<Node>>)
  {
    predicate Ok() {
      pods.Some? && nodes.Some?
    }

    function Found(): map<string, string> {
      if Ok() then WrongPods(PodToNode(pods.value), nodes.value) else map[]
    }
  }

  class ClaimChecker {
    var lastWrongPod: map<string, string>

    constructor ()
      ensures lastWrongPod == map[]
    {
      lastWrongPod := map[];
    }

    /** checkClaimedNodes: `returned` are the nodes given back to the node controller. */
    method CheckClaimedNodes(pass: ClaimPass) returns (returned: set<string>)
      modifies this
      ensures !pass.Ok() ==> returned == {} && lastWrongPod == old(lastWrongPod)
      ensures pass.Ok() ==> returned == Repeated(old(lastWrongPod), pass.Found()) && lastWrongPod == pass.Found()
    {
      returned := {};
      if pass.pods.None? || pass.nodes.None? { return; }
      var pods, nodes := pass.pods.value, pass.nodes.value;
      var podToNode, wrongPod := map[], map[];
      for i := 0 to |pods|
        invariant podToNode == PodToNode(pods[..i])
      {
        assert pods[..i + 1][..i] == pods[..i];
        podToNode := podToNode[pods[i].name := pods[i].node];
      }
      for i := 0 to |nodes|
        invariant wrongPod == WrongPods(podToNode, nodes[..i])
      {
        assert nodes[..i + 1][..i] == nodes[..i];
        var node := nodes[i];
        if node.phase == NodeClaimed {
          if node.bound !in podToNode || podToNode[node.bound] != node.name {
            wrongPod := wrongPod[node.name := node.bound];
          }
        }
      }
      assert pods[..|pods|] == pods && nodes[..|nodes|] == nodes;
      var todo := lastWrongPod.Keys;
      while todo != {}
        invariant todo <= lastWrongPod.Keys
        invariant returned == set x | x in Repeated(lastWrongPod, wrongPod) && x !in todo
        invariant lastWrongPod == old(lastWrongPod)
      {
        var name :| name in todo;
        todo := todo - {name};
        if name in wrongPod && wrongPod[name] == lastWrongPod[name] {
          returned := returned + {name};
        }
      }
      lastWrongPod := wrongPod;
    }
  }

  /** The state after a series of passes, and the nodes that the next one returns. */
  function LastFound(passes: seq<ClaimPass>): map<string, string> {
    if passes == [] then map[] else
      var last := passes[|passes| - 1];
      if last.Ok() then last.Found() else LastFound(passes[..|passes| - 1])
  }

  /** The passes that the control loop makes, one after the other. */
  method CheckAll(checker: ClaimChecker, passes: seq<ClaimPass>) returns (returned: seq<set<string>>)
    requires checker.lastWrongPod == map[]
    modifies checker
    ensures |returned| == |passes|
    ensures forall k :: 0 <= k < |passes| ==>
      returned[k] == if passes[k].Ok() then Repeated(LastFound(passes[..k]), passes[k].Found()) else {}
  {
    returned := [];
    for i := 0 to |passes|
      invariant |returned| == i && checker.lastWrongPod == LastFound(passes[..i])
      invariant forall k :: 0 <= k < i ==>
        returned[k] == if passes[k].Ok() then Repeated(LastFound(passes[..k]), passes[k].Found()) else {}
    {
      assert passes[..i + 1][..i] == passes[..i];
      var r := checker.CheckClaimedNodes(passes[i]);
      returned := returned + [r];
    }
  }

  /** Pass `j` is the last successful one before number `k`. */
  ghost predicate Before(passes: seq<ClaimPass>, j: nat, k: nat)
    requires k <= |passes|
  {
    j < k && passes[j].Ok() && forall i :: j < i < k ==> !passes[i].Ok()
  }

  /** Pass `j` found the node claimed for the pod, wrongly. */
  predicate Finds(passes: seq<ClaimPass>, j: nat, x: string, pod: string)
    requires j < |passes|
  {
    x in passes[j].Found() && passes[j].Found()[x] == pod
  }

  lemma {:induction false} LastFoundIs(passes: seq<ClaimPass>, k: nat, x: string, pod: string)
    requires k <= |passes|
    ensures x in LastFound(passes[..k]) && LastFound(passes[..k])[x] == pod
      <==> exists j: nat :: Before(passes, j, k) && Finds(passes, j, x, pod)
  {
    if k > 0 {
      assert passes[..k][..k - 1] == passes[..k - 1];
      if passes[k - 1].Ok() {
        assert Before(passes, k - 1, k);
        forall j: nat | Before(passes, j, k) ensures j == k - 1 {}
      } else {
        LastFoundIs(passes, k - 1, x, pod);
        forall j: nat ensures Before(passes, j, k - 1) <==> Before(passes, j, k) {}
      }
    }
  }

  /** A pass returns exactly the nodes that it and the last successful pass before it found claimed
    * for the same pod. */
  lemma TwoStrikes(passes: seq<ClaimPass>, k: nat, x: string)
    requires k < |passes| && passes[k].Ok()
    ensures x in Repeated(LastFound(passes[..k]), passes[k].Found())
      <==> exists j: nat, pod :: Before(passes, j, k) && Finds(passes, j, x, pod) && Finds(passes, k, x, pod)
  {
    hide ClaimPass.Found, LastFound;
    if x in passes[k].Found() { LastFoundIs(passes, k, x, passes[k].Found()[x]); }
  }

  /** To find a node is to see it Claimed for a pod that does not claim it in turn. */
  lemma FindsWrong(passes: seq<ClaimPass>, j: nat, x: string, pod: string)
    requires j < |passes| && passes[j].Ok() && Listed(passes[j].pods.value, passes[j].nodes.value)
    ensures Finds(passes, j, x, pod)
      <==> exists n :: n in passes[j].nodes.value && n.name == x && n.bound == pod && Wrong(passes[j].pods.value, n)
  {
    hide Wrong, PodToNode, WrongPods, Listed;
    WrongPodsAre(passes[j].pods.value, passes[j].nodes.value, x);
  }

  // ---- Azure resource groups ----

  /** A live node's instance, and the groups that exist; None stands for a listing that failed. */
  datatype AzurePass = AzurePass(instances: Option<seq<string>>, groups: Option<seq<string>>)
  {
    predicate Ok() {
      instances.Some? && groups.Some?
    }

    /** The groups that belong to no node. */
    function Orphaned(): set<string> {
      if Ok() then set g | g in groups.value && !(g != "" && g in instances.value) else {}
    }
  }

  class GarbageController {
    var lastOrphanedAzureGroups: set<string>

    constructor ()
      ensures lastOrphanedAzureGroups == {}
    {
      lastOrphanedAzureGroups := {};
    }

    /** `doomed` are the groups that are deleted. */
    method CleanAzureResourceGroups(pass: AzurePass) returns (doomed: set<string>)
      modifies this
      ensures !pass.Ok() ==> doomed == {} && lastOrphanedAzureGroups == old(lastOrphanedAzureGroups)
      ensures pass.Ok() ==>
        doomed == old(lastOrphanedAzureGroups) * pass.Orphaned() && lastOrphanedAzureGroups == pass.Orphaned() - doomed
    {
      doomed := {};
      if pass.instances.None? { return; }
      var expected: set<string> := {};
      var instances := pass.instances.value;
      for i := 0 to |instances|
        invariant expected == set g | g in instances[..i] && g != ""
      {
        assert instances[..i + 1] == instances[..i] + [instances[i]];
        if instances[i] != "" { expected := expected + {instances[i]}; }
      }
      assert instances[..|instances|] == instances;
      if pass.groups.None? { return; }
      var orphaned: set<string> := {};
      var groups := pass.groups.value;
      for i := 0 to |groups|
        invariant orphaned == set g | g in groups[..i] && g !in expected
      {
        assert groups[..i + 1] == groups[..i] + [groups[i]];
        if groups[i] !in expected { orphaned := orphaned + {groups[i]}; }
      }
      assert groups[..|groups|] == groups;
      assert orphaned == pass.Orphaned();
      doomed := lastOrphanedAzureGroups * orphaned;
      lastOrphanedAzureGroups := orphaned - doomed;
    }
  }

  /** What successful passes delete, and what they remember. */
  function Doomed(passes: seq<AzurePass>): set<string> {
    if passes == [] then {} else Remembered(passes[..|passes| - 1]) * passes[|passes| - 1].Orphaned()
  }

  function Remembered(passes: seq<AzurePass>): set<string> {
    if passes == [] then {} else
      var last := passes[|passes| - 1];
      if last.Ok() then last.Orphaned() - Remembered(passes[..|passes| - 1]) * last.Orphaned()
        else Remembered(passes[..|passes| - 1])
  }

  /** The passes that the control loop makes, one after the other. */
  method CleanAll(controller: GarbageController, passes: seq<AzurePass>) returns (doomed: seq<set<string>>)
    requires controller.lastOrphanedAzureGroups == {}
    modifies controller
    ensures |doomed| == |passes| && forall k :: 0 <= k < |passes| ==> doomed[k] == Doomed(passes[..k + 1])
  {
    doomed := [];
    for i := 0 to |passes|
      invariant |doomed| == i && controller.lastOrphanedAzureGroups == Remembered(passes[..i])
      invariant forall k :: 0 <= k < i ==> doomed[k] == Doomed(passes[..k + 1])
    {
      assert passes[..i + 1][..i] == passes[..i];
      var d := controller.CleanAzureResourceGroups(passes[i]);
      doomed := doomed + [d];
    }
  }

  /** The group is there, and no live node has an instance of that name. */
  predicate HasNoNode(pass: AzurePass, g: string) {
    pass.Ok() && g in pass.groups.value && (g == "" || g !in pass.instances.value)
  }

  /** A group is deleted exactly if it is without a node in this successful pass and in the last one
    * before it, and was not deleted in that one. */
  lemma {:induction false} AzureTwoStrikes(passes: seq<AzurePass>, k: nat, g: string)
    requires k < |passes| && passes[k].Ok()
    ensures g in Doomed(passes[..k + 1]) <==>
      && HasNoNode(passes[k], g)
      && exists j: nat :: PreviousOk(passes, j, k) && HasNoNode(passes[j], g) && g !in Doomed(passes[..j + 1])
  {
    assert passes[..k + 1][..k] == passes[..k];
    assert g in passes[k].Orphaned() <==> HasNoNode(passes[k], g);
    RememberedIs(passes, k, g);
  }

  /** No group of a live node's instance is ever deleted, whether this pass sees the node or only the
    * last successful one before it did. */
  lemma LiveGroupsSurvive(passes: seq<AzurePass>, j: nat, k: nat, g: string)
    requires k < |passes| && passes[k].Ok() && (j == k || PreviousOk(passes, j, k))
    requires g != "" && g in passes[j].instances.value
    ensures g !in Doomed(passes[..k + 1])
  {
    hide Doomed;
    AzureTwoStrikes(passes, k, g);
    forall i: nat | PreviousOk(passes, i, k) && PreviousOk(passes, j, k) ensures i == j {}
  }

  ghost predicate PreviousOk(passes: seq<AzurePass>, j: nat, k: nat)
    requires k <= |passes|
  {
    j < k && passes[j].Ok() && forall i :: j < i < k ==> !passes[i].Ok()
  }

  lemma {:induction false} RememberedIs(passes: seq<AzurePass>, k: nat, g: string)
    requires k <= |passes|
    ensures g in Remembered(passes[..k]) <==>
      exists j: nat :: PreviousOk(passes, j, k) && HasNoNode(passes[j], g) && g !in Doomed(passes[..j + 1])
  {
    if k > 0 {
      var last := passes[k - 1];
      assert passes[..k][..k - 1] == passes[..k - 1];
      if last.Ok() {
        assert PreviousOk(passes, k - 1, k);
        assert passes[..k - 1 + 1] == passes[..k];
        forall j: nat | PreviousOk(passes, j, k) ensures j == k - 1 {}
      } else {
        RememberedIs(passes, k - 1, g);
        forall j: nat ensures PreviousOk(passes, j, k - 1) <==> PreviousOk(passes, j, k) {}
      }
    }
  }
}
