/** Greedy matching: conservation, maximality and the priority of placed pods. */
module NodeScalerMatching {
  import opened ApiTypes
  import opened Partition
  import opened NodeScaler
  import opened Sums

  function PairNodes(pairs: seq<Pair>): seq<Node> {
    if pairs == [] then [] else [pairs[0].node] + PairNodes(pairs[1..])
  }

  function PairPods(pairs: seq<Pair>): seq<Pod> {
    if pairs == [] then [] else [pairs[0].pod] + PairPods(pairs[1..])
  }

  /** The nodes offered to the second pod. */
  function Remaining(cfg: Config, pods: seq<Pod>, nodes: seq<Node>): seq<Node>
    requires pods != []
  {
    var i := FirstMatch(cfg, pods[0].spec, nodes);
    if i < |nodes| then Without(nodes, i) else nodes
  }

  lemma MatchStep(cfg: Config, pods: seq<Pod>, nodes: seq<Node>)
    requires pods != []
    ensures var i := FirstMatch(cfg, pods[0].spec, nodes);
      var m := Match(cfg, pods[1..], Remaining(cfg, pods, nodes));
      Match(cfg, pods, nodes) == if i < |nodes| then m.(pairs := [Pair(pods[0], nodes[i])] + m.pairs)
        else m.(needy := [pods[0]] + m.needy)
  {}

  /** Every pod ends up paired or needy, every node paired or left over, and each exactly once. */
  lemma {:induction false} MatchConserves(cfg: Config, pods: seq<Pod>, nodes: seq<Node>)
    ensures var m := Match(cfg, pods, nodes);
      && multiset(PairPods(m.pairs)) + multiset(m.needy) == multiset(pods)
      && multiset(PairNodes(m.pairs)) + multiset(m.left) == multiset(nodes)
  {
    if pods != [] {
      MatchStep(cfg, pods, nodes);
      var i := FirstMatch(cfg, pods[0].spec, nodes);
      var rest := Remaining(cfg, pods, nodes);
      var m := Match(cfg, pods[1..], rest);
      MatchConserves(cfg, pods[1..], rest);
      HeadAndTail(pods);
      var podsIn, podsOut, nodesIn := multiset(PairPods(m.pairs)), multiset(m.needy), multiset(PairNodes(m.pairs));
      OneMore(podsIn, podsOut, multiset(pods[1..]), pods[0]);
      if i < |nodes| {
        PairsCons(Pair(pods[0], nodes[i]), m.pairs);
        Cons(nodes[i], PairNodes(m.pairs));
        Cons(pods[0], PairPods(m.pairs));
        OneMore(nodesIn, multiset(m.left), multiset(rest), nodes[i]);
        WithoutOne(nodes, i);
      } else {
        Cons(pods[0], m.needy);
      }
    }
  }

  lemma MemberOfPart<T>(part: seq<T>, other: multiset<T>, whole: seq<T>, x: T)
    requires other + multiset(part) == multiset(whole) && x in part
    ensures x in whole
  {
    assert x in multiset(part);
    assert x in multiset(whole);
  }

  lemma PairsCons(p: Pair, pairs: seq<Pair>)
    ensures PairNodes([p] + pairs) == [p.node] + PairNodes(pairs)
    ensures PairPods([p] + pairs) == [p.pod] + PairPods(pairs)
  {}

  lemma {:induction false} PairMembers(pairs: seq<Pair>, i: nat)
    requires i < |pairs|
    ensures pairs[i].node in PairNodes(pairs) && pairs[i].pod in PairPods(pairs)
  {
    if i > 0 { PairMembers(pairs[1..], i - 1); }
  }

  /** A pod is only ever paired with a node that fits it. */
  lemma {:induction false} PairsFit(cfg: Config, pods: seq<Pod>, nodes: seq<Node>)
    ensures var m := Match(cfg, pods, nodes);
      forall i :: 0 <= i < |m.pairs| ==> Suits(cfg, m.pairs[i].pod.spec, m.pairs[i].node.spec)
  {
    if pods != [] {
      MatchStep(cfg, pods, nodes);
      PairsFit(cfg, pods[1..], Remaining(cfg, pods, nodes));
      var i := FirstMatch(cfg, pods[0].spec, nodes);
      if i < |nodes| { MatchMeans(cfg, pods[0].spec, nodes[i].spec); }
      hide Match, FirstMatch, PodMatchesNode, Remaining, Suits;
    }
  }

  ghost predicate Fits(cfg: Config, pod: Pod, nodes: seq<Node>) {
    exists n :: n in nodes && PodMatchesNode(cfg, pod.spec, n.spec)
  }

  lemma FitsIgnoresOrder(cfg: Config, pod: Pod, some: seq<Node>, more: seq<Node>)
    requires multiset(some) <= multiset(more)
    ensures Fits(cfg, pod, some) ==> Fits(cfg, pod, more)
  {
    hide PodMatchesNode;
    if n :| n in some && PodMatchesNode(cfg, pod.spec, n.spec) {
      assert n in multiset(some);
      assert n in multiset(more);
    }
  }

  /** The nodes paired and the nodes left are among the nodes offered. */
  lemma MatchWithin(cfg: Config, pods: seq<Pod>, nodes: seq<Node>)
    ensures var m := Match(cfg, pods, nodes);
      multiset(m.left) <= multiset(nodes) && multiset(PairNodes(m.pairs)) <= multiset(nodes)
  {
    MatchConserves(cfg, pods, nodes);
  }

  /** Maximality: a pod left needy fits no node left over. */
  lemma {:induction false} NeedyFitNothingLeft(cfg: Config, pods: seq<Pod>, nodes: seq<Node>)
    ensures var m := Match(cfg, pods, nodes); forall q :: q in m.needy ==> !Fits(cfg, q, m.left)
  {
    if pods != [] {
      var rest := Remaining(cfg, pods, nodes);
      MatchStep(cfg, pods, nodes);
      NeedyFitNothingLeft(cfg, pods[1..], rest);
      hide Match, FirstMatch, PodMatchesNode, Without;
      if FirstMatch(cfg, pods[0].spec, nodes) == |nodes| {
        MatchWithin(cfg, pods[1..], rest);
        FitsIgnoresOrder(cfg, pods[0], Match(cfg, pods[1..], rest).left, nodes);
        assert !Fits(cfg, pods[0], nodes);
      }
    }
  }

  /** No node given to a pod without a placement fits a placed pod that was left needy. */
  ghost predicate PlacedServedFirst(cfg: Config, m: Matching) {
    forall q, p :: q in m.needy && Placed(q) && p in m.pairs && !Placed(p.pod) ==>
      !PodMatchesNode(cfg, q.spec, p.node.spec)
  }

  /** Priority, given that placed pods stand in front. */
  lemma {:induction false} PlacedPodsComeFirst(cfg: Config, pods: seq<Pod>, nodes: seq<Node>)
    requires FrontFirst(pods, Placed)
    ensures PlacedServedFirst(cfg, Match(cfg, pods, nodes))
  {
    if pods != [] {
      var i, rest := FirstMatch(cfg, pods[0].spec, nodes), Remaining(cfg, pods, nodes);
      MatchStep(cfg, pods, nodes);
      PlacedPodsComeFirst(cfg, pods[1..], rest);
      MatchConserves(cfg, pods[1..], rest);
      hide Match, FirstMatch, PodMatchesNode, Without;
      var m := Match(cfg, pods[1..], rest);
      if i < |nodes| {
        forall q | q in m.needy && Placed(q) ensures Placed(pods[0]) {
          MemberOfPart(m.needy, multiset(PairPods(m.pairs)), pods[1..], q);
        }
      } else {
        forall p | p in m.pairs ensures !PodMatchesNode(cfg, pods[0].spec, p.node.spec) {
          var j :| 0 <= j < |m.pairs| && m.pairs[j] == p;
          PairMembers(m.pairs, j);
          MemberOfPart(PairNodes(m.pairs), multiset(m.left), nodes, p.node);
        }
      }
    }
  }
}
