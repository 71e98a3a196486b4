# Kip, verified

A Dafny model of the parts of Kip in which something can go subtly wrong, and proofs of what they
promise. Kip runs pods on cloud instances, its *nodes*: a scaler binds waiting pods to nodes, a
dispatcher hands nodes out, and every change goes through compare-and-swap on a key-value store.

`dafny verify dfyconfig.toml` checks everything.

## The parts

**Label selectors** (`Decimals`, `LabelStrings`, `LabelLexer`, `LabelSelector`, `LabelParser`,
`LabelGrammar`, `LabelRoundTrip`). The lexer and the parser are objects that move a position, as in the
source, and are proved against functions on item streams. `LabelGrammar` states the grammar once more,
as a relation between phrases and requirements, and proves that the parser accepts exactly what it
derives. It is the documented grammar (pkg/labels/selector.go:733-757) with the operators `>` and `<`,
with values that may be left out, and without the value lists that end in two, four or any other
positive even number of commas, which the parser rejects although empty values are allowed. Printing a selector and parsing it again is the identity for
duplicate-free value lists. For lists with duplicates it succeeds unless an `in` or `notin` list
consists of an odd number, three or more, of empty values: the printed form, such as `(,,)`, is then
rejected (pkg/labels/selector.go:702-707).

**The scaler** (`NodeScaler*`, `NodeSelection`, `Partition`, `Sums`). `NodeScaler.Round` says what one
round decides, given the orders in which Go happens to walk its maps; `NodeScalerCompute.Compute` is
the imperative computation on shared node objects and is proved to carry out such a round and to
hand every changed node to the registry. About rounds: conservation, greedy maximality, priority of placed pods, coverage and injectivity of the
binding map, and stability under re-running. Stability needs pairwise distinct standby specs and
counts that are not negative, which the configuration check demands (pkg/server/config.go:571-574);
two lemmas show what happens otherwise.

**The store and the node protocol** (`Etcd`, `NodeProtocol*`). `AtomicUpdate` runs against arbitrary
actions of other clients between its read and its write. etcd's version restarts when a key is
deleted, so the theorem is about one life of a key; node names are UUIDs and are never reused. The
protocol is a transition system whose state is the store and the stale copies that goroutines hold;
every interleaving of scaler, dispatcher, starters, cleaners, reaper and garbage controller is a run,
and what the cloud can serve may change with every round.

Exclusive claiming has a corner. The phase table admits Available to Claimed for anyone, and the
reaper may write back a copy it read while the node was Claimed, now without a pod, over a node that
has become Available since. The dispatcher, which saw it Available, then claims a Claimed node. This
is the only way: a successful request is an Available to Claimed transition if and only if no stale
ejection of that node, unreleased since, came before (`ExclusiveClaim`). The node has no owner at that
moment, and a node that stays Claimed still never passes from one pod to another (`ExclusiveOwner`).
`ClaimedTwice` is such a run. What can happen is proved next to what cannot: `WholeLife` leads every
node that any round starts for a pod through all phases, and each goroutine, left alone, does its job.

**Pods** (`PodPhases`, `PodLifecycle`). Unit statuses to pod phase, start-failure counting, restart
or deletion, and the phase reported to Kubernetes, all stated on the units themselves. The reported Failed and Succeeded are final when
each handler acts on the stored pod; a handler that writes back an older copy can undo them;
`StaleWritesRevive` says exactly when, and `OldRemedyRevives` shows the controller doing it.

**Smaller pieces** (`MetricsStorage`, `HealthCheck`, `Reconcilers`). The ring buffers refine the full
history of samples, the health check fails a pod for want of news, and not before its timeout
(`UnheardIsFailed` and `Window`, over whole runs), and the reconcilers act on what is wrong in two consecutive successful passes.

## Reading the model

- Strings are sequences of characters standing for bytes; integers are unbounded. Time is a number of
  nanoseconds.
- A listing or read that can fail is an `Option` parameter, None standing for the failure. What the
  cloud, an instance or another registry answers is a parameter of the step.
- UUIDs are a function from numbers to names; where it matters it is injective and avoids the names
  in use.
- Where the source and its comments differ the model follows the source: `validStateChange` admits
  Claimed to Claimed, so it does not by itself keep a second dispatcher out
  (pkg/server/registry/node_registry.go:283-291); UpdateStatus sets Terminate on the caller's copy
  only (pkg/server/registry/node_registry.go:325-328); the comment at
  pkg/server/pod_controller.go:840-843 says that only one goroutine can set a pod Dispatching, but
  Dispatching to Dispatching is accepted (pkg/server/registry/pod_registry.go:332); the comment at
  pkg/labels/selector.go:744 names two kinds of blank, the lexer skips four.
- The label validators are modelled with their character classes and lengths.

## Model

| member | source | states |
|---|---|---|
| `LabelStrings.Sort` | pkg/labels/selector.go:150 | the result is sorted and a permutation of its argument |
| `LabelStrings.SortedUnique` | pkg/labels/selector.go:150 | a duplicate-free list is determined by its elements, so the order in which a set is listed does not show |
| `LabelStrings.AlnumNames` | pkg/util/validation/validation.go:39-89 | names of letters and digits are valid up to 63 bytes; a key must not be empty |
| `LabelStrings.JoinedNames` | pkg/util/validation/validation.go:39-89 | names may be joined by a dash, an underscore or a dot and by nothing else, and begin and end with neither |
| `LabelStrings.PrefixedKeys` | pkg/util/validation/validation.go:39-70 | a key with a slash is valid if and only if it is a DNS subdomain of at most 253 bytes and a name of at most 63 |
| `LabelStrings.JoinedSubdomains` | pkg/util/validation/validation.go:114-124 | subdomains may be joined by a dot or a dash, never by two dots, and begin and end with neither |
| `Decimals.ParseDecimal` | pkg/labels/selector.go:195-210 | every printed integer is read back if it fits into 64 bits, with or without a plus sign, and no other is |
| `Decimals.ParsedAreDigits` | pkg/labels/selector.go:195-210 | only an optional sign and digits are read |
| `LabelSelector.NewRequirement` | pkg/labels/selector.go:115-152 | a requirement keeps key and operator and holds a sorted permutation of the values |
| `LabelSelector.ValidRequirementMeans` | pkg/labels/selector.go:104-152 | what the constructor accepts, rule by rule, in both directions |
| `LabelSelector.Complements` | pkg/labels/selector.go:174-193 | NotIn is the complement of In, NotEquals of Equals and DoubleEquals, DoesNotExist of Exists, also where the key is absent |
| `LabelSelector.PositiveNeedsKey` | pkg/labels/selector.go:174-193 | the operators that are not negated match only if the key is present; Exists asks for nothing else |
| `LabelSelector.InIsAnyEquals` | pkg/labels/selector.go:175-180 | In matches if and only if Equals does for one of the values, and Equals if and only if the label is that value |
| `LabelSelector.Trichotomy` | pkg/labels/selector.go:191-216 | for an integer label and bound exactly one of greater, less and equal holds; otherwise neither operator matches |
| `LabelSelector.ComparesNumbers` | pkg/labels/selector.go:191-216 | a label and a bound that are written integers are compared as these integers |
| `LabelSelector.MatchesLooksAtKey` | pkg/labels/selector.go:174-216 | a requirement depends on the label of its key only |
| `LabelSelector.SelectorIsConjunction` | pkg/labels/selector.go:304-311 | a selector matches if and only if all its requirements do; the empty one matches everything |
| `LabelSelector.MatchesIgnoresOrder` | pkg/labels/selector.go:304-311 | the order of the requirements does not change what a selector matches |
| `LabelLexer.WordLengthUnique` | pkg/labels/selector.go:407-427 | a word ends at the first special symbol, blank or NUL, and nowhere else |
| `LabelLexer.SymbolLengthIsLongest` | pkg/labels/selector.go:430-456 | of the symbols that prefix the input the longest is taken |
| `LabelLexer.Scan` | pkg/labels/selector.go:528-536 | scanning any string terminates, yields no error token, and ends with its only end-of-string token |
| `LabelLexer.ScanKeepsBytes` | pkg/labels/selector.go:407-484 | in a string without NUL the literals of the items are all bytes that are not blank, in order, and each item has the token of its literal |
| `LabelLexer.BlanksDoNotMatter` | pkg/labels/selector.go:368-370 | blanks of all four kinds in front of an item do not matter |
| `LabelLexer.NulEnds` | pkg/labels/selector.go:407-484 | a NUL where an item could begin ends the string; one behind a word separates |
| `LabelLexer.Lexer.Read` | pkg/labels/selector.go:392-399 | reads the next byte, or NUL at the end without moving |
| `LabelLexer.Lexer.Unread` | pkg/labels/selector.go:402-404 | undoes a read |
| `LabelLexer.Lexer.ScanIdOrKeyword` | pkg/labels/selector.go:407-427 | consumes exactly one word and classifies it |
| `LabelLexer.Lexer.ScanSpecialSymbol` | pkg/labels/selector.go:430-456 | consumes exactly one symbol, the longest |
| `LabelLexer.Lexer.SkipWhiteSpaces` | pkg/labels/selector.go:459-467 | returns the first byte that is not blank |
| `LabelLexer.Lexer.Lex` | pkg/labels/selector.go:470-484 | one call yields the first lexeme of the rest of the input and leaves what follows it |
| `LabelParser.Parser.RunScan` | pkg/labels/selector.go:528-536 | the scanned items are those of the whole input |
| `LabelParser.Parser.Lookahead` | pkg/labels/selector.go:502-511 | the token at the position, read in context, and always within the scanned items |
| `LabelParser.Parser.Consume` | pkg/labels/selector.go:514-525 | the same token, and the position moves past it, within the scanned items |
| `LabelParser.Parser.ParseIdentifiersList` | pkg/labels/selector.go:677-711 | agrees with the grammar function on every item stream, errors included |
| `LabelParser.Parser.ParseValues` | pkg/labels/selector.go:651-674 | agrees with the grammar function on every item stream, errors included |
| `LabelParser.Parser.ParseExactValue` | pkg/labels/selector.go:713-726 | agrees with the grammar function on every item stream, errors included |
| `LabelParser.Parser.ParseOperator` | pkg/labels/selector.go:626-648 | agrees with the operator table on every token, errors included |
| `LabelParser.Parser.ParseKeyAndInferOperator` | pkg/labels/selector.go:602-623 | agrees with the grammar function on every item stream, errors included |
| `LabelParser.Parser.ParseRequirement` | pkg/labels/selector.go:573-599 | agrees with the grammar function on every item stream, errors included |
| `LabelParser.Parser.Parse` | pkg/labels/selector.go:540-571 | for every string, success or error, the result is that of the grammar on the scanned items; no index leaves the items |
| `LabelParser.SortByKey` | pkg/labels/selector.go:776 | sorted by key and a permutation |
| `LabelParser.Parse` | pkg/labels/selector.go:770-778 | the parsed requirements sorted by key, a permutation of those of the grammar |
| `LabelGrammar.ListIsParsed` | pkg/labels/selector.go:677-711 | a value list is accepted if and only if it is words separated by commas, with empty values, that does not end in a positive even number of commas; its values are its words, and the empty one if a field is empty |
| `LabelGrammar.ParsedIsDerived` | pkg/labels/selector.go:540-571 | what the parser accepts is derived by the grammar: every item belongs to a requirement or separates two |
| `LabelGrammar.DerivedIsParsed` | pkg/labels/selector.go:733-757 | what the grammar derives is accepted, and parsed to what is derived |
| `LabelGrammar.Acceptance` | pkg/labels/selector.go:733-757 | for every item stream the parser succeeds if and only if the grammar derives it, and the one selector derived is the result |
| `LabelRoundTrip.ScanSelector` | pkg/labels/selector.go:245-323 | scanning a printed selector gives back its items |
| `LabelRoundTrip.ParseSelectorItems` | pkg/labels/selector.go:540-726 | the grammar turns those items into the requirements, or fails, as the value lists decide |
| `LabelRoundTrip.RoundTrip` | pkg/labels/selector.go:245-323 | printing and parsing succeeds if and only if no In or NotIn list consists of an odd number, three or more, of empty values; it then returns each requirement with its values listed once |
| `LabelRoundTrip.RoundTripExact` | pkg/labels/selector.go:392-481 | for duplicate-free value lists, including keys and values named in or notin, empty values and (), the very same requirements come back |
| `LabelRoundTrip.ThreeEmptyValuesAreRejected` | pkg/labels/selector.go:702-707 | a valid requirement whose printed form is rejected |
| `LabelRoundTrip.RoundTripMatches` | pkg/labels/selector.go:304-311 | printing and parsing does not change what a selector matches |
| `LabelRoundTrip.ParsedIsValid` | pkg/labels/selector.go:573-599 | what the parser returns is valid and duplicate-free |
| `LabelRoundTrip.ParsePrintParse` | pkg/labels/selector.go:758-778 | parse, print, parse is parse |
| `Partition.PartitionSlice` | pkg/util/partition.go:25-38 | in place: a permutation in which no back element precedes a front element |
| `NodeScaler.MatchMeans` | pkg/server/nodemanager/node_scaler.go:53-86 | the fit test, field by field and in both directions: instance type, GPU, private address, spot flag as the policy asks, zone if the pod has one, volume if it cannot be resized |
| `NodeScaler.CreatedNodeIsAsAsked` | pkg/server/nodemanager/node_scaler.go:88-118 | a node is made unless the cloud reports unavailability, bound to the pod and with what the pod asks, field by field |
| `NodeScaler.CreatedNodeFits` | pkg/server/nodemanager/node_scaler.go:88-118 | a node created for a pod fits it if and only if the spot policy is Always or Never |
| `NodeScaler.StandbyNodeSuits` | pkg/server/nodemanager/node_scaler.go:120-127 | which pods a standby node suits, field by field |
| `NodeScaler.Waiting` | pkg/server/nodemanager/node_scaler.go:170-175 | the waiting pods by name |
| `NodeScaler.FirstMatch` | pkg/server/nodemanager/node_scaler.go:220-222 | the first node that fits, or none |
| `NodeScaler.Take` | pkg/server/nodemanager/node_scaler.go:250-262 | kept plus still needed is the count |
| `NodeScaler.FillPools` | pkg/server/nodemanager/node_scaler.go:248-264 | the map of missing nodes is keyed by exactly the configured specs |
| `NodeScaler.StandbyNodes` | pkg/server/nodemanager/node_scaler.go:266-271 | exactly the missing number of nodes, each made for the spec under its own name |
| `NodeScalerMatching.MatchConserves` | pkg/server/nodemanager/node_scaler.go:217-233 | every pod ends up paired or needy and every node paired or left, exactly once |
| `NodeScalerMatching.PairsFit` | pkg/server/nodemanager/node_scaler.go:220-222 | only nodes that suit the pod in every field are paired |
| `NodeScalerMatching.NeedyFitNothingLeft` | pkg/server/nodemanager/node_scaler.go:217-233 | greedy maximality: a needy pod fits no node left over |
| `NodeScalerMatching.PlacedPodsComeFirst` | pkg/server/nodemanager/node_scaler.go:205-233 | priority: no node given to an unplaced pod fits a placed pod left needy |
| `NodeScalerPools.TakeConserves` | pkg/server/nodemanager/node_scaler.go:250-262 | serving a spec loses and invents no node |
| `NodeScalerPools.FillConserves` | pkg/server/nodemanager/node_scaler.go:248-264 | serving all specs loses and invents no node |
| `NodeScalerPools.NeverStopWhileShort` | pkg/server/nodemanager/node_scaler.go:248-287 | no node to be stopped matches a spec that is still short |
| `NodeScalerPools.KeptPlusNeeded` | pkg/server/nodemanager/node_scaler.go:248-264 | for distinct specs, kept plus missing is the count |
| `NodeScalerPools.FillCounts` | pkg/server/nodemanager/node_scaler.go:248-264 | class by class, kept plus missing is what the distinct specs want together |
| `NodeScalerPools.CreatedCounts` | pkg/server/nodemanager/node_scaler.go:266-271 | class by class, what is created is what was missing, in whatever order the map is walked |
| `NodeScalerPools.ExactPoolsAreStable` | pkg/server/nodemanager/node_scaler.go:248-271 | if each class holds exactly what is wanted, everything is kept and nothing is missing |
| `NodeScalerRounds.Conservation` | pkg/server/nodemanager/node_scaler.go:177-269 | each node the scaler looks at is still bound, newly bound, kept or stopped, exactly once |
| `NodeScalerRounds.OneNode` | pkg/server/nodemanager/node_scaler.go:177-269 | by phase and binding: nodes in use or leaving are untouched, nodes of waiting pods stay, and every other node is offered to the pods and then bound, kept or stopped |
| `NodeScalerRounds.Maximality` | pkg/server/nodemanager/node_scaler.go:205-243 | for the round, on the fields: no node kept or stopped suits a pod that found none, and no node given to a pod without a zone suits a pod with a zone that found none |
| `NodeScalerRounds.StandbyPools` | pkg/server/nodemanager/node_scaler.go:248-271 | for distinct specs, the nodes kept and the nodes the round creates for the pools are, class by class, as many as the specs want |
| `NodeScalerRounds.NoStopWhileCreating` | pkg/server/nodemanager/node_scaler.go:248-287 | no node is stopped that would have done in place of one created for the pools |
| `NodeScalerRounds.BindingsAreRederived` | pkg/server/nodemanager/node_scaler.go:177-243 | the returned map is the one the next round reads off the nodes this one leaves |
| `NodeScalerRounds.OneNodePerPodAfter` | pkg/server/nodemanager/node_scaler.go:177-243 | a round never binds two nodes to one pod |
| `NodeScalerStability.PoolsAreExact` | pkg/server/nodemanager/node_scaler.go:248-271 | a round brings every class of unbound nodes to the number wanted |
| `NodeScalerStability.Stability` | pkg/server/nodemanager/node_scaler.go:164-287 | if a round binds every waiting pod, the next one, on the live nodes it left in any order and however far they have come, with any availability in the cloud, starts nothing, stops nothing and returns the same map |
| `NodeScalerStability.RepeatedSpecsOvershoot` | pkg/server/nodemanager/node_scaler.go:263 | with a repeated spec a full pool still asks for a node |
| `NodeScalerStability.NegativeCountsSwallow` | pkg/server/nodemanager/node_scaler.go:250-262 | a negative count swallows the nodes another spec of its class asked for |
| `NodeScalerBindings.DistinctNamesAfter` | pkg/server/nodemanager/node_scaler.go:177-271 | a round keeps node names distinct |
| `NodeScalerBindings.BindingsInjective` | pkg/server/nodemanager/node_scaler.go:170-243 | the returned map is injective |
| `NodeScalerBindings.Coverage` | pkg/server/nodemanager/node_scaler.go:194-243 | a pod is in the map if and only if it waits and is not a needy pod the cloud reports unavailable |
| `NodeScalerBindings.RoundFits` | pkg/server/nodemanager/node_scaler.go:53-118 | if live nodes suit the waiting pods they name, field by field, they still do after the round |
| `NodeScalerBindings.MutualInverses` | pkg/server/nodemanager/node_scaler.go:170-243 | over any number of rounds, with nodes changing phase, coming and going and the cloud's availability changing in between, the map and BoundPodName are inverse to each other |
| `NodeScalerCompute.WaitingPods` | pkg/server/nodemanager/node_scaler.go:170-175 | the loop computes the waiting pods |
| `NodeScalerCompute.Rebind` | pkg/server/nodemanager/node_scaler.go:177-193 | in place: stale bindings are cleared, the others collected, and exactly the cleared nodes are dirty |
| `NodeScalerCompute.UnboundPods` | pkg/server/nodemanager/node_scaler.go:194-199 | each waiting pod without a binding, once |
| `NodeScalerCompute.MatchNext` | pkg/server/nodemanager/node_scaler.go:218-233 | one turn of the matching loop is one step of the matching, and changes only the node it takes |
| `NodeScalerCompute.MatchPods` | pkg/server/nodemanager/node_scaler.go:217-233 | the loop computes the greedy matching and binds the nodes it takes |
| `NodeScalerCompute.CreateForPods` | pkg/server/nodemanager/node_scaler.go:237-243 | the loop creates the nodes for the needy pods and records them in the map |
| `NodeScalerCompute.TakeFor` | pkg/server/nodemanager/node_scaler.go:249-264 | removing nodes from the list while walking over it skips none |
| `NodeScalerCompute.FillAll` | pkg/server/nodemanager/node_scaler.go:248-264 | the loop serves the pools |
| `NodeScalerCompute.CreateForPools` | pkg/server/nodemanager/node_scaler.go:266-271 | the loop creates the missing standby nodes, in some order of the specs |
| `NodeScalerCompute.ComputeRound` | pkg/server/nodemanager/node_scaler.go:164-271 | for some order of map iteration: started, stopped and bound nodes are those of the round, the node objects end as the round says, and every object that changed is dirty |
| `NodeScalerCompute.WriteBack` | pkg/server/nodemanager/node_scaler.go:272-285 | dirty nodes are handed to the registry once each, all of them if and only if the deadline allows |
| `NodeScalerCompute.Compute` | pkg/server/nodemanager/node_scaler.go:164-287 | the round is carried out; a plan, that of the round, is returned if and only if the deadline is met, and every dirty node has then been handed to the registry, which for nodes of different names is every changed node as the round leaves it |
| `Etcd.SimpleEtcd.Get` | pkg/etcd/etcd.go:205-223 | the entry with its version, or not found |
| `Etcd.SimpleEtcd.Put` | pkg/etcd/etcd.go:225-251 | writes and counts the version up |
| `Etcd.SimpleEtcd.Delete` | pkg/etcd/etcd.go:253-264 | removes the key, or reports that it is absent |
| `Etcd.SimpleEtcd.Exists` | pkg/etcd/etcd.go:266-277 | whether the key is present |
| `Etcd.SimpleEtcd.AtomicPut` | pkg/etcd/etcd.go:305-341 | writes if and only if the version is the expected one, 0 standing for absent |
| `Etcd.VersionsGrow` | pkg/etcd/etcd.go:305-341 | within one life of a key its version grows with every write |
| `Etcd.SwapMeansUnchanged` | pkg/etcd/etcd.go:320-326 | a swap succeeds if and only if the entry is the one read, or the key was deleted and created again with another value and the same number of writes |
| `Etcd.PurgedIsNotReborn` | pkg/etcd/etcd.go:253-264 | a purge with any number of stale writers in flight, and anything on other keys, is no rebirth: their swaps fail |
| `Etcd.RebornKeysAreConfused` | pkg/etcd/etcd.go:320-326 | whatever the values, after a delete and a re-creation an update made for the old value replaces the new one |
| `Etcd.UpdateMeans` | pkg/server/registry/node_registry.go:358-389 | the indivisible update stores what the modifier makes of the value and touches nothing else; without the key or against the modifier it touches nothing |
| `Etcd.AtomicUpdate` | pkg/server/registry/node_registry.go:358-389 | against any interference before each read and before each write, unless between a read and its write the key is deleted and created again with another value and the very same version: the call is one indivisible update of the store at its last turn, and every turn before found the key changed by another client |
| `NodeProtocolSafety.CommitIsAnUpdate` | pkg/server/registry/node_registry.go:318-337 | a committed status is what AtomicUpdate makes of UpdateStatus |
| `NodeProtocolSafety.CommitAt` | pkg/server/registry/node_registry.go:318-337 | an accepted status replaces phase and binding along the phase table, and leaves name, spec, terminate flag and all other nodes |
| `NodeProtocolSafety.WorkKeeps` | pkg/server/nodemanager/node_controller.go:281-344 | every step of a starter, cleaner, stopper, reaper or scaler goroutine keeps the invariant |
| `NodeProtocolSafety.ScaleKeeps` | pkg/server/nodemanager/node_controller.go:141-184 | a scaling round, with all the work it leaves, keeps the invariant |
| `NodeProtocolSafety.ClaimKeeps` | pkg/server/nodemanager/node_controller.go:740-745 | the dispatcher's write keeps the invariant |
| `NodeProtocolRuns.NextKeeps` | pkg/server/nodemanager/node_controller.go:577-800 | every step of every actor keeps the invariant |
| `NodeProtocolRuns.InvAlways` | pkg/server/nodemanager/node_controller.go:577-800 | the invariant holds in every state of every run |
| `NodeProtocolRuns.StepMoves` | pkg/server/registry/node_registry.go:252-316 | in every step stored phases follow the table, purged nodes stay away, and a Claimed node keeps its owner |
| `NodeProtocolRuns.PurgedForever` | pkg/server/registry/node_registry.go:217-250 | in every run, a purged node is never resurrected, whatever writes are pending |
| `NodeProtocolRuns.TerminatingForever` | pkg/server/registry/node_registry.go:302-309 | in every run, nothing returns from Terminating |
| `NodeProtocolRuns.ExclusiveOwner` | pkg/server/nodemanager/node_controller.go:638-745 | in every run, while a node stays Claimed it never passes from one pod to another |
| `NodeProtocolRuns.ClaimTakesUnowned` | pkg/server/nodemanager/node_controller.go:691-715 | a node handed out was Available or Claimed by nobody, and then belongs to the pod that asked |
| `NodeProtocolRuns.UnownedStep` | pkg/server/nodemanager/node_controller.go:606-627 | a step leaves a node Claimed by nobody if and only if it is a stale ejection of that node, or the node was so before and is not released |
| `NodeProtocolRuns.UnownedExactly` | pkg/server/nodemanager/node_controller.go:606-627 | in every run a node is Claimed by nobody if and only if it was ejected by a stale write, or started so, and was not released since |
| `NodeProtocolRuns.ExclusiveClaim` | pkg/server/nodemanager/node_controller.go:691-745 | in every run a successful request claims an unowned node, and it is an Available to Claimed transition if and only if no stale ejection of that very node, unreleased since, came before |
| `NodeProtocolExample.ClaimedTwice` | pkg/server/nodemanager/node_controller.go:606-745 | a run in which the stale ejection makes the dispatcher claim a Claimed node |
| `NodeProtocolFit.WorkFits` | pkg/server/nodemanager/node_controller.go:281-344 | goroutine steps keep every stored or stale copy fitting the pod it names |
| `NodeProtocolFit.ScaleFits` | pkg/server/nodemanager/node_scaler.go:218-243 | so does a scaling round, for copies, new nodes and the published map |
| `NodeProtocolFit.FitAlways` | pkg/server/nodemanager/node_controller.go:691-715 | in every run every stored node, stale copy and published binding fits |
| `NodeProtocolFit.EmptyRegistry` | pkg/server/registry/node_registry.go:53-60 | runs may start from an empty registry |
| `NodeProtocolFit.DispensedNodeFits` | pkg/server/nodemanager/node_controller.go:691-715 | in every run a node handed to a pod suits the pod in every field, even through a stale map |
| `NodeProtocolLife.TableMeans` | pkg/server/registry/node_registry.go:252-316 | a phase change is accepted if and only if the phase stays, or a node in service goes on along its life, or it leaves without coming back |
| `NodeProtocolLife.StopSucceeds` | pkg/server/nodemanager/node_controller.go:324-344 | stopping a node marks it Terminating from every phase but Terminated, and then removes it |
| `NodeProtocolLife.PurgeSucceeds` | pkg/server/registry/node_registry.go:217-250 | purging removes a node whatever its phase |
| `NodeProtocolLife.UnusedIsAvailable` | pkg/server/nodemanager/node_controller.go:672-689 | a node returned unused is Available and unbound, unless it was Claimed or is leaving; then it is returned as used |
| `NodeProtocolLife.UsedIsStopped` | pkg/server/nodemanager/node_controller.go:767-800 | a node returned used is Cleaning and unbound if it was Created, Claimed or Cleaning, and is stopped in any case |
| `NodeProtocolLife.FailedStart` | pkg/server/nodemanager/node_controller.go:281-322 | a node that the cloud does not start is removed; one that does not run or is not healthy is stopped |
| `NodeProtocolLife.RefusedStart` | pkg/server/nodemanager/node_controller.go:522-547 | a healthy node becomes Available from Creating, Created, Available or Cleaning, and is stopped otherwise |
| `NodeProtocolLife.StarterGoesOnAnyway` | pkg/server/nodemanager/node_controller.go:232-322 | a starter ignores refusals of its first two writes, and does not begin without a node |
| `NodeProtocolLife.RestartRecovers` | pkg/server/nodemanager/node_controller.go:410-466 | after a restart Creating nodes are stopped, Created and Cleaning nodes are waited for, Terminated nodes are removed |
| `NodeProtocolLife.MarkedIsReaped` | pkg/server/nodemanager/node_controller.go:577-627 | a node marked for termination is reaped: its pod is taken off if possible, and it is stopped |
| `NodeProtocolLife.RoundIsCarriedOut` | pkg/server/nodemanager/node_controller.go:142-184 | every node that a round starts, stops or leaves may be created, stopped or written, and its bindings published |
| `NodeProtocolLife.WholeLife` | pkg/server/nodemanager/node_controller.go:142-800 | for every round that starts a node for a pod, in any state: a run from there in which the node is stored as Creating, Created, Available, Claimed for the pod, Cleaning, Available and Terminating, and removed, state by state |
| `NodeProtocolLife.FirstRound` | pkg/server/nodemanager/node_controller.go:142-184 | such a round exists: on an empty registry, for any waiting pod the cloud can serve |
| `PodPhases.PhaseMeans` | pkg/server/pod_controller_utils.go:67-124 | on the units: Succeeded if and only if the policy is Never or OnFailure, there are units, none waits or runs and no exit code is other than 0; Failed if and only if a unit failed to start, or the policy is Never, none waits or runs and some exit code is not 0; Running otherwise |
| `PodPhases.ComputePodPhase` | pkg/server/pod_controller_utils.go:67-124 | the loops compute that phase; the message is non-empty if and only if it is Failed, and names what is wrong with a unit |
| `PodPhases.PhaseIgnoresOrder` | pkg/server/pod_controller_utils.go:67-124 | permuting the units does not change the phase |
| `PodPhases.FailsOnlyToStart` | pkg/server/pod_controller_utils.go:67-124 | unless the policy is Never, a pod fails if and only if a unit failed to start |
| `PodPhases.WasStartFailure` | pkg/server/pod_controller_utils.go:230-237 | whether some unit failed to start |
| `PodPhases.AllUnitsStarted` | pkg/server/pod_controller_utils.go:239-253 | whether there are units and none waits |
| `PodPhases.ResetExcludesStartFailure` | pkg/server/pod_controller_utils.go:186-196 | a reply never both resets the count and reports a start failure |
| `PodPhases.FailureKeepsCount` | pkg/server/pod_controller_utils.go:167-196 | for a restartable policy, a failing reply does not reset the count |
| `PodPhases.PodCopy.UpdateWithStatus` | pkg/server/pod_controller_utils.go:167-228 | the new status, when it changes, and the flags, for every reply |
| `PodLifecycle.HandlePodStatusReply` | pkg/server/pod_controller.go:664-702 | drops a reply from an address the pod has left; marks the pod failed if and only if the reply is not dropped, changes it and the computed phase is Failed |
| `PodLifecycle.ReplyDecides` | pkg/server/pod_controller.go:664-702 | a reply from its node fails, completes or keeps a running pod as the units say; the units are taken over, start failures counted or forgiven |
| `PodLifecycle.ReplyReports` | pkg/server/convert.go:58-96 | what Kubernetes is told after such a reply, on the units and the count of failures |
| `PodLifecycle.OutdatedIsDropped` | pkg/server/pod_controller.go:664-680 | a reply from an address that is not the pod's changes nothing |
| `PodLifecycle.ReportedMeans` | pkg/server/convert.go:58-96 | Running is reported if and only if the pod is Running and every init unit has exited with 0; Failed if and only if it is Terminated, or Failed and may not restart; Succeeded if and only if it is Succeeded |
| `PodLifecycle.GetStatusPhase` | pkg/server/convert.go:58-96 | the loop computes that report |
| `PodLifecycle.TableMeans` | pkg/server/registry/pod_registry.go:285-327 | a pod advances stage by stage, may fail while dispatched, starts over after a failure, and is terminated from everywhere |
| `PodLifecycle.RunsToSuccess` | pkg/server/pod_controller.go:1051-1086 | a waiting pod whose units end well runs Dispatching, Running, Succeeded and is removed |
| `PodLifecycle.RunsToFailure` | pkg/server/pod_controller_utils.go:126-165 | one whose units end badly fails; it then waits again, counted, without address and with its unit states aged, or is removed, as policy and count decide |
| `PodLifecycle.FailsMarks` | pkg/server/pod_controller.go:233-251 | which pods can be marked failed, and what becomes of them |
| `PodLifecycle.ControlsRemoves` | pkg/server/pod_controller.go:1051-1102 | exactly when controlling a pod removes it |
| `PodLifecycle.DeletesRemoves` | pkg/server/registry/pod_registry.go:119-143 | a deletion removes an ended pod, and marks any other, which goes when it is next controlled |
| `PodLifecycle.DeletionIsFinal` | pkg/server/registry/pod_registry.go:206-255 | in every run a pod marked for termination stays so until it is removed |
| `PodLifecycle.PhaseFollowsTable` | pkg/server/registry/pod_registry.go:285-352 | whatever happens, a stored pod phase stays or moves along the table |
| `PodLifecycle.FinalStep` | pkg/server/convert.go:71-96 | no handler changes a reported Failed or Succeeded, short of deleting the pod |
| `PodLifecycle.FinalForever` | pkg/server/convert.go:71-96 | over every run, with arbitrary replies, a reported Failed or Succeeded stays until the pod is deleted |
| `PodLifecycle.StaleWritesRevive` | pkg/server/registry/pod_registry.go:329-352 | for every stale status: exactly when its write undoes a reported Failed or Succeeded |
| `PodLifecycle.OldRemedyRevives` | pkg/server/pod_controller_utils.go:151-165 | the remedy that a controller derives from a copy with two failures revives a pod whose third failure has been counted |
| `PodLifecycle.BoundedRetries` | pkg/server/pod_controller_utils.go:126-165 | between two resets at most allowedStartFailures restarts follow a start failure |
| `PodLifecycle.TooManyFailures` | pkg/server/pod_controller.go:1051-1086 | in every run, a pod that fails to start again after the allowed restarts is deleted when it is next controlled |
| `MetricsStorage.Recent` | pkg/server/registry/metrics_storage.go:162-177 | the last min(count, N) samples, in order, each with the gap to its true predecessor |
| `MetricsStorage.WindowsAddUp` | pkg/server/registry/metrics_storage.go:129-142 | the samples kept are the last ones of the history, and their windows cover the time since the sample before them without gap or overlap |
| `MetricsStorage.Apart` | pkg/server/registry/metrics_storage.go:129-142 | samples less than a buffer apart do not overwrite each other |
| `MetricsStorage.PodMetrics.Insert` | pkg/server/registry/metrics_storage.go:129-142 | the ring buffer holds the history extended by the sample |
| `MetricsStorage.PodMetrics.GetLatest` | pkg/server/registry/metrics_storage.go:153-160 | the last sample of the history, and of the list |
| `MetricsStorage.PodMetrics.ListAll` | pkg/server/registry/metrics_storage.go:162-177 | the last samples of the full history |
| `MetricsStorage.MetricsStore.Insert` | pkg/server/registry/metrics_storage.go:58-67 | over any run, each pod's buffer holds its samples since its last deletion |
| `MetricsStorage.MetricsStore.GetPodMetrics` | pkg/server/registry/metrics_storage.go:87-95 | the last samples of the pod since its last deletion, over any run of operations |
| `MetricsStorage.MetricsStore.DeletePods` | pkg/server/registry/metrics_storage.go:97-103 | forgets the named pods and leaves the others |
| `HealthCheck.ShortTimeoutsDisable` | pkg/server/healthcheck/health_check_controller.go:116-125 | an annotation disables the check if and only if it is below one second |
| `HealthCheck.TimeoutMeans` | pkg/server/healthcheck/health_check_controller.go:116-125 | an annotation of n seconds and a fraction means n times 10^9 nanoseconds; without one the default holds |
| `HealthCheck.HealthCheckController.CheckPods` | pkg/server/healthcheck/cloud_api_health_checker.go:36-63 | the clock is restarted for the running pods whose instance is listed, and nothing changes if a listing fails |
| `HealthCheck.RestartedAt` | pkg/server/healthcheck/cloud_api_health_checker.go:52-61 | exactly the shown pods get the time of the listing; the others keep theirs |
| `HealthCheck.HealthCheckController.HandlePodTimeouts` | pkg/server/healthcheck/health_check_controller.go:129-153 | fails exactly the listed pods whose time is up, none that was shown within its timeout, and starts the clock of the listed pods that have no time |
| `HealthCheck.BegunAt` | pkg/server/healthcheck/health_check_controller.go:140-144 | a listed pod gets the present time if and only if it had none; all others keep theirs |
| `HealthCheck.HealthCheckController.CleanupLastStatusTimes` | pkg/server/healthcheck/health_check_controller.go:155-174 | forgets exactly the pods that are not running |
| `HealthCheck.HealthCheckController.SetLastStatusTime` | pkg/server/healthcheck/health_check_controller.go:184-186 | hearing from a pod restarts its clock |
| `HealthCheck.HealthCheckController.ClearLastStatusTime` | pkg/server/healthcheck/health_check_controller.go:180-182 | clearing a pod's time keeps the clock's invariant |
| `HealthCheck.HealthCheckController.Round` | pkg/server/healthcheck/health_check_controller.go:101-114 | exactly what a turn records, whom it fails and which times it leaves, nothing and nobody if its listing failed; a pod fails only if every listing so far that showed it is at least its timeout old |
| `HealthCheck.Window` | pkg/server/healthcheck/health_check_controller.go:101-153 | over any run of turns, replies and clearings with a clock that does not run backwards: a turn fails a pod only if all news of it, listings of its instance and replies, is at least its timeout old, and never if its own listing failed |
| `HealthCheck.UnheardIsFailed` | pkg/server/healthcheck/health_check_controller.go:129-153 | over any run, a turn fails a running pod of which there was no news for its timeout |
| `HealthCheck.ForgetsStopped` | pkg/server/healthcheck/health_check_controller.go:155-174 | after a turn only running pods have a time |
| `Reconcilers.ClaimChecker.CheckClaimedNodes` | pkg/server/pod_controller.go:710-758 | returns the nodes found wrong for the same pod now and last time, and remembers what it found |
| `Reconcilers.WrongPodsAre` | pkg/server/pod_controller.go:731-745 | the map holds exactly the Claimed nodes whose pod does not claim them in turn |
| `Reconcilers.CheckAll` | pkg/server/pod_controller.go:710-758 | the passes of a run, one after the other |
| `Reconcilers.TwoStrikes` | pkg/server/pod_controller.go:747-757 | a node is returned if and only if this pass and the last successful one before it found it claimed for the same pod |
| `Reconcilers.FindsWrong` | pkg/server/pod_controller.go:731-745 | to find a node is to see it Claimed for a pod that does not claim it |
| `Reconcilers.GarbageController.CleanAzureResourceGroups` | pkg/server/garbage_controller.go:255-295 | deletes the groups orphaned now and remembered, and remembers the other orphans |
| `Reconcilers.CleanAll` | pkg/server/garbage_controller.go:255-295 | the passes of a run, one after the other |
| `Reconcilers.AzureTwoStrikes` | pkg/server/garbage_controller.go:279-281 | a group is deleted if and only if it exists without a live node in this and in the last successful pass and was not deleted in that one |
| `Reconcilers.LiveGroupsSurvive` | pkg/server/garbage_controller.go:263-281 | no group of a live node's instance is ever deleted |

## Left out

- Compute: the nodes it starts are values, not objects, and it is called with pairwise different node objects, as a registry listing yields them; what the registry makes of the statuses handed to it is part of the node protocol.
- LabelParser.Parse: which of its errors the parser reports is not characterised apart from the parsing functions; that it reports one is.
- AtomicUpdate: does not model timeouts and connection errors of the store, nor that a retry decodes into the object of the previous attempt; values are stored exactly.
- AtomicUpdate: says nothing about a key that is deleted and created again with another value and the same version between a read and its write, because the property is then false, as SwapMeansUnchanged and RebornKeysAreConfused show.
- PodPhases.PodCopy.UpdateWithStatus: does not tell a nil list of unit statuses from an empty one, as reflect.DeepEqual does, so it misses a change between the two.
- MetricsStorage.PodMetrics.Insert: does not model 64-bit wrap-around of the counter.
- HealthCheck.ShortTimeoutsDisable: numbers are exact, so overflow, infinities and NaN in the annotation are not modelled.
- PodLifecycle.FinalForever: changes of a pod's restart policy by UpdatePodSpecAndLabels and re-creation under the same name end a run.
- sort.Sort is not stable; the model's sort is, and the theorems speak of the parsed requirements as a multiset.
- The order of labels and the shorthand constructors of pkg/labels/labels.go and SelectorFromSet: easy beside the parser.
- checkRunningPods: the mirror image of checkClaimedNodes.
- CleanInstances: deletes in goroutines that share the loop variable; the synchronous Azure cleanup is modelled instead.
- The status health checker, which asks the instance once more before failing a pod: a call into the node.
- Heartbeats, image lookup, boot rate limits and the order in which nodes are started: the protocol starts any of the new nodes, at any time.
- The zone that a starter writes into its own copy of the node: it is never stored.
- Liveness: that a claimed node is eventually returned depends on tickers and external calls.
- Cloud, itzo, certificate, Kubernetes and command-line code, JSON codecs, conversions of volumes, probes and containers, and validation of API objects: input and output, or wide but easy.
