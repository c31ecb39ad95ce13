/** Kubernetes patches, one per guessed deployment (backend/internal/analyzer/patch_generator.go). */
module Patches {
  import opened Counting
  import Rounding
  import opened PodNames
  import opened WasteDetector

  /** Quantities are the whole millicores and mebibytes that the patch prints. */
  datatype ContainerPatch = ContainerPatch(
    name: string,
    cpuRequest: int,
    cpuLimit: int,
    memRequest: int,
    memLimit: int)

  datatype HPAConfig = HPAConfig(minReplicas: int, maxReplicas: int, targetCPUPercent: int)

  datatype DeployPatch = DeployPatch(
    deployment: string,
    namespace: string,
    savings: real,
    containers: seq<ContainerPatch>,
    createHPA: bool,
    suggestedHPA: HPAConfig)

  function Key(r: WasteReport): string {
    r.namespace + "/" + Trim(r.podName, '-')
  }

  function ContainerFor(r: WasteReport): ContainerPatch {
    ContainerPatch(
      r.containerName, r.cpuRightsizing, Rounding.Truncate(r.cpuOptimalM * 2.0),
      r.memRightsizing, Rounding.Truncate(r.memOptimalMi * 1.5))
  }

  // ----- the groups

  /** The overprovisioned reports, in input order. */
  function Over(reports: seq<WasteReport>): seq<WasteReport> {
    if reports == [] then []
    else
      var r := reports[|reports| - 1];
      Over(reports[..|reports| - 1]) + if r.isOverprovisioned then [r] else []
  }

  /** Those of one key, in input order. */
  function Group(reports: seq<WasteReport>, key: string): seq<WasteReport> {
    if reports == [] then []
    else
      var r := reports[|reports| - 1];
      Group(reports[..|reports| - 1], key) + if r.isOverprovisioned && Key(r) == key then [r] else []
  }

  function Keys(reports: seq<WasteReport>): set<string> {
    set r | r in reports && r.isOverprovisioned :: Key(r)
  }

  function ContainersFor(group: seq<WasteReport>): (c: seq<ContainerPatch>)
    ensures |c| == |group|
  {
    seq(|group|, i requires 0 <= i < |group| => ContainerFor(group[i]))
  }

  function Cost(r: WasteReport): real {
    r.annualCostWasteEur
  }

  /** The patch of a group; its identity and HPA flag come from the first report. */
  ghost function PatchOf(group: seq<WasteReport>): DeployPatch {
    if group == [] then DeployPatch("", "", 0.0, [], false, HPAConfig(0, 0, 0))
    else DeployPatch(
      Trim(group[0].podName, '-'), group[0].namespace, Sum(group, Cost), ContainersFor(group),
      !group[0].isHPAManaged, HPAConfig(1, 3, 70))
  }

  ghost function PatchFor(reports: seq<WasteReport>, key: string): DeployPatch {
    PatchOf(Group(reports, key))
  }

  lemma {:induction false} GroupMembers(reports: seq<WasteReport>, key: string)
    ensures forall r | r in Group(reports, key) :: r in reports && r.isOverprovisioned && Key(r) == key
  {
    if reports != [] {
      GroupMembers(reports[..|reports| - 1], key);
    }
  }

  lemma {:induction false} GroupNotEmpty(reports: seq<WasteReport>, key: string)
    ensures Group(reports, key) != [] <==> key in Keys(reports)
  {
    if reports != [] {
      var prefix, r := reports[..|reports| - 1], reports[|reports| - 1];
      GroupNotEmpty(prefix, key);
      assert reports == prefix + [r];
    }
  }

  lemma GroupHead(reports: seq<WasteReport>, key: string)
    requires key in Keys(reports)
    ensures Group(reports, key) != []
    ensures Group(reports, key)[0] in reports && Key(Group(reports, key)[0]) == key
  {
    GroupNotEmpty(reports, key);
    GroupMembers(reports, key);
    assert Group(reports, key)[0] in Group(reports, key);
  }

  // ----- the algorithm

  /** An order in which a map with the reports' keys may be iterated. */
  ghost predicate IsOrder(reports: seq<WasteReport>, order: seq<string>) {
    NoDuplicates(order) && forall k :: k in order <==> k in Keys(reports)
  }

  ghost function ToPatch(reports: seq<WasteReport>): string -> DeployPatch {
    (k: string) => PatchFor(reports, k)
  }

  ghost function PatchesIn(reports: seq<WasteReport>, order: seq<string>): seq<DeployPatch> {
    Map(order, ToPatch(reports))
  }

  ghost predicate Grouped(reports: seq<WasteReport>, depMap: map<string, DeployPatch>) {
    depMap.Keys == Keys(reports) && forall k | k in depMap :: depMap[k] == PatchFor(reports, k)
  }

  lemma KeysPush(prefix: seq<WasteReport>, r: WasteReport)
    ensures Keys(prefix + [r]) == Keys(prefix) + if r.isOverprovisioned then {Key(r)} else {}
    ensures Over(prefix + [r]) == Over(prefix) + if r.isOverprovisioned then [r] else []
  {
    assert (prefix + [r])[..|prefix|] == prefix;
  }

  lemma GroupPush(prefix: seq<WasteReport>, r: WasteReport, k: string)
    ensures Group(prefix + [r], k)
         == Group(prefix, k) + if r.isOverprovisioned && Key(r) == k then [r] else []
  {
    assert (prefix + [r])[..|prefix|] == prefix;
  }

  lemma GroupKept(prefix: seq<WasteReport>, r: WasteReport, k: string)
    requires !r.isOverprovisioned || Key(r) != k
    ensures Group(prefix + [r], k) == Group(prefix, k)
  {
    GroupPush(prefix, r, k);
    assert Group(prefix, k) + [] == Group(prefix, k);
  }

  /** Adding a report to a patch that already stands for the group of its key. */
  function Joined(p: DeployPatch, r: WasteReport): DeployPatch {
    p.(savings := p.savings + r.annualCostWasteEur, containers := p.containers + [ContainerFor(r)])
  }

  lemma PatchPush(prefix: seq<WasteReport>, r: WasteReport)
    requires r.isOverprovisioned
    ensures PatchFor(prefix + [r], Key(r))
         == Joined(if Key(r) in Keys(prefix) then PatchFor(prefix, Key(r)) else NewPatch(r), r)
  {
    var group := Group(prefix, Key(r));
    GroupPush(prefix, r, Key(r));
    GroupNotEmpty(prefix, Key(r));
    SumPush(group, r, Cost);
    assert ContainersFor(group + [r]) == ContainersFor(group) + [ContainerFor(r)];
  }

  function NewPatch(r: WasteReport): DeployPatch {
    DeployPatch(Trim(r.podName, '-'), r.namespace, 0.0, [], !r.isHPAManaged, HPAConfig(1, 3, 70))
  }

  lemma PatchKept(prefix: seq<WasteReport>, r: WasteReport, k: string)
    requires !r.isOverprovisioned || Key(r) != k
    ensures PatchFor(prefix + [r], k) == PatchFor(prefix, k)
  {
    GroupKept(prefix, r, k);
  }

  lemma GroupedSkip(prefix: seq<WasteReport>, depMap: map<string, DeployPatch>, r: WasteReport)
    requires Grouped(prefix, depMap) && !r.isOverprovisioned
    ensures Grouped(prefix + [r], depMap)
  {
    KeysPush(prefix, r);
    forall k | k in depMap ensures depMap[k] == PatchFor(prefix + [r], k) {
      PatchKept(prefix, r, k);
    }
  }

  lemma GroupedJoin(prefix: seq<WasteReport>, depMap: map<string, DeployPatch>, r: WasteReport)
    requires Grouped(prefix, depMap) && r.isOverprovisioned
    ensures var p := if Key(r) in depMap then depMap[Key(r)] else NewPatch(r);
            Grouped(prefix + [r], depMap[Key(r) := Joined(p, r)])
  {
    var key := Key(r);
    PatchPush(prefix, r);
    var updated := depMap[key := PatchFor(prefix + [r], key)];
    assert updated.Keys == Keys(prefix + [r]) by {
      KeysPush(prefix, r);
    }
    forall k | k in updated ensures updated[k] == PatchFor(prefix + [r], k) {
      if k != key {
        PatchKept(prefix, r, k);
      }
    }
  }

  /** The values of a map, in whatever order its iteration yields them. */
  method Values<V>(m: map<string, V>) returns (values: seq<V>, ghost order: seq<string>)
    ensures NoDuplicates(order) && forall k :: k in order <==> k in m
    ensures |values| == |order| && forall i | 0 <= i < |order| :: values[i] == m[order[i]]
  {
    values, order := [], [];
    var rest := m.Keys;
    while rest != {}
      invariant rest <= m.Keys && NoDuplicates(order)
      invariant forall k :: k in order <==> k in m && k !in rest
      invariant |values| == |order| && forall i | 0 <= i < |order| :: values[i] == m[order[i]]
    {
      var k :| k in rest;
      rest := rest - {k};
      values := values + [m[k]];
      order := order + [k];
    }
  }

  /** The order in which the finished map is iterated is left open by Go. */
  method GeneratePatches(reports: seq<WasteReport>) returns (result: seq<DeployPatch>)
    ensures exists order :: IsOrder(reports, order) && result == PatchesIn(reports, order)
  {
    var depMap: map<string, DeployPatch> := map[];
    for n := 0 to |reports|
      invariant Grouped(reports[..n], depMap)
    {
      var r := reports[n];
      assert reports[..n + 1] == reports[..n] + [r];
      if !r.isOverprovisioned {
        GroupedSkip(reports[..n], depMap, r);
      } else {
        GroupedJoin(reports[..n], depMap, r);
        var key := Key(r);
        var p := if key in depMap then depMap[key] else NewPatch(r);
        depMap := depMap[key := Joined(p, r)];
      }
    }
    assert reports[..|reports|] == reports;
    ghost var order;
    result, order := Values(depMap);
    assert IsOrder(reports, order) && result == PatchesIn(reports, order);
  }

  // ----- main results

  ghost function GroupSum(reports: seq<WasteReport>, f: WasteReport -> real): string -> real {
    (k: string) => Sum(Group(reports, k), f)
  }

  /** Raising one position of a duplicate-free order by v raises the sum by v. */
  lemma {:induction false} SumBump(order: seq<string>, g: string -> real, h: string -> real, key: string, v: real)
    requires NoDuplicates(order)
    requires forall k | k in order :: h(k) == g(k) + if k == key then v else 0.0
    ensures Sum(order, h) == Sum(order, g) + if key in order then v else 0.0
  {
    if order != [] {
      SumBump(order[1..], g, h, key, v);
      assert order == [order[0]] + order[1..];
    }
  }

  lemma {:induction false} ZeroGroups(order: seq<string>, f: WasteReport -> real)
    ensures Sum(order, GroupSum([], f)) == 0.0
  {
    if order != [] {
      ZeroGroups(order[1..], f);
    }
  }

  /** What r adds to the sum of group k. */
  ghost function Share(r: WasteReport, k: string, f: WasteReport -> real): real {
    if r.isOverprovisioned && Key(r) == k then f(r) else 0.0
  }

  lemma GroupSumPush(prefix: seq<WasteReport>, r: WasteReport, k: string, f: WasteReport -> real)
    ensures GroupSum(prefix + [r], f)(k) == GroupSum(prefix, f)(k) + Share(r, k, f)
  {
    if r.isOverprovisioned && Key(r) == k {
      GroupPush(prefix, r, k);
      SumPush(Group(prefix, k), r, f);
    } else {
      GroupKept(prefix, r, k);
    }
  }

  lemma OverSumPush(prefix: seq<WasteReport>, r: WasteReport, f: WasteReport -> real)
    ensures Sum(Over(prefix + [r]), f) == Sum(Over(prefix), f) + Share(r, Key(r), f)
  {
    assert (prefix + [r])[..|prefix|] == prefix;
    SumPush(Over(prefix), r, f);
    assert Over(prefix) + [] == Over(prefix);
  }

  lemma PartitionStep(prefix: seq<WasteReport>, r: WasteReport, order: seq<string>, f: WasteReport -> real)
    requires NoDuplicates(order) && (r.isOverprovisioned ==> Key(r) in order)
    requires Sum(order, GroupSum(prefix, f)) == Sum(Over(prefix), f)
    ensures Sum(order, GroupSum(prefix + [r], f)) == Sum(Over(prefix + [r]), f)
  {
    OverSumPush(prefix, r, f);
    var g, h, key := GroupSum(prefix, f), GroupSum(prefix + [r], f), Key(r);
    var v := Share(r, key, f);
    forall k | k in order ensures h(k) == g(k) + if k == key then v else 0.0 {
      GroupSumPush(prefix, r, k, f);
    }
    SumBump(order, g, h, key, v);
  }

  /** The groups partition the overprovisioned reports: any measure adds up over them. */
  lemma {:induction false} GroupsPartition(reports: seq<WasteReport>, order: seq<string>, f: WasteReport -> real)
    requires NoDuplicates(order) && forall k | k in Keys(reports) :: k in order
    ensures Sum(order, GroupSum(reports, f)) == Sum(Over(reports), f)
  {
    if reports == [] {
      ZeroGroups(order, f);
    } else {
      var prefix, r := reports[..|reports| - 1], reports[|reports| - 1];
      assert reports == prefix + [r];
      KeysPush(prefix, r);
      GroupsPartition(prefix, order, f);
      PartitionStep(prefix, r, order, f);
    }
  }

  function SavingsOf(p: DeployPatch): real {
    p.savings
  }

  lemma {:induction false} PatchSums(reports: seq<WasteReport>, order: seq<string>)
    ensures Sum(PatchesIn(reports, order), SavingsOf) == Sum(order, GroupSum(reports, Cost))
  {
    if order != [] {
      PatchSums(reports, order[1..]);
      assert PatchesIn(reports, order)[1..] == PatchesIn(reports, order[1..]);
    }
  }

  /** No euro is lost or counted twice: the patches save what the overprovisioned reports waste. */
  lemma SavingsAreConserved(reports: seq<WasteReport>, order: seq<string>)
    requires IsOrder(reports, order)
    ensures Sum(PatchesIn(reports, order), SavingsOf) == Sum(Over(reports), Cost)
  {
    PatchSums(reports, order);
    GroupsPartition(reports, order, Cost);
  }

  function AllContainers(patches: seq<DeployPatch>): seq<ContainerPatch> {
    if patches == [] then [] else patches[0].containers + AllContainers(patches[1..])
  }

  ghost function Copies(c: ContainerPatch): WasteReport -> real {
    (r: WasteReport) => if ContainerFor(r) == c then 1.0 else 0.0
  }

  lemma {:induction false} ContainerCopies(group: seq<WasteReport>, c: ContainerPatch)
    ensures multiset(ContainersFor(group))[c] as real == Sum(group, Copies(c))
  {
    if group != [] {
      ContainerCopies(group[1..], c);
      assert ContainersFor(group) == [ContainerFor(group[0])] + ContainersFor(group[1..]);
    }
  }

  lemma {:induction false} AllCopies(reports: seq<WasteReport>, order: seq<string>, c: ContainerPatch)
    ensures multiset(AllContainers(PatchesIn(reports, order)))[c] as real
         == Sum(order, GroupSum(reports, Copies(c)))
  {
    if order != [] {
      AllCopies(reports, order[1..], c);
      assert PatchesIn(reports, order)[1..] == PatchesIn(reports, order[1..]);
      ContainerCopies(Group(reports, order[0]), c);
    }
  }

  /** Each overprovisioned report gives exactly one container patch, over all deployments. */
  lemma OneContainerPatchEach(reports: seq<WasteReport>, order: seq<string>)
    requires IsOrder(reports, order)
    ensures multiset(AllContainers(PatchesIn(reports, order))) == multiset(ContainersFor(Over(reports)))
  {
    forall c
      ensures multiset(AllContainers(PatchesIn(reports, order)))[c] == multiset(ContainersFor(Over(reports)))[c]
    {
      AllCopies(reports, order, c);
      GroupsPartition(reports, order, Copies(c));
      ContainerCopies(Over(reports), c);
    }
  }

  /** Whatever order the map is iterated in, the same patches come out. */
  lemma IterationOrderIsIrrelevant(reports: seq<WasteReport>, a: seq<string>, b: seq<string>)
    requires IsOrder(reports, a) && IsOrder(reports, b)
    ensures multiset(PatchesIn(reports, a)) == multiset(PatchesIn(reports, b))
  {
    forall x ensures multiset(a)[x] == multiset(b)[x] {
      CopiesOf(a, x);
      CopiesOf(b, x);
    }
    MapPermutation(a, b, ToPatch(reports));
  }

  /** No two patches are for the same deployment of the same namespace. */
  lemma PatchesAreDistinct(reports: seq<WasteReport>, order: seq<string>, i: nat, j: nat)
    requires IsOrder(reports, order) && i < j < |order|
    ensures var p := PatchesIn(reports, order);
            (p[i].namespace, p[i].deployment) != (p[j].namespace, p[j].deployment)
  {
    GroupHead(reports, order[i]);
    GroupHead(reports, order[j]);
  }

  /** Followed by the separator, one namespace is a prefix of the other. */
  predicate CanShare(n0: string, n1: string) {
    n0 != n1 && (n0 + "/" <= n1 || n1 + "/" <= n0)
  }

  /** What equal keys say about namespaces n0, n1 and deployments d0, d1. */
  lemma EqualKeys(n0: string, d0: string, n1: string, d1: string)
    requires n0 + "/" + d0 == n1 + "/" + d1
    ensures (n0 == n1 && d0 == d1) || CanShare(n0, n1)
  {
    var k := n0 + "/" + d0;
    assert n0 == k[..|n0|] && d0 == k[|n0| + 1..] && n0 + "/" == k[..|n0| + 1];
    assert n1 == k[..|n1|] && d1 == k[|n1| + 1..] && n1 + "/" == k[..|n1| + 1];
    if |n0| < |n1| {
      assert n0 + "/" == n1[..|n0| + 1];
    } else if |n1| < |n0| {
      assert n1 + "/" == n0[..|n1| + 1];
    }
  }

  lemma SharedKey(n0: string, n1: string) returns (d0: string, d1: string)
    requires CanShare(n0, n1)
    ensures n0 + "/" + d0 == n1 + "/" + d1
  {
    if n0 + "/" <= n1 {
      d0, d1 := n1[|n0| + 1..] + "/", "";
      assert n1 == n0 + "/" + n1[|n0| + 1..];
    } else {
      d0, d1 := "", n0[|n1| + 1..] + "/";
      assert n0 == n1 + "/" + n0[|n1| + 1..];
    }
  }

  function InNamespace(p: PodInput, namespace: string, deployment: string): PodInput {
    p.(namespace := namespace, podName := deployment + "-r-p")
  }

  lemma KeyInNamespace(wd: Detector, p: PodInput, namespace: string, deployment: string)
    ensures Key(Analyze(wd, InNamespace(p, namespace, deployment))) == namespace + "/" + deployment
  {
    assert deployment + "-r-p" == deployment + ['-'] + "r" + ['-'] + "p";
    CutRemovesTwoSegments(deployment, "r", "p", '-');
  }

  /** A pod that uses nothing of what it requests. */
  const IDLE: PodInput := PodInput("", "", "", 1000.0, 0.0, 1024.0, 0.0, true, false, 0)

  ghost predicate KeysMeet(a: WasteReport, n0: string, b: WasteReport, n1: string) {
    a.namespace == n0 && b.namespace == n1 && Key(a) == Key(b)
  }

  /** Reports of two different namespaces can have the same key exactly when the namespaces can share. */
  lemma KeysMeetIff(n0: string, n1: string)
    requires n0 != n1
    ensures (exists a, b :: KeysMeet(a, n0, b, n1)) <==> CanShare(n0, n1)
  {
    if CanShare(n0, n1) {
      var d0, d1 := SharedKey(n0, n1);
      var wd := Detector(0.0, 0.0);
      KeyInNamespace(wd, IDLE, n0, d0);
      KeyInNamespace(wd, IDLE, n1, d1);
      assert KeysMeet(Analyze(wd, InNamespace(IDLE, n0, d0)), n0, Analyze(wd, InNamespace(IDLE, n1, d1)), n1);
    }
    forall a, b | KeysMeet(a, n0, b, n1) ensures CanShare(n0, n1) {
      EqualKeys(n0, Trim(a.podName, '-'), n1, Trim(b.podName, '-'));
    }
  }

  /** The report is about the deployment that the patch names. */
  ghost predicate Belongs(r: WasteReport, p: DeployPatch) {
    r.namespace == p.namespace && Trim(r.podName, '-') == p.deployment
  }

  ghost predicate In(reports: seq<WasteReport>, namespaces: set<string>) {
    forall r | r in reports :: r.namespace in namespaces
  }

  ghost predicate ShareFree(namespaces: set<string>) {
    forall n0, n1 | n0 in namespaces && n1 in namespaces :: !CanShare(n0, n1)
  }

  /** With namespaces that cannot share, a patch collects reports of its own deployment only. */
  lemma GroupsAreHomogeneous(reports: seq<WasteReport>, namespaces: set<string>, key: string, r: WasteReport)
    requires In(reports, namespaces) && ShareFree(namespaces) && r in Group(reports, key)
    ensures Belongs(r, PatchFor(reports, key))
  {
    GroupMembers(reports, key);
    var first := Group(reports, key)[0];
    assert first in Group(reports, key);
    EqualKeys(r.namespace, Trim(r.podName, '-'), first.namespace, Trim(first.podName, '-'));
  }

  lemma HasSlash(n0: string, n1: string)
    requires n0 + "/" <= n1
    ensures '/' in n1
  {
    assert n1[|n0|] == (n0 + "/")[|n0|];
  }

  /** Namespaces without a slash, as Kubernetes has them, cannot share. */
  lemma SlashFreeNeverShare(namespaces: set<string>)
    requires forall n | n in namespaces :: '/' !in n
    ensures ShareFree(namespaces)
  {
    forall n0, n1 | n0 in namespaces && n1 in namespaces ensures !CanShare(n0, n1) {
      if n0 + "/" <= n1 {
        HasSlash(n0, n1);
      } else if n1 + "/" <= n0 {
        HasSlash(n1, n0);
      }
    }
  }

  lemma TwoReports(a: WasteReport, b: WasteReport)
    requires a.isOverprovisioned && b.isOverprovisioned && Key(a) == Key(b)
    ensures Group([a, b], Key(a)) == [a, b] && IsOrder([a, b], [Key(a)])
  {
    GroupPush([], a, Key(a));
    GroupPush([a], b, Key(a));
    assert [] + [a] == [a] && [a] + [b] == [a, b];
    assert Keys([a, b]) == {Key(a)};
  }

  lemma TwoContainers(a: WasteReport, b: WasteReport)
    ensures var p := PatchOf([a, b]);
            p.containers == [ContainerFor(a), ContainerFor(b)] && Belongs(a, p)
            && (Belongs(b, p) ==> a.namespace == b.namespace)
  {
  }

  lemma OnePatch(reports: seq<WasteReport>, key: string)
    ensures PatchesIn(reports, [key]) == [PatchFor(reports, key)]
  {
  }

  /**
   Two namespaces that can share do end up in one patch: of two overprovisioned pods, one in each, the
   only patch is for the first one's namespace and has the containers of both.
   */
  lemma GroupsCanMix(wd: Detector, p: PodInput, n0: string, n1: string) returns (a: WasteReport, b: WasteReport)
    requires CanShare(n0, n1) && (CpuOver(p) || MemOver(p))
    ensures a.namespace == n0 && b.namespace == n1 && a.isOverprovisioned && b.isOverprovisioned
    ensures Key(a) == Key(b) && IsOrder([a, b], [Key(a)])
    ensures var patches := PatchesIn([a, b], [Key(a)]);
            && |patches| == 1 && Belongs(a, patches[0]) && !Belongs(b, patches[0])
            && patches[0].containers == [ContainerFor(a), ContainerFor(b)]
  {
    var d0, d1 := SharedKey(n0, n1);
    a, b := Analyze(wd, InNamespace(p, n0, d0)), Analyze(wd, InNamespace(p, n1, d1));
    KeyInNamespace(wd, p, n0, d0);
    KeyInNamespace(wd, p, n1, d1);
    TwoReports(a, b);
    TwoContainers(a, b);
    OnePatch([a, b], Key(a));
  }

  /** A patch never mixes deployments, whatever the reports, exactly when no two of the namespaces can share. */
  lemma HomogeneousIff(namespaces: set<string>)
    ensures (forall reports, key, r | In(reports, namespaces) && r in Group(reports, key) ::
               Belongs(r, PatchFor(reports, key)))
       <==> ShareFree(namespaces)
  {
    if ShareFree(namespaces) {
      forall reports, key, r | In(reports, namespaces) && r in Group(reports, key)
        ensures Belongs(r, PatchFor(reports, key))
      {
        GroupsAreHomogeneous(reports, namespaces, key, r);
      }
    } else {
      var n0, n1 :| n0 in namespaces && n1 in namespaces && CanShare(n0, n1);
      var a, b := GroupsCanMix(Detector(0.0, 0.0), IDLE, n0, n1);
      TwoReports(a, b);
      OnePatch([a, b], Key(a));
      assert In([a, b], namespaces) && b in Group([a, b], Key(a));
    }
  }

  ghost predicate Increasing(s: seq<nat>) {
    forall i, j | 0 <= i < j < |s| :: s[i] < s[j]
  }

  ghost predicate Selected(r: WasteReport, key: string) {
    r.isOverprovisioned && Key(r) == key
  }

  /** source holds the positions of exactly the overprovisioned reports with the key. */
  ghost predicate Selects(reports: seq<WasteReport>, key: string, source: seq<nat>) {
    && Increasing(source)
    && forall i: nat :: i in source <==> i < |reports| && Selected(reports[i], key)
  }

  lemma {:induction false} SelectsPush(prefix: seq<WasteReport>, r: WasteReport, key: string, source: seq<nat>)
    requires Selects(prefix, key, source)
    ensures Selects(prefix + [r], key, source + if Selected(r, key) then [|prefix|] else [])
  {
    var all, n := prefix + [r], |prefix|;
    var added: seq<nat> := if Selected(r, key) then [n] else [];
    forall k | 0 <= k < |source| ensures source[k] < n {
      assert source[k] in source;
    }
    forall i: nat ensures i in source + added <==> i < |all| && Selected(all[i], key) {
      assert i in source + added <==> i in source || i in added;
      assert i < n ==> all[i] == prefix[i];
    }
  }

  lemma {:induction false} GroupSource(reports: seq<WasteReport>, key: string) returns (source: seq<nat>)
    ensures Selects(reports, key, source)
    ensures |Group(reports, key)| == |source|
    ensures forall n | 0 <= n < |source| :: source[n] < |reports| && Group(reports, key)[n] == reports[source[n]]
  {
    if reports == [] {
      source := [];
    } else {
      var prefix, r := reports[..|reports| - 1], reports[|reports| - 1];
      assert reports == prefix + [r];
      var before := GroupSource(prefix, key);
      SelectsPush(prefix, r, key, before);
      GroupPush(prefix, r, key);
      source := before + if Selected(r, key) then [|prefix|] else [];
    }
  }

  /** The container patch requests the report's optimal sizes, and limits are twice and one and a half times them. */
  ghost predicate Fits(c: ContainerPatch, r: WasteReport) {
    && c.name == r.containerName && c.cpuRequest == r.cpuRightsizing && c.memRequest == r.memRightsizing
    && c.cpuLimit == Rounding.Truncate(2.0 * r.cpuOptimalM) && c.memLimit == Rounding.Truncate(1.5 * r.memOptimalMi)
  }

  /**
   What a patch is made of, by the positions of its reports: their container patches in input order,
   and the identity and HPA switch of the first one.
   */
  lemma PatchIsItsReports(reports: seq<WasteReport>, order: seq<string>, i: nat) returns (source: seq<nat>)
    requires IsOrder(reports, order) && i < |order|
    ensures Selects(reports, order[i], source) && source != []
    ensures var p := PatchesIn(reports, order)[i];
            && |p.containers| == |source|
            && (forall n | 0 <= n < |source| :: source[n] < |reports| && Fits(p.containers[n], reports[source[n]]))
            && var first := reports[source[0]];
               && p.namespace == first.namespace && p.deployment == Trim(first.podName, '-')
               && p.createHPA == !first.isHPAManaged && p.suggestedHPA == HPAConfig(1, 3, 70)
  {
    GroupNotEmpty(reports, order[i]);
    source := GroupSource(reports, order[i]);
    assert PatchesIn(reports, order)[i] == PatchFor(reports, order[i]);
  }

  function CostIfOver(r: WasteReport): real {
    if r.isOverprovisioned then r.annualCostWasteEur else 0.0
  }

  lemma {:induction false} OverCosts(reports: seq<WasteReport>)
    ensures Sum(Over(reports), Cost) == Sum(reports, CostIfOver)
  {
    if reports != [] {
      var prefix, r := reports[..|reports| - 1], reports[|reports| - 1];
      OverCosts(prefix);
      assert reports == prefix + [r];
      SumPush(prefix, r, CostIfOver);
      OverPush(prefix, r);
    }
  }

  lemma {:induction false} OverPush(prefix: seq<WasteReport>, r: WasteReport)
    ensures Sum(Over(prefix + [r]), Cost) == Sum(Over(prefix), Cost) + CostIfOver(r)
  {
    KeysPush(prefix, r);
    SumPush(Over(prefix), r, Cost);
    assert Over(prefix) + [] == Over(prefix);
  }

  /** The same total, over the reports: each overprovisioned one counts with its yearly cost, and no other. */
  lemma SavingsByReports(reports: seq<WasteReport>, order: seq<string>)
    requires IsOrder(reports, order)
    ensures Sum(PatchesIn(reports, order), SavingsOf) == Sum(reports, CostIfOver)
  {
    SavingsAreConserved(reports, order);
    OverCosts(reports);
  }

  /**
   With reports from the detector, a patched container requests its usage plus the safety buffer, and
   its limits are exactly twice and one and a half times its requests.
   */
  lemma LimitsCoverRequests(wd: Detector, p: PodInput)
    ensures var c := ContainerFor(Analyze(wd, p));
            && c.cpuRequest >= 10 && c.cpuRequest as real >= p.cpuUsageP95M * SAFETY_BUFFER
            && c.memRequest >= 32 && c.memRequest as real >= p.memUsageP95Mi * SAFETY_BUFFER
            && c.cpuLimit == 2 * c.cpuRequest
            && 2 * c.memLimit == 3 * c.memRequest
  {
    OptimaLargeEnough(p.cpuUsageP95M, p.memUsageP95Mi);
    CpuOptimumIsWhole(p.cpuUsageP95M);
    MemOptimumIsWhole(p.memUsageP95Mi);
  }
}
