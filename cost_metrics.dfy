/** The two collectors of the cost script and the run that calls them.
    `collect_master_metrics` prices the control node and the EBS volumes
    attached to it; `collect_compute_metrics` prices the worker fleet, one
    Slurm queue and compute resource at a time. Each sends its totals to the
    push gateway, and each swallows every exception: a failure loses that
    collector's remaining metrics and nothing else. */
module CostMetrics {
  import opened Wrappers
  import opened Sinfo
  import opened Pricing

  /** The volume type of the root volume every worker node is assumed to
      carry. Its size, 100 GB, and the 720 hours over which a monthly EBS
      price is spread are written out where they are used, as in the script. */
  const WorkerVolumeType := "gp3"

  // ---------------------------------------------------------------------
  // The metric sink
  // ---------------------------------------------------------------------

  /** One `send_metric(name, value)` call. */
  datatype Metric = Metric(name: string, value: real)

  /** The push gateway as the script sees it: every metric sent is recorded
      in order; a failed push is swallowed by `send_metric` and changes
      nothing the script can observe. */
  class Sink {
    var emitted: seq<Metric>

    constructor ()
      ensures emitted == []
    {
      emitted := [];
    }

    method Send(name: string, value: real)
      modifies this
      ensures emitted == old(emitted) + [Metric(name, value)]
    {
      emitted := emitted + [Metric(name, value)];
    }
  }

  // ---------------------------------------------------------------------
  // The world the collectors read
  // ---------------------------------------------------------------------

  /** `ec2_metadata.instance_type` and `ec2_metadata.instance_id`. */
  datatype HostIdentity = HostIdentity(instanceType: string, instanceId: string)

  /** One entry of `BlockDeviceMappings`: `ebsVolumeId` is `Some(volume['Ebs']['VolumeId'])`
      when the entry has an `Ebs` key. */
  datatype BlockDeviceMapping = BlockDeviceMapping(ebsVolumeId: Option<string>)

  /** What `get_instance_info` returns when it finds the instance. */
  datatype InstanceInfo = InstanceInfo(blockDeviceMappings: seq<BlockDeviceMapping>)

  /** What `get_volume_info` returns when it finds the volume. */
  datatype VolumeInfo = VolumeInfo(volumeType: string, size: int)

  /** One entry of a queue's `ComputeResources`: the `InstanceType` of each of its `Instances`. */
  datatype ComputeResource = ComputeResource(instanceTypes: seq<string>)

  /** One entry of `config['Scheduling']['SlurmQueues']`. */
  datatype SlurmQueue = SlurmQueue(name: string, computeResources: seq<ComputeResource>)

  /** What the lookups answer during one run. The four memoised lookups are
      given by their answers; `sinfo` is the standard output of
      `sinfo --noheader --partition <name>`, `None` when the command fails. */
  datatype Environment = Environment(
    instancePrice: (string, string) -> real,
    ebsPrice: (string, string) -> real,
    instanceInfo: string -> Option<InstanceInfo>,
    volumeInfo: string -> Option<VolumeInfo>,
    sinfo: string -> Option<string>)

  // ---------------------------------------------------------------------
  // Control node
  // ---------------------------------------------------------------------

  /** What one block-device mapping adds to the control node's storage cost:
      its volume's monthly price per GB times its size, spread over the
      hours of a month, or nothing when it has no `Ebs` entry or its volume
      is not found. */
  function VolumeCost(mapping: BlockDeviceMapping, env: Environment): real {
    match mapping.ebsVolumeId
    case None => 0.0
    case Some(volumeId) =>
      match env.volumeInfo(volumeId)
      case None => 0.0
      case Some(volume) => env.ebsPrice(volume.volumeType, Region) * volume.size as real / 720.0
  }

  /** The running total `total_ebs_cost` after the given mappings. */
  function StorageCost(mappings: seq<BlockDeviceMapping>, env: Environment): real {
    if |mappings| == 0 then 0.0
    else StorageCost(mappings[..|mappings| - 1], env) + VolumeCost(mappings[|mappings| - 1], env)
  }

  /** What `collect_master_metrics` sends. The instance price goes first. The
      storage total follows only when the instance is found: otherwise
      `total_ebs_cost` is never bound, sending it raises NameError, and the
      handler swallows it. */
  function MasterEmissions(host: Option<HostIdentity>, env: Environment): seq<Metric> {
    match host
    case None => []
    case Some(h) =>
      [Metric("master_node_cost", env.instancePrice(h.instanceType, Region))] +
      match env.instanceInfo(h.instanceId)
      case None => []
      case Some(info) => [Metric("ebs_master_cost", StorageCost(info.blockDeviceMappings, env))]
  }

  /** `collect_master_metrics`. `host` is `None` when the instance metadata
      cannot be read, which raises before anything is sent. */
  method CollectMasterMetrics(sink: Sink, host: Option<HostIdentity>, env: Environment)
    modifies sink
    ensures sink.emitted == old(sink.emitted) + MasterEmissions(host, env)
  {
    if host.None? {
      return;
    }
    var instanceType, instanceId := host.value.instanceType, host.value.instanceId;
    var masterPrice := env.instancePrice(instanceType, Region);
    sink.Send("master_node_cost", masterPrice);
    var instanceInfo := env.instanceInfo(instanceId);
    if instanceInfo.None? {
      return;
    }
    var volumes := instanceInfo.value.blockDeviceMappings;
    var totalEbsCost := 0.0;
    for i := 0 to |volumes|
      invariant totalEbsCost == StorageCost(volumes[..i], env)
    {
      assert volumes[..i + 1][..i] == volumes[..i];
      var volume := volumes[i];
      if volume.ebsVolumeId.Some? {
        var volInfo := env.volumeInfo(volume.ebsVolumeId.value);
        if volInfo.Some? {
          var ebsPrice := env.ebsPrice(volInfo.value.volumeType, Region);
          totalEbsCost := totalEbsCost + ebsPrice * volInfo.value.size as real / 720.0;
        }
      }
    }
    assert volumes[..|volumes|] == volumes;
    sink.Send("ebs_master_cost", totalEbsCost);
  }

  /** The storage cost of two runs of mappings is the sum of their costs. */
  lemma {:induction false} StorageCostAppend(a: seq<BlockDeviceMapping>, b: seq<BlockDeviceMapping>, env: Environment)
    ensures StorageCost(a + b, env) == StorageCost(a, env) + StorageCost(b, env)
    decreases |b|
  {
    if |b| == 0 {
      assert a + b == a;
    } else {
      StorageCostAppend(a, b[..|b| - 1], env);
      assert (a + b)[..|a + b| - 1] == a + b[..|b| - 1];
    }
  }

  /** A mapping without an `Ebs` entry, or whose volume is not found, adds
      nothing wherever it stands. */
  lemma UnpricedMappingAddsNothing(a: seq<BlockDeviceMapping>, m: BlockDeviceMapping, b: seq<BlockDeviceMapping>, env: Environment)
    requires m.ebsVolumeId.None? || env.volumeInfo(m.ebsVolumeId.value).None?
    ensures StorageCost(a + [m] + b, env) == StorageCost(a + b, env)
  {
    StorageCostAppend(a + [m], b, env);
    StorageCostAppend(a, [m], env);
    StorageCostAppend(a, b, env);
    assert [m][..0] == [];
  }

  /** The volumes that are priced: those of mappings with an `Ebs` entry whose volume is found. */
  function PricedVolumes(mappings: seq<BlockDeviceMapping>, env: Environment): seq<VolumeInfo> {
    if |mappings| == 0 then []
    else
      var here :=
        if mappings[0].ebsVolumeId.Some? && env.volumeInfo(mappings[0].ebsVolumeId.value).Some?
        then [env.volumeInfo(mappings[0].ebsVolumeId.value).value] else [];
      here + PricedVolumes(mappings[1..], env)
  }

  /** Sum of price(type) * size / 720 over volumes. */
  function HourlyVolumeCost(volumes: seq<VolumeInfo>, env: Environment): real {
    if |volumes| == 0 then 0.0
    else env.ebsPrice(volumes[0].volumeType, Region) * volumes[0].size as real / 720.0
         + HourlyVolumeCost(volumes[1..], env)
  }

  /** The control node's storage cost is the sum of ebs_price(type) * size / 720
      over exactly the volumes that are found through an `Ebs` mapping. */
  lemma {:induction false} StorageCostIsSumOverPricedVolumes(mappings: seq<BlockDeviceMapping>, env: Environment)
    ensures StorageCost(mappings, env) == HourlyVolumeCost(PricedVolumes(mappings, env), env)
    decreases |mappings|
  {
    if |mappings| > 0 {
      StorageCostIsSumOverPricedVolumes(mappings[1..], env);
      StorageCostAppend([mappings[0]], mappings[1..], env);
      assert [mappings[0]] + mappings[1..] == mappings;
      assert [mappings[0]][..0] == [];
      var rest := PricedVolumes(mappings[1..], env);
      var m := mappings[0];
      if m.ebsVolumeId.Some? && env.volumeInfo(m.ebsVolumeId.value).Some? {
        var all := PricedVolumes(mappings, env);
        assert all == [env.volumeInfo(m.ebsVolumeId.value).value] + rest;
        assert all[1..] == rest;
      } else {
        assert PricedVolumes(mappings, env) == rest;
      }
    }
  }

  /** With non-negative prices and sizes the storage cost is never negative. */
  lemma {:induction false} StorageCostNonNegative(mappings: seq<BlockDeviceMapping>, env: Environment)
    requires forall t, r :: env.ebsPrice(t, r) >= 0.0
    requires forall id :: env.volumeInfo(id).Some? ==> env.volumeInfo(id).value.size >= 0
    ensures StorageCost(mappings, env) >= 0.0
    decreases |mappings|
  {
    if |mappings| > 0 {
      StorageCostNonNegative(mappings[..|mappings| - 1], env);
      var m := mappings[|mappings| - 1];
      if m.ebsVolumeId.Some? && env.volumeInfo(m.ebsVolumeId.value).Some? {
        var volume := env.volumeInfo(m.ebsVolumeId.value).value;
        var price := env.ebsPrice(volume.volumeType, Region);
        assert price * volume.size as real >= 0.0;
      }
    }
  }

  /** The instance price is always the first metric sent, and the storage
      metric is sent, second and last, exactly when the instance is found. */
  lemma MasterEmissionOrder(h: HostIdentity, env: Environment)
    ensures var sent := MasterEmissions(Some(h), env);
      && 1 <= |sent| <= 2
      && sent[0] == Metric("master_node_cost", env.instancePrice(h.instanceType, Region))
      && (|sent| == 2 <==> env.instanceInfo(h.instanceId).Some?)
      && (|sent| == 2 ==> sent[1].name == "ebs_master_cost")
  {
  }

  /** When the catalog call for the control node's instance type raises, the
      lookup falls back to 0.0 and the control node is reported as costing
      nothing: the failure is indistinguishable from a free instance. */
  lemma UnpricedMasterReportsZero(h: HostIdentity, env: Environment, catalog: Catalog, toFloat: ToFloat)
    requires forall t, r :: env.instancePrice(t, r) == Resolve(InstancePrice(t, r), catalog, toFloat)
    requires catalog(Request(InstancePrice(h.instanceType, Region))).None?
    ensures MasterEmissions(Some(h), env)[0] == Metric("master_node_cost", 0.0)
  {
    assert env.instancePrice(h.instanceType, Region) == Resolve(InstancePrice(h.instanceType, Region), catalog, toFloat);
  }

  /** Two attached volumes of 50 and 100 GB, of a type priced at 0.08 USD
      per GB-month, cost 0.08 * 50 / 720 + 0.08 * 100 / 720 per hour. */
  lemma TwoVolumesAtEightCents(env: Environment, a: BlockDeviceMapping, b: BlockDeviceMapping,
                               small: VolumeInfo, large: VolumeInfo)
    requires a.ebsVolumeId.Some? && env.volumeInfo(a.ebsVolumeId.value) == Some(small)
    requires b.ebsVolumeId.Some? && env.volumeInfo(b.ebsVolumeId.value) == Some(large)
    requires small.size == 50 && large.size == 100
    requires env.ebsPrice(small.volumeType, Region) == 0.08 && env.ebsPrice(large.volumeType, Region) == 0.08
    ensures StorageCost([a, b], env) == 0.08 * 50.0 / 720.0 + 0.08 * 100.0 / 720.0
  {
    assert [a, b][..1] == [a];
    assert [a][..0] == [];
    assert VolumeCost(a, env) == 0.08 * 50.0 / 720.0;
    assert VolumeCost(b, env) == 0.08 * 100.0 / 720.0;
    assert StorageCost([a], env) == VolumeCost(a, env);
  }

  // ---------------------------------------------------------------------
  // Worker fleet
  // ---------------------------------------------------------------------

  /** The two fleet totals, `total_compute_cost` and `total_ebs_cost`. */
  datatype Totals = Totals(compute: real, ebs: real) {
    function Plus(other: Totals): Totals {
      Totals(compute + other.compute, ebs + other.ebs)
    }
  }

  const NoCost := Totals(0.0, 0.0)

  /** The hourly EBS cost the fleet total assigns to `nodes` worker nodes:
      one 100 GB gp3 root volume each, priced per GB-month and spread over
      the 720 hours of a month. */
  function RootVolumesCost(env: Environment, nodes: int): real {
    env.ebsPrice(WorkerVolumeType, Region) * nodes as real * 100.0 / 720.0
  }

  /** The hourly price of the instance type a compute resource is priced at:
      the type of its first instance (a resource without instances is never
      priced). */
  function FirstTypePrice(resource: ComputeResource, env: Environment): real {
    if |resource.instanceTypes| > 0 then env.instancePrice(resource.instanceTypes[0], Region) else 0.0
  }

  /** The active-node count of a queue's partition, as the inner loop reads
      it: `None` when sinfo fails (`check=True` raises) or the count raises. */
  function PartitionNodes(queueName: string, env: Environment): Option<int> {
    var stdout :- env.sinfo(queueName);
    ActiveNodes(stdout)
  }

  /** What a resource with instances adds when its partition has `nodes`
      active nodes: with N > 0, N times the price of its first instance type
      to the compute total and N root volumes to the EBS total; otherwise
      nothing, and no price is looked up. */
  function NodesCharge(resource: ComputeResource, env: Environment, nodes: int): Totals {
    if nodes > 0 then Totals(FirstTypePrice(resource, env) * nodes as real, RootVolumesCost(env, nodes))
    else NoCost
  }

  /** What one compute resource of queue `queueName` adds to the fleet totals,
      `None` when its sinfo call or node count raises. A resource without
      instances is skipped; otherwise the queue's partition is counted afresh
      and charged. */
  function ResourceCost(queueName: string, resource: ComputeResource, env: Environment): Option<Totals> {
    if |resource.instanceTypes| == 0 then Some(NoCost)
    else
      var nodes :- PartitionNodes(queueName, env);
      Some(NodesCharge(resource, env, nodes))
  }

  /** The running totals over a sequence, each element costed by `cost`;
      `None` as soon as one element raises. */
  function SumCosts<T>(items: seq<T>, cost: T -> Option<Totals>): Option<Totals> {
    if |items| == 0 then Some(NoCost)
    else
      var before :- SumCosts(items[..|items| - 1], cost);
      var last :- cost(items[|items| - 1]);
      Some(before.Plus(last))
  }

  function ResourceCostIn(queueName: string, env: Environment): ComputeResource -> Option<Totals> {
    (resource: ComputeResource) => ResourceCost(queueName, resource, env)
  }

  /** What the resources of one queue add to the fleet totals. */
  function QueueCost(queueName: string, resources: seq<ComputeResource>, env: Environment): Option<Totals> {
    SumCosts(resources, ResourceCostIn(queueName, env))
  }

  function QueueCostIn(env: Environment): SlurmQueue -> Option<Totals> {
    (queue: SlurmQueue) => QueueCost(queue.name, queue.computeResources, env)
  }

  /** The fleet totals after the loops over all queues, `None` when any step raises. */
  function FleetCost(queues: seq<SlurmQueue>, env: Environment): Option<Totals> {
    SumCosts(queues, QueueCostIn(env))
  }

  /** What `collect_compute_metrics` sends: both totals, after all queues, or
      nothing at all when any step raised. */
  function ComputeEmissions(queues: seq<SlurmQueue>, env: Environment): seq<Metric> {
    match FleetCost(queues, env)
    case None => []
    case Some(t) => [Metric("compute_nodes_cost", t.compute), Metric("ebs_compute_cost", t.ebs)]
  }

  /** The body of the inner loop of `collect_compute_metrics` for one compute
      resource: what it adds to the two totals, `None` where it raises. */
  method ChargeResource(queueName: string, resource: ComputeResource, env: Environment) returns (charge: Option<Totals>)
    ensures charge == ResourceCost(queueName, resource, env)
  {
    if |resource.instanceTypes| == 0 {
      return Some(NoCost);
    }
    var stdout := env.sinfo(queueName);
    if stdout.None? {
      return None;
    }
    var totalNodes := CountActiveNodes(stdout.value);
    if totalNodes.None? {
      return None;
    }
    var added := ChargeNodes(resource, env, totalNodes.value);
    return Some(added);
  }

  /** The `if total_nodes > 0` block: the prices looked up and the two costs added. */
  method ChargeNodes(resource: ComputeResource, env: Environment, totalNodes: int) returns (added: Totals)
    requires |resource.instanceTypes| > 0
    ensures added == NodesCharge(resource, env, totalNodes)
  {
    if totalNodes <= 0 {
      return NoCost;
    }
    var instanceType := resource.instanceTypes[0];
    var instancePrice := env.instancePrice(instanceType, Region);
    var computeCost := instancePrice * totalNodes as real;
    var ebsPrice := env.ebsPrice(WorkerVolumeType, Region);
    var ebsCost := ebsPrice * totalNodes as real * 100.0 / 720.0;
    return Totals(computeCost, ebsCost);
  }

  /** `collect_compute_metrics`. */
  method CollectComputeMetrics(sink: Sink, queues: seq<SlurmQueue>, env: Environment)
    modifies sink
    ensures sink.emitted == old(sink.emitted) + ComputeEmissions(queues, env)
  {
    var totalComputeCost, totalEbsCost := 0.0, 0.0;
    for i := 0 to |queues|
      invariant FleetCost(queues[..i], env) == Some(Totals(totalComputeCost, totalEbsCost))
      invariant sink.emitted == old(sink.emitted)
    {
      var queueName := queues[i].name;
      var resources := queues[i].computeResources;
      ghost var before := Totals(totalComputeCost, totalEbsCost);
      for j := 0 to |resources|
        invariant QueueCost(queueName, resources[..j], env).Some?
        invariant Totals(totalComputeCost, totalEbsCost) == before.Plus(QueueCost(queueName, resources[..j], env).value)
        invariant sink.emitted == old(sink.emitted)
      {
        SumCostsSnoc(resources, j, ResourceCostIn(queueName, env));
        var charge := ChargeResource(queueName, resources[j], env);
        if charge.None? {
          ResourceRaises(queues, i, j, env);
          return;
        }
        totalComputeCost := totalComputeCost + charge.value.compute;
        totalEbsCost := totalEbsCost + charge.value.ebs;
      }
      assert resources[..|resources|] == resources;
      SumCostsSnoc(queues, i, QueueCostIn(env));
    }
    assert queues[..|queues|] == queues;
    sink.Send("compute_nodes_cost", totalComputeCost);
    sink.Send("ebs_compute_cost", totalEbsCost);
  }

  /** The run: the control node first, then the worker fleet. Each collector's
      failures stay inside it. */
  method RunOnce(sink: Sink, host: Option<HostIdentity>, queues: seq<SlurmQueue>, env: Environment)
    modifies sink
    ensures sink.emitted == old(sink.emitted) + MasterEmissions(host, env) + ComputeEmissions(queues, env)
  {
    CollectMasterMetrics(sink, host, env);
    CollectComputeMetrics(sink, queues, env);
  }

  // ---------------------------------------------------------------------
  // Properties of the fleet totals
  // ---------------------------------------------------------------------

  lemma SumCostsSnoc<T>(items: seq<T>, i: nat, cost: T -> Option<Totals>)
    requires i < |items|
    ensures SumCosts(items[..i + 1], cost) ==
      if SumCosts(items[..i], cost).Some? && cost(items[i]).Some?
      then Some(SumCosts(items[..i], cost).value.Plus(cost(items[i]).value)) else None
  {
    assert items[..i + 1][..i] == items[..i];
  }

  /** The totals over two runs of items add up; if either raises, so does the whole. */
  lemma {:induction false} SumCostsAppend<T>(a: seq<T>, b: seq<T>, cost: T -> Option<Totals>)
    ensures SumCosts(a + b, cost) ==
      if SumCosts(a, cost).Some? && SumCosts(b, cost).Some?
      then Some(SumCosts(a, cost).value.Plus(SumCosts(b, cost).value)) else None
    decreases |b|
  {
    if |b| == 0 {
      assert a + b == a;
    } else {
      SumCostsAppend(a, b[..|b| - 1], cost);
      assert (a + b)[..|a + b| - 1] == a + b[..|b| - 1];
      assert (a + b)[|a + b| - 1] == b[|b| - 1];
    }
  }

  /** An item that raises makes the whole sum raise. */
  lemma RaisingItem<T>(items: seq<T>, i: nat, cost: T -> Option<Totals>)
    requires i < |items| && cost(items[i]).None?
    ensures SumCosts(items, cost).None?
  {
    SumCostsAppend(items[..i + 1], items[i + 1..], cost);
    assert items[..i + 1] + items[i + 1..] == items;
    assert items[..i + 1][..i] == items[..i];
  }

  /** An item that costs nothing leaves the totals as they are, wherever it stands. */
  lemma FreeItem<T>(a: seq<T>, x: T, b: seq<T>, cost: T -> Option<Totals>)
    requires cost(x) == Some(NoCost)
    ensures SumCosts(a + [x] + b, cost) == SumCosts(a + b, cost)
  {
    SumCostsAppend(a + [x], b, cost);
    SumCostsAppend(a, [x], cost);
    SumCostsAppend(a, b, cost);
    assert [x][..0] == [];
  }

  /** A compute resource that raises (it has instances, and its sinfo call
      fails or its node count raises) suppresses both fleet metrics: nothing
      at all is sent, whatever the other queues hold. */
  lemma ResourceRaises(queues: seq<SlurmQueue>, i: nat, j: nat, env: Environment)
    requires i < |queues| && j < |queues[i].computeResources|
    requires ResourceCost(queues[i].name, queues[i].computeResources[j], env).None?
    ensures FleetCost(queues, env).None?
    ensures ComputeEmissions(queues, env) == []
  {
    var q := queues[i];
    RaisingItem(q.computeResources, j, ResourceCostIn(q.name, env));
    RaisingItem(queues, i, QueueCostIn(env));
  }

  /** A compute resource with an empty `Instances` list changes neither total. */
  lemma NoInstancesAddsNothing(queueName: string, a: seq<ComputeResource>, resource: ComputeResource,
                               b: seq<ComputeResource>, env: Environment)
    requires |resource.instanceTypes| == 0
    ensures QueueCost(queueName, a + [resource] + b, env) == QueueCost(queueName, a + b, env)
  {
    FreeItem(a, resource, b, ResourceCostIn(queueName, env));
  }

  /** When the partition has no active nodes (sinfo printed nothing, or only
      powered-down or short lines) the resource adds nothing, and what it
      adds does not depend on any price: no price is looked up. */
  lemma IdlePartitionLooksUpNoPrice(queueName: string, resource: ComputeResource, env: Environment, other: Environment)
    requires PartitionNodes(queueName, env) == Some(0)
    requires other.sinfo == env.sinfo
    ensures ResourceCost(queueName, resource, env) == Some(NoCost)
    ensures ResourceCost(queueName, resource, other) == Some(NoCost)
  {
    assert PartitionNodes(queueName, other) == PartitionNodes(queueName, env);
  }

  /** Empty sinfo output contributes zero cost and lets the loops go on. */
  lemma EmptyOutputCostsNothing(queueName: string, resource: ComputeResource, env: Environment)
    requires env.sinfo(queueName) == Some("")
    ensures ResourceCost(queueName, resource, env) == Some(NoCost)
  {
    BlankOutputCountsZero("");
  }

  /** The sum of the first-type prices of the resources. */
  function FirstTypePrices(resources: seq<ComputeResource>, env: Environment): real {
    if |resources| == 0 then 0.0
    else FirstTypePrices(resources[..|resources| - 1], env) + FirstTypePrice(resources[|resources| - 1], env)
  }

  /** The sum over the resources of their first-type price times `nodes`. */
  function ComputeCharges(resources: seq<ComputeResource>, env: Environment, nodes: int): real {
    if |resources| == 0 then 0.0
    else ComputeCharges(resources[..|resources| - 1], env, nodes)
         + FirstTypePrice(resources[|resources| - 1], env) * nodes as real
  }

  /** Charging each resource for the same `nodes` is charging the summed prices for them. */
  lemma {:induction false} ComputeChargesFactor(resources: seq<ComputeResource>, env: Environment, nodes: int)
    ensures ComputeCharges(resources, env, nodes) == FirstTypePrices(resources, env) * nodes as real
    decreases |resources|
  {
    if |resources| > 0 {
      var init := resources[..|resources| - 1];
      ComputeChargesFactor(init, env, nodes);
      Distribute(FirstTypePrices(init, env), FirstTypePrice(resources[|resources| - 1], env),
                 FirstTypePrices(resources, env), nodes as real);
    }
  }

  lemma Distribute(x: real, y: real, sum: real, z: real)
    requires sum == x + y
    ensures x * z + y * z == sum * z
  {
  }

  lemma CountStep(countBefore: real, count: real, each: real)
    requires count == countBefore + 1.0
    ensures countBefore * each + each == count * each
  {
  }

  /** Resources each charged for the same `nodes` sum to their compute
      charges and to one root-volume charge per resource. */
  lemma {:induction false} SumOfNodesCharges(resources: seq<ComputeResource>, cost: ComputeResource -> Option<Totals>,
                                             env: Environment, nodes: int)
    requires nodes > 0
    requires forall k :: 0 <= k < |resources| ==> cost(resources[k]) == Some(NodesCharge(resources[k], env, nodes))
    ensures SumCosts(resources, cost).Some?
    ensures SumCosts(resources, cost).value.compute == ComputeCharges(resources, env, nodes)
    ensures SumCosts(resources, cost).value.ebs == |resources| as real * RootVolumesCost(env, nodes)
    decreases |resources|
  {
    if |resources| > 0 {
      var n := |resources|;
      var init := resources[..n - 1];
      SumOfNodesCharges(init, cost, env, nodes);
      SumCostsSnoc(resources, n - 1, cost);
      assert resources[..n] == resources;
      CountStep(|init| as real, |resources| as real, RootVolumesCost(env, nodes));
    }
  }

  /** Every resource of a queue is charged on the same partition count. */
  lemma QueueChargedOnPartition(queueName: string, resources: seq<ComputeResource>, env: Environment, nodes: int)
    requires forall k :: 0 <= k < |resources| ==> |resources[k].instanceTypes| > 0
    requires PartitionNodes(queueName, env) == Some(nodes) && nodes > 0
    ensures QueueCost(queueName, resources, env).Some?
    ensures QueueCost(queueName, resources, env).value.compute == ComputeCharges(resources, env, nodes)
    ensures QueueCost(queueName, resources, env).value.ebs == |resources| as real * RootVolumesCost(env, nodes)
  {
    var cost := ResourceCostIn(queueName, env);
    forall k | 0 <= k < |resources|
      ensures cost(resources[k]) == Some(NodesCharge(resources[k], env, nodes))
    {
    }
    SumOfNodesCharges(resources, cost, env, nodes);
  }

  /** The partition is counted once per compute resource: a queue whose k
      resources all have instances, in a partition with N > 0 active nodes,
      adds N times the sum of the resources' first-type prices to the compute
      total and k times N root volumes to the EBS total. */
  lemma PartitionCountedPerResource(queueName: string, resources: seq<ComputeResource>, env: Environment, nodes: int)
    requires forall k :: 0 <= k < |resources| ==> |resources[k].instanceTypes| > 0
    requires PartitionNodes(queueName, env) == Some(nodes) && nodes > 0
    ensures QueueCost(queueName, resources, env).Some?
    ensures QueueCost(queueName, resources, env).value.compute == FirstTypePrices(resources, env) * nodes as real
    ensures QueueCost(queueName, resources, env).value.ebs == |resources| as real * RootVolumesCost(env, nodes)
  {
    QueueChargedOnPartition(queueName, resources, env, nodes);
    ComputeChargesFactor(resources, env, nodes);
  }

  /** With non-negative prices both fleet totals are non-negative. */
  lemma {:induction false} FleetCostNonNegative(queues: seq<SlurmQueue>, env: Environment)
    requires forall t, r :: env.instancePrice(t, r) >= 0.0
    requires forall t, r :: env.ebsPrice(t, r) >= 0.0
    ensures FleetCost(queues, env).Some? ==>
      FleetCost(queues, env).value.compute >= 0.0 && FleetCost(queues, env).value.ebs >= 0.0
    decreases |queues|
  {
    if |queues| > 0 {
      var n := |queues|;
      FleetCostNonNegative(queues[..n - 1], env);
      QueueCostNonNegative(queues[n - 1].name, queues[n - 1].computeResources, env);
    }
  }

  lemma {:induction false} QueueCostNonNegative(queueName: string, resources: seq<ComputeResource>, env: Environment)
    requires forall t, r :: env.instancePrice(t, r) >= 0.0
    requires forall t, r :: env.ebsPrice(t, r) >= 0.0
    ensures QueueCost(queueName, resources, env).Some? ==>
      QueueCost(queueName, resources, env).value.compute >= 0.0 && QueueCost(queueName, resources, env).value.ebs >= 0.0
    decreases |resources|
  {
    if |resources| > 0 {
      var n := |resources|;
      QueueCostNonNegative(queueName, resources[..n - 1], env);
      ResourceCostNonNegative(queueName, resources[n - 1], env);
    }
  }

  lemma ResourceCostNonNegative(queueName: string, resource: ComputeResource, env: Environment)
    requires forall t, r :: env.instancePrice(t, r) >= 0.0
    requires forall t, r :: env.ebsPrice(t, r) >= 0.0
    ensures ResourceCost(queueName, resource, env).Some? ==>
      ResourceCost(queueName, resource, env).value.compute >= 0.0 && ResourceCost(queueName, resource, env).value.ebs >= 0.0
  {
    if |resource.instanceTypes| > 0 && PartitionNodes(queueName, env).Some? {
      NodesChargeNonNegative(resource, env, PartitionNodes(queueName, env).value);
    }
  }

  lemma NodesChargeNonNegative(resource: ComputeResource, env: Environment, nodes: int)
    requires FirstTypePrice(resource, env) >= 0.0 && env.ebsPrice(WorkerVolumeType, Region) >= 0.0
    ensures NodesCharge(resource, env, nodes).compute >= 0.0 && NodesCharge(resource, env, nodes).ebs >= 0.0
  {
    if nodes > 0 {
      NonNegativeProduct(FirstTypePrice(resource, env), nodes as real);
      NonNegativeProduct(env.ebsPrice(WorkerVolumeType, Region), nodes as real);
    }
  }

  lemma NonNegativeProduct(x: real, y: real)
    requires x >= 0.0 && y >= 0.0
    ensures x * y >= 0.0 && x * y * 100.0 / 720.0 >= 0.0
  {
  }

  /** Four active nodes at 1.20 USD per hour cost 4.80 USD per hour. */
  lemma FourNodesAtOneTwenty(queueName: string, resource: ComputeResource, env: Environment)
    requires |resource.instanceTypes| > 0
    requires env.instancePrice(resource.instanceTypes[0], Region) == 1.20
    requires PartitionNodes(queueName, env) == Some(4)
    ensures ResourceCost(queueName, resource, env).Some?
    ensures ResourceCost(queueName, resource, env).value.compute == 4.80
  {
  }
}
