# Cost metrics of an AWS ParallelCluster, modelled in Dafny

The cost script of the cluster's monitoring stack runs every ten minutes.
It prices the cluster by the hour and pushes four gauges to a Prometheus
push gateway:

- `master_node_cost`: the on-demand price of the control node's instance type.
- `ebs_master_cost`: the EBS volumes attached to the control node, at their
  monthly price per GB times their size, spread over 720 hours.
- `compute_nodes_cost`: for every Slurm queue and every compute resource
  that has instances, the partition's active-node count (read from
  `sinfo --noheader --partition <queue>`) times the price of the resource's
  first instance type.
- `ebs_compute_cost`: the same node counts times a 100 GB gp3 root volume
  each, spread over 720 hours.

Prices come from the AWS pricing catalog. Every failure of a lookup gives
the price 0.0. All four lookups are memoised on disk for seven days, the
0.0 fallback included. Each collector swallows every exception. A failure
therefore loses the metrics that collector had not yet sent, and nothing
else.

The model has six modules:

- `Wrappers`: `Option`, which stands for "this Python expression raises".
- `Json`: a decoded catalog document. Objects keep their keys in document
  order, and a repeated key's last binding wins.
- `Pricing`: the catalog request each lookup sends, the chain of indexing
  that reads the USD price, and the 0.0 fallback.
- `Memo`: the seven-day memo table. It is a pure function `Memo.Call` plus
  the class `Memo.MemoCache`, whose `Get` updates the table in place.
- `Sinfo`: `strip`, `split('\n')`, `split()` and `int()`, as Python defines
  them, and the node-counting loop.
- `CostMetrics`: the metric sink, `collect_master_metrics`,
  `collect_compute_metrics` and the run that calls both.

The methods carry the loops of the script and are proved against
reference functions (`Sinfo.SumLines`, `CostMetrics.StorageCost`,
`CostMetrics.FleetCost`). The lemmas state what those functions promise.

## Model

| member | source | states |
|---|---|---|
| Memo.Lookup | cost-metrics/10m-cost-metrics.py:13-14 | the value served for a key at a time: the stored value while its expiry time is still ahead, nothing otherwise |
| Memo.Call | cost-metrics/10m-cost-metrics.py:24-26 | one call of a decorated function: a live entry is returned as is with the table unchanged; otherwise the function runs and its result is returned and stored, expiring CACHE_TTL seconds later |
| Memo.MemoCache.constructor | cost-metrics/10m-cost-metrics.py:13 | a new cache holds no entries: the table the first run finds (later runs start from the table earlier runs left, which every other `Memo` member accepts) |
| Memo.MemoCache.Get | cost-metrics/10m-cost-metrics.py:25-26 | a call whose key has a live entry (expiry still ahead) returns the stored value and leaves the table unchanged; any other call runs the function, returns its result and stores it with expiry now + 7 days; both together are exactly `Memo.Call` |
| Memo.CallThenServed | cost-metrics/10m-cost-metrics.py:13-14 | after any call, the same key is served the value that call returned, whatever the function would now return, for as long as the entry lives; once it expires, the next call fetches afresh and stores a new 7-day entry |
| Memo.FetchedValueLivesForTtl | cost-metrics/10m-cost-metrics.py:14 | a value fetched at time t is served exactly while the later time is below t + 604800 seconds, and not after |
| Memo.CallLeavesOtherKeys | cost-metrics/10m-cost-metrics.py:24-49 | a call changes what its own key is served and no other key: lookups of other argument tuples are unaffected |
| Json.Member | cost-metrics/10m-cost-metrics.py:40-42 | `obj[key]`: the last binding of the key in an object; nothing (Python raises) when the key is absent or the value is not an object |
| Json.FirstKey | cost-metrics/10m-cost-metrics.py:40-41 | `list(obj.keys())[0]`: the key that comes first in an object; nothing (Python raises) for an empty object or a non-object |
| Json.LastBinding | cost-metrics/10m-cost-metrics.py:39 | the value found for a key is bound to it in the object with no later binding of that key; no value is found exactly when the key is absent |
| Json.BoundAmid | cost-metrics/10m-cost-metrics.py:40-42 | indexing an object by a key that no later member binds again gives that key's value, whatever members stand before it |
| Json.LeadingMember | cost-metrics/10m-cost-metrics.py:40 | a key bound first in an object and never again is the object's first key, and indexing the object by it gives its value |
| Pricing.Request | cost-metrics/10m-cost-metrics.py:27-57 | the `get_products` request of each lookup: service AmazonEC2 with the six instance filters (type, location, preInstalledSw NA, Linux, Shared tenancy, UnusedCapacityReservation) or the three volume filters (location, Storage family, volume API name) |
| Pricing.UsdValue | cost-metrics/10m-cost-metrics.py:40-42 | the chain `terms` / `OnDemand` / first term / `priceDimensions` / first dimension / `pricePerUnit` / `USD`, nothing where any step raises |
| Pricing.Extract | cost-metrics/10m-cost-metrics.py:39-42 | the price read from a catalog answer: `float()` of the USD value of its first document; nothing when the call raised, the list is empty, the chain raises or `float()` raises |
| Pricing.Resolve | cost-metrics/10m-cost-metrics.py:26-45 | the undecorated body of `get_instance_pricing` / `get_ebs_pricing`: the extracted price, or 0.0 where the `try` block raises |
| Pricing.RequestDeterminesQuery | cost-metrics/10m-cost-metrics.py:28-37 | distinct lookups (instance vs volume, another type, another region) send distinct catalog requests, so they never share a catalog answer or a memo entry |
| Pricing.ResolvedPriceOrigin | cost-metrics/10m-cost-metrics.py:39-45 | a lookup whose extraction raises reports 0.0; any non-zero price is `float()` of the USD value found in the first document of a non-empty answer |
| Pricing.OfferDocumentPrice | cost-metrics/10m-cost-metrics.py:59-62 | in a catalog document with any members around "terms", "OnDemand", "priceDimensions", "pricePerUnit" and "USD" (such as "product", "Reserved", "sku" or "unit"), the price read is the USD value of the first price dimension of the first on-demand term, whatever later terms, dimensions or documents quote |
| Pricing.GetPrice | cost-metrics/10m-cost-metrics.py:24-65 | a decorated pricing lookup returns what the memo table gives for its query and updates the table as `Memo.Call` does, with the undecorated lookup as the function |
| Pricing.ZeroFallbackIsMemoised | cost-metrics/10m-cost-metrics.py:64-65 | a lookup whose catalog call raised reports 0.0, and that 0.0 is then served for the same query for the next seven days, even once the catalog answers again |
| Sinfo.IsSpace | cost-metrics/10m-cost-metrics.py:131-133 | the characters Python's `str.isspace()` accepts, which `strip()` removes and `split()` separates on |
| Sinfo.Contains | cost-metrics/10m-cost-metrics.py:132 | Python's `pat in s`: the pattern is a prefix of some suffix of the text |
| Sinfo.TrimStart | cost-metrics/10m-cost-metrics.py:131 | the result is a suffix of the text, all that was removed is whitespace, and the result does not start with whitespace |
| Sinfo.TrimEnd | cost-metrics/10m-cost-metrics.py:131 | the result is a prefix of the text, all that was removed is whitespace, and the result does not end with whitespace |
| Sinfo.Strip | cost-metrics/10m-cost-metrics.py:131 | `strip()` gives an infix of the text with only whitespace around it, which neither starts nor ends with whitespace |
| Sinfo.ContainsOccurs | cost-metrics/10m-cost-metrics.py:132 | where `pat in s` holds, `pat` occurs at some position of `s` |
| Sinfo.NoOccurrenceNotContained | cost-metrics/10m-cost-metrics.py:132 | a pattern that occurs at no position is not `in` the text; with `Sinfo.ContainsOccurs`, `in` is exactly occurrence |
| Sinfo.ContainsInfix | cost-metrics/10m-cost-metrics.py:132 | `pat in a + pat + b` always holds |
| Sinfo.MissingCharNotContained | cost-metrics/10m-cost-metrics.py:132 | a pattern holding a character the line lacks is not in the line |
| Sinfo.SplitOn | cost-metrics/10m-cost-metrics.py:131 | `split('\n')` gives at least one piece, and no piece holds the separator |
| Sinfo.JoinSplit | cost-metrics/10m-cost-metrics.py:131 | joining the pieces of a split with the separator gives back the text |
| Sinfo.SplitJoin | cost-metrics/10m-cost-metrics.py:131 | splitting a join of separator-free pieces gives back the pieces |
| Sinfo.Fields | cost-metrics/10m-cost-metrics.py:133 | every field of `split()` is a non-empty word without whitespace, and text starting with a non-space character has a first field starting with it |
| Sinfo.FieldsUnwords | cost-metrics/10m-cost-metrics.py:133 | `split()` of non-empty, space-free words joined by single spaces gives back the words |
| Sinfo.FieldsBlankPrefix | cost-metrics/10m-cost-metrics.py:133 | leading whitespace contributes no field to `split()` |
| Sinfo.FieldsOfPadded | cost-metrics/10m-cost-metrics.py:133 | `split()` of words separated by whitespace runs of any length, with any whitespace before and after, as sinfo pads its columns, gives back the words |
| Sinfo.ParseInt | cost-metrics/10m-cost-metrics.py:135 | `int()` of a field: an optional sign and one or more decimal digits give their value, anything else raises |
| Sinfo.ShowNat | cost-metrics/10m-cost-metrics.py:135 | the decimal text of a natural number is a non-empty string of digits |
| Sinfo.DigitsOfShowNat | cost-metrics/10m-cost-metrics.py:135 | the value of the decimal digits of n is n |
| Sinfo.ParseShowInt | cost-metrics/10m-cost-metrics.py:135 | `int(str(i)) == i` for every integer: the NODES column is read back exactly |
| Sinfo.LineNodes | cost-metrics/10m-cost-metrics.py:132-135 | what one line adds: 0 for an empty line, a line holding `idle~` or a line of fewer than four fields; otherwise `int()` of its fourth field, raising where `int()` raises |
| Sinfo.SumLines | cost-metrics/10m-cost-metrics.py:130-135 | the running total `total_nodes` after the given lines, first line first, raising at the first line that raises |
| Sinfo.Lines | cost-metrics/10m-cost-metrics.py:131 | the lines the loop visits: `stdout.strip().split('\n')` |
| Sinfo.ActiveNodes | cost-metrics/10m-cost-metrics.py:130-135 | the active-node count of one sinfo output: the running total over its lines |
| Sinfo.CountLines | cost-metrics/10m-cost-metrics.py:130-135 | the loop over lines returns the running total `SumLines`, and raises (returns None) exactly when that total raises |
| Sinfo.CountActiveNodes | cost-metrics/10m-cost-metrics.py:130-135 | the node count of an sinfo output is the count over the lines of its stripped text split at '\n' |
| Sinfo.SumLinesAppend | cost-metrics/10m-cost-metrics.py:131-135 | the count over two runs of lines is the sum of their counts; it raises if either run raises |
| Sinfo.AbortedPrefix | cost-metrics/10m-cost-metrics.py:135 | once `int()` has raised on a line, the whole count raises, whatever follows |
| Sinfo.SkippedLineAddsNothing | cost-metrics/10m-cost-metrics.py:132-134 | an empty line, a line containing `idle~`, or a line of fewer than four fields adds nothing wherever it stands |
| Sinfo.SumLinesIsSumOfCounted | cost-metrics/10m-cost-metrics.py:130-135 | the loop's total equals the sum of the fourth fields of exactly the lines it does not skip, and raises exactly when one of those fields is not an integer |
| Sinfo.BlankOutputCountsZero | cost-metrics/10m-cost-metrics.py:130-132 | empty or all-whitespace output counts zero nodes without raising |
| Sinfo.AllSkippedCountsZero | cost-metrics/10m-cost-metrics.py:132-134 | output whose every line is skipped counts zero nodes |
| Sinfo.TwoLines | cost-metrics/10m-cost-metrics.py:131 | two lines followed by trailing whitespace are visited as exactly those two lines |
| Sinfo.PoweredDownLine | cost-metrics/10m-cost-metrics.py:132 | a line with `idle~` anywhere adds 0 |
| Sinfo.WordsLine | cost-metrics/10m-cost-metrics.py:133-135 | a line of at least four words without '~' adds `int` of its fourth word |
| Sinfo.ColumnsLine | cost-metrics/10m-cost-metrics.py:132-135 | a padded sinfo line of at least four columns that does not hold `idle~` adds `int` of its fourth column |
| Sinfo.TildeWordIsNotIdle | cost-metrics/10m-cost-metrics.py:132 | a state word ending in '~' other than `idle~`, in a line with no other '~', does not make the line hold `idle~` |
| Sinfo.DownStateLine | cost-metrics/10m-cost-metrics.py:132-135 | the line "q up inf 1 down~ n3" is not skipped and adds 1 |
| Sinfo.AllocatedLine | cost-metrics/10m-cost-metrics.py:132-135 | the line "q up inf 2 alloc n1" adds 2 |
| Sinfo.StateColumnLine | cost-metrics/10m-cost-metrics.py:133-135 | the line "queue1 up 2 idle 2/0/0/2" makes `int()` raise on its fourth field "idle" |
| Sinfo.DefaultFormatCountsAllocatedNodes | cost-metrics/10m-cost-metrics.py:130-135 | with sinfo's default columns, "q up inf 2 alloc n1" and "q up inf 8 idle~ n2" count 2 nodes |
| Sinfo.StateInFourthColumnAborts | cost-metrics/10m-cost-metrics.py:130-135 | the two-line output "queue1 up 2 idle~ 3/0/0/3", "queue1 up 2 idle 2/0/0/2" makes `int()` raise on the second line's fourth field "idle", so the count raises |
| Sinfo.StateWordAborts | cost-metrics/10m-cost-metrics.py:132-135 | any line that is not skipped and whose fourth field is "idle" makes the whole count raise, whatever lines stand before and after it |
| CostMetrics.Sink.constructor | cost-metrics/10m-cost-metrics.py:86 | nothing has been sent yet |
| CostMetrics.Sink.Send | cost-metrics/10m-cost-metrics.py:86-90 | a send appends one (name, value) metric and changes nothing else |
| CostMetrics.VolumeCost | cost-metrics/10m-cost-metrics.py:105-112 | what one block-device mapping adds: its volume's EBS price times its size over 720, or 0 when the mapping has no `Ebs` entry or the volume is not found |
| CostMetrics.StorageCost | cost-metrics/10m-cost-metrics.py:103-112 | the running total `total_ebs_cost` after the given mappings, in order |
| CostMetrics.MasterEmissions | cost-metrics/10m-cost-metrics.py:93-115 | what `collect_master_metrics` sends: nothing without instance metadata; otherwise `master_node_cost` at the instance price, then `ebs_master_cost` at the storage total only when the instance is found (otherwise the unbound name raises) |
| CostMetrics.CollectMasterMetrics | cost-metrics/10m-cost-metrics.py:93-115 | the metrics sent are exactly `MasterEmissions`: nothing without instance metadata; otherwise the instance price, then the storage total only when the instance is found; the loop keeps the running total equal to `StorageCost` of the mappings seen |
| CostMetrics.StorageCostAppend | cost-metrics/10m-cost-metrics.py:104-112 | the storage cost of two runs of mappings is the sum of their costs |
| CostMetrics.UnpricedMappingAddsNothing | cost-metrics/10m-cost-metrics.py:105-108 | a mapping without `Ebs`, or whose volume is not found, adds nothing wherever it stands |
| CostMetrics.StorageCostIsSumOverPricedVolumes | cost-metrics/10m-cost-metrics.py:102-112 | the storage total is the sum of price(type) * size / 720 over exactly the volumes found through an `Ebs` mapping |
| CostMetrics.StorageCostNonNegative | cost-metrics/10m-cost-metrics.py:103-112 | with non-negative prices and sizes the storage total is non-negative |
| CostMetrics.MasterEmissionOrder | cost-metrics/10m-cost-metrics.py:97-113 | the instance price is always sent first; `ebs_master_cost` is sent, second and last, exactly when the instance is found |
| CostMetrics.UnpricedMasterReportsZero | cost-metrics/10m-cost-metrics.py:97-98 | when the catalog call for the control node's type raises, `master_node_cost` is sent as 0.0 |
| CostMetrics.TwoVolumesAtEightCents | cost-metrics/10m-cost-metrics.py:104-112 | volumes of 50 and 100 GB at 0.08 USD per GB-month cost 0.08 * 50 / 720 + 0.08 * 100 / 720 per hour |
| CostMetrics.PartitionNodes | cost-metrics/10m-cost-metrics.py:128-135 | the active-node count of a queue's partition: the count over the sinfo output, nothing when sinfo fails (`check=True`) or the count raises |
| CostMetrics.NodesCharge | cost-metrics/10m-cost-metrics.py:137-143 | what a resource adds for N nodes: with N > 0, N times its first instance type's price to the compute total and N * 100 GB of gp3 over 720 hours to the EBS total; nothing otherwise |
| CostMetrics.ResourceCost | cost-metrics/10m-cost-metrics.py:126-143 | what one compute resource adds: nothing without instances; otherwise `NodesCharge` on its queue's partition count, raising where that count raises |
| CostMetrics.QueueCost | cost-metrics/10m-cost-metrics.py:125-143 | the totals added by the resources of one queue, in order, raising as soon as one resource raises |
| CostMetrics.FleetCost | cost-metrics/10m-cost-metrics.py:120-143 | the totals after the loops over all queues, starting from 0, raising as soon as one queue raises |
| CostMetrics.ComputeEmissions | cost-metrics/10m-cost-metrics.py:144-147 | what `collect_compute_metrics` sends: `compute_nodes_cost` and `ebs_compute_cost` at the fleet totals, or nothing when any step raised |
| CostMetrics.ChargeResource | cost-metrics/10m-cost-metrics.py:126-143 | one pass of the inner loop adds exactly `ResourceCost`: nothing without instances, nothing for N <= 0 nodes, N times the first type's price and N root volumes otherwise; it raises when sinfo fails or the count raises |
| CostMetrics.ChargeNodes | cost-metrics/10m-cost-metrics.py:137-143 | the `if total_nodes > 0` block adds exactly `NodesCharge`: with N > 0 active nodes, N times the first instance type's price to the compute total and N * 100 GB of gp3 over 720 hours to the EBS total; nothing otherwise |
| CostMetrics.CollectComputeMetrics | cost-metrics/10m-cost-metrics.py:118-147 | the metrics sent are exactly `ComputeEmissions`: both fleet totals after all queues, or nothing when any step raised; the loops keep the running totals equal to `FleetCost` of the queues and resources seen |
| CostMetrics.RunOnce | cost-metrics/10m-cost-metrics.py:150-151 | a run sends the control-node metrics and then the fleet metrics, each collector's failure staying inside it |
| CostMetrics.SumCostsAppend | cost-metrics/10m-cost-metrics.py:122-143 | the totals over two runs of queues or resources add up; if either raises, so does the whole |
| CostMetrics.RaisingItem | cost-metrics/10m-cost-metrics.py:146-147 | one queue or resource that raises makes the whole fleet total raise |
| CostMetrics.FreeItem | cost-metrics/10m-cost-metrics.py:125-126 | a queue or resource that costs nothing leaves the totals as they are, wherever it stands |
| CostMetrics.ResourceRaises | cost-metrics/10m-cost-metrics.py:128-147 | a resource whose sinfo call fails or whose count raises suppresses both fleet metrics: nothing is sent |
| CostMetrics.NoInstancesAddsNothing | cost-metrics/10m-cost-metrics.py:126 | a compute resource with an empty `Instances` list changes neither total |
| CostMetrics.IdlePartitionLooksUpNoPrice | cost-metrics/10m-cost-metrics.py:137 | a partition with no active nodes adds nothing, and what it adds does not depend on any price lookup |
| CostMetrics.EmptyOutputCostsNothing | cost-metrics/10m-cost-metrics.py:130-137 | empty sinfo output contributes zero cost and the loops go on |
| CostMetrics.ComputeChargesFactor | cost-metrics/10m-cost-metrics.py:139-140 | charging each resource its price times N is charging the summed prices times N |
| CostMetrics.SumOfNodesCharges | cost-metrics/10m-cost-metrics.py:125-143 | resources each charged for the same N > 0 nodes add up to the sum of their compute charges and one root-volume charge per resource |
| CostMetrics.QueueChargedOnPartition | cost-metrics/10m-cost-metrics.py:125-143 | every resource of a queue is charged on the same partition count: the compute total is the sum of price * N, the EBS total k times the root-volume charge |
| CostMetrics.PartitionCountedPerResource | cost-metrics/10m-cost-metrics.py:125-143 | a queue of k resources with instances, in a partition with N > 0 active nodes, adds N times the sum of the resources' first-type prices and k times N root volumes: the partition is counted once per resource |
| CostMetrics.FleetCostNonNegative | cost-metrics/10m-cost-metrics.py:120-143 | with non-negative prices both fleet totals are non-negative |
| CostMetrics.QueueCostNonNegative | cost-metrics/10m-cost-metrics.py:125-143 | with non-negative prices a queue adds non-negative amounts |
| CostMetrics.ResourceCostNonNegative | cost-metrics/10m-cost-metrics.py:137-143 | with non-negative prices a resource adds non-negative amounts, whatever the node count |
| CostMetrics.NodesChargeNonNegative | cost-metrics/10m-cost-metrics.py:137-143 | with non-negative prices the charge for any node count is non-negative in both totals |
| CostMetrics.FourNodesAtOneTwenty | cost-metrics/10m-cost-metrics.py:138-140 | four active nodes at 1.20 USD per hour add 4.80 USD per hour to the compute total |

## Left out

- AWS calls are not modelled: `pricing.get_products`, `ec2.describe_instances`, `ec2.describe_volumes` and the instance metadata service.
  - Each becomes a function parameter: `Pricing.Catalog`, and the `instanceInfo` and `volumeInfo` fields of `CostMetrics.Environment`.
  - The metadata read becomes an optional `HostIdentity`.
- `json.loads` is not modelled. The catalog is given the already decoded documents.
- `float()` on the USD string is the parameter `Pricing.ToFloat`.
- The `sinfo` subprocess is the `sinfo` field of `Environment`: the partition name maps to its standard output, or `None` when the command fails.
  - The model reads it as a function. The cluster is taken not to change between the calls of one run.
- Floating point: prices and costs are exact reals, so IEEE rounding is not modelled.
  - Python's `int` to `float` promotion in `price * nodes` is likewise exact.
- `send_metric` is modelled by `CostMetrics.Sink`, which records each metric.
  - The HTTP POST, its ten-second timeout and the Prometheus text format `"name value"` are not modelled.
  - Send failures are swallowed in the source and invisible here.
- diskcache's storage is not modelled: the 100 MB size limit, eviction and concurrent processes sharing `/tmp/cost-metrics-cache`.
  - `Memo` models one table whose entries live exactly seven days.
  - The table persists between runs: a run starts from whatever earlier runs left. Every `Memo` and `Pricing` member takes that prior table as an argument, so their contracts hold for it. Only the first run ever starts from the empty table of `Memo.MemoCache.constructor`.
- `CostMetrics.Environment`: within one run, the four memoised lookups appear as their answers, as plain functions of their arguments.
  - This is what `Memo.CallThenServed` guarantees as long as no entry the run reads expires during it.
  - The model does not thread one `MemoCache` through the collectors.
- `CostMetrics.Environment`: an entry stored by an earlier run can expire between two lookups of one run.
  - For example, the control node's price lookup (line 97) and a compute resource's lookup of the same type (line 138) may straddle the expiry.
  - The second lookup then fetches afresh, and the two may report different prices.
  - The model gives both lookups one price.
- `CostMetrics.Environment`: the memoisation of `get_instance_info` and `get_volume_info`, which caches a `None` for seven days too, is not modelled separately. It behaves as `Pricing.ZeroFallbackIsMemoised` shows for prices.
- Python truthiness is taken at its usual outcome:
  - `if instance_info:` is read as "the instance was found", so an empty dict is not distinguished.
  - `if vol_info:` is read as "the volume was found".
  - `if compute_resource['Instances']:` is read as "the list is non-empty".
- A `KeyError` on a malformed record is not modelled. A mapping with `Ebs` but no `VolumeId`, and a queue without `Name`, are examples. The records are typed, so those keys are always present.
- Reading and parsing the cluster YAML is not modelled. The queues are given as `seq<SlurmQueue>`.
- `Sinfo.ParseInt` accepts an optional sign and ASCII digits only.
  - Python's `int()` also accepts `_` between digits and non-ASCII decimal digits; those fields are not modelled.
  - sinfo never prints them in the NODES column.
- `Sinfo.Strip`, `Sinfo.Fields` and `Sinfo.SplitOn` model `str.strip()`, `str.split()` and `str.split('\n')` on the characters Python counts as whitespace.
  - Strings are sequences of code points.
- The `__main__` guard only calls the two collectors. `CostMetrics.RunOnce` stands for it, and the scheduling every ten minutes is not modelled.

Three behaviours of the script that are easy to misread:

- A line whose fourth field is a state word, such as `queue1 up 2 idle 2/0/0/2`, does not count 2 nodes.
  - `split()` puts "idle" at index 3, so `int()` raises at line 135 and the compute collector sends nothing.
  - `Sinfo.StateInFourthColumnAborts` proves this.
  - In sinfo's default column order the fourth field is NODES. `Sinfo.DefaultFormatCountsAllocatedNodes` shows that order.
- The instance price request filters on `capacitystatus = UnusedCapacityReservation` and `preInstalledSw = NA` as well as type, region, operating system and tenancy (`Pricing.Request`).
- A failed price lookup's 0.0 is memoised like any other result, because the decorator wraps the `try`. `Pricing.ZeroFallbackIsMemoised` proves this.
