/**
 * The service resolution rules of src/lib/docker.ts.
 *
 * The requests to the Docker socket are not modelled: the container list
 * is an input, and `inspect` gives the outcome of each inspect request,
 * numbered from 0 within the resolution of one container. `localeCompare` on service names is the
 * relation `le`; the sorting lemmas assume it is a total preorder.
 */
module Docker {
  import opened Wrappers
  import opened Labels
  import opened ServiceTypes

  /** `Container`, one entry of the runtime's container list; `labels` in enumeration order. */
  datatype Container = Container(
    id: string,
    image: string,
    created: int,
    names: seq<string>,
    status: string,
    labels: seq<Label>)

  /** The outcome of one request to the runtime: its body, or a thrown transport error. */
  datatype Fetch<T> = Fetched(value: T) | TransportFailure

  /** What resolving a container can throw: the parser's error or a failed request. */
  datatype ResolveError = LabelError(error: ParseError) | TransportError

  type Services = Result<seq<ContainerService>, ResolveError>

  /**
   * `inspectContainer`: `inspect(id, n)` is the outcome of the `n`-th request
   * (from 0) made while resolving the container `id`. Each request gets its
   * own answer, so one container's records can see different states and a
   * later request can fail after earlier ones succeeded.
   */
  type Inspector = (string, nat) -> Fetch<ContainerInfo>

  /** `localeCompare(a, b) <= 0`. */
  type NameOrder = (string, string) -> bool

  /** The truthiness test `service.name`: present and not the empty string. */
  predicate HasName(d: ServiceConfig) {
    d.name.Some? && d.name.value != ""
  }

  /** The `Log.map(...)` that copies each health-check entry field by field. */
  function CopyHealthLogs(log: seq<HealthLogEntry>): (r: seq<ContainerHealthLog>)
    ensures |r| == |log|
    ensures forall i :: 0 <= i < |log| ==>
      && r[i].start == log[i].start && r[i].end == log[i].end
      && r[i].exitCode == log[i].exitCode && r[i].output == log[i].output
  {
    if log == [] then []
    else [ContainerHealthLog(log[0].start, log[0].end, log[0].exitCode, log[0].output)] + CopyHealthLogs(log[1..])
  }

  /** `info.State?.Health?.Log.map(...)`. */
  function HealthLogs(info: ContainerInfo): (r: Option<seq<ContainerHealthLog>>)
    ensures r.None? <==> info.state.None? || info.state.value.health.None?
    ensures r.Some? ==>
      var log := info.state.value.health.value.log;
      && |r.value| == |log|
      && forall i :: 0 <= i < |log| ==>
           && r.value[i].start == log[i].start && r.value[i].end == log[i].end
           && r.value[i].exitCode == log[i].exitCode && r.value[i].output == log[i].output
  {
    if info.state.Some? && info.state.value.health.Some? then
      Some(CopyHealthLogs(info.state.value.health.value.log))
    else None
  }

  /** The record pushed for one named descriptor. */
  function ServiceRecord(c: Container, d: ServiceConfig, info: ContainerInfo): (r: ContainerService)
    requires HasName(d)
    ensures r.containerID == c.id && r.statusText == c.status && r.createdAt == info.created
    ensures r.id == d.id && r.kind == d.kind && r.url == d.url && r.tags == d.tags
    ensures r.name == d.name.value && r.name != ""
    ensures r.status == (if info.state.Some? then Some(info.state.value.status) else None)
    ensures r.health == (if info.state.Some? && info.state.value.health.Some?
                         then Some(info.state.value.health.value.status) else None)
    ensures r.healthLogs.Some? <==> r.health.Some?
  {
    ContainerService(
      c.id,
      d.id,
      d.kind,
      d.name.value,
      d.url,
      if info.state.Some? then Some(info.state.value.status) else None,
      if info.state.Some? && info.state.value.health.Some? then Some(info.state.value.health.value.status) else None,
      HealthLogs(info),
      c.status,
      info.created,
      d.tags)
  }

  /**
   * The loop over the descriptors, with `acc` the records pushed so far: a
   * descriptor without a name makes the whole container yield nothing, and
   * inspect is requested afresh for every descriptor: request number
   * `|acc|`, one per record pushed so far.
   */
  function ResolveServices(c: Container, svc: map<string, ServiceConfig>, ids: seq<string>,
                           inspect: Inspector, acc: seq<ContainerService>): Services
    requires forall i :: 0 <= i < |ids| ==> ids[i] in svc
    decreases |ids|
  {
    if ids == [] then Ok(acc)
    else
      var d := svc[ids[0]];
      if !HasName(d) then Ok([])
      else
        match inspect(c.id, |acc|)
        case TransportFailure => Err(TransportError)
        case Fetched(info) => ResolveServices(c, svc, ids[1..], inspect, acc + [ServiceRecord(c, d, info)])
  }

  /** `listContainerServices` as a function of the container. */
  function ContainerServices(c: Container, inspect: Inspector, isUrl: string -> bool): Services {
    match LabelsConfig(c.labels, isUrl)
    case Err(e) => Err(LabelError(e))
    case Ok(cfg) =>
      if !cfg.enable then Ok([])
      else ResolveServices(c, cfg.service, cfg.order, inspect, [])
  }

  /**
   * `listContainerServices`: parses the labels, then pushes one record per
   * descriptor in map order. `inspections` counts the inspect requests.
   */
  method ListContainerServices(container: Container, inspect: Inspector, isUrl: string -> bool)
    returns (r: Services, inspections: nat)
    ensures r == ContainerServices(container, inspect, isUrl)
    ensures r.Ok? && r.value != [] ==> inspections == |r.value|
  {
    inspections := 0;
    var parsed := ParseLabels(container.labels, isUrl);
    if parsed.Err? {
      return Err(LabelError(parsed.error)), inspections;
    }
    var labels := parsed.value;
    if !labels.enable {
      return Ok([]), inspections;
    }
    var services: seq<ContainerService> := [];
    for i := 0 to |labels.order|
      invariant ResolveServices(container, labels.service, labels.order[i..], inspect, services)
             == ResolveServices(container, labels.service, labels.order, inspect, [])
      invariant |services| == i == inspections
    {
      assert labels.order[i..][1..] == labels.order[i + 1..];
      var id := labels.order[i];
      var service := labels.service[id];
      if !HasName(service) {
        return Ok([]), inspections;
      }
      var info := inspect(container.id, inspections);
      inspections := inspections + 1;
      if info.TransportFailure? {
        return Err(TransportError), inspections;
      }
      services := services + [ServiceRecord(container, service, info.value)];
    }
    r := Ok(services);
  }

  lemma {:induction false} NamelessVoidsResolve(c: Container, svc: map<string, ServiceConfig>, ids: seq<string>,
                                                inspect: Inspector, acc: seq<ContainerService>, k: nat)
    requires forall i :: 0 <= i < |ids| ==> ids[i] in svc
    requires k < |ids| && !HasName(svc[ids[k]])
    requires forall j :: |acc| <= j < |acc| + k ==> inspect(c.id, j).Fetched?
    ensures ResolveServices(c, svc, ids, inspect, acc) == Ok([])
    decreases |ids|
  {
    if HasName(svc[ids[0]]) {
      assert ids[1..][k - 1] == ids[k];
      var acc' := acc + [ServiceRecord(c, svc[ids[0]], inspect(c.id, |acc|).value)];
      NamelessVoidsResolve(c, svc, ids[1..], inspect, acc', k - 1);
    }
  }

  lemma {:induction false} NamedResolve(c: Container, svc: map<string, ServiceConfig>, ids: seq<string>,
                                        inspect: Inspector, acc: seq<ContainerService>)
    requires forall i :: 0 <= i < |ids| ==> ids[i] in svc && HasName(svc[ids[i]])
    requires forall j :: |acc| <= j < |acc| + |ids| ==> inspect(c.id, j).Fetched?
    ensures var r := ResolveServices(c, svc, ids, inspect, acc);
      && r.Ok? && |r.value| == |acc| + |ids| && r.value[..|acc|] == acc
      && forall k :: 0 <= k < |ids| ==> r.value[|acc| + k] == ServiceRecord(c, svc[ids[k]], inspect(c.id, |acc| + k).value)
    decreases |ids|
  {
    if ids != [] {
      var acc' := acc + [ServiceRecord(c, svc[ids[0]], inspect(c.id, |acc|).value)];
      NamedResolve(c, svc, ids[1..], inspect, acc');
      var r := ResolveServices(c, svc, ids[1..], inspect, acc').value;
      assert r[..|acc'|] == acc';
      assert r[..|acc|] == acc'[..|acc|];
      forall k | 0 <= k < |ids| ensures r[|acc| + k] == ServiceRecord(c, svc[ids[k]], inspect(c.id, |acc| + k).value) {
        if k == 0 {
          assert r[|acc|] == acc'[|acc|];
        } else {
          assert ids[1..][k - 1] == ids[k];
          assert |acc'| + (k - 1) == |acc| + k;
        }
      }
    }
  }

  /** A container whose labels throw contributes that error. */
  lemma InvalidLabelsSurface(c: Container, inspect: Inspector, isUrl: string -> bool)
    requires LabelsConfig(c.labels, isUrl).Err?
    ensures ContainerServices(c, inspect, isUrl) == Err(LabelError(LabelsConfig(c.labels, isUrl).error))
  {
  }

  /** A container whose labels do not enable it contributes no services. */
  lemma DisabledContributesNothing(c: Container, inspect: Inspector, isUrl: string -> bool)
    requires LabelsConfig(c.labels, isUrl).Ok? && !LabelsConfig(c.labels, isUrl).value.enable
    ensures ContainerServices(c, inspect, isUrl) == Ok([])
  {
  }

  /**
   * One descriptor without a name voids the whole container, however many
   * other descriptors are complete, when the requests made before it (one
   * per earlier descriptor) are answered; the later requests are never made,
   * so their answers do not matter.
   */
  lemma NamelessVoidsContainer(c: Container, inspect: Inspector, isUrl: string -> bool, sid: string, k: nat)
    requires LabelsConfig(c.labels, isUrl).Ok? && LabelsConfig(c.labels, isUrl).value.enable
    requires k < |LabelsConfig(c.labels, isUrl).value.order| && LabelsConfig(c.labels, isUrl).value.order[k] == sid
    requires !HasName(LabelsConfig(c.labels, isUrl).value.service[sid])
    requires forall j :: 0 <= j < k ==> inspect(c.id, j).Fetched?
    ensures ContainerServices(c, inspect, isUrl) == Ok([])
  {
    var cfg := LabelsConfig(c.labels, isUrl).value;
    NamelessVoidsResolve(c, cfg.service, cfg.order, inspect, [], k);
  }

  /**
   * With every descriptor named and every request answered, there is one
   * record per descriptor, in map order, carrying the descriptor's `id`, the
   * container's id and status text, and the state its own request returned.
   */
  lemma OneRecordPerDescriptor(c: Container, inspect: Inspector, isUrl: string -> bool)
    requires LabelsConfig(c.labels, isUrl).Ok? && LabelsConfig(c.labels, isUrl).value.enable
    requires forall sid :: sid in LabelsConfig(c.labels, isUrl).value.service ==>
      HasName(LabelsConfig(c.labels, isUrl).value.service[sid])
    requires forall j :: 0 <= j < |LabelsConfig(c.labels, isUrl).value.order| ==> inspect(c.id, j).Fetched?
    ensures var cfg, r := LabelsConfig(c.labels, isUrl).value, ContainerServices(c, inspect, isUrl);
      && r.Ok? && |r.value| == |cfg.order|
      && forall k :: 0 <= k < |cfg.order| ==>
           var d, info := cfg.service[cfg.order[k]], inspect(c.id, k).value;
           && r.value[k] == ServiceRecord(c, d, info)
           && r.value[k].id == d.id && r.value[k].containerID == c.id && r.value[k].statusText == c.status
           && r.value[k].name == d.name.value && r.value[k].healthLogs == HealthLogs(info)
  {
    var cfg := LabelsConfig(c.labels, isUrl).value;
    NamedResolve(c, cfg.service, cfg.order, inspect, []);
  }

  /** A failing first inspect request surfaces as soon as the first descriptor is named. */
  lemma InspectFailureSurfaces(c: Container, inspect: Inspector, isUrl: string -> bool)
    requires LabelsConfig(c.labels, isUrl).Ok? && LabelsConfig(c.labels, isUrl).value.enable
    requires |LabelsConfig(c.labels, isUrl).value.order| > 0
    requires inspect(c.id, 0).TransportFailure?
    ensures var cfg := LabelsConfig(c.labels, isUrl).value;
      ContainerServices(c, inspect, isUrl) == if HasName(cfg.service[cfg.order[0]]) then Err(TransportError) else Ok([])
  {
  }

  lemma {:induction false} FailureResolve(c: Container, svc: map<string, ServiceConfig>, ids: seq<string>,
                                          inspect: Inspector, acc: seq<ContainerService>, k: nat)
    requires forall i :: 0 <= i < |ids| ==> ids[i] in svc
    requires k < |ids| && forall i :: 0 <= i <= k ==> HasName(svc[ids[i]])
    requires forall j :: |acc| <= j < |acc| + k ==> inspect(c.id, j).Fetched?
    requires inspect(c.id, |acc| + k).TransportFailure?
    ensures ResolveServices(c, svc, ids, inspect, acc) == Err(TransportError)
    decreases |ids|
  {
    if k > 0 {
      var acc' := acc + [ServiceRecord(c, svc[ids[0]], inspect(c.id, |acc|).value)];
      forall i | 0 <= i <= k - 1 ensures HasName(svc[ids[1..][i]]) {
        assert ids[1..][i] == ids[i + 1];
      }
      assert |acc'| + (k - 1) == |acc| + k;
      FailureResolve(c, svc, ids[1..], inspect, acc', k - 1);
    } else {
      assert |acc| + k == |acc|;
    }
  }

  /**
   * A request that fails after the earlier ones were answered still makes
   * the resolution throw, and the records already built are lost.
   */
  lemma LaterFailureSurfaces(c: Container, inspect: Inspector, isUrl: string -> bool, k: nat)
    requires LabelsConfig(c.labels, isUrl).Ok? && LabelsConfig(c.labels, isUrl).value.enable
    requires k < |LabelsConfig(c.labels, isUrl).value.order|
    requires forall i :: 0 <= i <= k ==>
      HasName(LabelsConfig(c.labels, isUrl).value.service[LabelsConfig(c.labels, isUrl).value.order[i]])
    requires forall j :: 0 <= j < k ==> inspect(c.id, j).Fetched?
    requires inspect(c.id, k).TransportFailure?
    ensures ContainerServices(c, inspect, isUrl) == Err(TransportError)
  {
    var cfg := LabelsConfig(c.labels, isUrl).value;
    FailureResolve(c, cfg.service, cfg.order, inspect, [], k);
  }

  /** `localeCompare` as a relation: every two names compare, and consistently. */
  ghost predicate IsTotalPreorder(le: NameOrder) {
    && (forall a, b :: le(a, b) || le(b, a))
    && (forall a, b, c :: le(a, b) && le(b, c) ==> le(a, c))
  }

  ghost predicate SortedByName(s: seq<ContainerService>, le: NameOrder) {
    forall i, j :: 0 <= i < j < |s| ==> le(s[i].name, s[j].name)
  }

  /** Inserts `x` before the first record it does not come after. */
  function InsertByName(x: ContainerService, s: seq<ContainerService>, le: NameOrder): (r: seq<ContainerService>)
    ensures multiset(r) == multiset(s) + multiset{x}
    decreases |s|
  {
    if s == [] then [x]
    else if le(x.name, s[0].name) then [x] + s
    else
      assert s == [s[0]] + s[1..];
      [s[0]] + InsertByName(x, s[1..], le)
  }

  /** `services.sort((a, b) => a.name.localeCompare(b.name))`, a stable sort. */
  function SortByName(s: seq<ContainerService>, le: NameOrder): (r: seq<ContainerService>)
    ensures multiset(r) == multiset(s)
    decreases |s|
  {
    if s == [] then []
    else
      assert s == [s[0]] + s[1..];
      InsertByName(s[0], SortByName(s[1..], le), le)
  }

  lemma {:induction false} InsertKeepsSorted(x: ContainerService, s: seq<ContainerService>, le: NameOrder)
    requires IsTotalPreorder(le) && SortedByName(s, le)
    ensures SortedByName(InsertByName(x, s, le), le)
    decreases |s|
  {
    if s != [] && !le(x.name, s[0].name) {
      var tail := InsertByName(x, s[1..], le);
      InsertKeepsSorted(x, s[1..], le);
      var r := [s[0]] + tail;
      forall j | 0 < j < |r| ensures le(s[0].name, r[j].name) {
        var y := r[j];
        assert y == tail[j - 1];
        assert y in multiset(tail);
        if y != x {
          assert y in multiset(s[1..]);
          var k :| 0 <= k < |s[1..]| && s[1..][k] == y;
          assert s[k + 1] == y;
        }
      }
    }
  }

  lemma {:induction false} SortByNameSorts(s: seq<ContainerService>, le: NameOrder)
    requires IsTotalPreorder(le)
    ensures SortedByName(SortByName(s, le), le)
    decreases |s|
  {
    if s != [] {
      SortByNameSorts(s[1..], le);
      InsertKeepsSorted(s[0], SortByName(s[1..], le), le);
    }
  }

  /** The per-container results concatenated in container order; the first error wins. */
  function CollectServices(containers: seq<Container>, inspect: Inspector, isUrl: string -> bool): Services
    decreases |containers|
  {
    if containers == [] then Ok([])
    else
      match ContainerServices(containers[0], inspect, isUrl)
      case Err(e) => Err(e)
      case Ok(s) =>
        match CollectServices(containers[1..], inspect, isUrl)
        case Err(e) => Err(e)
        case Ok(t) => Ok(s + t)
  }

  /**
   * `listContainersServices` as a function: the concatenation sorted by name,
   * a permutation of it, and sorted whenever the name order is a total preorder.
   */
  function ContainersServices(containers: seq<Container>, inspect: Inspector, isUrl: string -> bool,
                              le: NameOrder): (r: Services)
    ensures r.Err? <==> CollectServices(containers, inspect, isUrl).Err?
    ensures r.Err? ==> r.error == CollectServices(containers, inspect, isUrl).error
    ensures r.Ok? ==> multiset(r.value) == multiset(CollectServices(containers, inspect, isUrl).value)
    ensures r.Ok? && IsTotalPreorder(le) ==> SortedByName(r.value, le)
  {
    match CollectServices(containers, inspect, isUrl)
    case Err(e) => Err(e)
    case Ok(s) =>
      SortedUnderPreorder(s, le);
      Ok(SortByName(s, le))
  }

  lemma SortedUnderPreorder(s: seq<ContainerService>, le: NameOrder)
    ensures IsTotalPreorder(le) ==> SortedByName(SortByName(s, le), le)
  {
    if IsTotalPreorder(le) {
      SortByNameSorts(s, le);
    }
  }

  function Prepend(acc: seq<ContainerService>, r: Services): Services {
    match r
    case Err(e) => Err(e)
    case Ok(t) => Ok(acc + t)
  }

  lemma SortedCollection(containers: seq<Container>, inspect: Inspector, isUrl: string -> bool, le: NameOrder,
                         r: Services)
    requires CollectServices(containers, inspect, isUrl) == r
    ensures ContainersServices(containers, inspect, isUrl, le) == if r.Ok? then Ok(SortByName(r.value, le)) else r
  {
  }

  lemma PrependNothing(r: Services)
    ensures Prepend([], r) == r
  {
    if r.Ok? {
      assert [] + r.value == r.value;
    }
  }

  /** A container that fails stops the collection with its error. */
  lemma CollectStops(acc: seq<ContainerService>, containers: seq<Container>, inspect: Inspector, isUrl: string -> bool)
    requires containers != [] && ContainerServices(containers[0], inspect, isUrl).Err?
    ensures Prepend(acc, CollectServices(containers, inspect, isUrl)) == ContainerServices(containers[0], inspect, isUrl)
  {
  }

  /** A container that resolves has its records prepended to the rest. */
  lemma CollectContinues(acc: seq<ContainerService>, containers: seq<Container>, inspect: Inspector, isUrl: string -> bool)
    requires containers != [] && ContainerServices(containers[0], inspect, isUrl).Ok?
    ensures Prepend(acc, CollectServices(containers, inspect, isUrl))
         == Prepend(acc + ContainerServices(containers[0], inspect, isUrl).value, CollectServices(containers[1..], inspect, isUrl))
  {
    var s := ContainerServices(containers[0], inspect, isUrl).value;
    var rest := CollectServices(containers[1..], inspect, isUrl);
    assert CollectServices(containers, inspect, isUrl) == Prepend(s, rest);
    PrependTwice(acc, s, rest);
  }

  lemma PrependTwice(acc: seq<ContainerService>, s: seq<ContainerService>, rest: Services)
    ensures Prepend(acc, Prepend(s, rest)) == Prepend(acc + s, rest)
  {
    if rest.Ok? {
      assert acc + (s + rest.value) == (acc + s) + rest.value;
    }
  }

  /**
   * `listContainersServices`: pushes every container's records in turn, then
   * sorts them by name.
   */
  method ListContainersServices(containers: seq<Container>, inspect: Inspector, isUrl: string -> bool, le: NameOrder)
    returns (r: Services)
    ensures r == ContainersServices(containers, inspect, isUrl, le)
  {
    var services: seq<ContainerService> := [];
    PrependNothing(CollectServices(containers, inspect, isUrl));
    assert containers[0..] == containers;
    for i := 0 to |containers|
      invariant CollectServices(containers, inspect, isUrl) == Prepend(services, CollectServices(containers[i..], inspect, isUrl))
    {
      ghost var rest := containers[i..];
      assert rest[0] == containers[i] && rest[1..] == containers[i + 1..];
      var service, _ := ListContainerServices(containers[i], inspect, isUrl);
      if service.Err? {
        CollectStops(services, rest, inspect, isUrl);
        SortedCollection(containers, inspect, isUrl, le, service);
        return Err(service.error);
      }
      CollectContinues(services, rest, inspect, isUrl);
      services := services + service.value;
    }
    assert containers[|containers|..] == [];
    assert CollectServices([], inspect, isUrl) == Ok([]);
    assert services + [] == services;
    SortedCollection(containers, inspect, isUrl, le, Ok(services));
    r := Ok(SortByName(services, le));
  }

  /**
   * `listServices`: any error while listing or resolving is swallowed into
   * an empty list; otherwise the services of all enabled containers, sorted.
   */
  function ListServices(listed: Fetch<seq<Container>>, inspect: Inspector, isUrl: string -> bool, le: NameOrder)
    : (r: seq<ContainerService>)
    ensures listed.TransportFailure? ==> r == []
    ensures listed.Fetched? && CollectServices(listed.value, inspect, isUrl).Err? ==> r == []
    ensures listed.Fetched? && CollectServices(listed.value, inspect, isUrl).Ok? ==>
      multiset(r) == multiset(CollectServices(listed.value, inspect, isUrl).value)
    ensures IsTotalPreorder(le) ==> SortedByName(r, le)
  {
    match listed
    case TransportFailure => []
    case Fetched(containers) =>
      match ContainersServices(containers, inspect, isUrl, le)
      case Err(_) => []
      case Ok(s) => s
  }

  /** `k` is the index of the first record with this id. */
  predicate IsFirstWithId(s: seq<ContainerService>, id: string, k: int) {
    0 <= k < |s| && s[k].id == id && forall j :: 0 <= j < k ==> s[j].id != id
  }

  /** `services.find((service) => service.id === id)`, as an index. */
  function FindById(s: seq<ContainerService>, id: string): (k: Option<nat>)
    ensures k.Some? ==> IsFirstWithId(s, id, k.value)
    ensures k.None? ==> forall j :: 0 <= j < |s| ==> s[j].id != id
    decreases |s|
  {
    if s == [] then None
    else if s[0].id == id then Some(0)
    else
      match FindById(s[1..], id)
      case None => None
      case Some(k) => Some(k + 1)
  }

  /**
   * `getService`: `found` is the answer to the filtered list request. Zero or
   * several containers give null; otherwise the first record of the one
   * container whose `id` is the requested id, or null. Errors are not caught.
   */
  function GetService(id: string, found: Fetch<seq<Container>>, inspect: Inspector, isUrl: string -> bool)
    : (r: Result<Option<ContainerService>, ResolveError>)
    ensures found.TransportFailure? ==> r == Err(TransportError)
    ensures found.Fetched? && |found.value| != 1 ==> r == Ok(None)
    ensures found.Fetched? && |found.value| == 1 ==>
      var resolved := ContainerServices(found.value[0], inspect, isUrl);
      && (resolved.Err? ==> r == Err(resolved.error))
      && (resolved.Ok? ==> r.Ok? && (r.value.Some? <==> exists k :: 0 <= k < |resolved.value| && resolved.value[k].id == id))
      && (resolved.Ok? && r.Ok? && r.value.Some? ==>
            exists k :: IsFirstWithId(resolved.value, id, k) && r.value.value == resolved.value[k])
  {
    match found
    case TransportFailure => Err(TransportError)
    case Fetched(containers) =>
      if |containers| == 0 then Ok(None)
      else if |containers| > 1 then Ok(None)
      else
        match ContainerServices(containers[0], inspect, isUrl)
        case Err(e) => Err(e)
        case Ok(services) =>
          if |services| == 0 then Ok(None)
          else
            match FindById(services, id)
            case None => Ok(None)
            case Some(k) => Ok(Some(services[k]))
  }
}
