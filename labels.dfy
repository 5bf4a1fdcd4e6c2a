/**
 * The label grammar parser of src/lib/labels.ts.
 *
 * A container's labels arrive as (key, value) pairs in the order in which
 * `Object.entries` yields them. Keys that start with the namespace prefix
 * are cut after the prefix and one more character and split on "."; the
 * first segment selects the global `enable` flag or a `service.<id>.<field>`
 * assignment. The parser is specified by a left fold of `ApplyLabel` over the
 * pairs; the method `ParseLabels` computes it with the loop of the source.
 *
 * The service map of the result is a Dafny `map` plus `order`, the ids in
 * the order in which they were first seen: a JavaScript object enumerates its
 * string keys in insertion order, and the resolver in src/lib/docker.ts walks
 * the services in that order.
 */
module Labels {
  import opened Wrappers
  import opened Text

  /** The label namespace. */
  const Prefix: string := "ca.wyattjoh.watchy"

  /** One (key, value) label entry. */
  type Label = (string, string)

  /** One service descriptor (`ServiceConfig`); `kind` is the source's `type`. */
  datatype ServiceConfig = ServiceConfig(
    id: string,
    containerID: string,
    kind: Option<string>,
    name: Option<string>,
    url: Option<string>,
    tags: Option<seq<string>>)

  /** The parser's result (`ContainerConfig`), with the insertion order of `service`. */
  datatype ContainerConfig = ContainerConfig(
    enable: bool,
    service: map<string, ServiceConfig>,
    order: seq<string>)

  /** The one error the parser raises: `Invalid enable value: <value>`. */
  datatype ParseError = InvalidEnableValue(value: string)

  type Parse = Result<ContainerConfig, ParseError>

  /** The configuration the parser starts from. */
  const Initial: ContainerConfig := ContainerConfig(false, map[], [])

  /** `isBooleanString`. */
  predicate IsBooleanString(value: string) {
    value == "true" || value == "false"
  }

  /** `key.slice(PREFIX.length + 1)`: drops the prefix and the character after it, whatever it is. */
  function Remainder(key: string): string {
    if |key| <= |Prefix| then "" else key[|Prefix| + 1..]
  }

  /** What a label key addresses once it has been cut and split. */
  datatype Target = Ignored | Enable | Field(serviceID: string, field: string)

  /**
   * The key grammar: a key outside the prefix is ignored; a first segment
   * "enable" addresses the flag whatever the number of segments; a key with
   * exactly the three non-empty-where-it-matters segments service, id, field
   * addresses one field of one service; everything else is ignored.
   */
  function TargetOf(key: string): (t: Target)
    ensures t.Field? ==> t.serviceID != "" && t.field != ""
  {
    if !StartsWith(key, Prefix) then Ignored
    else
      var parts := Split(Remainder(key), '.');
      if parts[0] == "enable" then Enable
      else if parts[0] == "service" && |parts| == 3 && parts[1] != "" && parts[2] != "" then
        Field(parts[1], parts[2])
      else Ignored
  }

  /** The descriptor created on first sight of a service id. */
  function NewService(serviceID: string): ServiceConfig {
    ServiceConfig(serviceID, serviceID, None, None, None, None)
  }

  /**
   * The `switch (field)` applied to one descriptor: each field changes only
   * under its own name, `containerID` never, a url only when it is a URL,
   * and an unknown field name changes nothing.
   */
  function SetField(d: ServiceConfig, field: string, value: string, isUrl: string -> bool): (r: ServiceConfig)
    ensures r.containerID == d.containerID
    ensures field != "id" ==> r.id == d.id
    ensures field != "name" ==> r.name == d.name
    ensures field != "type" ==> r.kind == d.kind
    ensures field != "url" || !isUrl(value) ==> r.url == d.url
    ensures field != "tags" ==> r.tags == d.tags
    ensures field !in {"id", "name", "type", "url", "tags"} ==> r == d
  {
    if field == "id" then d.(id := value)
    else if field == "name" then d.(name := Some(value))
    else if field == "type" then d.(kind := Some(value))
    else if field == "url" then (if isUrl(value) then d.(url := Some(value)) else d)
    else if field == "tags" then d.(tags := Some(Split(value, ',')))
    else d
  }

  /** The effect of one label on the configuration built so far; an error stays. */
  function ApplyLabel(r: Parse, entry: Label, isUrl: string -> bool): Parse {
    match r
    case Err(_) => r
    case Ok(c) =>
      match TargetOf(entry.0)
      case Ignored => r
      case Enable =>
        if IsBooleanString(entry.1) then Ok(c.(enable := entry.1 == "true"))
        else Err(InvalidEnableValue(entry.1))
      case Field(sid, f) =>
        var known := sid in c.service;
        var d := if known then c.service[sid] else NewService(sid);
        Ok(c.(service := c.service[sid := SetField(d, f, entry.1, isUrl)],
              order := if known then c.order else c.order + [sid]))
  }

  /** The labels applied left to right, starting from `Initial`. */
  function ApplyLabels(labels: seq<Label>, isUrl: string -> bool): Parse
    decreases |labels|
  {
    if labels == [] then Ok(Initial)
    else ApplyLabel(ApplyLabels(labels[..|labels| - 1], isUrl), labels[|labels| - 1], isUrl)
  }

  /** Appending one label applies it to the configuration built so far. */
  lemma ApplyLabelsSnoc(p: seq<Label>, e: Label, isUrl: string -> bool)
    ensures ApplyLabels(p + [e], isUrl) == ApplyLabel(ApplyLabels(p, isUrl), e, isUrl)
  {
    assert (p + [e])[..|p|] == p;
  }

  /**
   * The invariant every configuration the parser returns satisfies: service
   * ids are non-empty, each descriptor's `containerID` is its own map key, a
   * stored url is one the URL check accepted, and `order` lists every id
   * exactly once.
   */
  ghost predicate WellFormed(c: ContainerConfig, isUrl: string -> bool) {
    && (forall sid :: sid in c.service ==>
          && sid != ""
          && c.service[sid].containerID == sid
          && (c.service[sid].url.Some? ==> isUrl(c.service[sid].url.value)))
    && (forall sid :: sid in c.service <==> sid in c.order)
    && (forall i, j :: 0 <= i < j < |c.order| ==> c.order[i] != c.order[j])
  }

  /** `parseLabels` as a function of the label list. */
  function LabelsConfig(labels: seq<Label>, isUrl: string -> bool): (r: Parse)
    ensures r.Ok? ==> WellFormed(r.value, isUrl)
  {
    ApplyLabelsWellFormed(labels, isUrl);
    ApplyLabels(labels, isUrl)
  }

  lemma ApplyLabelWellFormed(r: Parse, entry: Label, isUrl: string -> bool)
    requires r.Ok? ==> WellFormed(r.value, isUrl)
    ensures ApplyLabel(r, entry, isUrl).Ok? ==> WellFormed(ApplyLabel(r, entry, isUrl).value, isUrl)
  {
    if r.Ok? && TargetOf(entry.0).Field? {
      var c := r.value;
      var sid := TargetOf(entry.0).serviceID;
      var c' := ApplyLabel(r, entry, isUrl).value;
      if sid !in c.service {
        assert sid !in c.order;
        assert c'.order == c.order + [sid];
        forall i, j | 0 <= i < j < |c'.order| ensures c'.order[i] != c'.order[j] {
          if j == |c.order| {
            assert c'.order[i] == c.order[i];
          }
        }
      }
    }
  }

  lemma {:induction false} ApplyLabelsWellFormed(labels: seq<Label>, isUrl: string -> bool)
    ensures ApplyLabels(labels, isUrl).Ok? ==> WellFormed(ApplyLabels(labels, isUrl).value, isUrl)
    decreases |labels|
  {
    if labels != [] {
      ApplyLabelsWellFormed(labels[..|labels| - 1], isUrl);
      ApplyLabelWellFormed(ApplyLabels(labels[..|labels| - 1], isUrl), labels[|labels| - 1], isUrl);
    }
  }

  /** Once the parser has thrown on a prefix of the labels, the rest does not matter. */
  lemma {:induction false} ErrorPersists(labels: seq<Label>, k: nat, isUrl: string -> bool)
    requires k <= |labels|
    requires ApplyLabels(labels[..k], isUrl).Err?
    ensures ApplyLabels(labels, isUrl) == ApplyLabels(labels[..k], isUrl)
    decreases |labels|
  {
    if k < |labels| {
      var init := labels[..|labels| - 1];
      assert init[..k] == labels[..k];
      ErrorPersists(init, k, isUrl);
    } else {
      assert labels[..k] == labels;
    }
  }

  /** The `switch` on the field name, on the descriptor found or created. */
  method AssignField(d: ServiceConfig, field: string, value: string, isUrl: string -> bool) returns (service: ServiceConfig)
    ensures service == SetField(d, field, value, isUrl)
  {
    service := d;
    if field == "id" {
      service := service.(id := value);
    } else if field == "name" {
      service := service.(name := Some(value));
    } else if field == "type" {
      service := service.(kind := Some(value));
    } else if field == "url" {
      if isUrl(value) {
        service := service.(url := Some(value));
      }
    } else if field == "tags" {
      service := service.(tags := Some(Split(value, ',')));
    }
  }

  /**
   * `parseLabels`: a `for` loop over the entries that updates `config` in
   * place and throws on an enable value other than "true" and "false".
   */
  method ParseLabels(labels: seq<Label>, isUrl: string -> bool) returns (r: Parse)
    ensures r == LabelsConfig(labels, isUrl)
  {
    var config := Initial;
    for i := 0 to |labels|
      invariant ApplyLabels(labels[..i], isUrl) == Ok(config)
    {
      assert labels[..i + 1][..i] == labels[..i];
      ghost var next := ApplyLabel(Ok(config), labels[i], isUrl);
      var (key, value) := labels[i];
      if !StartsWith(key, Prefix) {
        continue;
      }
      var parts := Split(Remainder(key), '.');
      if parts[0] == "enable" {
        if !IsBooleanString(value) {
          ErrorPersists(labels, i + 1, isUrl);
          return Err(InvalidEnableValue(value));
        }
        config := config.(enable := value == "true");
        continue;
      }
      if parts[0] == "service" && |parts| == 3 {
        var serviceID, field := parts[1], parts[2];
        if serviceID == "" || field == "" {
          continue;
        }
        assert TargetOf(key) == Field(serviceID, field);
        ghost var before := config;
        if serviceID !in config.service {
          config := config.(service := config.service[serviceID := NewService(serviceID)],
                            order := config.order + [serviceID]);
        }
        var service := AssignField(config.service[serviceID], field, value, isUrl);
        config := config.(service := config.service[serviceID := service]);
        assert labels[i] == (key, value);
        assert config.service == before.service[serviceID := service];
        assert next == Ok(before.(service := before.service[serviceID := service],
                                  order := if serviceID in before.service then before.order else before.order + [serviceID]));
        assert Ok(config) == next;
      }
    }
    assert labels[..|labels|] == labels;
    r := Ok(config);
  }
}
