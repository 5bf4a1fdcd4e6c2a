/**
 * The configuration helper of src/components/configure-container-button.tsx:
 * the form's validation rules and the labels its two templates emit, and
 * what the label parser makes of those labels.
 */
module Configure {
  import opened Wrappers
  import opened Text
  import opened Labels
  import opened LabelProperties

  /** The form's fields; `kind` is `type`. */
  datatype FormData = FormData(id: string, name: string, kind: string, url: Option<string>, tags: Option<string>)

  /** `z.string().min(2).max(50)`. */
  predicate ShortText(s: string) {
    2 <= |s| <= 50
  }

  /** `formSchema`: three short texts, a url that is a URL or empty, free tags. */
  predicate FormValid(data: FormData, isUrl: string -> bool)
    ensures FormValid(data, isUrl) ==> data.id != "" && data.name != "" && data.kind != ""
    ensures FormValid(data, isUrl) ==> 2 <= |data.id| <= 50 && 2 <= |data.name| <= 50 && 2 <= |data.kind| <= 50
    ensures FormValid(data, isUrl) && data.url.Some? && data.url.value != "" ==> isUrl(data.url.value)
  {
    && ShortText(data.id) && ShortText(data.name) && ShortText(data.kind)
    && (data.url.Some? ==> isUrl(data.url.value) || data.url.value == "")
  }

  /**
   * The form's rules: the empty defaults it opens with are refused, as are
   * texts of one or of 51 characters; a url must be a URL or empty, and
   * tags are free.
   */
  lemma FormRules(isUrl: string -> bool)
    ensures !FormValid(FormData("", "", "", Some(""), Some("")), isUrl)
    ensures !FormValid(FormData("p", "Plex", "plex", None, None), isUrl)
    ensures FormValid(FormData("pl", "Plex", "plex", Some(""), Some("a,,b")), isUrl)
    ensures forall u :: !isUrl(u) && u != "" ==> !FormValid(FormData("pl", "Plex", "plex", Some(u), None), isUrl)
    ensures forall s: string :: |s| == 51 ==> !ShortText(s)
  {
  }

  /** `value ?? ""`. */
  function OrEmpty(value: Option<string>): string {
    if value.Some? then value.value else ""
  }

  /** The key `ca.wyattjoh.watchy.service.<id>.<field>`. */
  function FieldKey(id: string, field: string): string {
    Prefix + ".service." + id + "." + field
  }

  const EnableLabel: Label := (Prefix + ".enable", "true")

  /** The five labels, keyed by `FieldKey`. */
  function TemplateLabels(data: FormData): seq<Label> {
    [EnableLabel,
     (FieldKey(data.id, "name"), data.name),
     (FieldKey(data.id, "type"), data.kind),
     (FieldKey(data.id, "url"), OrEmpty(data.url)),
     (FieldKey(data.id, "tags"), OrEmpty(data.tags))]
  }

  /** A label as the templates write it: `key=value`. */
  function LabelText(l: Label): string {
    l.0 + "=" + l.1
  }

  /**
   * How the container runtime reads a `--label` argument or an entry of a
   * compose `labels` list: the key runs up to the first "=" and the value is
   * the rest, empty when there is no "=".
   */
  function ReadLabel(text: string): (l: Label)
    ensures '=' !in l.0
    ensures '=' in text ==> text == l.0 + "=" + l.1
    ensures '=' !in text ==> l == (text, "")
    decreases |text|
  {
    if text == [] then ("", "")
    else if text[0] == '=' then ("", text[1..])
    else
      var r := ReadLabel(text[1..]);
      assert text == [text[0]] + text[1..];
      ([text[0]] + r.0, r.1)
  }

  /** Every label text read as the runtime reads it. */
  function ReadLabels(texts: seq<string>): (labels: seq<Label>)
    ensures |labels| == |texts|
    ensures forall k :: 0 <= k < |texts| ==> labels[k] == ReadLabel(texts[k])
  {
    seq(|texts|, k requires 0 <= k < |texts| => ReadLabel(texts[k]))
  }

  /** The runtime cuts a label text at its first "=", wherever later ones are. */
  lemma {:induction false} ReadCutsAtFirstEquals(key: string, rest: string)
    requires '=' !in key
    ensures ReadLabel(key + "=" + rest) == (key, rest)
    decreases |key|
  {
    var text := key + "=" + rest;
    if key == [] {
      assert text == ['='] + rest;
    } else {
      ReadCutsAtFirstEquals(key[1..], rest);
      assert text[1..] == key[1..] + "=" + rest;
      assert key == [key[0]] + key[1..];
    }
  }

  /** A label whose key has no "=" is read back as written. */
  lemma ReadLabelText(l: Label)
    requires '=' !in l.0
    ensures ReadLabel(LabelText(l)) == l
  {
    ReadCutsAtFirstEquals(l.0, l.1);
  }

  /** The texts of a list of labels. */
  function Texts(labels: seq<Label>): (texts: seq<string>)
    ensures |texts| == |labels|
    ensures forall k :: 0 <= k < |labels| ==> texts[k] == LabelText(labels[k])
  {
    seq(|labels|, k requires 0 <= k < |labels| => LabelText(labels[k]))
  }

  /** Texts whose keys have no "=" are read back as the labels they were written from. */
  lemma ReadTexts(labels: seq<Label>)
    requires forall k :: 0 <= k < |labels| ==> '=' !in labels[k].0
    ensures ReadLabels(Texts(labels)) == labels
  {
    forall k | 0 <= k < |labels| ensures ReadLabels(Texts(labels))[k] == labels[k] {
      ReadLabelText(labels[k]);
    }
  }

  /** The service entry of the compose file. */
  datatype ComposeService = ComposeService(serviceKey: string, image: string, containerName: string, labels: seq<string>)

  /** The `docker run` command line. */
  datatype RunCommand = RunCommand(containerName: string, labels: seq<string>, image: string)

  /**
   * The texts of the five template labels are the ones the source writes
   * out: the enable flag set to "true", then name, type, url and tags of the
   * service `data.id`, a missing url or tags as the empty value.
   */
  lemma TemplateTexts(data: FormData)
    ensures Texts(TemplateLabels(data)) == [
           "ca.wyattjoh.watchy.enable=true",
           "ca.wyattjoh.watchy.service." + data.id + ".name=" + data.name,
           "ca.wyattjoh.watchy.service." + data.id + ".type=" + data.kind,
           "ca.wyattjoh.watchy.service." + data.id + ".url=" + OrEmpty(data.url),
           "ca.wyattjoh.watchy.service." + data.id + ".tags=" + OrEmpty(data.tags)]
  {
    var l, texts := TemplateLabels(data), Texts(TemplateLabels(data));
    assert texts[0] == "ca.wyattjoh.watchy.enable=true";
    KeyShape(data.id, "name", ".name=", data.name);
    KeyShape(data.id, "type", ".type=", data.kind);
    KeyShape(data.id, "url", ".url=", OrEmpty(data.url));
    KeyShape(data.id, "tags", ".tags=", OrEmpty(data.tags));
    assert texts[1] == LabelText(l[1]) && texts[2] == LabelText(l[2]);
    assert texts[3] == LabelText(l[3]) && texts[4] == LabelText(l[4]);
  }

  /** `ComposeTemplate(data)`, as the fields of the text it renders; `labels` are the list entries. */
  function ComposeTemplate(data: FormData): (t: ComposeService)
    ensures t.serviceKey == data.id && t.image == data.kind && t.containerName == data.name
    ensures t.labels == [
        "ca.wyattjoh.watchy.enable=true",
        "ca.wyattjoh.watchy.service." + data.id + ".name=" + data.name,
        "ca.wyattjoh.watchy.service." + data.id + ".type=" + data.kind,
        "ca.wyattjoh.watchy.service." + data.id + ".url=" + OrEmpty(data.url),
        "ca.wyattjoh.watchy.service." + data.id + ".tags=" + OrEmpty(data.tags)]
  {
    TemplateTexts(data);
    ComposeService(data.id, data.kind, data.name, Texts(TemplateLabels(data)))
  }

  /** `RunTemplate(data)`, as the fields of the command it renders; `labels` are the `--label` arguments. */
  function RunTemplate(data: FormData): (t: RunCommand)
    ensures t.containerName == data.name && t.image == data.kind
    ensures t.labels == [
        "ca.wyattjoh.watchy.enable=true",
        "ca.wyattjoh.watchy.service." + data.id + ".name=" + data.name,
        "ca.wyattjoh.watchy.service." + data.id + ".type=" + data.kind,
        "ca.wyattjoh.watchy.service." + data.id + ".url=" + OrEmpty(data.url),
        "ca.wyattjoh.watchy.service." + data.id + ".tags=" + OrEmpty(data.tags)]
  {
    TemplateTexts(data);
    RunCommand(data.name, Texts(TemplateLabels(data)), data.kind)
  }

  /**
   * The two templates carry the same label texts, and a missing url or
   * tags leaves the label with an empty value.
   */
  lemma TemplatesAgree(data: FormData)
    ensures var labels := ComposeTemplate(data).labels;
      && labels == RunTemplate(data).labels
      && (data.url.None? ==> labels[3] == "ca.wyattjoh.watchy.service." + data.id + ".url=")
      && (data.tags.None? ==> labels[4] == "ca.wyattjoh.watchy.service." + data.id + ".tags=")
  {
    assert OrEmpty(None) == "";
  }

  lemma KeyShape(id: string, field: string, suffix: string, value: string)
    requires suffix == "." + field + "="
    ensures LabelText((FieldKey(id, field), value)) == "ca.wyattjoh.watchy.service." + id + suffix + value
  {
    assert Prefix + ".service." == "ca.wyattjoh.watchy.service.";
  }

  /** `'=' in s + t` exactly when it is in one of them. */
  lemma EqualsInConcat(s: string, t: string)
    ensures '=' in s + t <==> '=' in s || '=' in t
  {
    assert multiset(s + t) == multiset(s) + multiset(t);
  }

  /** A service key has an "=" exactly where its id has one. */
  lemma FieldKeyEquals(id: string, field: string)
    requires '=' !in field
    ensures '=' in FieldKey(id, field) <==> '=' in id
  {
    assert '=' !in Prefix + ".service.";
    EqualsInConcat(Prefix + ".service.", id);
    EqualsInConcat(Prefix + ".service." + id, ".");
    EqualsInConcat(Prefix + ".service." + id + ".", field);
  }

  /** For an id without "=", the runtime reads back exactly the five template labels. */
  lemma ReadTemplate(data: FormData)
    requires '=' !in data.id
    ensures ReadLabels(ComposeTemplate(data).labels) == TemplateLabels(data)
    ensures ReadLabels(RunTemplate(data).labels) == TemplateLabels(data)
  {
    assert '=' !in EnableLabel.0;
    FieldKeyEquals(data.id, "name");
    FieldKeyEquals(data.id, "type");
    FieldKeyEquals(data.id, "url");
    FieldKeyEquals(data.id, "tags");
    ReadTexts(TemplateLabels(data));
  }

  /** One label addressing field `f` of service `id`. */
  lemma FieldStep(c: ContainerConfig, e: Label, id: string, f: string, isUrl: string -> bool)
    requires TargetOf(e.0) == Field(id, f)
    ensures ApplyLabel(Ok(c), e, isUrl)
         == Ok(c.(service := c.service[id := SetField(if id in c.service then c.service[id] else NewService(id), f, e.1, isUrl)],
                  order := if id in c.service then c.order else c.order + [id]))
  {
  }

  /** A service key with an undotted id and field addresses that field. */
  lemma UndottedFieldKey(id: string, field: string)
    requires '.' !in id && id != "" && '.' !in field && field != ""
    ensures TargetOf(FieldKey(id, field)) == Field(id, field)
  {
    var key := FieldKey(id, field);
    assert key[..|Prefix|] == Prefix;
    assert Remainder(key) == "service" + ['.'] + (id + ['.'] + field);
    SplitAfterSegment("service", '.', id + ['.'] + field);
    SplitAfterSegment(id, '.', field);
    SplitWithoutSeparator(field, '.');
  }

  /** With a "." in the id, a service key has more than three segments and is ignored. */
  lemma DottedFieldKey(id: string, field: string)
    requires '.' in id && '.' !in field
    ensures TargetOf(FieldKey(id, field)) == Ignored
  {
    var key := FieldKey(id, field);
    var rest := id + ['.'] + field;
    assert key[..|Prefix|] == Prefix;
    assert Remainder(key) == "service" + ['.'] + rest;
    SplitAfterSegment("service", '.', rest);
    SplitCount(rest, '.');
    assert multiset(rest)['.'] == multiset(id)['.'] + 1 + multiset(field)['.'];
  }

  lemma EnableLabelTarget()
    ensures TargetOf(EnableLabel.0) == Enable
  {
    assert EnableLabel.0 == "ca.wyattjoh.watchy.enable";
    DottedEnableKey();
  }

  /** The descriptor the parser builds from the template's labels for an undotted id. */
  function Parsed(data: FormData, isUrl: string -> bool): ServiceConfig {
    var url := OrEmpty(data.url);
    ServiceConfig(data.id, data.id, Some(data.kind), Some(data.name),
                  if isUrl(url) then Some(url) else None, Some(Split(OrEmpty(data.tags), ',')))
  }

  /** A label addressing field `f` of service `id`, appended to labels that parse to `c`. */
  lemma FieldLabelStep(p: seq<Label>, e: Label, c: ContainerConfig, id: string, f: string, isUrl: string -> bool)
    requires ApplyLabels(p, isUrl) == Ok(c) && TargetOf(e.0) == Field(id, f)
    ensures ApplyLabels(p + [e], isUrl)
         == Ok(c.(service := c.service[id := SetField(if id in c.service then c.service[id] else NewService(id), f, e.1, isUrl)],
                  order := if id in c.service then c.order else c.order + [id]))
  {
    ApplyLabelsSnoc(p, e, isUrl);
    FieldStep(c, e, id, f, isUrl);
  }

  /** The configuration after the first `k` template labels, for `k` from 1 to 5. */
  function PartlyParsed(data: FormData, isUrl: string -> bool, k: nat): ContainerConfig
    requires 1 <= k <= 5
  {
    var d := Parsed(data, isUrl);
    if k == 1 then Initial.(enable := true)
    else if k == 2 then ContainerConfig(true, map[data.id := NewService(data.id).(name := d.name)], [data.id])
    else if k == 3 then ContainerConfig(true, map[data.id := NewService(data.id).(name := d.name, kind := d.kind)], [data.id])
    else if k == 4 then ContainerConfig(true, map[data.id := d.(tags := None)], [data.id])
    else ContainerConfig(true, map[data.id := d], [data.id])
  }

  /** Labels shaped like the template's: the enable flag, then the four fields in order. */
  ghost predicate TemplateShaped(data: FormData, l: seq<Label>) {
    && |l| == 5 && TargetOf(l[0].0) == Enable && l[0].1 == "true"
    && TargetOf(l[1].0) == Field(data.id, "name") && TargetOf(l[2].0) == Field(data.id, "type")
    && TargetOf(l[3].0) == Field(data.id, "url") && TargetOf(l[4].0) == Field(data.id, "tags")
    && l[1].1 == data.name && l[2].1 == data.kind
    && l[3].1 == OrEmpty(data.url) && l[4].1 == OrEmpty(data.tags)
  }

  lemma ShapeFirst(data: FormData, isUrl: string -> bool, l: seq<Label>)
    requires TemplateShaped(data, l)
    ensures ApplyLabels(l[..1], isUrl) == Ok(PartlyParsed(data, isUrl, 1))
  {
    ApplyLabelsSnoc([], l[0], isUrl);
    assert [] + [l[0]] == l[..1];
  }

  lemma ShapeName(data: FormData, isUrl: string -> bool, p: seq<Label>, e: Label)
    requires ApplyLabels(p, isUrl) == Ok(PartlyParsed(data, isUrl, 1))
    requires TargetOf(e.0) == Field(data.id, "name") && e.1 == data.name
    ensures ApplyLabels(p + [e], isUrl) == Ok(PartlyParsed(data, isUrl, 2))
  {
    var c := PartlyParsed(data, isUrl, 1);
    var d := NewService(data.id).(name := Some(data.name));
    FieldLabelStep(p, e, c, data.id, "name", isUrl);
    assert c.order + [data.id] == [data.id];
    assert c.service[data.id := d] == map[data.id := d];
  }

  lemma ShapeType(data: FormData, isUrl: string -> bool, p: seq<Label>, e: Label)
    requires ApplyLabels(p, isUrl) == Ok(PartlyParsed(data, isUrl, 2))
    requires TargetOf(e.0) == Field(data.id, "type") && e.1 == data.kind
    ensures ApplyLabels(p + [e], isUrl) == Ok(PartlyParsed(data, isUrl, 3))
  {
    var c, c' := PartlyParsed(data, isUrl, 2), PartlyParsed(data, isUrl, 3);
    FieldLabelStep(p, e, c, data.id, "type", isUrl);
    assert data.id in c.service;
    assert SetField(c.service[data.id], "type", e.1, isUrl) == c'.service[data.id];
    assert c.service[data.id := c'.service[data.id]] == c'.service;
  }

  lemma ShapeUrl(data: FormData, isUrl: string -> bool, p: seq<Label>, e: Label)
    requires ApplyLabels(p, isUrl) == Ok(PartlyParsed(data, isUrl, 3))
    requires TargetOf(e.0) == Field(data.id, "url") && e.1 == OrEmpty(data.url)
    ensures ApplyLabels(p + [e], isUrl) == Ok(PartlyParsed(data, isUrl, 4))
  {
    var c, c' := PartlyParsed(data, isUrl, 3), PartlyParsed(data, isUrl, 4);
    FieldLabelStep(p, e, c, data.id, "url", isUrl);
    assert data.id in c.service;
    assert SetField(c.service[data.id], "url", e.1, isUrl) == c'.service[data.id];
    assert c.service[data.id := c'.service[data.id]] == c'.service;
  }

  lemma ShapeTags(data: FormData, isUrl: string -> bool, p: seq<Label>, e: Label)
    requires ApplyLabels(p, isUrl) == Ok(PartlyParsed(data, isUrl, 4))
    requires TargetOf(e.0) == Field(data.id, "tags") && e.1 == OrEmpty(data.tags)
    ensures ApplyLabels(p + [e], isUrl) == Ok(PartlyParsed(data, isUrl, 5))
  {
    var c, c' := PartlyParsed(data, isUrl, 4), PartlyParsed(data, isUrl, 5);
    FieldLabelStep(p, e, c, data.id, "tags", isUrl);
    assert data.id in c.service;
    assert SetField(c.service[data.id], "tags", e.1, isUrl) == c'.service[data.id];
    assert c.service[data.id := c'.service[data.id]] == c'.service;
  }

  lemma TemplateIsShaped(data: FormData)
    requires '.' !in data.id && data.id != ""
    ensures TemplateShaped(data, TemplateLabels(data))
  {
    EnableLabelTarget();
    UndottedFieldKey(data.id, "name");
    UndottedFieldKey(data.id, "type");
    UndottedFieldKey(data.id, "url");
    UndottedFieldKey(data.id, "tags");
  }

  /** Five labels of the template's shape, whatever their keys look like. */
  lemma ParseTemplateShape(data: FormData, isUrl: string -> bool, l: seq<Label>)
    requires TemplateShaped(data, l)
    ensures ApplyLabels(l, isUrl) == Ok(ContainerConfig(true, map[data.id := Parsed(data, isUrl)], [data.id]))
  {
    ShapeFirst(data, isUrl, l);
    assert l[..1] + [l[1]] == l[..2] && l[..2] + [l[2]] == l[..3];
    assert l[..3] + [l[3]] == l[..4] && l[..4] + [l[4]] == l;
    ShapeName(data, isUrl, l[..1], l[1]);
    ShapeType(data, isUrl, l[..2], l[2]);
    ShapeUrl(data, isUrl, l[..3], l[3]);
    ShapeTags(data, isUrl, l[..4], l[4]);
  }

  /**
   * The generate-then-parse round trip: for an id without "." or "=", the
   * label texts of the compose file, read as the runtime reads them, parse
   * to an enabled container with the one service `data.id`, named and typed
   * as in the form, with the url kept exactly when it is a URL and the tags
   * split on ",".
   */
  lemma TemplateRoundTrip(data: FormData, isUrl: string -> bool)
    requires '.' !in data.id && '=' !in data.id && data.id != ""
    ensures LabelsConfig(ReadLabels(ComposeTemplate(data).labels), isUrl)
         == Ok(ContainerConfig(true, map[data.id := Parsed(data, isUrl)], [data.id]))
  {
    ReadTemplate(data);
    TemplateIsShaped(data);
    ParseTemplateShape(data, isUrl, TemplateLabels(data));
  }

  /** Every valid form whose id has no "." or "=" round-trips through the `docker run` labels. */
  lemma ValidFormRoundTrip(data: FormData, isUrl: string -> bool)
    requires FormValid(data, isUrl) && '.' !in data.id && '=' !in data.id
    ensures var r := LabelsConfig(ReadLabels(RunTemplate(data).labels), isUrl);
      && r.Ok? && r.value.enable && data.id in r.value.service
      && r.value.service[data.id].name == Some(data.name)
      && r.value.service[data.id].kind == Some(data.kind)
      && (data.url.Some? && data.url.value != "" ==> r.value.service[data.id].url == data.url)
  {
    ReadTemplate(data);
    TemplateIsShaped(data);
    ParseTemplateShape(data, isUrl, TemplateLabels(data));
  }

  /** With a "." in the id, none of the four service labels addresses anything. */
  lemma DottedServiceLabels(data: FormData)
    requires '.' in data.id
    ensures forall k :: 0 <= k < |TemplateLabels(data)[1..]| ==> TargetOf(TemplateLabels(data)[1..][k].0) == Ignored
  {
    DottedFieldKey(data.id, "name");
    DottedFieldKey(data.id, "type");
    DottedFieldKey(data.id, "url");
    DottedFieldKey(data.id, "tags");
  }

  /** `enable=true` followed by labels that address nothing. */
  lemma EnableThenIgnored(e: Label, q: seq<Label>, isUrl: string -> bool)
    requires TargetOf(e.0) == Enable && e.1 == "true"
    requires forall k :: 0 <= k < |q| ==> TargetOf(q[k].0) == Ignored
    ensures LabelsConfig([e] + q, isUrl) == Ok(ContainerConfig(true, map[], []))
  {
    IgnoredTail([e], q, isUrl);
    assert ApplyLabels([], isUrl) == Ok(Initial);
    ApplyLabelsSnoc([], e, isUrl);
    assert [] + [e] == [e];
  }

  /**
   * With a "." in an id without "=", every service label has too many
   * segments: the labels parse to an enabled container with no services.
   */
  lemma DottedIdLosesServices(data: FormData, isUrl: string -> bool)
    requires '.' in data.id && '=' !in data.id
    ensures LabelsConfig(ReadLabels(ComposeTemplate(data).labels), isUrl) == Ok(ContainerConfig(true, map[], []))
  {
    ReadTemplate(data);
    DottedTemplateParse(data, isUrl);
  }

  lemma DottedTemplateParse(data: FormData, isUrl: string -> bool)
    requires '.' in data.id
    ensures LabelsConfig(TemplateLabels(data), isUrl) == Ok(ContainerConfig(true, map[], []))
  {
    var l := TemplateLabels(data);
    EnableLabelTarget();
    DottedServiceLabels(data);
    EnableThenIgnored(l[0], l[1..], isUrl);
    assert [l[0]] + l[1..] == l;
  }

  /** The key `ca.wyattjoh.watchy.service.<a>` has two segments and addresses nothing. */
  lemma ShortServiceKey(a: string)
    requires '.' !in a
    ensures TargetOf(Prefix + ".service." + a) == Ignored
  {
    var key := Prefix + ".service." + a;
    assert key[..|Prefix|] == Prefix;
    assert Remainder(key) == "service" + ['.'] + a;
    SplitAfterSegment("service", '.', a);
    SplitWithoutSeparator(a, '.');
  }

  /** The runtime cuts a service label whose id is `a=b` right after `a`. */
  lemma CutServiceLabel(a: string, b: string, field: string, value: string)
    requires '=' !in a
    ensures ReadLabel(LabelText((FieldKey(a + "=" + b, field), value)))
         == (Prefix + ".service." + a, b + "." + field + "=" + value)
  {
    var head := Prefix + ".service." + a;
    assert '=' !in Prefix + ".service.";
    EqualsInConcat(Prefix + ".service.", a);
    assert LabelText((FieldKey(a + "=" + b, field), value)) == head + "=" + (b + "." + field + "=" + value);
    ReadCutsAtFirstEquals(head, b + "." + field + "=" + value);
  }

  /**
   * With an "=" in the id and no "." before it, the runtime reads the
   * enable label as written and cuts every service label inside the id,
   * storing keys that address nothing.
   */
  lemma ReadCutTemplate(data: FormData, a: string, b: string)
    requires data.id == a + "=" + b && '=' !in a && '.' !in a
    ensures var l := ReadLabels(Texts(TemplateLabels(data)));
      && |l| == 5 && l[0] == EnableLabel
      && forall k :: 1 <= k < 5 ==> TargetOf(l[k].0) == Ignored
  {
    var t := TemplateLabels(data);
    var l := ReadLabels(Texts(t));
    EnableLabelRead();
    assert l[0] == ReadLabel(LabelText(EnableLabel));
    forall k | 1 <= k < 5 ensures TargetOf(l[k].0) == Ignored {
      ReadCutField(data, a, b, k);
    }
  }

  /** Service label number `k` of the template, read back, addresses nothing. */
  lemma ReadCutField(data: FormData, a: string, b: string, k: nat)
    requires data.id == a + "=" + b && '=' !in a && '.' !in a && 1 <= k < 5
    ensures TargetOf(ReadLabels(Texts(TemplateLabels(data)))[k].0) == Ignored
  {
    var t := TemplateLabels(data);
    var field := if k == 1 then "name" else if k == 2 then "type" else if k == 3 then "url" else "tags";
    assert t[k] == (FieldKey(a + "=" + b, field), t[k].1);
    CutLabelIgnored(a, b, field, t[k].1);
  }

  /** The enable label is read back as written. */
  lemma EnableLabelRead()
    ensures ReadLabel(LabelText(EnableLabel)) == EnableLabel
  {
    assert '=' !in EnableLabel.0;
    ReadLabelText(EnableLabel);
  }

  /** A service label whose id is `a=b`, cut after `a`, addresses nothing. */
  lemma CutLabelIgnored(a: string, b: string, field: string, value: string)
    requires '=' !in a && '.' !in a
    ensures TargetOf(ReadLabel(LabelText((FieldKey(a + "=" + b, field), value))).0) == Ignored
  {
    CutServiceLabel(a, b, field, value);
    ShortServiceKey(a);
  }

  /**
   * With an "=" in the id and no "." before it, the labels parse to an
   * enabled container with no services.
   */
  lemma EqualsInIdLosesServices(data: FormData, a: string, b: string, isUrl: string -> bool)
    requires data.id == a + "=" + b && '=' !in a && '.' !in a
    ensures LabelsConfig(ReadLabels(ComposeTemplate(data).labels), isUrl) == Ok(ContainerConfig(true, map[], []))
  {
    CutTemplateParse(data, a, b, isUrl);
    assert ComposeTemplate(data).labels == Texts(TemplateLabels(data));
  }

  lemma CutTemplateParse(data: FormData, a: string, b: string, isUrl: string -> bool)
    requires data.id == a + "=" + b && '=' !in a && '.' !in a
    ensures LabelsConfig(ReadLabels(Texts(TemplateLabels(data))), isUrl) == Ok(ContainerConfig(true, map[], []))
  {
    var l := ReadLabels(Texts(TemplateLabels(data)));
    ReadCutTemplate(data, a, b);
    EnableLabelTarget();
    assert forall k :: 0 <= k < |l[1..]| ==> l[1..][k] == l[k + 1];
    EnableThenIgnored(l[0], l[1..], isUrl);
    assert [l[0]] + l[1..] == l;
  }
}
