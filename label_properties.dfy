/**
 * What parseLabels in src/lib/labels.ts promises, stated against the fold
 * `Labels.LabelsConfig`: the failure condition, an order-free reference
 * description of the result ("the last label addressing a field wins"),
 * inert labels, order-insensitivity and its limits.
 */
module LabelProperties {
  import opened Wrappers
  import opened Text
  import opened Labels

  /** Accepts every value: the fields other than `url` store whatever they are given. */
  predicate AnyValue(value: string) {
    true
  }

  /** The value of the last label that addresses `t` and whose value `accept` admits. */
  function LastValue(labels: seq<Label>, t: Target, accept: string -> bool): Option<string>
    decreases |labels|
  {
    if labels == [] then None
    else
      var e := labels[|labels| - 1];
      if TargetOf(e.0) == t && accept(e.1) then Some(e.1)
      else LastValue(labels[..|labels| - 1], t, accept)
  }

  /** Some label assigns some field, known or not, of service `sid`. */
  ghost predicate Addressed(labels: seq<Label>, sid: string) {
    exists e :: e in labels && TargetOf(e.0).Field? && TargetOf(e.0).serviceID == sid
  }

  /**
   * The reference descriptor of service `sid`: each field holds the value of
   * the last label assigning it (for `url`, the last one that is a URL), `id`
   * falls back to the service id, `containerID` is always the service id, and
   * `tags` is the comma split of its value.
   */
  function Described(labels: seq<Label>, sid: string, isUrl: string -> bool): ServiceConfig {
    var id := LastValue(labels, Field(sid, "id"), AnyValue);
    var tags := LastValue(labels, Field(sid, "tags"), AnyValue);
    ServiceConfig(
      if id.Some? then id.value else sid,
      sid,
      LastValue(labels, Field(sid, "type"), AnyValue),
      LastValue(labels, Field(sid, "name"), AnyValue),
      LastValue(labels, Field(sid, "url"), isUrl),
      if tags.Some? then Some(Split(tags.value, ',')) else None)
  }

  /** An `enable` label whose value is neither "true" nor "false". */
  predicate IsInvalidEnable(e: Label) {
    TargetOf(e.0) == Enable && !IsBooleanString(e.1)
  }

  /** No two labels that address something address the same flag or field. */
  ghost predicate DistinctTargets(labels: seq<Label>) {
    forall e1, e2 :: e1 in labels && e2 in labels && TargetOf(e1.0) != Ignored && TargetOf(e1.0) == TargetOf(e2.0) ==> e1 == e2
  }

  lemma LastValueStep(p: seq<Label>, e: Label, t: Target, accept: string -> bool)
    ensures LastValue(p + [e], t, accept) == if TargetOf(e.0) == t && accept(e.1) then Some(e.1) else LastValue(p, t, accept)
  {
    assert (p + [e])[..|p|] == p;
  }

  /** `LastValue` finds a label exactly when there is one to find. */
  lemma {:induction false} LastValueSound(labels: seq<Label>, t: Target, accept: string -> bool)
    ensures LastValue(labels, t, accept).Some? ==>
      exists e :: e in labels && TargetOf(e.0) == t && accept(e.1) && e.1 == LastValue(labels, t, accept).value
    ensures LastValue(labels, t, accept).None? ==>
      forall e :: e in labels ==> !(TargetOf(e.0) == t && accept(e.1))
    decreases |labels|
  {
    if labels != [] {
      var p, e := labels[..|labels| - 1], labels[|labels| - 1];
      assert labels == p + [e];
      LastValueSound(p, t, accept);
      LastValueStep(p, e, t, accept);
    }
  }

  lemma {:induction false} NotAddressedHasNoValue(labels: seq<Label>, sid: string, f: string, accept: string -> bool)
    requires !Addressed(labels, sid)
    ensures LastValue(labels, Field(sid, f), accept) == None
    decreases |labels|
  {
    if labels != [] {
      var p := labels[..|labels| - 1];
      assert !Addressed(p, sid) by {
        forall e | e in p ensures !(TargetOf(e.0).Field? && TargetOf(e.0).serviceID == sid) {
          assert e in labels;
        }
      }
      NotAddressedHasNoValue(p, sid, f, accept);
      assert labels[|labels| - 1] in labels;
    }
  }

  /** A label assigning field `f` of `sid` turns one reference descriptor into the next. */
  lemma DescribedOwnStep(p: seq<Label>, e: Label, sid: string, f: string, isUrl: string -> bool)
    requires TargetOf(e.0) == Field(sid, f)
    ensures Described(p + [e], sid, isUrl) == SetField(Described(p, sid, isUrl), f, e.1, isUrl)
  {
    LastValueStep(p, e, Field(sid, "id"), AnyValue);
    LastValueStep(p, e, Field(sid, "type"), AnyValue);
    LastValueStep(p, e, Field(sid, "name"), AnyValue);
    LastValueStep(p, e, Field(sid, "url"), isUrl);
    LastValueStep(p, e, Field(sid, "tags"), AnyValue);
  }

  /** A label that assigns no field of `sid` leaves its reference descriptor alone. */
  lemma DescribedOtherStep(p: seq<Label>, e: Label, sid: string, isUrl: string -> bool)
    requires !(TargetOf(e.0).Field? && TargetOf(e.0).serviceID == sid)
    ensures Described(p + [e], sid, isUrl) == Described(p, sid, isUrl)
  {
    LastValueStep(p, e, Field(sid, "id"), AnyValue);
    LastValueStep(p, e, Field(sid, "type"), AnyValue);
    LastValueStep(p, e, Field(sid, "name"), AnyValue);
    LastValueStep(p, e, Field(sid, "url"), isUrl);
    LastValueStep(p, e, Field(sid, "tags"), AnyValue);
  }

  /** On success, `enable` is whether the last `enable` label said "true" (false if there is none). */
  lemma {:induction false} EnableIsLastEnableLabel(labels: seq<Label>, isUrl: string -> bool)
    ensures LabelsConfig(labels, isUrl).Ok? ==>
      LabelsConfig(labels, isUrl).value.enable == (LastValue(labels, Enable, AnyValue) == Some("true"))
    decreases |labels|
  {
    if labels != [] {
      var p, e := labels[..|labels| - 1], labels[|labels| - 1];
      assert labels == p + [e];
      EnableIsLastEnableLabel(p, isUrl);
      LastValueStep(p, e, Enable, AnyValue);
    }
  }

  lemma AddressedStep(p: seq<Label>, e: Label, sid: string)
    ensures Addressed(p + [e], sid) <==> Addressed(p, sid) || (TargetOf(e.0).Field? && TargetOf(e.0).serviceID == sid)
  {
    if Addressed(p + [e], sid) {
      var x :| x in p + [e] && TargetOf(x.0).Field? && TargetOf(x.0).serviceID == sid;
      if x != e {
        assert x in p;
      }
    }
    if Addressed(p, sid) {
      var x :| x in p && TargetOf(x.0).Field? && TargetOf(x.0).serviceID == sid;
      assert x in p + [e];
    }
    assert e in p + [e];
  }

  /** On success, the services are exactly the ids that some label addresses, whatever the field. */
  lemma {:induction false} ServicesAreAddressed(labels: seq<Label>, isUrl: string -> bool)
    ensures LabelsConfig(labels, isUrl).Ok? ==>
      forall sid :: sid in LabelsConfig(labels, isUrl).value.service <==> Addressed(labels, sid)
    decreases |labels|
  {
    if labels != [] && LabelsConfig(labels, isUrl).Ok? {
      var p, e := labels[..|labels| - 1], labels[|labels| - 1];
      assert labels == p + [e];
      ServicesAreAddressed(p, isUrl);
      forall sid ensures sid in LabelsConfig(labels, isUrl).value.service <==> Addressed(labels, sid) {
        AddressedStep(p, e, sid);
      }
    }
  }

  /** On success, every descriptor is its reference descriptor. */
  lemma {:induction false} DescriptorsAreDescribed(labels: seq<Label>, isUrl: string -> bool)
    ensures LabelsConfig(labels, isUrl).Ok? ==>
      forall sid :: sid in LabelsConfig(labels, isUrl).value.service ==>
        LabelsConfig(labels, isUrl).value.service[sid] == Described(labels, sid, isUrl)
    decreases |labels|
  {
    if labels != [] && LabelsConfig(labels, isUrl).Ok? {
      var p, e := labels[..|labels| - 1], labels[|labels| - 1];
      assert labels == p + [e];
      DescriptorsAreDescribed(p, isUrl);
      ServicesAreAddressed(p, isUrl);
      var c := LabelsConfig(p, isUrl).value;
      var c' := LabelsConfig(labels, isUrl).value;
      forall sid | sid in c'.service ensures c'.service[sid] == Described(labels, sid, isUrl) {
        var t := TargetOf(e.0);
        if t.Field? && t.serviceID == sid {
          DescribedOwnStep(p, e, sid, t.field, isUrl);
          if sid !in c.service {
            NotAddressedHasNoValue(p, sid, "id", AnyValue);
            NotAddressedHasNoValue(p, sid, "type", AnyValue);
            NotAddressedHasNoValue(p, sid, "name", AnyValue);
            NotAddressedHasNoValue(p, sid, "url", isUrl);
            NotAddressedHasNoValue(p, sid, "tags", AnyValue);
            assert NewService(sid) == Described(p, sid, isUrl);
          }
        } else {
          DescribedOtherStep(p, e, sid, isUrl);
        }
      }
    }
  }

  /**
   * The reference description of a successful parse: `enable` is whether the
   * last enable label said "true", the services are exactly the ids some
   * label addresses, and each descriptor is `Described`.
   */
  lemma LastWriteWins(labels: seq<Label>, isUrl: string -> bool)
    ensures var r := LabelsConfig(labels, isUrl);
      r.Ok? ==>
        && r.value.enable == (LastValue(labels, Enable, AnyValue) == Some("true"))
        && (forall sid :: sid in r.value.service <==> Addressed(labels, sid))
        && (forall sid :: sid in r.value.service ==> r.value.service[sid] == Described(labels, sid, isUrl))
  {
    EnableIsLastEnableLabel(labels, isUrl);
    ServicesAreAddressed(labels, isUrl);
    DescriptorsAreDescribed(labels, isUrl);
  }

  /**
   * The parser throws exactly when some label is an invalid `enable`, and
   * then with the value of the first such label.
   */
  lemma {:induction false} FailsIffInvalidEnable(labels: seq<Label>, isUrl: string -> bool)
    ensures LabelsConfig(labels, isUrl).Err? <==> exists e :: e in labels && IsInvalidEnable(e)
    ensures LabelsConfig(labels, isUrl).Err? ==>
      exists k :: 0 <= k < |labels| && IsInvalidEnable(labels[k])
        && LabelsConfig(labels, isUrl).error == InvalidEnableValue(labels[k].1)
        && forall j :: 0 <= j < k ==> !IsInvalidEnable(labels[j])
    decreases |labels|
  {
    if labels != [] {
      var p, e := labels[..|labels| - 1], labels[|labels| - 1];
      assert labels == p + [e];
      FailsIffInvalidEnable(p, isUrl);
      if LabelsConfig(p, isUrl).Err? {
        var k :| 0 <= k < |p| && IsInvalidEnable(p[k])
          && LabelsConfig(p, isUrl).error == InvalidEnableValue(p[k].1)
          && forall j :: 0 <= j < k ==> !IsInvalidEnable(p[j]);
        assert labels[k] == p[k] && p[k] in labels;
      } else if IsInvalidEnable(e) {
        assert forall j :: 0 <= j < |p| ==> labels[j] == p[j] && p[j] in p;
      } else {
        forall x | x in labels ensures !IsInvalidEnable(x) {
          if x != e {
            assert x in p;
          }
        }
      }
    }
  }

  /** A label that addresses nothing can be removed without changing the result. */
  lemma {:induction false} IgnoredLabelIsInert(p: seq<Label>, e: Label, q: seq<Label>, isUrl: string -> bool)
    requires TargetOf(e.0) == Ignored
    ensures LabelsConfig(p + [e] + q, isUrl) == LabelsConfig(p + q, isUrl)
    decreases |q|
  {
    if q == [] {
      assert p + [e] + q == p + [e] && p + q == p;
      ApplyLabelsSnoc(p, e, isUrl);
    } else {
      var q', x := q[..|q| - 1], q[|q| - 1];
      IgnoredLabelIsInert(p, e, q', isUrl);
      assert p + [e] + q == (p + [e] + q') + [x];
      assert p + q == (p + q') + [x];
      ApplyLabelsSnoc(p + [e] + q', x, isUrl);
      ApplyLabelsSnoc(p + q', x, isUrl);
    }
  }

  /** Labels that address nothing, appended at the end, change nothing. */
  lemma {:induction false} IgnoredTail(p: seq<Label>, q: seq<Label>, isUrl: string -> bool)
    requires forall k :: 0 <= k < |q| ==> TargetOf(q[k].0) == Ignored
    ensures ApplyLabels(p + q, isUrl) == ApplyLabels(p, isUrl)
    decreases |q|
  {
    if q == [] {
      assert p + q == p;
    } else {
      var q', x := q[..|q| - 1], q[|q| - 1];
      IgnoredTail(p, q', isUrl);
      assert p + q == (p + q') + [x];
      ApplyLabelsSnoc(p + q', x, isUrl);
    }
  }

  /** A label map with no key under the prefix yields `enable == false` and no services. */
  lemma {:induction false} NoPrefixedKeys(labels: seq<Label>, isUrl: string -> bool)
    requires forall i :: 0 <= i < |labels| ==> !StartsWith(labels[i].0, Prefix)
    ensures LabelsConfig(labels, isUrl) == Ok(ContainerConfig(false, map[], []))
    decreases |labels|
  {
    if labels != [] {
      NoPrefixedKeys(labels[..|labels| - 1], isUrl);
    }
  }

  lemma SameMembers(l1: seq<Label>, l2: seq<Label>)
    requires multiset(l1) == multiset(l2)
    ensures forall e :: e in l1 <==> e in l2
  {
    forall e ensures e in l1 <==> e in l2 {
      assert e in l1 <==> e in multiset(l1);
      assert e in l2 <==> e in multiset(l2);
    }
  }

  lemma SameLastValue(l1: seq<Label>, l2: seq<Label>, t: Target, accept: string -> bool)
    requires forall e :: e in l1 <==> e in l2
    requires DistinctTargets(l1)
    requires t != Ignored
    ensures LastValue(l1, t, accept) == LastValue(l2, t, accept)
  {
    LastValueSound(l1, t, accept);
    LastValueSound(l2, t, accept);
  }

  lemma SameDescribed(l1: seq<Label>, l2: seq<Label>, sid: string, isUrl: string -> bool)
    requires forall e :: e in l1 <==> e in l2
    requires DistinctTargets(l1)
    ensures Described(l1, sid, isUrl) == Described(l2, sid, isUrl)
  {
    SameLastValue(l1, l2, Field(sid, "id"), AnyValue);
    SameLastValue(l1, l2, Field(sid, "type"), AnyValue);
    SameLastValue(l1, l2, Field(sid, "name"), AnyValue);
    SameLastValue(l1, l2, Field(sid, "url"), isUrl);
    SameLastValue(l1, l2, Field(sid, "tags"), AnyValue);
  }

  lemma SameErrors(l1: seq<Label>, l2: seq<Label>, isUrl: string -> bool)
    requires forall e :: e in l1 <==> e in l2
    requires DistinctTargets(l1)
    ensures LabelsConfig(l1, isUrl).Err? <==> LabelsConfig(l2, isUrl).Err?
    ensures LabelsConfig(l1, isUrl).Err? ==> LabelsConfig(l1, isUrl) == LabelsConfig(l2, isUrl)
  {
    FailsIffInvalidEnable(l1, isUrl);
    FailsIffInvalidEnable(l2, isUrl);
    if LabelsConfig(l1, isUrl).Err? {
      var k1 :| 0 <= k1 < |l1| && IsInvalidEnable(l1[k1]) && LabelsConfig(l1, isUrl).error == InvalidEnableValue(l1[k1].1);
      var k2 :| 0 <= k2 < |l2| && IsInvalidEnable(l2[k2]) && LabelsConfig(l2, isUrl).error == InvalidEnableValue(l2[k2].1);
      assert l1[k1] in l1 && l2[k2] in l2;
    }
  }

  /**
   * The order of the labels does not matter as long as no two of them
   * address the same flag or field: the same error, or the same flag and
   * descriptors with the same ids (their enumeration order may differ).
   */
  lemma OrderInsensitive(l1: seq<Label>, l2: seq<Label>, isUrl: string -> bool)
    requires multiset(l1) == multiset(l2)
    requires DistinctTargets(l1)
    ensures LabelsConfig(l1, isUrl).Err? <==> LabelsConfig(l2, isUrl).Err?
    ensures LabelsConfig(l1, isUrl).Err? ==> LabelsConfig(l1, isUrl) == LabelsConfig(l2, isUrl)
    ensures LabelsConfig(l1, isUrl).Ok? ==>
      var c1, c2 := LabelsConfig(l1, isUrl).value, LabelsConfig(l2, isUrl).value;
      && c1.enable == c2.enable
      && c1.service == c2.service
      && (forall sid :: sid in c1.order <==> sid in c2.order)
  {
    SameMembers(l1, l2);
    SameErrors(l1, l2, isUrl);
    if LabelsConfig(l1, isUrl).Ok? {
      LastWriteWins(l1, isUrl);
      LastWriteWins(l2, isUrl);
      var c1, c2 := LabelsConfig(l1, isUrl).value, LabelsConfig(l2, isUrl).value;
      SameLastValue(l1, l2, Enable, AnyValue);
      forall sid ensures Addressed(l1, sid) <==> Addressed(l2, sid) {
        if Addressed(l1, sid) {
          var x :| x in l1 && TargetOf(x.0).Field? && TargetOf(x.0).serviceID == sid;
          assert x in l2;
        }
        if Addressed(l2, sid) {
          var x :| x in l2 && TargetOf(x.0).Field? && TargetOf(x.0).serviceID == sid;
          assert x in l1;
        }
      }
      forall sid | sid in c1.service ensures c1.service[sid] == c2.service[sid] {
        SameDescribed(l1, l2, sid, isUrl);
      }
    }
  }

  /** Where the text after the prefix and one more character is `enable`, the key addresses the flag. */
  lemma EnableKey(key: string)
    requires StartsWith(key, Prefix) && Remainder(key) == "enable"
    ensures TargetOf(key) == Enable
  {
    SplitWithoutSeparator("enable", '.');
  }

  lemma DottedEnableKey()
    ensures TargetOf("ca.wyattjoh.watchy.enable") == Enable
  {
    var key := "ca.wyattjoh.watchy.enable";
    assert key[..|Prefix|] == Prefix;
    assert key[|Prefix| + 1..] == "enable";
    EnableKey(key);
  }

  lemma UndottedEnableKey()
    ensures TargetOf("ca.wyattjoh.watchy_enable") == Enable
  {
    var key := "ca.wyattjoh.watchy_enable";
    assert key[..|Prefix|] == Prefix;
    assert key[|Prefix| + 1..] == "enable";
    EnableKey(key);
  }

  lemma TwoEnableLabels(a: Label, b: Label, isUrl: string -> bool)
    requires TargetOf(a.0) == Enable && TargetOf(b.0) == Enable
    requires IsBooleanString(a.1) && IsBooleanString(b.1)
    ensures LabelsConfig([a, b], isUrl) == Ok(ContainerConfig(b.1 == "true", map[], []))
  {
    assert [a, b][..1] == [a] && [a][..0] == [];
    assert ApplyLabels([a], isUrl) == ApplyLabel(Ok(Initial), a, isUrl);
    assert ApplyLabels([a], isUrl) == Ok(Initial.(enable := a.1 == "true"));
    assert ApplyLabels([a, b], isUrl) == ApplyLabel(ApplyLabels([a], isUrl), b, isUrl);
  }

  /**
   * Distinct keys alone do not make the order irrelevant: the prefix test has
   * no dot, so "ca.wyattjoh.watchy_enable" is read as a second `enable` key,
   * and the later of the two labels decides the flag.
   */
  lemma DistinctKeysNotEnough(isUrl: string -> bool)
    ensures var a, b := ("ca.wyattjoh.watchy.enable", "true"), ("ca.wyattjoh.watchy_enable", "false");
      && a.0 != b.0
      && LabelsConfig([a, b], isUrl) == Ok(ContainerConfig(false, map[], []))
      && LabelsConfig([b, a], isUrl) == Ok(ContainerConfig(true, map[], []))
  {
    var a, b := ("ca.wyattjoh.watchy.enable", "true"), ("ca.wyattjoh.watchy_enable", "false");
    DottedEnableKey();
    UndottedEnableKey();
    TwoEnableLabels(a, b, isUrl);
    TwoEnableLabels(b, a, isUrl);
    assert a.0[18] != b.0[18];
  }

  /**
   * A stored tag list is the comma split of the value of a `tags` label of
   * that service, and joining it with "," gives that value back.
   */
  lemma TagsJoinBack(labels: seq<Label>, isUrl: string -> bool, sid: string)
    requires LabelsConfig(labels, isUrl).Ok?
    requires sid in LabelsConfig(labels, isUrl).value.service
    requires LabelsConfig(labels, isUrl).value.service[sid].tags.Some?
    ensures exists e :: (e in labels && TargetOf(e.0) == Field(sid, "tags")
      && LabelsConfig(labels, isUrl).value.service[sid].tags.value == Split(e.1, ',')
      && Join(Split(e.1, ','), ',') == e.1)
  {
    LastWriteWins(labels, isUrl);
    LastValueSound(labels, Field(sid, "tags"), AnyValue);
    JoinSplit(LastValue(labels, Field(sid, "tags"), AnyValue).value, ',');
  }
}
