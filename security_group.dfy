/** The generated stub for the aws:ec2/securityGroup:SecurityGroup resource. */
module Ec2SecurityGroup {
  import opened Wrappers
  import opened Resource
  import opened LumiRpc
  import ResourceStub

  const Token := "aws:ec2/securityGroup:SecurityGroup"

  const NameKey := "name"
  const GroupDescriptionKey := "groupDescription"
  const GroupNameKey := "groupName"
  const VPCKey := "vpc"
  const SecurityGroupEgressKey := "securityGroupEgress"
  const SecurityGroupIngressKey := "securityGroupIngress"
  const GroupIDKey := "groupID"

  const Fields := [NameKey, GroupDescriptionKey, GroupNameKey, VPCKey, SecurityGroupEgressKey,
                   SecurityGroupIngressKey, GroupIDKey]

  const Triggers := [NameKey, GroupDescriptionKey, GroupNameKey, VPCKey]

  const Descriptor := ResourceStub.Descriptor(Token, NameKey, Fields, Triggers)

  /** NewSecurityGroupProvider: a stub for this resource type that delegates to the given operations;
      every trigger it checks is a schema field. */
  function NewProvider(ops: ResourceStub.Ops, codec: ResourceStub.Codec): (s: ResourceStub.Stub)
    ensures s.ops == ops && s.codec == codec
    ensures s.desc.token == Token && s.desc.nameKey == NameKey && s.desc.triggers == Triggers
    ensures forall k :: k in s.desc.triggers ==> k in s.desc.fields
  {
    ResourceStub.Stub(Descriptor, ops, codec)
  }

  /** Changes to the rule lists or to the group ID never force a replacement by themselves. */
  lemma RulesAndGroupIdNeverStatic(diff: Option<ObjectDiff>)
    ensures SecurityGroupEgressKey !in ResourceStub.StaticReplaceKeys(Triggers, diff)
    ensures SecurityGroupIngressKey !in ResourceStub.StaticReplaceKeys(Triggers, diff)
    ensures GroupIDKey !in ResourceStub.StaticReplaceKeys(Triggers, diff)
  {
    ResourceStub.StaticReplaceKeysMembership(Triggers, diff, SecurityGroupEgressKey);
    ResourceStub.StaticReplaceKeysMembership(Triggers, diff, SecurityGroupIngressKey);
    ResourceStub.StaticReplaceKeysMembership(Triggers, diff, GroupIDKey);
  }

  /** Both sides of an InspectChange request decode without error, and the operations add no
      replace keys of their own. */
  predicate DecodesCleanly(s: ResourceStub.Stub, req: InspectChangeRequest)
  {
    var before := s.codec.unmarshal(req.olds);
    var after := s.codec.unmarshal(req.news);
    before.decerr.None? && after.decerr.None? &&
    s.ops.inspectChange(req.id, before.obj, after.obj, s.codec.diff(before.props, after.props)) == Success([])
  }

  /** A diff that changes only the VPC gives "vpc" as the only static replace key. */
  lemma VpcOnlyStaticKeys(diff: Option<ObjectDiff>)
    requires diff.Some? && forall k :: diff.value.changed(k) <==> k == VPCKey
    ensures ResourceStub.StaticReplaceKeys(Triggers, diff) == [VPCKey]
  {
    var init := Triggers[..3];
    assert Triggers == init + [VPCKey];
    ResourceStub.StaticReplaceKeysNoneChanged(init, diff);
  }

  /** A diff that changes only the VPC replaces exactly on "vpc". */
  lemma VpcChangeReplaces(ops: ResourceStub.Ops, codec: ResourceStub.Codec, req: InspectChangeRequest)
    requires DecodesCleanly(NewProvider(ops, codec), req)
    requires var diff := codec.diff(codec.unmarshal(req.olds).props, codec.unmarshal(req.news).props);
      diff.Some? && forall k :: diff.value.changed(k) <==> k == VPCKey
    ensures ResourceStub.InspectChangeOutcome(NewProvider(ops, codec), req)
      == Success(InspectChangeResponse([VPCKey], map[]))
  {
    var diff := codec.diff(codec.unmarshal(req.olds).props, codec.unmarshal(req.news).props);
    VpcOnlyStaticKeys(diff);
    assert [VPCKey] + [] == [VPCKey];
  }

  /** A diff that changes only the ingress rules replaces nothing. */
  lemma IngressChangeReplacesNothing(ops: ResourceStub.Ops, codec: ResourceStub.Codec, req: InspectChangeRequest)
    requires DecodesCleanly(NewProvider(ops, codec), req)
    requires var diff := codec.diff(codec.unmarshal(req.olds).props, codec.unmarshal(req.news).props);
      diff.Some? && forall k :: diff.value.changed(k) <==> k == SecurityGroupIngressKey
    ensures ResourceStub.InspectChangeOutcome(NewProvider(ops, codec), req)
      == Success(InspectChangeResponse([], map[]))
  {
    var diff := codec.diff(codec.unmarshal(req.olds).props, codec.unmarshal(req.news).props);
    ResourceStub.StaticReplaceKeysNoneChanged(Triggers, diff);
  }

  /** Static and provider keys are concatenated, not merged: when both flag the VPC, it is
      listed twice. */
  lemma VpcFlaggedTwiceIsListedTwice(ops: ResourceStub.Ops, codec: ResourceStub.Codec, req: InspectChangeRequest)
    requires var before := codec.unmarshal(req.olds);
      var after := codec.unmarshal(req.news);
      var diff := codec.diff(before.props, after.props);
      before.decerr.None? && after.decerr.None? &&
      diff.Some? && (forall k :: diff.value.changed(k) <==> k == VPCKey) &&
      ops.inspectChange(req.id, before.obj, after.obj, diff) == Success([VPCKey])
    ensures ResourceStub.InspectChangeOutcome(NewProvider(ops, codec), req)
      == Success(InspectChangeResponse([VPCKey, VPCKey], map[]))
  {
    var diff := codec.diff(codec.unmarshal(req.olds).props, codec.unmarshal(req.news).props);
    VpcOnlyStaticKeys(diff);
    assert [VPCKey] + [VPCKey] == [VPCKey, VPCKey];
  }
}
