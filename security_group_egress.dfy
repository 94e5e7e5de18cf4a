/** The generated stub for the aws:ec2/securityGroupEgress:SecurityGroupEgress resource. */
module Ec2SecurityGroupEgress {
  import opened Wrappers
  import opened Resource
  import ResourceStub

  const Token := "aws:ec2/securityGroupEgress:SecurityGroupEgress"

  const NameKey := "name"
  const FromPortKey := "fromPort"
  const GroupKey := "group"
  const IPProtocolKey := "ipProtocol"
  const ToPortKey := "toPort"
  const CIDRIPKey := "cidrIp"
  const CIDRIPv6Key := "cidrIpv6"
  const DestinationPrefixListIdKey := "destinationPrefixListId"
  const DestinationSecurityGroupKey := "destinationSecurityGroup"

  const Fields := [NameKey, FromPortKey, GroupKey, IPProtocolKey, ToPortKey, CIDRIPKey,
                   CIDRIPv6Key, DestinationPrefixListIdKey, DestinationSecurityGroupKey]

  /** Every property of an egress rule forces a replacement when it changes. */
  const Triggers := [NameKey, FromPortKey, GroupKey, IPProtocolKey, ToPortKey, CIDRIPKey,
                     CIDRIPv6Key, DestinationPrefixListIdKey, DestinationSecurityGroupKey]

  const Descriptor := ResourceStub.Descriptor(Token, NameKey, Fields, Triggers)

  /** NewSecurityGroupEgressProvider: a stub for this resource type that delegates to the given operations;
      every trigger it checks is a schema field. */
  function NewProvider(ops: ResourceStub.Ops, codec: ResourceStub.Codec): (s: ResourceStub.Stub)
    ensures s.ops == ops && s.codec == codec
    ensures s.desc.token == Token && s.desc.nameKey == NameKey && s.desc.triggers == Triggers
    ensures forall k :: k in s.desc.triggers ==> k in s.desc.fields
  {
    ResourceStub.Stub(Descriptor, ops, codec)
  }

  /** The static replace keys are the changed schema fields, in schema order. */
  lemma StaticKeysAreChangedFields(diff: ObjectDiff, k: string)
    ensures k in ResourceStub.StaticReplaceKeys(Triggers, Some(diff)) <==> k in Fields && diff.changed(k)
    ensures ResourceStub.Subsequence(ResourceStub.StaticReplaceKeys(Triggers, Some(diff)), Fields)
  {
    ResourceStub.StaticReplaceKeysMembership(Triggers, Some(diff), k);
    ResourceStub.StaticReplaceKeysInOrder(Triggers, Some(diff));
  }

  /** When every field changed, all nine are static replace keys, in declaration order. */
  lemma AllFieldsChanged(diff: ObjectDiff)
    requires forall k :: k in Fields ==> diff.changed(k)
    ensures ResourceStub.StaticReplaceKeys(Triggers, Some(diff)) == Fields
  {
    ResourceStub.StaticReplaceKeysAllChanged(Triggers, diff);
  }
}
