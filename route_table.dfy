/** The generated stub for the aws:ec2/routeTable:RouteTable resource. */
module Ec2RouteTable {
  import opened Wrappers
  import opened Resource
  import opened LumiRpc
  import ResourceStub

  const Token := "aws:ec2/routeTable:RouteTable"

  const NameKey := "name"
  const VPCKey := "vpc"

  const Fields := [NameKey, VPCKey]

  const Triggers := [NameKey, VPCKey]

  const Descriptor := ResourceStub.Descriptor(Token, NameKey, Fields, Triggers)

  /** NewRouteTableProvider: a stub for this resource type that delegates to the given operations;
      every trigger it checks is a schema field. */
  function NewProvider(ops: ResourceStub.Ops, codec: ResourceStub.Codec): (s: ResourceStub.Stub)
    ensures s.ops == ops && s.codec == codec
    ensures s.desc.token == Token && s.desc.nameKey == NameKey && s.desc.triggers == Triggers
    ensures forall k :: k in s.desc.triggers ==> k in s.desc.fields
  {
    ResourceStub.Stub(Descriptor, ops, codec)
  }

  /** Both schema fields are triggers, so the static replace keys are exactly the changed
      schema fields, name before vpc. */
  lemma StaticKeysAreChangedFields(diff: ObjectDiff)
    ensures ResourceStub.StaticReplaceKeys(Triggers, Some(diff)) ==
      (if diff.changed(NameKey) then [NameKey] else []) + (if diff.changed(VPCKey) then [VPCKey] else [])
    ensures forall k :: k in ResourceStub.StaticReplaceKeys(Triggers, Some(diff)) ==> k in Fields
  {
    var d := Some(diff);
    assert Triggers[..1] == [NameKey];
    assert ResourceStub.StaticReplaceKeys(Triggers[..1], d) ==
      ResourceStub.StaticReplaceKeys([], d) + (if diff.changed(NameKey) then [NameKey] else []);
    assert ResourceStub.StaticReplaceKeys(Triggers, d) ==
      ResourceStub.StaticReplaceKeys(Triggers[..1], d) + (if diff.changed(VPCKey) then [VPCKey] else []);
  }

  /** Delete answers with an empty success exactly when the operations' delete succeeds. */
  lemma DeleteFollowsOps(ops: ResourceStub.Ops, codec: ResourceStub.Codec, req: DeleteRequest)
    requires req.resourceType == Token
    ensures ResourceStub.Delete(NewProvider(ops, codec), req) == Success(Empty) <==> ops.delete(req.id).None?
  {
  }
}
