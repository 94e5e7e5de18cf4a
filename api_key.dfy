/** The generated stub for the aws:apigateway/apiKey:APIKey resource. */
module ApiGatewayApiKey {
  import opened Wrappers
  import opened Resource
  import opened LumiRpc
  import ResourceStub

  const Token := "aws:apigateway/apiKey:APIKey"

  const NameKey := "name"
  const KeyNameKey := "keyName"
  const DescriptionKey := "description"
  const EnabledKey := "enabled"
  const StageKeysKey := "stageKeys"

  const Fields := [NameKey, KeyNameKey, DescriptionKey, EnabledKey, StageKeysKey]

  const Triggers := [NameKey, KeyNameKey]

  const Descriptor := ResourceStub.Descriptor(Token, NameKey, Fields, Triggers)

  /** NewAPIKeyProvider: a stub for this resource type that delegates to the given operations;
      every trigger it checks is a schema field. */
  function NewProvider(ops: ResourceStub.Ops, codec: ResourceStub.Codec): (s: ResourceStub.Stub)
    ensures s.ops == ops && s.codec == codec
    ensures s.desc.token == Token && s.desc.nameKey == NameKey && s.desc.triggers == Triggers
    ensures forall k :: k in s.desc.triggers ==> k in s.desc.fields
  {
    ResourceStub.Stub(Descriptor, ops, codec)
  }

  /** The description, the enabled flag and the stage keys can be updated in place. */
  lemma MutableFieldsNeverStatic(diff: Option<ObjectDiff>)
    ensures DescriptionKey !in ResourceStub.StaticReplaceKeys(Triggers, diff)
    ensures EnabledKey !in ResourceStub.StaticReplaceKeys(Triggers, diff)
    ensures StageKeysKey !in ResourceStub.StaticReplaceKeys(Triggers, diff)
  {
    ResourceStub.StaticReplaceKeysMembership(Triggers, diff, DescriptionKey);
    ResourceStub.StaticReplaceKeysMembership(Triggers, diff, EnabledKey);
    ResourceStub.StaticReplaceKeysMembership(Triggers, diff, StageKeysKey);
  }

  /** An empty name is reported as not yet computable when the request flags it unknown, and
      as empty otherwise. */
  lemma EmptyNameErrors(ops: ResourceStub.Ops, codec: ResourceStub.Codec, req: NameRequest)
    requires req.resourceType == Token
    requires codec.unmarshal(req.properties).decerr.None?
    requires codec.unmarshal(req.properties).obj.name == ""
    ensures Flag(req.unknowns, NameKey) ==>
      ResourceStub.Name(NewProvider(ops, codec), req) == Failure(NameFromUnknown)
    ensures !Flag(req.unknowns, NameKey) ==>
      ResourceStub.Name(NewProvider(ops, codec), req) == Failure(NameEmpty)
  {
  }
}
