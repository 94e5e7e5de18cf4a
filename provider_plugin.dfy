/** The orchestrator's side of a resource plugin (pkg/resource/provider_plugin.go): locating
    the plugin executable for a package, and the lifecycle calls that forward to it over RPC
    and classify each outcome into a value, a resource State and an error. */
module ProviderPlugin {
  import opened Wrappers
  import opened Resource
  import opened LumiRpc
  import Paths

  const ProviderPrefix := "lumi-resource"

  /** The delimiter between the parts of a qualified package name. */
  const QNameDelimiter: char := '/'

  /** A loaded plugin process; only its connection handle matters here. */
  datatype Plugin = Plugin(conn: nat)

  /** The marshaling context every call converts property maps through. */
  datatype Context = Context(
    marshal: (PropertyMap, MarshalOptions) -> Struct,
    marshalWithUnknowns: (PropertyMap, MarshalOptions) -> (Struct, map<string, bool>),
    unmarshal: (Struct, MarshalOptions) -> PropertyMap)

  /** A provider bound to one package's plugin. */
  datatype Provider = Provider(ctx: Context, pkg: string, plug: Plugin, client: Client)

  // ---------------------------------------------------------------------------------------
  // Locating the plugin

  /** The plugin executable's name: the prefix, a dash, and the package name with every
      delimiter rewritten to an underscore. */
  function ExecutableName(pkg: string): (exe: string)
    ensures |exe| == |ProviderPrefix| + 1 + |pkg|
    ensures ProviderPrefix + "-" <= exe
    ensures forall i :: 0 <= i < |pkg| ==>
      exe[|ProviderPrefix| + 1 + i] == (if pkg[i] == QNameDelimiter then '_' else pkg[i])
    ensures QNameDelimiter !in exe
  {
    ProviderPrefix + "-" + Paths.ReplaceAll(pkg, QNameDelimiter, '_')
  }

  /** The candidates the loader tries, in order: the bare name (looked up on the PATH), then
      the name under the package's directory of the install root's library directory. Under
      a rooted install root, the second is that directory, cleaned, followed by the name. */
  function SearchPaths(installRoot: string, libdir: string, pkg: string): (paths: seq<string>)
    ensures |paths| == 2 && paths[0] == ExecutableName(pkg)
    ensures Paths.Rooted(installRoot) ==>
      var dir := Paths.Join([installRoot, libdir, pkg]);
      paths[1] == if dir == [Paths.Separator] then dir + paths[0] else dir + [Paths.Separator] + paths[0]
  {
    var exe := ExecutableName(pkg);
    assert exe[0] == 'l';
    assert Paths.Plain(exe);
    assert [installRoot, libdir, pkg] + [exe] == [installRoot, libdir, pkg, exe];
    Paths.JoinAppendPlain([installRoot, libdir, pkg], exe);
    [exe, Paths.Join([installRoot, libdir, pkg, exe])]
  }

  /** Both candidates name the same executable: the second is a path whose last element is
      exactly the bare name tried first. */
  lemma SearchPathsNameOneExecutable(installRoot: string, libdir: string, pkg: string)
    ensures var paths := SearchPaths(installRoot, libdir, pkg);
      |paths| == 2 && paths[0] == ExecutableName(pkg) &&
      var parts := Paths.Split(paths[1]); parts[|parts| - 1] == paths[0]
  {
    var exe := ExecutableName(pkg);
    assert exe[0] == 'l';
    assert Paths.Plain(exe);
    Paths.JoinEndsInPlain([installRoot, libdir, pkg, exe]);
  }

  /** The label the plugin loader reports the plugin under: the package name in brackets
      after "resource". */
  function PluginLabel(pkg: string): (tag: string)
    ensures |tag| == |pkg| + 10
    ensures tag[..9] == "resource[" && tag[9..|tag| - 1] == pkg && tag[|tag| - 1] == ']'
  {
    "resource[" + pkg + "]"
  }

  /** NewProvider: load the plugin from the search paths and bind a client to its connection;
      a load error is returned as is and no provider is built. A built provider keeps the
      caller's context and talks to the loaded plugin through the client bound to it. */
  function NewProvider(
    ctx: Context, pkg: string, installRoot: string, libdir: string,
    load: (seq<string>, string) -> Result<Plugin, Error>, connect: Plugin -> Client
  ): (r: Result<Provider, Error>)
    ensures var loaded := load(SearchPaths(installRoot, libdir, pkg), PluginLabel(pkg));
      (r.Failure? <==> loaded.Failure?) &&
      (r.Failure? ==> r.error == loaded.error) &&
      (r.Success? ==> r.value == Provider(ctx, pkg, loaded.value, connect(loaded.value)))
  {
    match load(SearchPaths(installRoot, libdir, pkg), PluginLabel(pkg))
    case Failure(e) => Failure(e)
    case Success(plug) => Success(Provider(ctx, pkg, plug, connect(plug)))
  }

  // ---------------------------------------------------------------------------------------
  // Requests: which marshaling options each call site uses

  /** Pre-update calls may use old URNs and ship resource references as raw URNs. */
  const PreUpdateOptions := MarshalOptions(oldURNs := true, rawResources := true)
  const RawOptions := MarshalOptions(oldURNs := false, rawResources := true)
  const OldURNOptions := MarshalOptions(oldURNs := true, rawResources := false)

  /** Check's request: the type, and the properties marshaled with their unknowns, old URNs
      permitted and resources sent raw. */
  function CheckRequestOf(p: Provider, t: string, props: PropertyMap): (req: CheckRequest)
    ensures req.resourceType == t
    ensures (req.properties, req.unknowns) ==
      p.ctx.marshalWithUnknowns(props, MarshalOptions(oldURNs := true, rawResources := true))
  {
    var (pstr, unks) := p.ctx.marshalWithUnknowns(props, PreUpdateOptions);
    CheckRequest(t, pstr, unks)
  }

  /** Name's request: marshaled exactly as Check's. */
  function NameRequestOf(p: Provider, t: string, props: PropertyMap): (req: NameRequest)
    ensures req.resourceType == t
    ensures req.properties == CheckRequestOf(p, t, props).properties
    ensures req.unknowns == CheckRequestOf(p, t, props).unknowns
  {
    var (pstr, unks) := p.ctx.marshalWithUnknowns(props, PreUpdateOptions);
    NameRequest(t, pstr, unks)
  }

  /** Create's request: the type, and the properties marshaled with the default options and
      without unknowns. */
  function CreateRequestOf(p: Provider, t: string, props: PropertyMap): (req: CreateRequest)
    ensures req.resourceType == t
    ensures req.properties == p.ctx.marshal(props, MarshalOptions(oldURNs := false, rawResources := false))
  {
    CreateRequest(t, p.ctx.marshal(props, DefaultOptions))
  }

  /** InspectChange's request: both sides marshaled with resources sent raw and old URNs
      refused; the unknowns are the new side's. */
  function InspectChangeRequestOf(p: Provider, id: string, t: string, olds: PropertyMap, news: PropertyMap)
    : (req: InspectChangeRequest)
    ensures req.id == id && req.resourceType == t
    ensures req.olds == p.ctx.marshal(olds, MarshalOptions(oldURNs := false, rawResources := true))
    ensures (req.news, req.unknowns) ==
      p.ctx.marshalWithUnknowns(news, MarshalOptions(oldURNs := false, rawResources := true))
  {
    var (newpstr, newunks) := p.ctx.marshalWithUnknowns(news, RawOptions);
    InspectChangeRequest(id, t, p.ctx.marshal(olds, RawOptions), newpstr, newunks)
  }

  /** Update's request: the old side may use old URNs, the new side uses the default
      options. */
  function UpdateRequestOf(p: Provider, id: string, t: string, olds: PropertyMap, news: PropertyMap)
    : (req: UpdateRequest)
    ensures req.id == id && req.resourceType == t
    ensures req.olds == p.ctx.marshal(olds, MarshalOptions(oldURNs := true, rawResources := false))
    ensures req.news == p.ctx.marshal(news, MarshalOptions(oldURNs := false, rawResources := false))
  {
    UpdateRequest(id, t, p.ctx.marshal(olds, OldURNOptions), p.ctx.marshal(news, DefaultOptions))
  }

  /** InspectChange marshals its old side as it marshals its new side, so that unchanged
      properties compare equal: for a context whose two marshalers agree, the same map on both
      sides gives the same wire properties. */
  lemma InspectChangeOldsMatchNews(p: Provider, id: string, t: string, props: PropertyMap)
    requires forall m, o :: p.ctx.marshalWithUnknowns(m, o).0 == p.ctx.marshal(m, o)
    ensures InspectChangeRequestOf(p, id, t, props, props).olds == InspectChangeRequestOf(p, id, t, props, props).news
  {
    assert p.ctx.marshalWithUnknowns(props, RawOptions).0 == p.ctx.marshal(props, RawOptions);
  }

  // ---------------------------------------------------------------------------------------
  // Lifecycle calls

  /** Check: a transport error gives no failures and that error; otherwise one CheckFailure
      per failure of the response, in the response's order, with property and reason
      copied. */
  method Check(p: Provider, t: string, props: PropertyMap) returns (failures: seq<CheckFailure>, err: Option<Error>)
    ensures match p.client.check(CheckRequestOf(p, t, props))
      case Failure(e) => failures == [] && err == Some(e)
      case Success(resp) =>
        err == None && |failures| == |resp.failures| &&
        forall i :: 0 <= i < |failures| ==>
          failures[i] == CheckFailure(resp.failures[i].property, resp.failures[i].reason)
  {
    var result := p.client.check(CheckRequestOf(p, t, props));
    if result.Failure? {
      return [], Some(result.error);
    }
    var wire := result.value.failures;
    failures := [];
    for i := 0 to |wire|
      invariant |failures| == i
      invariant forall j :: 0 <= j < i ==> failures[j] == CheckFailure(wire[j].property, wire[j].reason)
    {
      failures := failures + [CheckFailure(wire[i].property, wire[i].reason)];
    }
    err := None;
  }

  /** Name: the name the plugin reports, or the transport error with an empty name. */
  function Name(p: Provider, t: string, props: PropertyMap): (r: Result<string, Error>)
    ensures var resp := p.client.name(NameRequestOf(p, t, props));
      (r.Failure? <==> resp.Failure?) &&
      (r.Failure? ==> r.error == resp.error) &&
      (r.Success? ==> r.value == resp.value.name)
  {
    match p.client.name(NameRequestOf(p, t, props))
    case Failure(e) => Failure(e)
    case Success(resp) => Success(resp.name)
  }

  datatype CreateResult = CreateResult(id: string, state: State, err: Option<Error>)

  /** Create: the state is OK exactly when there is no error, and an OK outcome always has a
      non-empty ID. A transport error gives no ID; an empty ID from a successful call is a
      contract violation reported with state Unknown. */
  function Create(p: Provider, t: string, props: PropertyMap): (r: CreateResult)
    ensures r.state == StateOK <==> r.err == None
    ensures r.state == StateOK ==> r.id != ""
    ensures var resp := p.client.create(CreateRequestOf(p, t, props));
      (resp.Failure? ==> r == CreateResult("", StateUnknown, Some(resp.error))) &&
      (resp.Success? ==> r.id == resp.value.id) &&
      (resp.Success? && resp.value.id == "" ==> r == CreateResult("", StateUnknown, Some(EmptyCreateID(p.pkg, t)))) &&
      (resp.Success? && resp.value.id != "" ==> r == CreateResult(resp.value.id, StateOK, None))
  {
    match p.client.create(CreateRequestOf(p, t, props))
    case Failure(e) => CreateResult("", StateUnknown, Some(e))
    case Success(resp) =>
      if resp.id == "" then CreateResult(resp.id, StateUnknown, Some(EmptyCreateID(p.pkg, t)))
      else CreateResult(resp.id, StateOK, None)
  }

  /** The property bag a Get reads into; the caller's map is updated in place. */
  class PropertyBag {
    var props: PropertyMap

    constructor (initial: PropertyMap)
      ensures props == initial
    {
      props := initial;
    }
  }

  /** Get: on a transport error the bag is untouched; otherwise the reported properties are
      merged in, and keys the plugin did not report keep their values. */
  method Get(p: Provider, id: string, t: string, bag: PropertyBag) returns (err: Option<Error>)
    modifies bag
    ensures match p.client.get(GetRequest(id, t))
      case Failure(e) => err == Some(e) && bag.props == old(bag.props)
      case Success(resp) =>
        var reported := p.ctx.unmarshal(resp.properties, DefaultOptions);
        err == None && bag.props == old(bag.props) + reported &&
        forall k :: k in old(bag.props) && k !in reported ==> k in bag.props && bag.props[k] == old(bag.props)[k]
  {
    var result := p.client.get(GetRequest(id, t));
    if result.Failure? {
      return Some(result.error);
    }
    bag.props := bag.props + p.ctx.unmarshal(result.value.properties, DefaultOptions);
    err := None;
  }

  datatype Inspection = Inspection(replaceKeys: seq<string>, changes: PropertyMap)

  /** InspectChange: the plugin's replace keys verbatim, with its changes unmarshaled, or the
      transport error. */
  function InspectChange(p: Provider, id: string, t: string, olds: PropertyMap, news: PropertyMap)
    : (r: Result<Inspection, Error>)
    requires id != "" && t != ""
    ensures var resp := p.client.inspectChange(InspectChangeRequestOf(p, id, t, olds, news));
      (r.Failure? <==> resp.Failure?) &&
      (r.Failure? ==> r.error == resp.error) &&
      (r.Success? ==> r.value.replaceKeys == resp.value.replaceKeys &&
                      r.value.changes == p.ctx.unmarshal(resp.value.changes, RawOptions))
  {
    match p.client.inspectChange(InspectChangeRequestOf(p, id, t, olds, news))
    case Failure(e) => Failure(e)
    case Success(resp) => Success(Inspection(resp.replaceKeys, p.ctx.unmarshal(resp.changes, RawOptions)))
  }

  datatype Mutation = Mutation(state: State, err: Option<Error>)

  /** The outcome of a mutating call: a transport error leaves the resource's state unknown. */
  function Classify(result: Result<Empty, Error>): (m: Mutation)
    ensures m.state == StateOK <==> m.err == None
    ensures m.err == None <==> result.Success?
    ensures result.Failure? ==> m.err == Some(result.error)
  {
    match result
    case Failure(e) => Mutation(StateUnknown, Some(e))
    case Success(_) => Mutation(StateOK, None)
  }

  /** Update: StateUnknown with the error on a transport failure, StateOK otherwise. */
  function Update(p: Provider, id: string, t: string, olds: PropertyMap, news: PropertyMap): (m: Mutation)
    requires id != "" && t != ""
    ensures var resp := p.client.update(UpdateRequestOf(p, id, t, olds, news));
      (resp.Failure? ==> m == Mutation(StateUnknown, Some(resp.error))) &&
      (resp.Success? ==> m == Mutation(StateOK, None))
  {
    Classify(p.client.update(UpdateRequestOf(p, id, t, olds, news)))
  }

  /** Delete: StateUnknown with the error on a transport failure, StateOK otherwise. */
  function Delete(p: Provider, id: string, t: string): (m: Mutation)
    requires id != "" && t != ""
    ensures var resp := p.client.delete(DeleteRequest(id, t));
      (resp.Failure? ==> m == Mutation(StateUnknown, Some(resp.error))) &&
      (resp.Success? ==> m == Mutation(StateOK, None))
  {
    Classify(p.client.delete(DeleteRequest(id, t)))
  }
}
