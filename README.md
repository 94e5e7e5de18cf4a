# Resource provider plugins and ZIP template paths, in Dafny

This project models two parts of the Lumi/Pulumi engine.

**The resource provider protocol, seen from both ends.**

- The orchestrator's provider client (`pkg/resource/provider_plugin.go`):
  - it finds a package's plugin executable by a naming convention;
  - it loads the plugin;
  - it forwards Check, Name, Create, Get, InspectChange, Update and Delete over RPC;
  - it turns each outcome into a value, a resource `State` (OK or Unknown) and an error.
- The generated provider-side stubs for four AWS resources:
  - `aws:ec2/securityGroupEgress:SecurityGroupEgress`
  - `aws:ec2/securityGroup:SecurityGroup`
  - `aws:apigateway/apiKey:APIKey`
  - `aws:ec2/routeTable:RouteTable`

  Each stub decodes the request, gates on decode errors, computes the static replace keys and delegates to the resource's operations.
  The four files differ only in their type token, their schema fields and their ordered list of replacement triggers.
  So `ResourceStub` models the stub once, parameterised by a `Descriptor`, and each resource module instantiates it and proves its own consequences.

**The path checks of ZIP template retrieval** (`sdk/go/common/workspace/templates_zip.go`):

- the guard that keeps an archive entry inside the extraction directory;
- the test that recognises a ZIP template URL.

Unix `filepath.Clean` and `filepath.Join` are modelled lexically in `Paths`.

The modules are:

- `Wrappers`: Option and Result.
- `Resource`: property values and maps, marshal options, object diffs, states and errors.
- `LumiRpc`: the request and response messages, and the client as a record of RPC functions.
- `Paths`: Go path handling.
- `ProviderPlugin`: the client.
- `ResourceStub`: the generic stub.
- `Ec2SecurityGroupEgress`, `Ec2SecurityGroup`, `ApiGatewayApiKey`, `Ec2RouteTable`: the four stubs.
- `TemplatesZip`: the ZIP path checks.

**What becomes a parameter.**

- The RPC client and the plugin loader are function-typed fields and parameters whose results are `Result` values.
- So are the marshaling context, the stubs' operations and their codec (Unmarshal, `PropertyMap.Diff`, marshaling).
- `workspace.InstallRoot()` and `InstallRootLibdir` are parameters.

**Replace keys are concatenated, not merged.**

- A de-duplicating merge of the static replace keys and the provider's own keys might be expected.
- The generated code concatenates the two lists, and the model does the same.
- `Ec2SecurityGroup.VpcFlaggedTwiceIsListedTwice` proves that a key flagged by both sources is listed twice.

## Model

| member | source | states |
|---|---|---|
| `ProviderPlugin.ExecutableName` | pkg/resource/provider_plugin.go:32-46 | The executable name is "lumi-resource-" followed by the package name, position by position, with every qualified-name delimiter turned into `_`. No delimiter survives, and the length is the prefix's plus one plus the package name's. |
| `ProviderPlugin.SearchPaths` | pkg/resource/provider_plugin.go:45-51 | There are exactly two candidates, and the first is the bare executable name. Under a rooted install root, the second is the joined and cleaned directory install root / library directory / package, followed by a separator and the executable name (no extra separator when that directory is the root itself). |
| `ProviderPlugin.SearchPathsNameOneExecutable` | pkg/resource/provider_plugin.go:45-51 | There are exactly two candidates. The first is the bare executable name. The second is a joined path whose last element is that same name. |
| `ProviderPlugin.PluginLabel` | pkg/resource/provider_plugin.go:54 | The plugin is labelled "resource[" followed by the package name and "]", so the label is ten characters longer than the name. |
| `ProviderPlugin.NewProvider` | pkg/resource/provider_plugin.go:44-65 | Construction fails exactly when loading the plugin from the two search paths fails, with the loader's error. On success the provider is exactly the caller's context, the package, the loaded plugin and the client bound to that plugin's connection. |
| `ProviderPlugin.CheckRequestOf` | pkg/resource/provider_plugin.go:72-80 | Check's request carries the type and the properties and unknowns marshaled with old URNs permitted and resources sent raw. |
| `ProviderPlugin.NameRequestOf` | pkg/resource/provider_plugin.go:99-107 | Name's request carries the type and the same properties and unknowns as Check's request for the same inputs. |
| `ProviderPlugin.CreateRequestOf` | pkg/resource/provider_plugin.go:123-126 | Create's request carries the type and the properties marshaled with the default options, without unknowns. |
| `ProviderPlugin.InspectChangeRequestOf` | pkg/resource/provider_plugin.go:170-181 | InspectChange's request carries id and type. Both sides are marshaled with resources sent raw and old URNs refused, and the unknowns are the new side's. |
| `ProviderPlugin.InspectChangeOldsMatchNews` | pkg/resource/provider_plugin.go:176-179 | Because both sides use the same options, the same property map on both sides gives the same wire properties, for a context whose two marshalers agree. |
| `ProviderPlugin.UpdateRequestOf` | pkg/resource/provider_plugin.go:203-210 | Update's request carries id and type. The old side is marshaled with old URNs permitted, the new side with the default options. |
| `ProviderPlugin.Check` | pkg/resource/provider_plugin.go:70-94 | A transport error gives no failures plus that error. Otherwise there is no error and exactly one CheckFailure per response failure, in response order, with property and reason copied. |
| `ProviderPlugin.Name` | pkg/resource/provider_plugin.go:97-118 | It fails exactly when the RPC fails, with the same error. Otherwise it returns the name the plugin reported. |
| `ProviderPlugin.Create` | pkg/resource/provider_plugin.go:121-141 | The state is OK exactly when there is no error, and an OK result always has a non-empty ID. A transport error gives ("", Unknown, err). An empty ID from a successful call gives ("", Unknown) with the empty-ID error naming the package and type. A non-empty ID gives (ID, OK, nil). |
| `ProviderPlugin.Get` | pkg/resource/provider_plugin.go:144-160 | A transport error returns the error and leaves the caller's property map unchanged. Otherwise the unmarshaled properties are merged into the map, and keys the plugin did not report keep their values. |
| `ProviderPlugin.PropertyBag.constructor` | pkg/resource/provider_plugin.go:144 | The caller's property map that Get writes into starts out as the given map. |
| `ProviderPlugin.InspectChange` | pkg/resource/provider_plugin.go:163-194 | It requires a non-empty id and type. It fails exactly when the RPC fails, with that error. Otherwise it returns the plugin's replace keys verbatim and its changes unmarshaled with raw resources. |
| `ProviderPlugin.Classify` | pkg/resource/provider_plugin.go:212-219 | A mutating call's state is OK exactly when it returned no error, which is exactly when the RPC succeeded. A failure's error is passed on. |
| `ProviderPlugin.Update` | pkg/resource/provider_plugin.go:197-220 | It requires a non-empty id and type. A transport error gives (Unknown, err); otherwise (OK, nil). |
| `ProviderPlugin.Delete` | pkg/resource/provider_plugin.go:223-240 | It requires a non-empty id and type. A transport error gives (Unknown, err); otherwise (OK, nil). |
| `ResourceStub.Check` | lib/aws/rpc/ec2/securityGroupEgress.go:48-62 | When decoding lists failures, they are the answer. Otherwise the operations' check runs: its error aborts, and its failures, when there are any, become the answer. |
| `ResourceStub.CheckSkipsOpsOnDecodeFailure` | lib/aws/rpc/ec2/securityGroupEgress.go:51-53 | When decoding lists failures, replacing the operations changes nothing, so their check is never consulted. |
| `ResourceStub.Name` | lib/aws/rpc/ec2/securityGroupEgress.go:64-78 | Any decode error aborts. An empty name gives the "computed from unknown outputs" error exactly when the name key is flagged unknown, and the "cannot be empty" error exactly when it is not. Otherwise it returns the decoded, non-empty name. |
| `ResourceStub.Create` | lib/aws/rpc/ec2/securityGroupEgress.go:80-92 | A decode error aborts. Otherwise it succeeds exactly when the operations' create does, returning its ID verbatim, even when empty, or its error. |
| `ResourceStub.CreateSkipsOpsOnDecodeError` | lib/aws/rpc/ec2/securityGroupEgress.go:83-86 | On a decode error, Create's answer does not depend on the operations. |
| `ResourceStub.Get` | lib/aws/rpc/ec2/securityGroupEgress.go:94-106 | It succeeds exactly when the operations' get does, with the object marshaled; otherwise it returns their error. |
| `ResourceStub.StaticReplaceKeys` | lib/aws/rpc/ec2/securityGroupEgress.go:120-150 | There are never more static replace keys than triggers, every key is a trigger, and without a diff there are none. |
| `ResourceStub.StaticReplaceKeysMembership` | lib/aws/rpc/ec2/securityGroupEgress.go:120-150 | A key is a static replace key exactly when it is a declared trigger and the diff exists and reports it changed. |
| `ResourceStub.StaticReplaceKeysInOrder` | lib/aws/rpc/ec2/securityGroupEgress.go:120-150 | The static replace keys are a subsequence of the triggers, so they keep declaration order. |
| `ResourceStub.StaticReplaceKeysAllChanged` | lib/aws/rpc/ec2/securityGroupEgress.go:120-150 | When every trigger is reported changed, the static keys are exactly the triggers. |
| `ResourceStub.StaticReplaceKeysNoneChanged` | lib/aws/rpc/ec2/securityGroupEgress.go:120-150 | When no trigger is reported changed, or there is no diff, there are no static keys. |
| `ResourceStub.SubsequenceWeaken` | lib/aws/rpc/ec2/securityGroupEgress.go:120-150 | Appending a trigger keeps an ordered selection an ordered selection, the step behind each conditional append. |
| `ResourceStub.SubsequenceDropLast` | lib/aws/rpc/ec2/securityGroupEgress.go:120-150 | Dropping the last selected key keeps an ordered selection an ordered selection. |
| `ResourceStub.InspectChangeOutcome` | lib/aws/rpc/ec2/securityGroupEgress.go:108-158 | An old-side, then new-side, decode error aborts with that error. Otherwise it succeeds exactly when the operations' inspection does, passing on its error. On success the replace keys start with the static replace keys and continue with exactly the operations' keys, and no changes are reported. |
| `ResourceStub.InspectChange` | lib/aws/rpc/ec2/securityGroupEgress.go:108-158 | The appending loop computes InspectChangeOutcome. An old-side, then new-side, decode error aborts. Otherwise the answer is the changed triggers in declaration order, followed by the operations' keys with no de-duplication, or the operations' error. |
| `ResourceStub.ChangedTriggerIsReplaced` | lib/aws/rpc/ec2/securityGroupEgress.go:121-157 | A trigger the diff reports changed is always among the replace keys, whatever the operations add. |
| `ResourceStub.ReplaceKeysAccountedFor` | lib/aws/rpc/ec2/securityGroupEgress.go:120-157 | Every replace key is either a changed trigger or one of the operations' keys. |
| `ResourceStub.NoDiffMeansOpsKeys` | lib/aws/rpc/ec2/securityGroupEgress.go:121-122 | With no diff, the replace keys are exactly the operations' keys. |
| `ResourceStub.InspectChangeReportsOldDecodeErrorFirst` | lib/aws/rpc/ec2/securityGroupEgress.go:112-119 | When the old properties fail to decode, that error is reported, whatever the new side and the operations do. |
| `ResourceStub.Update` | lib/aws/rpc/ec2/securityGroupEgress.go:160-177 | An old-side, then new-side, decode error aborts. Otherwise it succeeds exactly when the operations' update reports no error, and otherwise returns that error. |
| `ResourceStub.UpdateSkipsDiffAndOpsOnDecodeError` | lib/aws/rpc/ec2/securityGroupEgress.go:164-173 | When either side fails to decode, Update's answer depends neither on the diff nor on the operations. |
| `ResourceStub.Delete` | lib/aws/rpc/ec2/securityGroupEgress.go:179-187 | It succeeds exactly when the operations' delete does; otherwise it returns that error. |
| `Ec2SecurityGroupEgress.NewProvider` | lib/aws/rpc/ec2/securityGroupEgress.go:43-46 | The stub delegates to the given operations and serves this resource's token, name key and triggers, and every trigger is a schema field. |
| `Ec2SecurityGroupEgress.StaticKeysAreChangedFields` | lib/aws/rpc/ec2/securityGroupEgress.go:120-150 | A key is a static replace key exactly when it is one of the nine schema fields and changed, and the keys appear in schema order. |
| `Ec2SecurityGroupEgress.AllFieldsChanged` | lib/aws/rpc/ec2/securityGroupEgress.go:120-150 | When every field changed, the static keys are all nine fields in declaration order. |
| `Ec2SecurityGroup.NewProvider` | lib/aws/rpc/ec2/securityGroup.go:43-46 | The stub delegates to the given operations and serves this resource's token, name key and triggers, and every trigger is a schema field. |
| `Ec2SecurityGroup.RulesAndGroupIdNeverStatic` | lib/aws/rpc/ec2/securityGroup.go:120-135 | securityGroupEgress, securityGroupIngress and groupID are never static replace keys, whatever the diff. |
| `Ec2SecurityGroup.VpcOnlyStaticKeys` | lib/aws/rpc/ec2/securityGroup.go:120-135 | When the diff reports only the VPC changed, the static replace keys are exactly ["vpc"]. |
| `Ec2SecurityGroup.VpcChangeReplaces` | lib/aws/rpc/ec2/securityGroup.go:108-142 | When only the VPC changed and the operations add nothing, the replace keys are exactly ["vpc"]. |
| `Ec2SecurityGroup.IngressChangeReplacesNothing` | lib/aws/rpc/ec2/securityGroup.go:108-142 | When only the ingress rules changed and the operations add nothing, there are no replace keys. |
| `Ec2SecurityGroup.VpcFlaggedTwiceIsListedTwice` | lib/aws/rpc/ec2/securityGroup.go:136-142 | When the VPC changed and the operations also flag it, the replace keys are ["vpc", "vpc"]. |
| `ApiGatewayApiKey.NewProvider` | lib/aws/rpc/apigateway/apiKey.go:43-46 | The stub delegates to the given operations and serves this resource's token, name key and triggers, and every trigger is a schema field. |
| `ApiGatewayApiKey.MutableFieldsNeverStatic` | lib/aws/rpc/apigateway/apiKey.go:120-129 | description, enabled and stageKeys are never static replace keys. |
| `ApiGatewayApiKey.EmptyNameErrors` | lib/aws/rpc/apigateway/apiKey.go:64-78 | An empty decoded name gives the unknown-outputs error when the name is flagged unknown, and the empty-name error otherwise. |
| `Ec2RouteTable.NewProvider` | lib/aws/rpc/ec2/routeTable.go:43-46 | The stub delegates to the given operations and serves this resource's token, name key and triggers, and every trigger is a schema field. |
| `Ec2RouteTable.StaticKeysAreChangedFields` | lib/aws/rpc/ec2/routeTable.go:120-129 | The static replace keys are name, if changed, then vpc, if changed, and each is a schema field. |
| `Ec2RouteTable.DeleteFollowsOps` | lib/aws/rpc/ec2/routeTable.go:158-166 | Delete gives an empty success exactly when the operations' delete succeeds. |
| `TemplatesZip.SanitizeArchivePath` | sdk/go/common/workspace/templates_zip.go:30-37 | An entry is accepted exactly when the cleaned directory is a string prefix of the joined path, and the joined path is returned. A rejection is the "content filepath is tainted" error naming the entry. |
| `TemplatesZip.PlainEntriesAccepted` | sdk/go/common/workspace/templates_zip.go:30-37 | Under a rooted directory, every entry without ".." elements is accepted as the joined path, by both the guard as written and the corrected guard. |
| `TemplatesZip.ParentEscapeRejected` | sdk/go/common/workspace/templates_zip.go:30-37 | The entry "../x" under "/tmp/a", which would land at "/tmp/x", is rejected as tainted. |
| `TemplatesZip.SiblingEscapeAccepted` | sdk/go/common/workspace/templates_zip.go:32 | The entry "../ab/x" under "/tmp/a" is accepted as "/tmp/ab/x", although that path does not lie inside "/tmp/a". |
| `TemplatesZip.SanitizeArchivePathWithin` | sdk/go/common/workspace/templates_zip.go:30-37 | With the prefix test stopping at element boundaries, an accepted path is the joined path. It is clean, it is rooted exactly when the directory is, and the directory's elements are its leading elements. |
| `TemplatesZip.SanitizeArchivePathWithinExactly` | sdk/go/common/workspace/templates_zip.go:30-37 | Under a rooted directory, the corrected guard accepts an entry, as the joined path, exactly when that path lies inside the cleaned directory, and otherwise rejects it as tainted. |
| `TemplatesZip.SiblingEscapeRejected` | sdk/go/common/workspace/templates_zip.go:32 | The corrected guard rejects "../ab/x" under "/tmp/a". |
| `TemplatesZip.WithinDirIsInside` | sdk/go/common/workspace/templates_zip.go:32 | A string prefix that ends at an element boundary means containment by path elements. |
| `TemplatesZip.PlainEntryStaysWithin` | sdk/go/common/workspace/templates_zip.go:31-32 | Joining a rooted directory with an entry without ".." elements gives a path the cleaned directory prefixes at an element boundary. |
| `TemplatesZip.IsZipTemplateURL` | sdk/go/common/workspace/templates_zip.go:39-42 | A URL path is a ZIP template path exactly when it ends in ".zip", which makes the non-emptiness test redundant. |
| `TemplatesZip.ZipPathsAreTemplates` | sdk/go/common/workspace/templates_zip.go:39-42 | Every path ending in ".zip" is recognised. |
| `Resource.Message` | pkg/resource/provider_plugin.go:136-139 | A passed-on error keeps its text. The empty-ID text quotes the package and then the type, at fixed positions, and the tainted-entry text ends with the entry. |
| `Resource.MessageDeterminesKind` | lib/aws/rpc/ec2/securityGroupEgress.go:71-75 | Among the errors the model raises itself, the text tells the kind: an empty-ID text is never another kind's, and the two name errors and each tainted entry have texts of their own. |
| `Paths.ReplaceAll` | pkg/resource/provider_plugin.go:46 | Replacing every occurrence of a character keeps the length, maps each position independently, and leaves no occurrence behind. |
| `Paths.Split` | sdk/go/common/workspace/templates_zip.go:31-32 | Splitting on the separator yields at least one element, and no element contains a separator. |
| `Paths.SplitAppend` | sdk/go/common/workspace/templates_zip.go:31 | Splitting distributes over a separator: the parts of a/b are the parts of a followed by those of b. |
| `Paths.SplitJoinSep` | pkg/resource/provider_plugin.go:49-50 | Splitting undoes joining with the separator, for elements that hold none. |
| `Paths.Clean` | sdk/go/common/workspace/templates_zip.go:32 | Cleaning never yields the empty path. |
| `Paths.CleanIdempotent` | sdk/go/common/workspace/templates_zip.go:32 | Cleaning a clean path changes nothing. |
| `Paths.WalkWithoutParent` | sdk/go/common/workspace/templates_zip.go:31 | Without ".." elements, cleaning only appends the kept elements. |
| `Paths.Join` | sdk/go/common/workspace/templates_zip.go:31 | Joining gives the empty path exactly when every element is empty, and a non-empty result is already clean. |
| `Paths.CleanAppendPlain` | sdk/go/common/workspace/templates_zip.go:31 | Cleaning a rooted path followed by a plain element gives the cleaned path, a separator unless it is the root, and the element. |
| `Paths.JoinAppendPlain` | pkg/resource/provider_plugin.go:49-50 | Joining a plain last element after rooted elements appends it to their join, with a separator unless that join is the root. |
| `Paths.ElementsOfRooted` | sdk/go/common/workspace/templates_zip.go:32 | The non-empty elements of a rooted path rendered from a clean element list are exactly that list. |
| `Paths.JoinEndsInPlain` | pkg/resource/provider_plugin.go:49-50 | Joining keeps a last element that is not ".", ".." or empty as the last element of the result. |

## Left out

- Plugin loading: `newPlugin`, process spawning, the gRPC channel and `Close` are not modelled. Loading is a parameter returning a plugin or an error, and the client is a record of RPC functions.
- `Pkg()` is the provider's `pkg` field and has no separate member.
- `workspace.InstallRoot()` and `InstallRootLibdir` are parameters of `SearchPaths` and `NewProvider`.
- `tokens.QNameDelimiter` is declared in `pkg/tokens`, which is not part of this model. It is taken to be `/`.
- Marshaling is an uninterpreted function of the context, and only the option flags each call site passes are recorded. This covers `MarshalProperties`, `MarshalPropertiesWithUnknowns`, `UnmarshalProperties` and the stubs' `Unmarshal` with `mapper.MapIU`. `PropertyMap.Diff` and `ObjectDiff.Changed` are likewise uninterpreted.
- `ProviderPlugin.Get`: `UnmarshalPropertiesInto` is not part of this model. It is taken to overwrite the reported keys and keep all others, a map merge.
- `resource.NewCheckResponse` is not part of this model. The stub's `Check` returns the decode error the response is built from.
- The text of a `mapper.DecodeError` is not modelled; decode errors carry their field failures.
- The AWS operations behind each stub are parameters.
- The generated object types are represented by their name and a property map. The `float64` port fields are opaque values compared only for equality.
- Request contexts, cancellation and `glog` logging carry no behaviour here and are left out.
- `ResourceStub.Check` and `ResourceStub.InspectChange` take the stub's `contract.Assert` on the type token as a precondition; the other stub members do the same. An assertion failure is a panic, not a result.
- `TemplatesZip.IsZipTemplateURL` takes the path component of the parsed URL. `url.Parse` is foreign. When parsing fails, the source dereferences the nil URL it returns; the model does not capture that panic.
- `retrieveZIPTemplates` and `RetrieveZIPTemplateFolder` are HTTP download, temporary directories, file creation and copying, and are left out.
- `Paths` models Unix path semantics only: `/` is the separator and there are no volume names.

## Findings

| source | as written | input that shows it | evidently intended | confidence | as-written member | corrected member |
|---|---|---|---|---|---|---|
| sdk/go/common/workspace/templates_zip.go:32 | The entry is accepted when the cleaned directory is a string prefix of the joined path, so a sibling directory whose name extends the directory's name passes. | d = "/tmp/a", t = "../ab/x": the joined path "/tmp/ab/x" starts with "/tmp/a" and is accepted, although it lies outside "/tmp/a". | Accept only paths at or below the directory, so the prefix must end at a path element boundary. | not executed; the model proves it for this input | `TemplatesZip.SiblingEscapeAccepted` | `TemplatesZip.SanitizeArchivePathWithin` |
