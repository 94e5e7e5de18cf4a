/** The orchestrator's resource vocabulary (package `resource`): property values and maps,
    marshaling options, object diffs, check failures, resource states and the errors that the
    provider client and the generated stubs return. */
module Resource {

  /** A property value. Numbers are kept opaque: they are only ever compared for equality. */
  datatype PropertyValue =
    | NullValue
    | BoolValue(b: bool)
    | NumberValue(bits: int)
    | StringValue(s: string)
    | ArrayValue(elems: seq<PropertyValue>)
    | ObjectValue(fields: map<string, PropertyValue>)
    | Computed

  /** A property bag, keyed by property name. */
  type PropertyMap = map<string, PropertyValue>

  /** The flags a call site hands to MarshalProperties: whether old URNs may stand for
      resources, and whether resource references travel unresolved. */
  datatype MarshalOptions = MarshalOptions(oldURNs: bool, rawResources: bool)

  const DefaultOptions := MarshalOptions(false, false)

  /** The result of PropertyMap.Diff; its Changed query is opaque to this model. */
  datatype ObjectDiff = ObjectDiff(changed: string -> bool)

  /** A field the provider rejected, with the reason (mapper.FieldError). */
  datatype FieldError = FieldError(field: string, reason: string)

  /** A validation failure as the orchestrator reports it. */
  datatype CheckFailure = CheckFailure(property: string, reason: string)

  /** Whether the outcome of a mutating call is known. */
  datatype State = StateOK | StateUnknown

  datatype Error =
    /** An error from the RPC channel, the plugin loader or a provider operation, passed on
        unchanged. */
    | External(message: string)
    /** A Create that succeeded on the wire but returned no ID. */
    | EmptyCreateID(pkg: string, resourceType: string)
    /** A decode failure (mapper.DecodeError) with its field failures. */
    | Decode(failures: seq<FieldError>)
    /** Name's error when the name property is empty and marked unknown. */
    | NameFromUnknown
    /** Name's error when the name property is empty. */
    | NameEmpty
    /** sanitizeArchivePath's rejection of an archive entry. */
    | Tainted(entry: string)

  /** The start both of Name's error texts share. */
  const NameErrorPrefix := "Name property cannot be "

  /** The text each error carries; a decode error's text belongs to the mapper package,
      which is not part of this model. The empty-ID text names the package and the type in
      quotes; the tainted-entry text ends with the entry. */
  function Message(e: Error): (m: string)
    requires !e.Decode?
    ensures e.External? ==> m == e.message
    ensures e.EmptyCreateID? ==>
      |m| == 20 + |e.pkg| + 33 + |e.resourceType| + 1 &&
      m[20..20 + |e.pkg|] == e.pkg && m[|m| - 1 - |e.resourceType|..|m| - 1] == e.resourceType
    ensures e.Tainted? ==> |m| == 29 + |e.entry| && m[29..] == e.entry
  {
    match e
    case External(m) => m
    case EmptyCreateID(pkg, t) =>
      "plugin for package '" + pkg + "' returned empty ID from create '" + t + "'"
    case NameFromUnknown => NameErrorPrefix + "computed from unknown outputs"
    case NameEmpty => NameErrorPrefix + "empty"
    case Tainted(t) => "content filepath is tainted: " + t
  }

  /** Apart from passed-on errors, a message tells which error it reports: an empty-ID text
      is never the text of another kind, and the other kinds have one text per error. */
  lemma MessageDeterminesKind(e1: Error, e2: Error)
    requires !e1.Decode? && !e1.External? && !e2.Decode? && !e2.External?
    requires Message(e1) == Message(e2)
    ensures e1.EmptyCreateID? <==> e2.EmptyCreateID?
    ensures !e1.EmptyCreateID? ==> e1 == e2
  {
    assert Message(e1)[0] == Initial(e1) by { InitialOfMessage(e1); }
    assert Message(e2)[0] == Initial(e2) by { InitialOfMessage(e2); }
    if e1.NameFromUnknown? || e1.NameEmpty? {
      assert |NameErrorPrefix| == 24;
      assert Message(e1)[24] == (if e1.NameFromUnknown? then 'c' else 'e');
      assert Message(e2)[24] == (if e2.NameFromUnknown? then 'c' else 'e');
    }
  }

  /** The first character of each fixed message. */
  function Initial(e: Error): char
  {
    if e.EmptyCreateID? then 'p' else if e.Tainted? then 'c' else 'N'
  }

  lemma InitialOfMessage(e: Error)
    requires !e.Decode? && !e.External?
    ensures |Message(e)| > 0 && Message(e)[0] == Initial(e)
  {
    match e
    case EmptyCreateID(pkg, t) =>
      var a := "plugin for package '" + pkg;
      assert a[0] == 'p';
      var b := a + "' returned empty ID from create '";
      assert b[0] == 'p';
      assert (b + t)[0] == 'p';
    case Tainted(t) =>
      var a := "content filepath is tainted: ";
      assert a[0] == 'c';
      assert (a + t)[0] == 'c';
    case NameFromUnknown =>
      assert NameErrorPrefix[0] == 'N';
    case NameEmpty =>
      assert NameErrorPrefix[0] == 'N';
  }
}
