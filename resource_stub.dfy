/** The provider side of the RPC protocol: the generated per-resource stub that decodes each
    request, gates on decode errors, computes the static replace keys and delegates to the
    resource's operations. The generated stubs differ only in their type token, their
    schema fields and their ordered list of static replace triggers, so one stub
    parameterised by a Descriptor stands for all of them. */
module ResourceStub {
  import opened Wrappers
  import opened Resource
  import opened LumiRpc

  /** What distinguishes one generated stub from another. */
  datatype Descriptor = Descriptor(
    token: string,          // the resource type token every request must carry
    nameKey: string,        // the property holding the resource's name
    fields: seq<string>,    // the schema's property names
    triggers: seq<string>)  // the properties whose change forces a replacement, in order

  /** The typed object a property map decodes into; the stub reads only its name. */
  datatype Object = Object(name: string, fields: PropertyMap)

  /** Unmarshal's results: the object, the raw property map, and the decode error (None when
      it is nil; a non-nil error may still list no failures). */
  datatype Decoded = Decoded(obj: Object, props: PropertyMap, decerr: Option<seq<FieldError>>)

  /** The resource's operations, supplied by the provider's implementation. */
  datatype Ops = Ops(
    check: Object -> Result<seq<FieldError>, Error>,
    create: Object -> Result<string, Error>,
    get: string -> Result<Object, Error>,
    inspectChange: (string, Object, Object, Option<ObjectDiff>) -> Result<seq<string>, Error>,
    update: (string, Object, Object, Option<ObjectDiff>) -> Option<Error>,
    delete: string -> Option<Error>)

  /** The conversions the stub relies on: Unmarshal (property unmarshaling and mapping onto
      the object), PropertyMap.Diff, and marshaling an object back to the wire. */
  datatype Codec = Codec(
    unmarshal: Struct -> Decoded,
    diff: (PropertyMap, PropertyMap) -> Option<ObjectDiff>,
    marshal: Object -> Struct)

  datatype Stub = Stub(desc: Descriptor, ops: Ops, codec: Codec)

  /** The failures a decode error lists; a nil error lists none. */
  function Failures(decerr: Option<seq<FieldError>>): seq<FieldError>
  {
    if decerr.Some? then decerr.value else []
  }

  // ---------------------------------------------------------------------------------------
  // Check

  /** Check answers with the decode error the response is built from. The operations'
      check runs only when decoding listed no failures; its error aborts, and its failures,
      when there are any, replace the decode result. */
  function Check(s: Stub, req: CheckRequest): (r: Result<Option<seq<FieldError>>, Error>)
    requires req.resourceType == s.desc.token
    ensures var d := s.codec.unmarshal(req.properties);
      var opsResult := s.ops.check(d.obj);
      (|Failures(d.decerr)| > 0 ==> r == Success(d.decerr)) &&
      (r.Failure? <==> |Failures(d.decerr)| == 0 && opsResult.Failure?) &&
      (r.Failure? ==> r.error == opsResult.error) &&
      (r.Success? && |Failures(d.decerr)| == 0 ==>
        Failures(r.value) == opsResult.value)
  {
    var d := s.codec.unmarshal(req.properties);
    if d.decerr == None || |d.decerr.value| == 0 then
      match s.ops.check(d.obj)
      case Failure(e) => Failure(e)
      case Success(failures) =>
        if |failures| > 0 then Success(Some(failures)) else Success(d.decerr)
    else
      Success(d.decerr)
  }

  /** When decoding lists failures, the operations' check is never consulted: any other
      operations give the same answer. */
  lemma CheckSkipsOpsOnDecodeFailure(s: Stub, ops: Ops, req: CheckRequest)
    requires req.resourceType == s.desc.token
    requires |Failures(s.codec.unmarshal(req.properties).decerr)| > 0
    ensures Check(s, req) == Check(s.(ops := ops), req)
  {
  }

  // ---------------------------------------------------------------------------------------
  // Name

  /** Name: a decode error aborts; an empty name is an error, whose kind depends on whether
      the name property is flagged unknown; otherwise the decoded name. */
  function Name(s: Stub, req: NameRequest): (r: Result<NameResponse, Error>)
    requires req.resourceType == s.desc.token
    ensures var d := s.codec.unmarshal(req.properties);
      (d.decerr.Some? ==> r == Failure(Decode(d.decerr.value))) &&
      (r.Success? <==> d.decerr.None? && d.obj.name != "") &&
      (r.Success? ==> r.value.name == d.obj.name && r.value.name != "") &&
      (r == Failure(NameFromUnknown) <==>
        d.decerr.None? && d.obj.name == "" && Flag(req.unknowns, s.desc.nameKey)) &&
      (r == Failure(NameEmpty) <==>
        d.decerr.None? && d.obj.name == "" && !Flag(req.unknowns, s.desc.nameKey))
  {
    var d := s.codec.unmarshal(req.properties);
    if d.decerr.Some? then Failure(Decode(d.decerr.value))
    else if d.obj.name == "" then
      if Flag(req.unknowns, s.desc.nameKey) then Failure(NameFromUnknown) else Failure(NameEmpty)
    else Success(NameResponse(d.obj.name))
  }

  // ---------------------------------------------------------------------------------------
  // Create and Get

  /** Create: a decode error aborts before the operations are reached; otherwise the
      operations' ID is returned verbatim, even when it is empty. */
  function Create(s: Stub, req: CreateRequest): (r: Result<CreateResponse, Error>)
    requires req.resourceType == s.desc.token
    ensures var d := s.codec.unmarshal(req.properties);
      (d.decerr.Some? ==> r == Failure(Decode(d.decerr.value))) &&
      (d.decerr.None? ==>
        (r.Success? <==> s.ops.create(d.obj).Success?) &&
        (r.Success? ==> r.value.id == s.ops.create(d.obj).value) &&
        (r.Failure? ==> r.error == s.ops.create(d.obj).error))
  {
    var d := s.codec.unmarshal(req.properties);
    if d.decerr.Some? then Failure(Decode(d.decerr.value))
    else
      match s.ops.create(d.obj)
      case Failure(e) => Failure(e)
      case Success(id) => Success(CreateResponse(id))
  }

  /** A decode error in Create makes the operations irrelevant. */
  lemma CreateSkipsOpsOnDecodeError(s: Stub, ops: Ops, req: CreateRequest)
    requires req.resourceType == s.desc.token
    requires s.codec.unmarshal(req.properties).decerr.Some?
    ensures Create(s, req) == Create(s.(ops := ops), req)
  {
  }

  /** Get: the operations' object, marshaled, or their error. */
  function Get(s: Stub, req: GetRequest): (r: Result<GetResponse, Error>)
    requires req.resourceType == s.desc.token
    ensures var got := s.ops.get(req.id);
      (r.Success? <==> got.Success?) &&
      (r.Success? ==> r.value.properties == s.codec.marshal(got.value)) &&
      (r.Failure? ==> r.error == got.error)
  {
    match s.ops.get(req.id)
    case Failure(e) => Failure(e)
    case Success(obj) => Success(GetResponse(s.codec.marshal(obj)))
  }

  // ---------------------------------------------------------------------------------------
  // InspectChange

  /** The static replace keys: the declared triggers that the diff reports changed, in
      declaration order; none when there is no diff. */
  function StaticReplaceKeys(triggers: seq<string>, diff: Option<ObjectDiff>): (keys: seq<string>)
    ensures |keys| <= |triggers|
    ensures forall k :: k in keys ==> k in triggers
    ensures diff.None? ==> keys == []
  {
    if triggers == [] || diff.None? then []
    else
      var last := triggers[|triggers| - 1];
      StaticReplaceKeys(triggers[..|triggers| - 1], diff) +
        (if diff.value.changed(last) then [last] else [])
  }

  /** A key is a static replace key exactly when it is a declared trigger and the diff
      reports it changed. */
  lemma {:induction false} StaticReplaceKeysMembership(triggers: seq<string>, diff: Option<ObjectDiff>, k: string)
    ensures k in StaticReplaceKeys(triggers, diff) <==> k in triggers && diff.Some? && diff.value.changed(k)
    decreases |triggers|
  {
    if triggers != [] && diff.Some? {
      var init := triggers[..|triggers| - 1];
      assert triggers == init + [triggers[|triggers| - 1]];
      StaticReplaceKeysMembership(init, diff, k);
    }
  }

  /** When the diff reports every trigger changed, every trigger is a static replace key, in
      declaration order. */
  lemma {:induction false} StaticReplaceKeysAllChanged(triggers: seq<string>, diff: ObjectDiff)
    requires forall k :: k in triggers ==> diff.changed(k)
    ensures StaticReplaceKeys(triggers, Some(diff)) == triggers
    decreases |triggers|
  {
    if triggers != [] {
      var init := triggers[..|triggers| - 1];
      assert triggers == init + [triggers[|triggers| - 1]];
      StaticReplaceKeysAllChanged(init, diff);
    }
  }

  /** When no trigger is reported changed, there are no static replace keys. */
  lemma StaticReplaceKeysNoneChanged(triggers: seq<string>, diff: Option<ObjectDiff>)
    requires forall k :: k in triggers ==> !(diff.Some? && diff.value.changed(k))
    ensures StaticReplaceKeys(triggers, diff) == []
  {
    var keys := StaticReplaceKeys(triggers, diff);
    if keys != [] {
      StaticReplaceKeysMembership(triggers, diff, keys[0]);
      assert false;
    }
  }

  /** `xs` lists some of the elements of `ys`, in the same order. */
  predicate Subsequence(xs: seq<string>, ys: seq<string>)
    decreases |ys|
  {
    if xs == [] then true
    else if ys == [] then false
    else if xs[|xs| - 1] == ys[|ys| - 1] then Subsequence(xs[..|xs| - 1], ys[..|ys| - 1])
    else Subsequence(xs, ys[..|ys| - 1])
  }


  /** The static replace keys keep the declaration order of the triggers. */
  lemma {:induction false} StaticReplaceKeysInOrder(triggers: seq<string>, diff: Option<ObjectDiff>)
    ensures Subsequence(StaticReplaceKeys(triggers, diff), triggers)
    decreases |triggers|
  {
    if triggers != [] && diff.Some? {
      var init := triggers[..|triggers| - 1];
      var last := triggers[|triggers| - 1];
      var prefix := StaticReplaceKeys(init, diff);
      StaticReplaceKeysInOrder(init, diff);
      if diff.value.changed(last) {
        assert (prefix + [last])[..|prefix|] == prefix;
      } else {
        assert prefix + [] == prefix;
        SubsequenceWeaken(prefix, init, last);
      }
    }
  }

  lemma {:induction false} SubsequenceWeaken(xs: seq<string>, ys: seq<string>, y: string)
    requires Subsequence(xs, ys)
    ensures Subsequence(xs, ys + [y])
    decreases |ys|, 1
  {
    var zs := ys + [y];
    assert zs[..|zs| - 1] == ys;
    if xs != [] && xs[|xs| - 1] == y {
      // Matching y against the last element of xs leaves xs minus its last element, which is
      // a subsequence of ys because xs is.
      SubsequenceDropLast(xs, ys);
    }
  }

  lemma {:induction false} SubsequenceDropLast(xs: seq<string>, ys: seq<string>)
    requires xs != [] && Subsequence(xs, ys)
    ensures Subsequence(xs[..|xs| - 1], ys)
    decreases |ys|, 0
  {
    assert ys != [];
    var ys' := ys[..|ys| - 1];
    if xs[|xs| - 1] == ys[|ys| - 1] {
      SubsequenceWeaken(xs[..|xs| - 1], ys', ys[|ys| - 1]);
      assert ys' + [ys[|ys| - 1]] == ys;
    } else {
      SubsequenceDropLast(xs, ys');
      SubsequenceWeaken(xs[..|xs| - 1], ys', ys[|ys| - 1]);
      assert ys' + [ys[|ys| - 1]] == ys;
    }
  }

  /** What InspectChange answers: a decode error of the old properties, then of the new ones,
      aborts; otherwise the static replace keys followed by the operations' own keys, without
      removing duplicates, or the operations' error. The generated stubs report no changes. */
  function InspectChangeOutcome(s: Stub, req: InspectChangeRequest): (r: Result<InspectChangeResponse, Error>)
    ensures var before := s.codec.unmarshal(req.olds);
      var after := s.codec.unmarshal(req.news);
      (before.decerr.Some? ==> r == Failure(Decode(before.decerr.value))) &&
      (before.decerr.None? && after.decerr.Some? ==> r == Failure(Decode(after.decerr.value))) &&
      (before.decerr.None? && after.decerr.None? ==>
        var diff := s.codec.diff(before.props, after.props);
        var more := s.ops.inspectChange(req.id, before.obj, after.obj, diff);
        (r.Success? <==> more.Success?) &&
        (r.Failure? ==> r.error == more.error) &&
        (r.Success? ==>
          StaticReplaceKeys(s.desc.triggers, diff) <= r.value.replaceKeys &&
          r.value.replaceKeys[|StaticReplaceKeys(s.desc.triggers, diff)|..] == more.value &&
          r.value.changes == map[]))
  {
    var before := s.codec.unmarshal(req.olds);
    var after := s.codec.unmarshal(req.news);
    if before.decerr.Some? then Failure(Decode(before.decerr.value))
    else if after.decerr.Some? then Failure(Decode(after.decerr.value))
    else
      var diff := s.codec.diff(before.props, after.props);
      match s.ops.inspectChange(req.id, before.obj, after.obj, diff)
      case Failure(e) => Failure(e)
      case Success(more) => Success(InspectChangeResponse(StaticReplaceKeys(s.desc.triggers, diff) + more, map[]))
  }

  /** InspectChange, appending each changed trigger in turn, then the operations' keys. */
  method InspectChange(s: Stub, req: InspectChangeRequest) returns (r: Result<InspectChangeResponse, Error>)
    requires req.resourceType == s.desc.token
    ensures r == InspectChangeOutcome(s, req)
  {
    var before := s.codec.unmarshal(req.olds);
    if before.decerr.Some? {
      return Failure(Decode(before.decerr.value));
    }
    var after := s.codec.unmarshal(req.news);
    if after.decerr.Some? {
      return Failure(Decode(after.decerr.value));
    }
    var keys: seq<string> := [];
    var diff := s.codec.diff(before.props, after.props);
    if diff.Some? {
      var triggers := s.desc.triggers;
      for i := 0 to |triggers|
        invariant keys == StaticReplaceKeys(triggers[..i], diff)
      {
        assert triggers[..i + 1][..i] == triggers[..i];
        if diff.value.changed(triggers[i]) {
          keys := keys + [triggers[i]];
        }
      }
      assert triggers[..|triggers|] == triggers;
    }
    var more := s.ops.inspectChange(req.id, before.obj, after.obj, diff);
    if more.Failure? {
      return Failure(more.error);
    }
    r := Success(InspectChangeResponse(keys + more.value, map[]));
  }

  /** A changed trigger is always replaced, whatever the operations add. */
  lemma ChangedTriggerIsReplaced(s: Stub, req: InspectChangeRequest, k: string)
    requires InspectChangeOutcome(s, req).Success?
    requires k in s.desc.triggers
    requires var diff := s.codec.diff(s.codec.unmarshal(req.olds).props, s.codec.unmarshal(req.news).props);
      diff.Some? && diff.value.changed(k)
    ensures k in InspectChangeOutcome(s, req).value.replaceKeys
  {
    var diff := s.codec.diff(s.codec.unmarshal(req.olds).props, s.codec.unmarshal(req.news).props);
    StaticReplaceKeysMembership(s.desc.triggers, diff, k);
  }

  /** Every replace key is either a changed trigger or one of the operations' keys. */
  lemma ReplaceKeysAccountedFor(s: Stub, req: InspectChangeRequest, k: string)
    requires InspectChangeOutcome(s, req).Success?
    requires k in InspectChangeOutcome(s, req).value.replaceKeys
    ensures var before := s.codec.unmarshal(req.olds);
      var after := s.codec.unmarshal(req.news);
      var diff := s.codec.diff(before.props, after.props);
      (k in s.desc.triggers && diff.Some? && diff.value.changed(k)) ||
      k in s.ops.inspectChange(req.id, before.obj, after.obj, diff).value
  {
    var diff := s.codec.diff(s.codec.unmarshal(req.olds).props, s.codec.unmarshal(req.news).props);
    StaticReplaceKeysMembership(s.desc.triggers, diff, k);
  }

  /** Without a diff there are no static replace keys: the answer is the operations' keys. */
  lemma NoDiffMeansOpsKeys(s: Stub, req: InspectChangeRequest)
    requires InspectChangeOutcome(s, req).Success?
    requires s.codec.diff(s.codec.unmarshal(req.olds).props, s.codec.unmarshal(req.news).props).None?
    ensures var before := s.codec.unmarshal(req.olds);
      var after := s.codec.unmarshal(req.news);
      InspectChangeOutcome(s, req).value.replaceKeys ==
        s.ops.inspectChange(req.id, before.obj, after.obj, None).value
  {
    var keys := InspectChangeOutcome(s, req).value.replaceKeys;
    assert [] + keys == keys;
  }

  /** The old properties are decoded first: when both sides fail, the old side's error is
      reported, and the operations play no part. */
  lemma InspectChangeReportsOldDecodeErrorFirst(s: Stub, ops: Ops, req: InspectChangeRequest)
    requires s.codec.unmarshal(req.olds).decerr.Some?
    ensures InspectChangeOutcome(s, req) == Failure(Decode(s.codec.unmarshal(req.olds).decerr.value))
    ensures InspectChangeOutcome(s.(ops := ops), req) == InspectChangeOutcome(s, req)
  {
  }

  // ---------------------------------------------------------------------------------------
  // Update and Delete

  /** Update: a decode error of the old properties, then of the new ones, aborts before the
      diff is taken or the operations run; otherwise the operations' verdict. */
  function Update(s: Stub, req: UpdateRequest): (r: Result<Empty, Error>)
    requires req.resourceType == s.desc.token
    ensures var before := s.codec.unmarshal(req.olds);
      var after := s.codec.unmarshal(req.news);
      (before.decerr.Some? ==> r == Failure(Decode(before.decerr.value))) &&
      (before.decerr.None? && after.decerr.Some? ==> r == Failure(Decode(after.decerr.value))) &&
      (before.decerr.None? && after.decerr.None? ==>
        var verdict := s.ops.update(req.id, before.obj, after.obj, s.codec.diff(before.props, after.props));
        (r.Success? <==> verdict.None?) && (r.Failure? ==> verdict == Some(r.error)))
  {
    var before := s.codec.unmarshal(req.olds);
    if before.decerr.Some? then Failure(Decode(before.decerr.value))
    else
      var after := s.codec.unmarshal(req.news);
      if after.decerr.Some? then Failure(Decode(after.decerr.value))
      else
        var diff := s.codec.diff(before.props, after.props);
        match s.ops.update(req.id, before.obj, after.obj, diff)
        case Some(e) => Failure(e)
        case None => Success(Empty)
  }

  /** An Update whose inputs do not decode depends neither on the diff nor on the
      operations. */
  lemma UpdateSkipsDiffAndOpsOnDecodeError(s: Stub, ops: Ops, codec: Codec, req: UpdateRequest)
    requires req.resourceType == s.desc.token
    requires codec.unmarshal == s.codec.unmarshal
    requires s.codec.unmarshal(req.olds).decerr.Some? || s.codec.unmarshal(req.news).decerr.Some?
    ensures Update(s, req) == Update(Stub(s.desc, ops, codec), req)
  {
  }

  /** Delete: success exactly when the operations' delete succeeds. */
  function Delete(s: Stub, req: DeleteRequest): (r: Result<Empty, Error>)
    requires req.resourceType == s.desc.token
    ensures r.Success? <==> s.ops.delete(req.id).None?
    ensures r.Failure? ==> s.ops.delete(req.id) == Some(r.error)
  {
    match s.ops.delete(req.id)
    case Some(e) => Failure(e)
    case None => Success(Empty)
  }
}
