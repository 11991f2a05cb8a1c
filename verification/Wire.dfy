/** src/wire.ts: requests and responses as JSON, and back. Payloads go through the application's
    codecs. An encoder passes its result through canonical text and parses it, which puts keys in order. */
module Wire {
  import opened Protocol
  import opened Validators
  import opened CanonicalJson
  import opened JsonObjects
  import opened JsonParser

  /** The decoder may throw; the encoder gives a finite JSON value. */
  datatype Codec<!V> = Codec(encode: V -> Json, decode: Json -> Option<V>)

  /** Decoding what was encoded, after it has been through text, gives the value back. */
  ghost predicate RoundTrips<V(!new)>(codec: Codec<V>) {
    forall v :: Valid(codec.encode(v)) && codec.decode(ToJsonValue(codec.encode(v))) == Some(v)
  }

  /* ---- Writing ---- */

  function Member(name: string, value: Json): Field { Field(Utf16(name), value) }

  function TextOf(s: string): Json { Str(Utf16(s)) }

  function Each<T>(encode: T -> Json, xs: seq<T>): (items: seq<Json>)
    ensures |items| == |xs| && forall i | 0 <= i < |xs| :: items[i] == encode(xs[i])
  {
    seq(|xs|, i requires 0 <= i < |xs| => encode(xs[i]))
  }

  function EncodeProposal(codec: Codec<Intent>): Proposal -> Json {
    (p: Proposal) => Obj([Member("operationId", TextOf(p.operationId)),
              Member("clientId", TextOf(p.clientId)),
              Member("clientSequence", Num(p.clientSequence)),
              Member("intentHash", TextOf(p.intentHash)),
              Member("intent", ToJsonValue(codec.encode(p.intent)))])
  }

  function EncodeOrigin(origin: Origin): Json {
    Obj([Member("clientId", TextOf(origin.clientId)),
         Member("clientSequence", Num(origin.clientSequence)),
         Member("intentHash", TextOf(origin.intentHash))])
  }

  function EncodeEntry(codec: Codec<Operation>): Entry -> Json {
    (e: Entry) => Obj([Member("sequence", Num(e.sequence)),
              Member("operationId", TextOf(e.operationId)),
              Member("origin", EncodeOrigin(e.origin)),
              Member("operation", ToJsonValue(codec.encode(e.operation)))])
  }

  function EncodeDecision(operations: Codec<Operation>, rejections: Codec<Rejection>): Decision -> Json {
    (d: Decision) => match d
      case Accepted(operationId, sequence, operation) =>
        Obj([Member("operationId", TextOf(operationId)),
             Member("status", TextOf("accepted")),
             Member("sequence", Num(sequence)),
             Member("operation", ToJsonValue(operations.encode(operation)))])
      case Rejected(operationId, reason) =>
        Obj([Member("operationId", TextOf(operationId)),
             Member("status", TextOf("rejected")),
             Member("reason", ToJsonValue(rejections.encode(reason)))])
  }

  function RequestJson(codec: Codec<Intent>, request: Request): Json {
    Obj([Member("baseSequence", Num(request.baseSequence)),
         Member("maximumEntries", Num(request.maximumEntries)),
         Member("proposals", Arr(Each(EncodeProposal(codec), request.proposals)))])
  }

  function ResponseJson(operations: Codec<Operation>, rejections: Codec<Rejection>, response: Response): Json {
    Obj([Member("requestedBaseSequence", Num(response.requestedBase)),
         Member("throughSequence", Num(response.through)),
         Member("headSequence", Num(response.head)),
         Member("entries", Arr(Each(EncodeEntry(operations), response.entries))),
         Member("decisions", Arr(Each(EncodeDecision(operations, rejections), response.decisions)))])
  }

  function EnvelopeJson(streamId: string, name: string, message: Json): Json {
    Obj([Member("protocolVersion", Num(PROTOCOL_VERSION)),
         Member("streamId", TextOf(streamId)),
         Member(name, message)])
  }

  function EncodeRequest(codec: Codec<Intent>, envelope: Envelope<Request>, limits: Limits): Result<Json> {
    if envelope.protocolVersion != PROTOCOL_VERSION then Err(UnsupportedProtocolVersion)
    else if envelope.streamId == "" then Err(EmptyString)
    else
      :- RequestCheck(envelope.message, limits);
      Ok(ToJsonValue(EnvelopeJson(envelope.streamId, "request", RequestJson(codec, envelope.message))))
  }

  function EncodeResponse(operations: Codec<Operation>, rejections: Codec<Rejection>,
                          envelope: Envelope<Response>, limits: Limits): Result<Json> {
    if envelope.protocolVersion != PROTOCOL_VERSION then Err(UnsupportedProtocolVersion)
    else if envelope.streamId == "" then Err(EmptyString)
    else
      :- ResponseCheck(envelope.message, Some(limits));
      Ok(ToJsonValue(EnvelopeJson(envelope.streamId, "response", ResponseJson(operations, rejections, envelope.message))))
  }

  /* ---- Reading ---- */

  /** A property of what must be an object. */
  function Read(j: Json, name: string): Result<Json> {
    if !j.Obj? then Err(WireDecode)
    else match Lookup(j.fields, Utf16(name)) case None => Err(WireDecode) case Some(value) => Ok(value)
  }

  function ReadNumber(j: Json, name: string): Result<int> {
    var value :- Read(j, name);
    if value.Num? then Ok(value.number) else Err(WireDecode)
  }

  function ReadNonEmptyString(j: Json, name: string): Result<string> {
    var value :- Read(j, name);
    if !value.Str? || value.text == [] then Err(WireDecode)
    else match FromUtf16(value.text) case None => Err(WireDecode) case Some(s) => Ok(s)
  }

  function ReadArray(j: Json, name: string): Result<seq<Json>> {
    var value :- Read(j, name);
    if value.Arr? then Ok(value.items) else Err(WireDecode)
  }

  function ReadPayload<V>(codec: Codec<V>, j: Json, name: string): Result<V> {
    var value :- Read(j, name);
    match codec.decode(value) case None => Err(WireDecode) case Some(v) => Ok(v)
  }

  function DecodeEach<T>(decode: Json -> Result<T>, items: seq<Json>): Result<seq<T>> {
    if items == [] then Ok([])
    else
      var before :- DecodeEach(decode, items[..|items| - 1]);
      var last :- decode(items[|items| - 1]);
      Ok(before + [last])
  }

  function DecodeProposal(codec: Codec<Intent>): Json -> Result<Proposal> {
    (j: Json) =>
      var operationId :- ReadNonEmptyString(j, "operationId");
      var clientId :- ReadNonEmptyString(j, "clientId");
      var clientSequence :- ReadNumber(j, "clientSequence");
      var intentHash :- ReadNonEmptyString(j, "intentHash");
      var intent :- ReadPayload(codec, j, "intent");
      Ok(Proposal(operationId, clientId, clientSequence, intentHash, intent))
  }

  function DecodeOrigin(j: Json): Result<Origin> {
    var clientId :- ReadNonEmptyString(j, "clientId");
    var clientSequence :- ReadNumber(j, "clientSequence");
    var intentHash :- ReadNonEmptyString(j, "intentHash");
    Ok(Origin(clientId, clientSequence, intentHash))
  }

  function DecodeEntry(codec: Codec<Operation>): Json -> Result<Entry> {
    (j: Json) =>
      var originJson :- Read(j, "origin");
      var sequence :- ReadNumber(j, "sequence");
      var operationId :- ReadNonEmptyString(j, "operationId");
      var origin :- DecodeOrigin(originJson);
      var operation :- ReadPayload(codec, j, "operation");
      Ok(Entry(sequence, operationId, origin, operation))
  }

  function DecodeDecision(operations: Codec<Operation>, rejections: Codec<Rejection>): Json -> Result<Decision> {
    (j: Json) =>
      var operationId :- ReadNonEmptyString(j, "operationId");
      var status :- Read(j, "status");
      if status == TextOf("accepted") then
        var sequence :- ReadNumber(j, "sequence");
        var operation :- ReadPayload(operations, j, "operation");
        Ok(Accepted(operationId, sequence, operation))
      else if status == TextOf("rejected") then
        var reason :- ReadPayload(rejections, j, "reason");
        Ok(Rejected(operationId, reason))
      else Err(WireDecode)
  }

  /** The version and the stream, before the message is looked at. */
  function DecodeEnvelope(j: Json, name: string): Result<Envelope<Json>> {
    if !j.Obj? then Err(WireDecode)
    else if Lookup(j.fields, Utf16("protocolVersion")) != Some(Num(PROTOCOL_VERSION)) then Err(UnsupportedProtocolVersion)
    else
      var streamId :- ReadNonEmptyString(j, "streamId");
      var message :- Read(j, name);
      Ok(Envelope(PROTOCOL_VERSION, streamId, message))
  }

  function DecodeRequest(codec: Codec<Intent>, j: Json, limits: Limits): Result<Envelope<Request>> {
    var envelope :- DecodeEnvelope(j, "request");
    var items :- ReadArray(envelope.message, "proposals");
    if |items| > limits.maximumProposals then Err(LimitExceeded)
    else
      var proposals :- DecodeEach(DecodeProposal(codec), items);
      var baseSequence :- ReadNumber(envelope.message, "baseSequence");
      var maximumEntries :- ReadNumber(envelope.message, "maximumEntries");
      var request := Request(baseSequence, maximumEntries, proposals);
      :- RequestCheck(request, limits);
      Ok(Envelope(PROTOCOL_VERSION, envelope.streamId, request))
  }

  function DecodeResponse(operations: Codec<Operation>, rejections: Codec<Rejection>,
                          j: Json, limits: Limits): Result<Envelope<Response>> {
    var envelope :- DecodeEnvelope(j, "response");
    var entryItems :- ReadArray(envelope.message, "entries");
    var decisionItems :- ReadArray(envelope.message, "decisions");
    if |entryItems| > limits.maximumEntries || |decisionItems| > limits.maximumProposals then Err(LimitExceeded)
    else
      var entries :- DecodeEach(DecodeEntry(operations), entryItems);
      var decisions :- DecodeEach(DecodeDecision(operations, rejections), decisionItems);
      var requestedBase :- ReadNumber(envelope.message, "requestedBaseSequence");
      var through :- ReadNumber(envelope.message, "throughSequence");
      var head :- ReadNumber(envelope.message, "headSequence");
      var response := Response(requestedBase, through, head, entries, decisions);
      :- ResponseCheck(response, Some(limits));
      Ok(Envelope(PROTOCOL_VERSION, envelope.streamId, response))
  }

  /* ---- Round trips ---- */

  ghost predicate DistinctNames(names: seq<string>) {
    forall i, j | 0 <= i < j < |names| :: names[i] != names[j]
  }

  /** An object with these members, each valid, once it has been through text. */
  ghost predicate Written(j: Json, names: seq<string>, values: seq<Json>) {
    && |names| == |values|
    && Valid(j)
    && forall i | 0 <= i < |names| :: Read(SortKeys(j), names[i]) == Ok(SortKeys(values[i]))
  }

  lemma ObjectIsWritten(fields: seq<Field>, names: seq<string>, values: seq<Json>)
    requires |fields| == |names| == |values| && DistinctNames(names)
    requires forall i | 0 <= i < |fields| :: fields[i] == Member(names[i], values[i]) && Valid(values[i])
    ensures Written(Obj(fields), names, values)
  {
    hide SortKeys, ToJsonValue, Canon, Utf16;
    forall i, j | 0 <= i < j < |fields| ensures fields[i].key != fields[j].key {
      if fields[i].key == fields[j].key {
        Utf16IsInjective(names[i], names[j]);
      }
    }
    forall i | 0 <= i < |names| ensures Read(SortKeys(Obj(fields)), names[i]) == Ok(SortKeys(values[i])) {
      SortedLookup(fields, i);
    }
  }

  lemma TextIsRead(s: string)
    ensures Valid(TextOf(s)) && SortKeys(TextOf(s)) == TextOf(s)
    ensures FromUtf16(Utf16(s)) == Some(s) && (Utf16(s) == [] <==> s == "")
    ensures forall n :: Valid(Num(n)) && SortKeys(Num(n)) == Num(n)
  {
    Utf16RoundTrip(s);
  }

  lemma PayloadIsRead<V(!new)>(codec: Codec<V>, v: V)
    requires RoundTrips(codec)
    ensures Valid(SortKeys(codec.encode(v)))
    ensures codec.decode(SortKeys(SortKeys(codec.encode(v)))) == Some(v)
  {
    SortKeysIsIdempotent(codec.encode(v));
    SortedIsValid(codec.encode(v));
  }

  lemma ProposalRoundTrips(codec: Codec<Intent>, p: Proposal)
    requires RoundTrips(codec) && ValidIdentity(p.operationId, p.clientId, p.clientSequence, p.intentHash)
    ensures Valid(EncodeProposal(codec)(p))
    ensures DecodeProposal(codec)(SortKeys(EncodeProposal(codec)(p))) == Ok(p)
  {
    hide SortKeys, ToJsonValue, Canon, Utf16, FromUtf16, RoundTrips, Valid, Read;
    var names := ["operationId", "clientId", "clientSequence", "intentHash", "intent"];
    var values := [TextOf(p.operationId), TextOf(p.clientId), Num(p.clientSequence), TextOf(p.intentHash),
                   SortKeys(codec.encode(p.intent))];
    assert |names[0]| == 11 && |names[1]| == 8 && |names[2]| == 14 && |names[3]| == 10 && |names[4]| == 6;
    TextIsRead(p.operationId);
    TextIsRead(p.clientId);
    TextIsRead(p.intentHash);
    PayloadIsRead(codec, p.intent);
    var j := EncodeProposal(codec)(p);
    ObjectIsWritten(j.fields, names, values);
    assert Read(SortKeys(j), names[0]) == Ok(SortKeys(values[0])) && Read(SortKeys(j), names[1]) == Ok(SortKeys(values[1]));
    assert Read(SortKeys(j), names[2]) == Ok(SortKeys(values[2])) && Read(SortKeys(j), names[3]) == Ok(SortKeys(values[3]));
    assert Read(SortKeys(j), names[4]) == Ok(SortKeys(values[4]));
  }

  lemma OriginRoundTrips(origin: Origin)
    requires origin.clientId != "" && origin.intentHash != ""
    ensures Valid(EncodeOrigin(origin)) && DecodeOrigin(SortKeys(EncodeOrigin(origin))) == Ok(origin)
  {
    hide SortKeys, ToJsonValue, Canon, Utf16, FromUtf16, Valid, Read;
    var names := ["clientId", "clientSequence", "intentHash"];
    var values := [TextOf(origin.clientId), Num(origin.clientSequence), TextOf(origin.intentHash)];
    assert |names[0]| == 8 && |names[1]| == 14 && |names[2]| == 10;
    TextIsRead(origin.clientId);
    TextIsRead(origin.intentHash);
    var j := EncodeOrigin(origin);
    ObjectIsWritten(j.fields, names, values);
    assert Read(SortKeys(j), names[0]) == Ok(SortKeys(values[0])) && Read(SortKeys(j), names[1]) == Ok(SortKeys(values[1]));
    assert Read(SortKeys(j), names[2]) == Ok(SortKeys(values[2]));
  }

  lemma EntryRoundTrips(codec: Codec<Operation>, e: Entry)
    requires RoundTrips(codec) && ValidEntry(e)
    ensures Valid(EncodeEntry(codec)(e)) && DecodeEntry(codec)(SortKeys(EncodeEntry(codec)(e))) == Ok(e)
  {
    hide SortKeys, ToJsonValue, Canon, Utf16, FromUtf16, RoundTrips, Valid, Read, EncodeOrigin, DecodeOrigin;
    var names := ["sequence", "operationId", "origin", "operation"];
    var values := [Num(e.sequence), TextOf(e.operationId), EncodeOrigin(e.origin), SortKeys(codec.encode(e.operation))];
    assert |names[0]| == 8 && |names[1]| == 11 && |names[2]| == 6 && |names[3]| == 9;
    TextIsRead(e.operationId);
    OriginRoundTrips(e.origin);
    PayloadIsRead(codec, e.operation);
    var j := EncodeEntry(codec)(e);
    ObjectIsWritten(j.fields, names, values);
    assert Read(SortKeys(j), names[0]) == Ok(SortKeys(values[0])) && Read(SortKeys(j), names[1]) == Ok(SortKeys(values[1]));
    assert Read(SortKeys(j), names[2]) == Ok(SortKeys(values[2])) && Read(SortKeys(j), names[3]) == Ok(SortKeys(values[3]));
  }

  lemma DecisionRoundTrips(operations: Codec<Operation>, rejections: Codec<Rejection>, d: Decision)
    requires RoundTrips(operations) && RoundTrips(rejections) && d.operationId != ""
    ensures Valid(EncodeDecision(operations, rejections)(d))
    ensures DecodeDecision(operations, rejections)(SortKeys(EncodeDecision(operations, rejections)(d))) == Ok(d)
  {
    hide SortKeys, ToJsonValue, Canon, Utf16, FromUtf16, RoundTrips, Valid, Read;
    TextIsRead(d.operationId);
    TextIsRead("accepted");
    TextIsRead("rejected");
    StatusesDiffer();
    var j := EncodeDecision(operations, rejections)(d);
    if d.Accepted? {
      var names := ["operationId", "status", "sequence", "operation"];
      var values := [TextOf(d.operationId), TextOf("accepted"), Num(d.sequence), SortKeys(operations.encode(d.operation))];
      assert |names[0]| == 11 && |names[1]| == 6 && |names[2]| == 8 && |names[3]| == 9;
      PayloadIsRead(operations, d.operation);
      ObjectIsWritten(j.fields, names, values);
      assert Read(SortKeys(j), names[0]) == Ok(SortKeys(values[0])) && Read(SortKeys(j), names[1]) == Ok(SortKeys(values[1]));
      assert Read(SortKeys(j), names[2]) == Ok(SortKeys(values[2])) && Read(SortKeys(j), names[3]) == Ok(SortKeys(values[3]));
    } else {
      var names := ["operationId", "status", "reason"];
      var values := [TextOf(d.operationId), TextOf("rejected"), SortKeys(rejections.encode(d.reason))];
      assert |names[0]| == 11 && |names[1]| == 6 && |names[2]| == 6 && names[1][0] != names[2][0];
      PayloadIsRead(rejections, d.reason);
      ObjectIsWritten(j.fields, names, values);
      assert Read(SortKeys(j), names[0]) == Ok(SortKeys(values[0])) && Read(SortKeys(j), names[1]) == Ok(SortKeys(values[1]));
      assert Read(SortKeys(j), names[2]) == Ok(SortKeys(values[2]));
    }
  }

  lemma StatusesDiffer()
    ensures TextOf("accepted") != TextOf("rejected")
  {
    hide Utf16;
    assert "accepted"[0] != "rejected"[0];
    if Utf16("accepted") == Utf16("rejected") {
      Utf16IsInjective("accepted", "rejected");
    }
  }

  lemma {:induction false} EachRoundTrips<T>(encode: T -> Json, decode: Json -> Result<T>, xs: seq<T>)
    requires forall i | 0 <= i < |xs| :: Valid(encode(xs[i])) && decode(SortKeys(encode(xs[i]))) == Ok(xs[i])
    ensures Valid(Arr(Each(encode, xs)))
    ensures SortKeys(Arr(Each(encode, xs))).Arr? && |SortKeys(Arr(Each(encode, xs))).items| == |xs|
    ensures DecodeEach(decode, SortKeys(Arr(Each(encode, xs))).items) == Ok(xs)
  {
    if xs != [] {
      var init, last := xs[..|xs| - 1], xs[|xs| - 1];
      EachRoundTrips(encode, decode, init);
      var items := SortKeys(Arr(Each(encode, xs))).items;
      assert items[..|items| - 1] == SortKeys(Arr(Each(encode, init))).items;
      assert items[|items| - 1] == SortKeys(encode(last));
      assert xs == init + [last];
    }
  }

  lemma EnvelopeRoundTrips(streamId: string, name: string, message: Json)
    requires streamId != "" && Valid(message) && (name == "request" || name == "response")
    ensures DecodeEnvelope(SortKeys(EnvelopeJson(streamId, name, message)), name)
         == Ok(Envelope(PROTOCOL_VERSION, streamId, SortKeys(message)))
  {
    hide SortKeys, ToJsonValue, Canon, Utf16, FromUtf16, Valid, Lookup;
    var names := ["protocolVersion", "streamId", name];
    var values := [Num(PROTOCOL_VERSION), TextOf(streamId), message];
    assert |names[0]| == 15 && |names[1]| == 8 && |name| <= 8 && names[1][0] != name[0];
    TextIsRead(streamId);
    var j := EnvelopeJson(streamId, name, message);
    ObjectIsWritten(j.fields, names, values);
    assert Read(SortKeys(j), names[0]) == Ok(SortKeys(values[0])) && Read(SortKeys(j), names[1]) == Ok(SortKeys(values[1]));
    assert Read(SortKeys(j), names[2]) == Ok(SortKeys(values[2]));
  }

  /** A request envelope is encoded exactly when its version, stream and request are valid; what was
      encoded is decoded to the same envelope. */
  lemma RequestRoundTrip(codec: Codec<Intent>, envelope: Envelope<Request>, limits: Limits)
    requires RoundTrips(codec)
    ensures EncodeRequest(codec, envelope, limits).Ok? <==>
      envelope.protocolVersion == PROTOCOL_VERSION && envelope.streamId != "" && ValidRequest(envelope.message, limits)
    ensures EncodeRequest(codec, envelope, limits).Ok? ==>
      DecodeRequest(codec, EncodeRequest(codec, envelope, limits).value, limits) == Ok(envelope)
  {
    var q := envelope.message;
    RequestCheckIsValidRequest(q, limits);
    hide RequestCheck, EncodeProposal, DecodeProposal, SortKeys, RoundTrips, Valid, Utf16;
    if EncodeRequest(codec, envelope, limits).Ok? {
      RequestMessage(codec, q, limits);
      EnvelopeRoundTrips(envelope.streamId, "request", RequestJson(codec, q));
    }
  }

  lemma NumberPropertyIsRead(j: Json, name: string, n: int)
    requires Read(j, name) == Ok(SortKeys(Num(n)))
    ensures ReadNumber(j, name) == Ok(n)
  {
    hide Read;
  }

  lemma ArrayPropertyIsRead(j: Json, name: string, list: Json)
    requires Read(j, name) == Ok(list) && list.Arr?
    ensures ReadArray(j, name) == Ok(list.items)
  {
    hide Read;
  }

  lemma RequestMessage(codec: Codec<Intent>, q: Request, limits: Limits)
    requires RoundTrips(codec) && ValidRequest(q, limits)
    ensures var j := RequestJson(codec, q);
      && Valid(j)
      && ReadNumber(SortKeys(j), "baseSequence") == Ok(q.baseSequence)
      && ReadNumber(SortKeys(j), "maximumEntries") == Ok(q.maximumEntries)
      && ReadArray(SortKeys(j), "proposals").Ok?
      && |ReadArray(SortKeys(j), "proposals").value| == |q.proposals| <= limits.maximumProposals
      && DecodeEach(DecodeProposal(codec), ReadArray(SortKeys(j), "proposals").value) == Ok(q.proposals)
  {
    hide *;
    ProposalsAreWithin(q, limits);
    RequestItems(codec, q);
    RequestReads(codec, q);
    var j := SortKeys(RequestJson(codec, q));
    NumberPropertyIsRead(j, "baseSequence", q.baseSequence);
    NumberPropertyIsRead(j, "maximumEntries", q.maximumEntries);
    ArrayPropertyIsRead(j, "proposals", SortKeys(Arr(Each(EncodeProposal(codec), q.proposals))));
  }

  lemma ProposalsAreWithin(q: Request, limits: Limits)
    requires ValidRequest(q, limits)
    ensures |q.proposals| <= limits.maximumProposals
    ensures forall p | p in q.proposals :: ValidIdentity(p.operationId, p.clientId, p.clientSequence, p.intentHash)
  {
  }

  lemma RequestItems(codec: Codec<Intent>, q: Request)
    requires RoundTrips(codec)
    requires forall p | p in q.proposals :: ValidIdentity(p.operationId, p.clientId, p.clientSequence, p.intentHash)
    ensures var ps := Arr(Each(EncodeProposal(codec), q.proposals));
      && Valid(ps)
      && SortKeys(ps).Arr? && |SortKeys(ps).items| == |q.proposals|
      && DecodeEach(DecodeProposal(codec), SortKeys(ps).items) == Ok(q.proposals)
  {
    hide *;
    forall i | 0 <= i < |q.proposals|
      ensures Valid(EncodeProposal(codec)(q.proposals[i]))
      ensures DecodeProposal(codec)(SortKeys(EncodeProposal(codec)(q.proposals[i]))) == Ok(q.proposals[i])
    {
      ProposalRoundTrips(codec, q.proposals[i]);
    }
    EachRoundTrips(EncodeProposal(codec), DecodeProposal(codec), q.proposals);
  }

  lemma RequestReads(codec: Codec<Intent>, q: Request)
    requires Valid(Arr(Each(EncodeProposal(codec), q.proposals)))
    ensures var j := RequestJson(codec, q);
      && Valid(j)
      && Read(SortKeys(j), "baseSequence") == Ok(SortKeys(Num(q.baseSequence)))
      && Read(SortKeys(j), "maximumEntries") == Ok(SortKeys(Num(q.maximumEntries)))
      && Read(SortKeys(j), "proposals") == Ok(SortKeys(Arr(Each(EncodeProposal(codec), q.proposals))))
  {
    hide SortKeys, ToJsonValue, Canon, Utf16, FromUtf16, Valid, Read, EncodeProposal, Each;
    var names := ["baseSequence", "maximumEntries", "proposals"];
    var values := [Num(q.baseSequence), Num(q.maximumEntries), Arr(Each(EncodeProposal(codec), q.proposals))];
    assert |names[0]| == 12 && |names[1]| == 14 && |names[2]| == 9;
    TextIsRead("");
    var j := RequestJson(codec, q);
    ObjectIsWritten(j.fields, names, values);
    assert Read(SortKeys(j), names[0]) == Ok(SortKeys(values[0])) && Read(SortKeys(j), names[1]) == Ok(SortKeys(values[1]));
    assert Read(SortKeys(j), names[2]) == Ok(SortKeys(values[2]));
  }

  /** The same of response envelopes. */
  lemma ResponseRoundTrip(operations: Codec<Operation>, rejections: Codec<Rejection>,
                          envelope: Envelope<Response>, limits: Limits)
    requires RoundTrips(operations) && RoundTrips(rejections)
    ensures EncodeResponse(operations, rejections, envelope, limits).Ok? <==>
      && envelope.protocolVersion == PROTOCOL_VERSION && envelope.streamId != ""
      && ValidResponse(envelope.message) && WithinLimits(envelope.message, Some(limits))
    ensures EncodeResponse(operations, rejections, envelope, limits).Ok? ==>
      DecodeResponse(operations, rejections, EncodeResponse(operations, rejections, envelope, limits).value, limits)
      == Ok(envelope)
  {
    var response := envelope.message;
    ResponseCheckIsValidResponse(response, Some(limits));
    hide ResponseCheck, EncodeEntry, DecodeEntry, EncodeDecision, DecodeDecision, SortKeys, RoundTrips, Valid, Utf16, ValidResponse;
    if EncodeResponse(operations, rejections, envelope, limits).Ok? {
      ResponseMessage(operations, rejections, response, limits);
      EnvelopeRoundTrips(envelope.streamId, "response", ResponseJson(operations, rejections, response));
    }
  }

  lemma ResponseMessage(operations: Codec<Operation>, rejections: Codec<Rejection>, response: Response, limits: Limits)
    requires RoundTrips(operations) && RoundTrips(rejections)
    requires ValidResponse(response) && WithinLimits(response, Some(limits))
    ensures var j := ResponseJson(operations, rejections, response);
      && Valid(j)
      && ReadNumber(SortKeys(j), "requestedBaseSequence") == Ok(response.requestedBase)
      && ReadNumber(SortKeys(j), "throughSequence") == Ok(response.through)
      && ReadNumber(SortKeys(j), "headSequence") == Ok(response.head)
      && ReadArray(SortKeys(j), "entries").Ok?
      && |ReadArray(SortKeys(j), "entries").value| <= limits.maximumEntries
      && DecodeEach(DecodeEntry(operations), ReadArray(SortKeys(j), "entries").value) == Ok(response.entries)
      && ReadArray(SortKeys(j), "decisions").Ok?
      && |ReadArray(SortKeys(j), "decisions").value| <= limits.maximumProposals
      && DecodeEach(DecodeDecision(operations, rejections), ReadArray(SortKeys(j), "decisions").value) == Ok(response.decisions)
  {
    hide *;
    ResponseParts(response, limits);
    ResponseItems(operations, rejections, response);
    ResponseReads(operations, rejections, response);
    var j := SortKeys(ResponseJson(operations, rejections, response));
    NumberPropertyIsRead(j, "requestedBaseSequence", response.requestedBase);
    NumberPropertyIsRead(j, "throughSequence", response.through);
    NumberPropertyIsRead(j, "headSequence", response.head);
    ArrayPropertyIsRead(j, "entries", SortKeys(Arr(Each(EncodeEntry(operations), response.entries))));
    ArrayPropertyIsRead(j, "decisions", SortKeys(Arr(Each(EncodeDecision(operations, rejections), response.decisions))));
  }

  lemma ResponseParts(response: Response, limits: Limits)
    requires ValidResponse(response) && WithinLimits(response, Some(limits))
    ensures |response.entries| <= limits.maximumEntries && |response.decisions| <= limits.maximumProposals
    ensures forall i | 0 <= i < |response.entries| :: ValidEntry(response.entries[i])
    ensures forall i | 0 <= i < |response.decisions| :: response.decisions[i].operationId != ""
  {
    hide DistinctEntries, DistinctDecisions, ValidEntry;
    forall i | 0 <= i < |response.decisions| ensures response.decisions[i].operationId != "" {
      assert AgreesWithPage(response.decisions[i], response);
    }
  }

  lemma ResponseReads(operations: Codec<Operation>, rejections: Codec<Rejection>, response: Response)
    requires Valid(Arr(Each(EncodeEntry(operations), response.entries)))
    requires Valid(Arr(Each(EncodeDecision(operations, rejections), response.decisions)))
    ensures var j := ResponseJson(operations, rejections, response);
      && Valid(j)
      && Read(SortKeys(j), "requestedBaseSequence") == Ok(SortKeys(Num(response.requestedBase)))
      && Read(SortKeys(j), "throughSequence") == Ok(SortKeys(Num(response.through)))
      && Read(SortKeys(j), "headSequence") == Ok(SortKeys(Num(response.head)))
      && Read(SortKeys(j), "entries") == Ok(SortKeys(Arr(Each(EncodeEntry(operations), response.entries))))
      && Read(SortKeys(j), "decisions") == Ok(SortKeys(Arr(Each(EncodeDecision(operations, rejections), response.decisions))))
  {
    hide SortKeys, ToJsonValue, Canon, Utf16, FromUtf16, Valid, Read, EncodeEntry, EncodeDecision, Each;
    var names := ["requestedBaseSequence", "throughSequence", "headSequence", "entries", "decisions"];
    var values := [Num(response.requestedBase), Num(response.through), Num(response.head),
                   Arr(Each(EncodeEntry(operations), response.entries)),
                   Arr(Each(EncodeDecision(operations, rejections), response.decisions))];
    assert |names[0]| == 21 && |names[1]| == 15 && |names[2]| == 12 && |names[3]| == 7 && |names[4]| == 9;
    TextIsRead("");
    var j := ResponseJson(operations, rejections, response);
    ObjectIsWritten(j.fields, names, values);
    assert Read(SortKeys(j), names[0]) == Ok(SortKeys(values[0])) && Read(SortKeys(j), names[1]) == Ok(SortKeys(values[1]));
    assert Read(SortKeys(j), names[2]) == Ok(SortKeys(values[2])) && Read(SortKeys(j), names[3]) == Ok(SortKeys(values[3]));
    assert Read(SortKeys(j), names[4]) == Ok(SortKeys(values[4]));
  }

  lemma ResponseItems(operations: Codec<Operation>, rejections: Codec<Rejection>, response: Response)
    requires RoundTrips(operations) && RoundTrips(rejections)
    requires forall i | 0 <= i < |response.entries| :: ValidEntry(response.entries[i])
    requires forall i | 0 <= i < |response.decisions| :: response.decisions[i].operationId != ""
    ensures var es, ds := Arr(Each(EncodeEntry(operations), response.entries)),
                          Arr(Each(EncodeDecision(operations, rejections), response.decisions));
      && Valid(es) && Valid(ds)
      && SortKeys(es).Arr? && |SortKeys(es).items| == |response.entries|
      && DecodeEach(DecodeEntry(operations), SortKeys(es).items) == Ok(response.entries)
      && SortKeys(ds).Arr? && |SortKeys(ds).items| == |response.decisions|
      && DecodeEach(DecodeDecision(operations, rejections), SortKeys(ds).items) == Ok(response.decisions)
  {
    hide *;
    forall i | 0 <= i < |response.entries|
      ensures Valid(EncodeEntry(operations)(response.entries[i]))
      ensures DecodeEntry(operations)(SortKeys(EncodeEntry(operations)(response.entries[i]))) == Ok(response.entries[i])
    {
      EntryRoundTrips(operations, response.entries[i]);
    }
    forall i | 0 <= i < |response.decisions|
      ensures Valid(EncodeDecision(operations, rejections)(response.decisions[i]))
      ensures DecodeDecision(operations, rejections)(SortKeys(EncodeDecision(operations, rejections)(response.decisions[i])))
           == Ok(response.decisions[i])
    {
      DecisionRoundTrips(operations, rejections, response.decisions[i]);
    }
    EachRoundTrips(EncodeEntry(operations), DecodeEntry(operations), response.entries);
    EachRoundTrips(EncodeDecision(operations, rejections), DecodeDecision(operations, rejections), response.decisions);
  }
}
