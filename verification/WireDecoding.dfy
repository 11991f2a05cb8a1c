/** src/wire.ts: which JSON the decoders accept, and as what. A decoder gives a message exactly when
    the JSON has the members of that message, and the message passes the validator. */
module WireDecoding {
  import opened Protocol
  import opened Validators
  import opened CanonicalJson
  import opened JsonObjects
  import opened Wire

  /* ---- Members ---- */

  ghost predicate Has(j: Json, name: string, value: Json) {
    j.Obj? && Lookup(j.fields, Utf16(name)) == Some(value)
  }

  ghost predicate HasText(j: Json, name: string, s: string) { s != "" && Has(j, name, Str(Utf16(s))) }

  ghost predicate HasPayload<V>(codec: Codec<V>, j: Json, name: string, v: V) {
    exists value :: Has(j, name, value) && codec.decode(value) == Some(v)
  }

  lemma {:induction false} FromUtf16IsInverse(t: Text, s: string)
    ensures FromUtf16(t) == Some(s) <==> t == Utf16(s)
  {
    if t == Utf16(s) {
      Utf16RoundTrip(s);
    }
    if FromUtf16(t) == Some(s) && t != [] {
      if StartsWithPair(t) {
        FromUtf16IsInverse(t[2..], s[1..]);
        PairUnits(t[0], t[1]);
        assert t == [t[0], t[1]] + t[2..];
      } else {
        FromUtf16IsInverse(t[1..], s[1..]);
        assert t == [t[0]] + t[1..];
      }
    }
  }

  lemma PairUnits(high: Unit, low: Unit)
    requires High(high) && Low(low)
    ensures UnitsOf(PairOf(high, low)) == [high, low]
  {
  }

  lemma TextIsReadExactly(j: Json, name: string, s: string)
    ensures ReadNonEmptyString(j, name) == Ok(s) <==> HasText(j, name, s)
  {
    TextIsRead(s);
    hide FromUtf16, Utf16;
    if Read(j, name).Ok? && Read(j, name).value.Str? {
      FromUtf16IsInverse(Read(j, name).value.text, s);
    }
  }

  lemma MemberIsReadExactly(j: Json, name: string, value: Json)
    ensures Read(j, name) == Ok(value) <==> Has(j, name, value)
  {
  }

  lemma NumberIsReadExactly(j: Json, name: string, n: int)
    ensures ReadNumber(j, name) == Ok(n) <==> Has(j, name, Num(n))
  {
    hide Utf16;
  }

  lemma ArrayIsReadExactly(j: Json, name: string, items: seq<Json>)
    ensures ReadArray(j, name) == Ok(items) <==> Has(j, name, Arr(items))
  {
    hide Utf16;
  }

  lemma PayloadIsReadExactly<V>(codec: Codec<V>, j: Json, name: string, v: V)
    ensures ReadPayload(codec, j, name) == Ok(v) <==> HasPayload(codec, j, name, v)
  {
    hide Utf16;
    if ReadPayload(codec, j, name) == Ok(v) {
      assert Has(j, name, Read(j, name).value);
    }
  }

  /* ---- Parts of messages ---- */

  ghost predicate IsProposal(codec: Codec<Intent>, j: Json, p: Proposal) {
    && HasText(j, "operationId", p.operationId) && HasText(j, "clientId", p.clientId)
    && Has(j, "clientSequence", Num(p.clientSequence)) && HasText(j, "intentHash", p.intentHash)
    && HasPayload(codec, j, "intent", p.intent)
  }

  ghost predicate IsOrigin(j: Json, origin: Origin) {
    && HasText(j, "clientId", origin.clientId) && Has(j, "clientSequence", Num(origin.clientSequence))
    && HasText(j, "intentHash", origin.intentHash)
  }

  ghost predicate IsEntry(codec: Codec<Operation>, j: Json, e: Entry) {
    && Has(j, "sequence", Num(e.sequence)) && HasText(j, "operationId", e.operationId)
    && HasOrigin(j, e.origin)
    && HasPayload(codec, j, "operation", e.operation)
  }

  ghost predicate HasOrigin(j: Json, origin: Origin) {
    exists value :: Has(j, "origin", value) && IsOrigin(value, origin)
  }

  ghost predicate IsDecision(operations: Codec<Operation>, rejections: Codec<Rejection>, j: Json, d: Decision) {
    && HasText(j, "operationId", d.operationId)
    && match d
       case Accepted(_, sequence, operation) =>
         HasText(j, "status", "accepted") && Has(j, "sequence", Num(sequence)) && HasPayload(operations, j, "operation", operation)
       case Rejected(_, reason) => HasText(j, "status", "rejected") && HasPayload(rejections, j, "reason", reason)
  }

  lemma ProposalIsDecodedExactly(codec: Codec<Intent>, j: Json, p: Proposal)
    ensures DecodeProposal(codec)(j) == Ok(p) <==> IsProposal(codec, j, p)
  {
    hide HasText, Has, HasPayload, Read, ReadNumber, ReadNonEmptyString, ReadPayload;
    TextIsReadExactly(j, "operationId", p.operationId);
    TextIsReadExactly(j, "clientId", p.clientId);
    NumberIsReadExactly(j, "clientSequence", p.clientSequence);
    TextIsReadExactly(j, "intentHash", p.intentHash);
    PayloadIsReadExactly(codec, j, "intent", p.intent);
  }

  lemma OriginIsDecodedExactly(j: Json, origin: Origin)
    ensures DecodeOrigin(j) == Ok(origin) <==> IsOrigin(j, origin)
  {
    hide HasText, Has, Read, ReadNumber, ReadNonEmptyString;
    TextIsReadExactly(j, "clientId", origin.clientId);
    NumberIsReadExactly(j, "clientSequence", origin.clientSequence);
    TextIsReadExactly(j, "intentHash", origin.intentHash);
  }

  lemma EntryIsDecodedExactly(codec: Codec<Operation>, j: Json, e: Entry)
    ensures DecodeEntry(codec)(j) == Ok(e) <==> IsEntry(codec, j, e)
  {
    OriginIsReadExactly(j, e.origin);
    hide HasText, Has, HasPayload, Read, ReadNumber, ReadNonEmptyString, ReadPayload, HasOrigin, DecodeOrigin;
    NumberIsReadExactly(j, "sequence", e.sequence);
    TextIsReadExactly(j, "operationId", e.operationId);
    PayloadIsReadExactly(codec, j, "operation", e.operation);
  }

  lemma OriginIsReadExactly(j: Json, origin: Origin)
    ensures HasOrigin(j, origin) <==> Read(j, "origin").Ok? && DecodeOrigin(Read(j, "origin").value) == Ok(origin)
  {
    hide Has, Read, DecodeOrigin, IsOrigin;
    if Read(j, "origin").Ok? {
      var value := Read(j, "origin").value;
      OriginIsDecodedExactly(value, origin);
      MemberIsReadExactly(j, "origin", value);
    }
    forall value ensures Has(j, "origin", value) <==> Read(j, "origin") == Ok(value) {
      MemberIsReadExactly(j, "origin", value);
    }
  }

  lemma StatusIsRead(j: Json, s: string)
    requires s != ""
    ensures HasText(j, "status", s) <==> Read(j, "status") == Ok(TextOf(s))
  {
    hide Utf16;
  }

  lemma DecisionIsDecodedExactly(operations: Codec<Operation>, rejections: Codec<Rejection>, j: Json, d: Decision)
    ensures DecodeDecision(operations, rejections)(j) == Ok(d) <==> IsDecision(operations, rejections, j, d)
  {
    hide HasText, Has, HasPayload, Read, ReadNumber, ReadNonEmptyString, ReadPayload, TextOf;
    TextIsReadExactly(j, "operationId", d.operationId);
    StatusIsRead(j, "accepted");
    StatusIsRead(j, "rejected");
    StatusesDiffer();
    match d
    case Accepted(_, sequence, operation) =>
      NumberIsReadExactly(j, "sequence", sequence);
      PayloadIsReadExactly(operations, j, "operation", operation);
    case Rejected(_, reason) =>
      PayloadIsReadExactly(rejections, j, "reason", reason);
  }

  lemma StatusesDiffer()
    ensures TextOf("accepted") != TextOf("rejected")
  {
    hide Utf16;
    assert "accepted"[0] != "rejected"[0];
    if Utf16("accepted") == Utf16("rejected") {
      Utf16IsInjective("accepted", "rejected");
    }
  }

  lemma {:induction false} EachIsDecoded<T>(decode: Json -> Result<T>, items: seq<Json>, xs: seq<T>)
    ensures DecodeEach(decode, items) == Ok(xs) <==>
      |xs| == |items| && forall i | 0 <= i < |items| :: decode(items[i]) == Ok(xs[i])
  {
    if items != [] && xs != [] {
      EachIsDecoded(decode, items[..|items| - 1], xs[..|xs| - 1]);
      assert xs == xs[..|xs| - 1] + [xs[|xs| - 1]];
    }
  }

  /* ---- Messages ---- */

  ghost predicate IsRequest(codec: Codec<Intent>, j: Json, q: Request, items: seq<Json>) {
    && Has(j, "baseSequence", Num(q.baseSequence)) && Has(j, "maximumEntries", Num(q.maximumEntries))
    && Has(j, "proposals", Arr(items)) && |items| == |q.proposals|
    && forall i | 0 <= i < |items| :: IsProposal(codec, items[i], q.proposals[i])
  }

  ghost predicate IsResponse(operations: Codec<Operation>, rejections: Codec<Rejection>, j: Json, response: Response,
                             entries: seq<Json>, decisions: seq<Json>) {
    && Has(j, "requestedBaseSequence", Num(response.requestedBase)) && Has(j, "throughSequence", Num(response.through))
    && Has(j, "headSequence", Num(response.head))
    && Has(j, "entries", Arr(entries)) && |entries| == |response.entries|
    && Has(j, "decisions", Arr(decisions)) && |decisions| == |response.decisions|
    && (forall i | 0 <= i < |entries| :: IsEntry(operations, entries[i], response.entries[i]))
    && (forall i | 0 <= i < |decisions| :: IsDecision(operations, rejections, decisions[i], response.decisions[i]))
  }

  ghost predicate IsEnvelope(j: Json, streamId: string, name: string, message: Json) {
    Has(j, "protocolVersion", Num(1)) && HasText(j, "streamId", streamId) && Has(j, name, message)
  }

  lemma EnvelopeIsDecodedExactly(j: Json, name: string, streamId: string, message: Json)
    ensures DecodeEnvelope(j, name) == Ok(Envelope(PROTOCOL_VERSION, streamId, message)) <==> IsEnvelope(j, streamId, name, message)
    ensures DecodeEnvelope(j, name).Ok? ==> DecodeEnvelope(j, name).value.protocolVersion == 1
  {
    hide Utf16, HasText, ReadNonEmptyString;
    TextIsReadExactly(j, "streamId", streamId);
  }

  /** An envelope is decoded exactly when it names version 1 and a stream, has the request's members and
      those of every proposal, and the request is valid within the limits; and as that request. */
  lemma RequestIsDecodedExactly(codec: Codec<Intent>, j: Json, limits: Limits, envelope: Envelope<Request>)
    ensures DecodeRequest(codec, j, limits) == Ok(envelope) <==>
      && envelope.protocolVersion == 1 && ValidRequest(envelope.message, limits)
      && exists message, items ::
           IsEnvelope(j, envelope.streamId, "request", message) && IsRequest(codec, message, envelope.message, items)
  {
    hide *;
    var decoded, q := DecodeEnvelope(j, "request"), envelope.message;
    RequestDecodes(codec, j, limits, envelope);
    RequestCheckIsValidRequest(q, limits);
    if decoded.Ok? && ReadArray(decoded.value.message, "proposals").Ok? {
      var message := decoded.value.message;
      var items := ReadArray(message, "proposals").value;
      EnvelopeIsDecodedExactly(j, "request", decoded.value.streamId, message);
      ProposalsAreDecoded(codec, message, items, q);
    }
    forall message, items | IsEnvelope(j, envelope.streamId, "request", message) && IsRequest(codec, message, q, items)
      ensures decoded == Ok(Envelope(PROTOCOL_VERSION, envelope.streamId, message)) && ReadArray(message, "proposals") == Ok(items)
      ensures |items| == |q.proposals|
    {
      EnvelopeIsDecodedExactly(j, "request", envelope.streamId, message);
      RequestHasProposals(codec, message, q, items);
    }
    BatchIsWithin(q, limits);
  }

  lemma BatchIsWithin(q: Request, limits: Limits)
    ensures ValidRequest(q, limits) ==> |q.proposals| <= limits.maximumProposals
    ensures PROTOCOL_VERSION == 1
  {
  }

  lemma RequestHasProposals(codec: Codec<Intent>, j: Json, q: Request, items: seq<Json>)
    requires IsRequest(codec, j, q, items)
    ensures ReadArray(j, "proposals") == Ok(items) && |items| == |q.proposals|
  {
    hide Has, IsProposal, ReadArray;
    ArrayIsReadExactly(j, "proposals", items);
  }

  lemma ProposalsAreDecoded(codec: Codec<Intent>, j: Json, items: seq<Json>, q: Request)
    requires ReadArray(j, "proposals") == Ok(items)
    ensures IsRequest(codec, j, q, items) <==>
      && ReadNumber(j, "baseSequence") == Ok(q.baseSequence) && ReadNumber(j, "maximumEntries") == Ok(q.maximumEntries)
      && DecodeEach(DecodeProposal(codec), items) == Ok(q.proposals)
  {
    hide Has, IsProposal, ReadArray, ReadNumber, DecodeProposal, DecodeEach;
    ArrayIsReadExactly(j, "proposals", items);
    NumberIsReadExactly(j, "baseSequence", q.baseSequence);
    NumberIsReadExactly(j, "maximumEntries", q.maximumEntries);
    EachIsDecoded(DecodeProposal(codec), items, q.proposals);
    if |items| == |q.proposals| {
      forall i | 0 <= i < |items|
        ensures DecodeProposal(codec)(items[i]) == Ok(q.proposals[i]) <==> IsProposal(codec, items[i], q.proposals[i])
      {
        ProposalIsDecodedExactly(codec, items[i], q.proposals[i]);
      }
    }
  }

  /** The decoder, read as a condition. */
  lemma RequestDecodes(codec: Codec<Intent>, j: Json, limits: Limits, envelope: Envelope<Request>)
    ensures DecodeRequest(codec, j, limits) == Ok(envelope) <==>
      var decoded, q := DecodeEnvelope(j, "request"), envelope.message;
      && decoded.Ok? && envelope == Envelope(PROTOCOL_VERSION, decoded.value.streamId, q)
      && var message := decoded.value.message;
      && ReadArray(message, "proposals").Ok? && |ReadArray(message, "proposals").value| <= limits.maximumProposals
      && DecodeEach(DecodeProposal(codec), ReadArray(message, "proposals").value) == Ok(q.proposals)
      && ReadNumber(message, "baseSequence") == Ok(q.baseSequence)
      && ReadNumber(message, "maximumEntries") == Ok(q.maximumEntries)
      && RequestCheck(q, limits).Pass?
  {
    hide DecodeEnvelope, ReadArray, DecodeEach, DecodeProposal, ReadNumber, RequestCheck;
  }

  /** The same of responses. */
  lemma ResponseIsDecodedExactly(operations: Codec<Operation>, rejections: Codec<Rejection>, j: Json, limits: Limits,
                                 envelope: Envelope<Response>)
    ensures DecodeResponse(operations, rejections, j, limits) == Ok(envelope) <==>
      && envelope.protocolVersion == 1 && ValidResponse(envelope.message) && WithinLimits(envelope.message, Some(limits))
      && exists message, entries, decisions ::
           && IsEnvelope(j, envelope.streamId, "response", message)
           && IsResponse(operations, rejections, message, envelope.message, entries, decisions)
  {
    hide *;
    var decoded, response := DecodeEnvelope(j, "response"), envelope.message;
    ResponseDecodes(operations, rejections, j, limits, envelope);
    ResponseCheckIsValidResponse(response, Some(limits));
    if decoded.Ok? && ReadArray(decoded.value.message, "entries").Ok? && ReadArray(decoded.value.message, "decisions").Ok? {
      var message := decoded.value.message;
      var entries, decisions := ReadArray(message, "entries").value, ReadArray(message, "decisions").value;
      EnvelopeIsDecodedExactly(j, "response", decoded.value.streamId, message);
      ItemsAreDecoded(operations, rejections, message, entries, decisions, response);
    }
    forall message, entries, decisions
      | IsEnvelope(j, envelope.streamId, "response", message) && IsResponse(operations, rejections, message, response, entries, decisions)
      ensures decoded == Ok(Envelope(PROTOCOL_VERSION, envelope.streamId, message))
      ensures ReadArray(message, "entries") == Ok(entries) && ReadArray(message, "decisions") == Ok(decisions)
      ensures |entries| == |response.entries| && |decisions| == |response.decisions|
    {
      EnvelopeIsDecodedExactly(j, "response", envelope.streamId, message);
      ResponseHasItems(operations, rejections, message, response, entries, decisions);
    }
    PageIsWithin(response, limits);
  }

  lemma PageIsWithin(response: Response, limits: Limits)
    ensures WithinLimits(response, Some(limits)) ==>
      |response.entries| <= limits.maximumEntries && |response.decisions| <= limits.maximumProposals
    ensures PROTOCOL_VERSION == 1
  {
  }

  lemma ResponseHasItems(operations: Codec<Operation>, rejections: Codec<Rejection>, j: Json, response: Response,
                         entries: seq<Json>, decisions: seq<Json>)
    requires IsResponse(operations, rejections, j, response, entries, decisions)
    ensures ReadArray(j, "entries") == Ok(entries) && |entries| == |response.entries|
    ensures ReadArray(j, "decisions") == Ok(decisions) && |decisions| == |response.decisions|
  {
    hide Has, IsEntry, IsDecision, ReadArray;
    ArrayIsReadExactly(j, "entries", entries);
    ArrayIsReadExactly(j, "decisions", decisions);
  }

  lemma ItemsAreDecoded(operations: Codec<Operation>, rejections: Codec<Rejection>, j: Json,
                        entries: seq<Json>, decisions: seq<Json>, response: Response)
    requires ReadArray(j, "entries") == Ok(entries) && ReadArray(j, "decisions") == Ok(decisions)
    ensures IsResponse(operations, rejections, j, response, entries, decisions) <==>
      && ReadNumber(j, "requestedBaseSequence") == Ok(response.requestedBase)
      && ReadNumber(j, "throughSequence") == Ok(response.through) && ReadNumber(j, "headSequence") == Ok(response.head)
      && DecodeEach(DecodeEntry(operations), entries) == Ok(response.entries)
      && DecodeEach(DecodeDecision(operations, rejections), decisions) == Ok(response.decisions)
  {
    hide Has, IsEntry, IsDecision, ReadArray, ReadNumber, DecodeEntry, DecodeDecision, DecodeEach;
    ArrayIsReadExactly(j, "entries", entries);
    ArrayIsReadExactly(j, "decisions", decisions);
    NumberIsReadExactly(j, "requestedBaseSequence", response.requestedBase);
    NumberIsReadExactly(j, "throughSequence", response.through);
    NumberIsReadExactly(j, "headSequence", response.head);
    EntriesAreDecoded(operations, entries, response.entries);
    DecisionsAreDecoded(operations, rejections, decisions, response.decisions);
  }

  lemma EntriesAreDecoded(operations: Codec<Operation>, items: seq<Json>, es: seq<Entry>)
    ensures DecodeEach(DecodeEntry(operations), items) == Ok(es) <==>
      |items| == |es| && forall i | 0 <= i < |items| :: IsEntry(operations, items[i], es[i])
  {
    hide IsEntry, DecodeEntry, DecodeEach;
    EachIsDecoded(DecodeEntry(operations), items, es);
    if |items| == |es| {
      forall i | 0 <= i < |items| ensures DecodeEntry(operations)(items[i]) == Ok(es[i]) <==> IsEntry(operations, items[i], es[i]) {
        EntryIsDecodedExactly(operations, items[i], es[i]);
      }
    }
  }

  lemma DecisionsAreDecoded(operations: Codec<Operation>, rejections: Codec<Rejection>, items: seq<Json>, ds: seq<Decision>)
    ensures DecodeEach(DecodeDecision(operations, rejections), items) == Ok(ds) <==>
      |items| == |ds| && forall i | 0 <= i < |items| :: IsDecision(operations, rejections, items[i], ds[i])
  {
    hide IsDecision, DecodeDecision, DecodeEach;
    EachIsDecoded(DecodeDecision(operations, rejections), items, ds);
    if |items| == |ds| {
      forall i | 0 <= i < |items|
        ensures DecodeDecision(operations, rejections)(items[i]) == Ok(ds[i]) <==> IsDecision(operations, rejections, items[i], ds[i])
      {
        DecisionIsDecodedExactly(operations, rejections, items[i], ds[i]);
      }
    }
  }

  lemma ResponseDecodes(operations: Codec<Operation>, rejections: Codec<Rejection>, j: Json, limits: Limits,
                        envelope: Envelope<Response>)
    ensures DecodeResponse(operations, rejections, j, limits) == Ok(envelope) <==>
      var decoded, response := DecodeEnvelope(j, "response"), envelope.message;
      && decoded.Ok? && envelope == Envelope(PROTOCOL_VERSION, decoded.value.streamId, response)
      && var message := decoded.value.message;
      && ReadArray(message, "entries").Ok? && |ReadArray(message, "entries").value| <= limits.maximumEntries
      && ReadArray(message, "decisions").Ok? && |ReadArray(message, "decisions").value| <= limits.maximumProposals
      && DecodeEach(DecodeEntry(operations), ReadArray(message, "entries").value) == Ok(response.entries)
      && DecodeEach(DecodeDecision(operations, rejections), ReadArray(message, "decisions").value) == Ok(response.decisions)
      && ReadNumber(message, "requestedBaseSequence") == Ok(response.requestedBase)
      && ReadNumber(message, "throughSequence") == Ok(response.through)
      && ReadNumber(message, "headSequence") == Ok(response.head)
      && ResponseCheck(response, Some(limits)).Pass?
  {
    hide DecodeEnvelope, ReadArray, DecodeEach, DecodeEntry, DecodeDecision, ReadNumber, ResponseCheck;
  }
}
