/**
 * The argument checks of the `speak`, `synthesize` and `seek` handlers
 * (src/index.tsx). A payload is an untyped record; a check either throws
 * "Bad args" or yields a typed request.
 */
module Requests {
  import opened Wrappers

  /** The JavaScript values a payload field can hold, by `typeof`. */
  datatype JsValue = Undefined | Null | Str(s: string) | Num(n: real) | Bool(b: bool) | Obj

  /** `Record<string, unknown>`: a field that is not there reads as `undefined`. */
  type Payload = map<string, JsValue>

  function Field(p: Payload, name: string): JsValue {
    if name in p then p[name] else Undefined
  }

  predicate IsOptionalNumber(v: JsValue) { v.Num? || v.Undefined? }
  predicate IsOptionalBool(v: JsValue) { v.Bool? || v.Undefined? }

  function OptionalNumber(v: JsValue): Option<real>
    requires IsOptionalNumber(v)
  {
    if v.Num? then Some(v.n) else None
  }

  function OptionalBool(v: JsValue): Option<bool>
    requires IsOptionalBool(v)
  {
    if v.Bool? then Some(v.b) else None
  }

  // ---------------------------------------------------------------------------
  // speak
  // ---------------------------------------------------------------------------

  datatype SpeakRequest = SpeakRequest(
    utterance: string,
    voiceName: string,
    pitch: Option<real>,
    rate: Option<real>,
    volume: Option<real>,
    externalPlayback: Option<bool>)

  predicate SpeakWellTyped(p: Payload) {
    && Field(p, "utterance").Str?
    && Field(p, "voiceName").Str?
    && IsOptionalNumber(Field(p, "pitch"))
    && IsOptionalNumber(Field(p, "rate"))
    && IsOptionalNumber(Field(p, "volume"))
    && IsOptionalBool(Field(p, "externalPlayback"))
  }

  /** The check at the head of `onSpeak`. */
  function CheckSpeak(p: Payload): (r: Result<SpeakRequest, Fault>)
    ensures r.Failure? ==> r.error == BadArgs
    ensures r.Success? <==> SpeakWellTyped(p)
  {
    if SpeakWellTyped(p) then
      Success(SpeakRequest(
        Field(p, "utterance").s, Field(p, "voiceName").s,
        OptionalNumber(Field(p, "pitch")), OptionalNumber(Field(p, "rate")),
        OptionalNumber(Field(p, "volume")), OptionalBool(Field(p, "externalPlayback"))))
    else Failure(BadArgs)
  }

  /** A caller's payload for a typed speak request; absent options are left out. */
  function SpeakPayload(q: SpeakRequest): Payload {
    var p := map["utterance" := Str(q.utterance), "voiceName" := Str(q.voiceName)];
    var p := if q.pitch.Some? then p["pitch" := Num(q.pitch.value)] else p;
    var p := if q.rate.Some? then p["rate" := Num(q.rate.value)] else p;
    var p := if q.volume.Some? then p["volume" := Num(q.volume.value)] else p;
    if q.externalPlayback.Some? then p["externalPlayback" := Bool(q.externalPlayback.value)] else p
  }

  /** Every well-formed speak request passes the check unchanged. */
  lemma SpeakRoundTrip(q: SpeakRequest)
    ensures CheckSpeak(SpeakPayload(q)) == Success(q)
  {
  }

  /**
   * What passes the check is a faithful reading of the payload: each of the six
   * fields reads the same in the payload as in the request's own payload.
   */
  lemma SpeakCheckReadsFields(p: Payload)
    requires CheckSpeak(p).Success?
    ensures forall f :: f in {"utterance", "voiceName", "pitch", "rate", "volume", "externalPlayback"} ==>
              Field(p, f) == Field(SpeakPayload(CheckSpeak(p).value), f)
  {
  }

  /** One mistyped field is enough for "Bad args". */
  lemma SpeakRejectsMistyped(p: Payload)
    requires || !Field(p, "utterance").Str? || !Field(p, "voiceName").Str?
             || !IsOptionalNumber(Field(p, "pitch")) || !IsOptionalNumber(Field(p, "rate"))
             || !IsOptionalNumber(Field(p, "volume")) || !IsOptionalBool(Field(p, "externalPlayback"))
    ensures CheckSpeak(p) == Failure(BadArgs)
  {
  }

  // ---------------------------------------------------------------------------
  // synthesize
  // ---------------------------------------------------------------------------

  datatype SynthesizeRequest = SynthesizeRequest(text: string, voiceName: string, pitch: Option<real>)

  predicate SynthesizeWellTyped(p: Payload) {
    Field(p, "text").Str? && Field(p, "voiceName").Str? && IsOptionalNumber(Field(p, "pitch"))
  }

  /** The check at the head of `onSynthesize`. */
  function CheckSynthesize(p: Payload): (r: Result<SynthesizeRequest, Fault>)
    ensures r.Failure? ==> r.error == BadArgs
    ensures r.Success? <==> SynthesizeWellTyped(p)
  {
    if SynthesizeWellTyped(p) then
      Success(SynthesizeRequest(Field(p, "text").s, Field(p, "voiceName").s, OptionalNumber(Field(p, "pitch"))))
    else Failure(BadArgs)
  }

  function SynthesizePayload(q: SynthesizeRequest): Payload {
    var p := map["text" := Str(q.text), "voiceName" := Str(q.voiceName)];
    if q.pitch.Some? then p["pitch" := Num(q.pitch.value)] else p
  }

  lemma SynthesizeRoundTrip(q: SynthesizeRequest)
    ensures CheckSynthesize(SynthesizePayload(q)) == Success(q)
  {
  }

  lemma SynthesizeCheckReadsFields(p: Payload)
    requires CheckSynthesize(p).Success?
    ensures forall f :: f in {"text", "voiceName", "pitch"} ==>
              Field(p, f) == Field(SynthesizePayload(CheckSynthesize(p).value), f)
  {
  }

  // ---------------------------------------------------------------------------
  // seek
  // ---------------------------------------------------------------------------

  /** The check in `onSeek`: any number is accepted, a negative one included. */
  function CheckSeek(p: Payload): (r: Result<real, Fault>)
    ensures r.Failure? ==> r.error == BadArgs
    ensures r.Success? <==> Field(p, "index").Num?
    ensures r.Success? ==> Field(p, "index") == Num(r.value)
  {
    if Field(p, "index").Num? then Success(Field(p, "index").n) else Failure(BadArgs)
  }

  lemma SeekRoundTrip(index: real)
    ensures CheckSeek(map["index" := Num(index)]) == Success(index)
  {
  }
}
