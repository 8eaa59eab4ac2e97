/**
 * The request layer of src/index.tsx: the `speak`/`synthesize` handlers with the
 * synthesizer registry, the module-level `currentSpeech`, the bookkeeping around
 * a speech, the transport handlers, and `onDelete`.
 *
 * The asynchronous body of `speak` runs as explicit steps, in this order for each
 * speech: `Speak` (everything up to `await synth.readyPromise`), `Ready` (that
 * promise settles), any number of `Sentence` and `PlayChunk` (callbacks from the
 * running `speech.play()`), and `Finish` (`speech.play()` settles). A readiness
 * failure ends the speech in `Ready`.
 */
module Controller {
  import opened Wrappers
  import opened Voices
  import opened Requests
  import opened Registry

  /** A speech, known by the order in which `makeSpeech` created it. */
  type SpeechId = nat

  /** One piece of audio the speech hands to its `playAudio`. */
  datatype Chunk = Chunk(pcm: seq<int>, appendSilenceSeconds: real)

  /** Where a speech's audio goes: played (`onSpeak`) or collected (`onSynthesize`). */
  datatype Sink =
    | Live(pitch: Option<real>, rate: Option<real>, volume: Option<real>, external: bool)
    | Collect(chunks: seq<Chunk>)

  datatype Phase = AwaitingModel | Playing | Settled

  datatype Session = Session(
    voiceKey: string,
    speakerName: Option<string>,
    speakerId: SpeakerId,
    synth: SynthId,
    text: string,
    sink: Sink,
    phase: Phase)

  /** How an awaited promise settled. */
  datatype Settlement = Resolved | Rejected(fault: Fault)

  datatype Event =
    | OnStart(sentenceStartIndices: seq<int>)
    | OnSentence(startIndex: int, endIndex: int)
    | OnEnd(audio: Option<seq<Chunk>>)
    | OnError(error: Fault)

  /**
   * What goes out through the sender of the request that started `speech`:
   * a notification passed through `notifyCaller`, or an `audioPlay` request to the
   * host when playback is external.
   */
  datatype Message =
    | Notify(speech: SpeechId, event: Event)
    | AudioPlay(speech: SpeechId, chunk: Chunk, rate: Option<real>, volume: Option<real>)

  datatype Command = Pause | Resume | Forward | Rewind | Seek(index: real) | Cancel

  /** A transport call made on a speech object. */
  datatype Delivery = Delivery(speech: SpeechId, command: Command)

  datatype LogEntry =
    | Synthesizing(voiceKey: string, speakerName: Option<string>)
    | Initializing(voiceKey: string)
    | Reported(fault: Fault)

  datatype Section = InstalledSection | AvailableSection

  /** `stats.voiceUsage` key of a speech: the voice key, then the speaker name if any. */
  function UsageKey(voiceKey: string, speakerName: Option<string>): string {
    voiceKey + speakerName.GetOr("")
  }

  function UsageOf(usage: map<string, int>, key: string): int {
    if key in usage then usage[key] else 0
  }

  /**
   * `voiceUsage[key] = (voiceUsage[key] ?? 0) + duration`: that key grows by exactly
   * the duration, counting from 0 when absent; no other key changes.
   */
  function AddUsage(usage: map<string, int>, key: string, duration: int): (r: map<string, int>)
    ensures r.Keys == usage.Keys + {key}
    ensures UsageOf(r, key) == UsageOf(usage, key) + duration
    ensures forall k :: k != key ==> UsageOf(r, k) == UsageOf(usage, k)
  {
    usage[key := UsageOf(usage, key) + duration]
  }

  /** Two speeches of the same voice and speaker add up as one of their total length. */
  lemma AddUsageAccumulates(usage: map<string, int>, key: string, d1: int, d2: int)
    ensures AddUsage(AddUsage(usage, key, d1), key, d2) == AddUsage(usage, key, d1 + d2)
  {
  }

  /** Speeches of different keys can be recorded in either order. */
  lemma AddUsageCommutes(usage: map<string, int>, k1: string, k2: string, d1: int, d2: int)
    requires k1 != k2
    ensures AddUsage(AddUsage(usage, k1, d1), k2, d2) == AddUsage(AddUsage(usage, k2, d2), k1, d1)
  {
  }

  predicate Plays(sessions: map<SpeechId, Session>, id: SpeechId, key: string) {
    id in sessions && sessions[id].phase == Playing && sessions[id].voiceKey == key
  }

  /** How many of the speeches `0 .. n-1` are playing with voice `key`. */
  ghost function CountPlaying(sessions: map<SpeechId, Session>, key: string, n: nat): nat {
    if n == 0 then 0 else CountPlaying(sessions, key, n - 1) + (if Plays(sessions, n - 1, key) then 1 else 0)
  }

  lemma {:induction false} CountPlayingSame(a: map<SpeechId, Session>, b: map<SpeechId, Session>, key: string, n: nat)
    requires forall id :: 0 <= id < n ==> (Plays(a, id, key) <==> Plays(b, id, key))
    ensures CountPlaying(a, key, n) == CountPlaying(b, key, n)
  {
    if n > 0 { CountPlayingSame(a, b, key, n - 1); }
  }

  /** Changing one speech changes the count by what that speech contributes. */
  lemma {:induction false} CountPlayingUpdate(a: map<SpeechId, Session>, id: SpeechId, s: Session, key: string, n: nat)
    requires id < n
    ensures CountPlaying(a[id := s], key, n)
         == CountPlaying(a, key, n) - (if Plays(a, id, key) then 1 else 0) + (if Plays(a[id := s], id, key) then 1 else 0)
  {
    if id < n - 1 {
      CountPlayingUpdate(a, id, s, key, n - 1);
    } else {
      CountPlayingSame(a[id := s], a, key, n - 1);
    }
  }

  /** A voice that no speech is playing has no speech counted against it. */
  lemma {:induction false} CountPlayingIdle(a: map<SpeechId, Session>, key: string, n: nat)
    requires forall id :: 0 <= id < n ==> !Plays(a, id, key)
    ensures CountPlaying(a, key, n) == 0
  {
    if n > 0 { CountPlayingIdle(a, key, n - 1); }
  }

  ghost predicate SessionsIndexed(sessions: map<SpeechId, Session>, n: nat) {
    forall id: SpeechId :: id in sessions <==> id < n
  }

  /** Each voice's `numActiveUsers` is its count at load time plus the speeches playing with it. */
  ghost predicate UsersInStep(list: seq<Voice>, base: seq<int>, sessions: map<SpeechId, Session>, n: nat) {
    |base| == |list|
    && forall i {:trigger UsersInStepAt(list, base, sessions, n, i)} | 0 <= i < |list| ::
         UsersInStepAt(list, base, sessions, n, i)
  }

  ghost predicate UsersInStepAt(list: seq<Voice>, base: seq<int>, sessions: map<SpeechId, Session>, n: nat, i: nat)
    requires i < |list| && |base| == |list|
  {
    list[i].numActiveUsers == base[i] + CountPlaying(sessions, list[i].key, n)
  }

  function Indicator(b: bool): int { if b then 1 else 0 }

  /**
   * Editing the voice of speech `id` while that speech changes to `s` keeps the active
   * user counts in step, provided the edit moves the count by exactly the change in
   * whether the speech is playing.
   */
  lemma UsersStayInStep(list: seq<Voice>, base: seq<int>, sessions: map<SpeechId, Session>, n: nat,
                        id: SpeechId, s: Session, e: VoiceEdit)
    requires UniqueKeys(list) && UsersInStep(list, base, sessions, n)
    requires id < n && id in sessions && s.voiceKey == sessions[id].voiceKey
    requires e.AdjustActiveUsers? ==>
               e.delta == Indicator(Plays(sessions[id := s], id, s.voiceKey)) - Indicator(Plays(sessions, id, s.voiceKey))
    requires !e.AdjustActiveUsers? ==> (Plays(sessions[id := s], id, s.voiceKey) <==> Plays(sessions, id, s.voiceKey))
    ensures UsersInStep(UpdateFirst(list, s.voiceKey, e), base, sessions[id := s], n)
  {
    var edited, after := UpdateFirst(list, s.voiceKey, e), sessions[id := s];
    forall i | 0 <= i < |list|
      ensures UsersInStepAt(edited, base, after, n, i)
    {
      assert UsersInStepAt(list, base, sessions, n, i);
      CountPlayingUpdate(sessions, id, s, list[i].key, n);
      FirstWithUniqueKey(list, s.voiceKey, i);
    }
  }

  /** A new speech that is not yet playing leaves every count as it was. */
  lemma UsersStayInStepOnStart(list: seq<Voice>, base: seq<int>, sessions: map<SpeechId, Session>, n: nat,
                               s: Session, e: VoiceEdit)
    requires UsersInStep(list, base, sessions, n) && SessionsIndexed(sessions, n)
    requires s.phase != Playing && !e.AdjustActiveUsers?
    ensures UsersInStep(UpdateFirst(list, s.voiceKey, e), base, sessions[n := s], n + 1)
  {
    var edited, after, m := UpdateFirst(list, s.voiceKey, e), sessions[n := s], n + 1;
    forall i | 0 <= i < |list|
      ensures UsersInStepAt(edited, base, after, m, i)
    {
      assert UsersInStepAt(list, base, sessions, n, i);
      CountPlayingSame(sessions[n := s], sessions, list[i].key, n);
    }
  }

  /**
   * Once no speech plays with a voice, however each of them ended, its
   * `numActiveUsers` is back at its value when the list was loaded.
   */
  lemma IdleVoiceAtBase(list: seq<Voice>, base: seq<int>, sessions: map<SpeechId, Session>, n: nat, i: nat)
    requires UsersInStep(list, base, sessions, n) && i < |list|
    requires forall id :: id in sessions ==> !(sessions[id].phase == Playing && sessions[id].voiceKey == list[i].key)
    ensures list[i].numActiveUsers == base[i]
  {
    assert UsersInStepAt(list, base, sessions, n, i);
    CountPlayingIdle(sessions, list[i].key, n);
  }

  /** An edit that leaves `numActiveUsers` alone keeps the counts in step. */
  lemma EditKeepsUsersInStep(list: seq<Voice>, base: seq<int>, sessions: map<SpeechId, Session>, n: nat,
                             key: string, e: VoiceEdit)
    requires UsersInStep(list, base, sessions, n) && !e.AdjustActiveUsers?
    ensures UsersInStep(UpdateFirst(list, key, e), base, sessions, n)
  {
    var edited := UpdateFirst(list, key, e);
    forall i | 0 <= i < |list|
      ensures UsersInStepAt(edited, base, sessions, n, i)
    {
      assert UsersInStepAt(list, base, sessions, n, i);
    }
  }

  /**
   * The speech bookkeeping on values: speeches are numbered in start order, only the
   * latest can be current (and it is neither cancelled nor over), and each voice's
   * `numActiveUsers` counts the speeches playing with it.
   */
  ghost predicate Consistent(list: Option<seq<Voice>>, base: seq<int>, sessions: map<SpeechId, Session>,
                             current: Option<SpeechId>, n: nat, cancelled: set<SpeechId>) {
    && SessionsIndexed(sessions, n)
    && (forall id | id in cancelled :: id < n)
    && (current.Some? ==>
          current.value + 1 == n && current.value !in cancelled
          && current.value in sessions && sessions[current.value].phase != Settled)
    && (list.None? ==> n == 0)
    && (list.Some? ==> UniqueKeys(list.value) && UsersInStep(list.value, base, sessions, n))
  }

  /** A speech that ends, with its voice edited to match, leaves the bookkeeping consistent once it is no longer current. */
  lemma SettlingKeepsConsistent(list: seq<Voice>, base: seq<int>, sessions: map<SpeechId, Session>,
                                current: Option<SpeechId>, n: nat, cancelled: set<SpeechId>,
                                id: SpeechId, edited: seq<Voice>)
    requires Consistent(Some(list), base, sessions, current, n, cancelled) && id in sessions
    requires UniqueKeys(edited) && UsersInStep(edited, base, sessions[id := sessions[id].(phase := Settled)], n)
    ensures Consistent(Some(edited), base, sessions[id := sessions[id].(phase := Settled)],
                       if current == Some(id) then None else current, n, cancelled)
  {
  }

  /** A loading speech that starts playing, with its voice edited to match, leaves the bookkeeping consistent. */
  lemma PlayingKeepsConsistent(list: seq<Voice>, base: seq<int>, sessions: map<SpeechId, Session>,
                               current: Option<SpeechId>, n: nat, cancelled: set<SpeechId>,
                               id: SpeechId, edited: seq<Voice>)
    requires Consistent(Some(list), base, sessions, current, n, cancelled) && id in sessions
    requires UniqueKeys(edited) && UsersInStep(edited, base, sessions[id := sessions[id].(phase := Playing)], n)
    ensures Consistent(Some(edited), base, sessions[id := sessions[id].(phase := Playing)], current, n, cancelled)
  {
  }

  /**
   * Every notification appended after `before` is from the speech that was current
   * (the `speech == currentSpeech` guard of `notifyCaller`).
   */
  ghost predicate OnlyCurrentNotifies(before: seq<Message>, after: seq<Message>, current: Option<SpeechId>) {
    && |before| <= |after| && after[..|before|] == before
    && forall i :: |before| <= i < |after| && after[i].Notify? ==> current == Some(after[i].speech)
  }

  class App {
    /** The module-level `synthesizers` Map. */
    const registry: SynthRegistry
    /** `parseAdvertisedVoiceName` of ./services. */
    const parse: string -> ParsedVoiceName
    /** `state.voiceList`: null until loaded. */
    var voiceList: Option<seq<Voice>>
    /** `numActiveUsers` of each voice when the list was loaded. */
    ghost const baseUsers: seq<int>

    /** The module-level `currentSpeech`. */
    var currentSpeech: Option<SpeechId>
    var nextSpeech: nat
    var sessions: map<SpeechId, Session>
    /** Speeches whose `cancel()` has been called. */
    var cancelled: set<SpeechId>

    var sent: seq<Message>
    var delivered: seq<Delivery>
    var activityLog: seq<LogEntry>
    /** `stats.voiceUsage`: milliseconds spoken per voice and speaker. */
    var voiceUsage: map<string, int>
    var isExpanded: map<string, bool>
    var installedCollapsed: bool
    var availableCollapsed: bool

    ghost predicate Valid()
      reads this, registry
    {
      registry.Valid() && Consistent(voiceList, baseUsers, sessions, currentSpeech, nextSpeech, cancelled)
    }

    /** The speeches that have been started and are no longer current. */
    ghost function Retired(): set<SpeechId>
      reads this
    {
      set id | 0 <= id < nextSpeech && currentSpeech != Some(id)
    }

    constructor (parse: string -> ParsedVoiceName, voiceList: Option<seq<Voice>>)
      requires voiceList.Some? ==> UniqueKeys(voiceList.value)
      ensures Valid() && fresh(registry) && registry.synths == map[]
      ensures this.parse == parse && this.voiceList == voiceList
      ensures registry.created == 0 && registry.disposed == {}
      ensures currentSpeech == None && nextSpeech == 0 && sessions == map[] && cancelled == {}
      ensures sent == [] && delivered == []
      ensures activityLog == [] && voiceUsage == map[] && isExpanded == map[]
      ensures !installedCollapsed && !availableCollapsed
    {
      registry := new SynthRegistry();
      this.parse := parse;
      this.voiceList := voiceList;
      baseUsers := match voiceList
        case None => []
        case Some(l) => seq(|l|, i requires 0 <= i < |l| => l[i].numActiveUsers);
      currentSpeech, nextSpeech, sessions, cancelled := None, 0, map[], {};
      sent, delivered, activityLog := [], [], [];
      voiceUsage, isExpanded := map[], map[];
      installedCollapsed, availableCollapsed := false, false;
    }

    /** `notifyCaller`: forwards only while `id` is the current speech. */
    method NotifyCaller(id: SpeechId, e: Event)
      modifies this`sent
      ensures sent == old(sent) + if currentSpeech == Some(id) then [Notify(id, e)] else []
    {
      if currentSpeech == Some(id) {
        sent := sent + [Notify(id, e)];
      }
    }

    /** Calls `cancel()` on the current speech, if any. */
    method CancelCurrent()
      modifies this`delivered, this`cancelled
      ensures delivered == old(delivered) + if currentSpeech.Some? then [Delivery(currentSpeech.value, Cancel)] else []
      ensures cancelled == old(cancelled) + if currentSpeech.Some? then {currentSpeech.value} else {}
    {
      if currentSpeech.Some? {
        delivered := delivered + [Delivery(currentSpeech.value, Cancel)];
        cancelled := cancelled + {currentSpeech.value};
      }
    }

    /**
     * What `speak` has done once it returns from its synchronous part, given the
     * state before the call: a resolution error changes nothing; otherwise the
     * synthesizer is fetched or created, the previous speech is cancelled, the new
     * speech is current and its voice is marked as loading.
     */
    twostate predicate Spoke(text: string, voiceName: string, sink: Sink, new r: Result<SpeechId, Fault>)
      reads this, registry
    {
      && (Resolve(old(voiceList), parse(voiceName)).Failure? ==>
        && r == Failure(Resolve(old(voiceList), parse(voiceName)).error)
        && unchanged(this) && unchanged(registry))
      && (Resolve(old(voiceList), parse(voiceName)).Success? ==>
        var res := Resolve(old(voiceList), parse(voiceName)).value;
        var key := old(voiceList).value[res.index].key;
        var isNew := key !in old(registry.synths);
        && r == Success(old(nextSpeech))
        && registry.synths == (if isNew then old(registry.synths)[key := old(registry.created)] else old(registry.synths))
        && registry.disposed == old(registry.disposed)
        && registry.created == old(registry.created) + (if isNew then 1 else 0)
        && sessions == old(sessions)[r.value := Session(key, parse(voiceName).speakerName, res.speakerId,
                                                         registry.synths[key], text, sink, AwaitingModel)]
        && currentSpeech == Some(r.value) && nextSpeech == old(nextSpeech) + 1
        && delivered == old(delivered) + (if old(currentSpeech).Some? then [Delivery(old(currentSpeech).value, Cancel)] else [])
        && cancelled == old(cancelled) + (if old(currentSpeech).Some? then {old(currentSpeech).value} else {})
        && activityLog == old(activityLog) + [Synthesizing(key, parse(voiceName).speakerName)]
                          + (if isNew then [Initializing(key)] else [])
        && voiceList == Some(UpdateFirst(old(voiceList).value, key, SetLoadState(Loading)))
        && sent == old(sent) && voiceUsage == old(voiceUsage) && isExpanded == old(isExpanded)
        && installedCollapsed == old(installedCollapsed) && availableCollapsed == old(availableCollapsed))
    }

    /**
     * `speak` up to its first `await`: resolve voice and speaker, get or create the
     * synthesizer, cancel the previous speech, make the new one current, and mark the
     * voice as loading. A resolution error throws before anything changes.
     */
    method Speak(text: string, voiceName: string, sink: Sink) returns (r: Result<SpeechId, Fault>)
      requires Valid()
      requires sink.Collect? ==> sink.chunks == []
      modifies this`activityLog, this`sessions, this`nextSpeech, this`currentSpeech, this`voiceList
      modifies this`delivered, this`cancelled, registry
      ensures Valid()
      ensures Spoke(text, voiceName, sink, r)
      ensures old(Retired()) <= Retired()
      ensures OnlyCurrentNotifies(old(sent), sent, old(currentSpeech))
    {
      var parsed := parse(voiceName);
      var resolved := Resolve(voiceList, parsed);
      if resolved.Failure? {
        return Failure(resolved.error);
      }
      var key := voiceList.value[resolved.value.index].key;
      var id := Start(key, parsed.speakerName, resolved.value.speakerId, text, sink);
      r := Success(id);
    }

    /** The rest of `speak` once voice and speaker are resolved. */
    method Start(key: string, speakerName: Option<string>, speakerId: SpeakerId, text: string, sink: Sink)
      returns (id: SpeechId)
      requires Valid() && voiceList.Some?
      modifies this`activityLog, this`sessions, this`nextSpeech, this`currentSpeech, this`voiceList
      modifies this`delivered, this`cancelled, registry
      ensures Valid()
      ensures var isNew := key !in old(registry.synths);
              && id == old(nextSpeech)
              && registry.synths == (if isNew then old(registry.synths)[key := old(registry.created)] else old(registry.synths))
              && registry.disposed == old(registry.disposed)
              && registry.created == old(registry.created) + (if isNew then 1 else 0)
              && sessions == old(sessions)[id := Session(key, speakerName, speakerId, registry.synths[key], text, sink, AwaitingModel)]
              && currentSpeech == Some(id) && nextSpeech == old(nextSpeech) + 1
              && delivered == old(delivered) + (if old(currentSpeech).Some? then [Delivery(old(currentSpeech).value, Cancel)] else [])
              && cancelled == old(cancelled) + (if old(currentSpeech).Some? then {old(currentSpeech).value} else {})
              && activityLog == old(activityLog) + [Synthesizing(key, speakerName)] + (if isNew then [Initializing(key)] else [])
              && voiceList == Some(UpdateFirst(old(voiceList).value, key, SetLoadState(Loading)))
      ensures old(Retired()) <= Retired()
    {
      activityLog := activityLog + [Synthesizing(key, speakerName)];
      if key !in registry.synths {
        activityLog := activityLog + [Initializing(key)];
      }
      var synth, _ := registry.GetOrCreate(key);
      id := Begin(Session(key, speakerName, speakerId, synth, text, sink, AwaitingModel));
    }

    /**
     * `currentSpeech?.cancel(); currentSpeech = makeSpeech(...)`, then the voice is
     * marked as loading: the previous speech is cancelled before the new one becomes
     * current.
     */
    method Begin(s: Session) returns (id: SpeechId)
      requires Valid() && voiceList.Some? && s.phase == AwaitingModel
      modifies this`sessions, this`nextSpeech, this`currentSpeech, this`voiceList, this`delivered, this`cancelled
      ensures Valid()
      ensures id == old(nextSpeech) && nextSpeech == id + 1
      ensures sessions == old(sessions)[id := s] && currentSpeech == Some(id)
      ensures delivered == old(delivered) + (if old(currentSpeech).Some? then [Delivery(old(currentSpeech).value, Cancel)] else [])
      ensures cancelled == old(cancelled) + (if old(currentSpeech).Some? then {old(currentSpeech).value} else {})
      ensures voiceList == Some(UpdateFirst(old(voiceList).value, s.voiceKey, SetLoadState(Loading)))
      ensures old(Retired()) <= Retired()
    {
      CancelCurrent();
      id := nextSpeech;
      UsersStayInStepOnStart(voiceList.value, baseUsers, sessions, id, s, SetLoadState(Loading));
      sessions := sessions[id := s];
      nextSpeech := nextSpeech + 1;
      currentSpeech := Some(id);
      voiceList := Some(UpdateFirst(voiceList.value, s.voiceKey, SetLoadState(Loading)));
    }

    /** `onSpeak`: "Bad args" changes nothing; otherwise `speak` with live playback. */
    method OnSpeak(p: Payload) returns (r: Result<SpeechId, Fault>)
      requires Valid()
      modifies this`activityLog, this`sessions, this`nextSpeech, this`currentSpeech, this`voiceList
      modifies this`delivered, this`cancelled, registry
      ensures Valid()
      ensures CheckSpeak(p).Failure? ==> r == Failure(BadArgs) && unchanged(this) && unchanged(registry)
      ensures CheckSpeak(p).Success? ==>
                var q := CheckSpeak(p).value;
                Spoke(q.utterance, q.voiceName, Live(q.pitch, q.rate, q.volume, q.externalPlayback == Some(true)), r)
      ensures old(Retired()) <= Retired()
      ensures OnlyCurrentNotifies(old(sent), sent, old(currentSpeech))
    {
      var checked := CheckSpeak(p);
      if checked.Failure? {
        return Failure(checked.error);
      }
      var q := checked.value;
      r := Speak(q.utterance, q.voiceName, Live(q.pitch, q.rate, q.volume, q.externalPlayback == Some(true)));
    }

    /**
     * `onSynthesize`: "Bad args" changes nothing; otherwise `speak` collecting the
     * audio. The checked `pitch` is not passed on.
     */
    method OnSynthesize(p: Payload) returns (r: Result<SpeechId, Fault>)
      requires Valid()
      modifies this`activityLog, this`sessions, this`nextSpeech, this`currentSpeech, this`voiceList
      modifies this`delivered, this`cancelled, registry
      ensures Valid()
      ensures CheckSynthesize(p).Failure? ==> r == Failure(BadArgs) && unchanged(this) && unchanged(registry)
      ensures CheckSynthesize(p).Success? ==> Spoke(CheckSynthesize(p).value.text, CheckSynthesize(p).value.voiceName, Collect([]), r)
      ensures old(Retired()) <= Retired()
      ensures OnlyCurrentNotifies(old(sent), sent, old(currentSpeech))
    {
      var checked := CheckSynthesize(p);
      if checked.Failure? {
        return Failure(checked.error);
      }
      var q := checked.value;
      r := Speak(q.text, q.voiceName, Collect([]));
    }

    /**
     * The `catch` and outer `finally` of the speech body: a failure other than a
     * cancellation is reported and sent as `onError`; the speech stops being current
     * if it still is.
     */
    method Settle(id: SpeechId, outcome: Settlement)
      modifies this`sent, this`activityLog, this`currentSpeech
      ensures outcome.Rejected? && !IsCancellation(outcome.fault) ==>
                && activityLog == old(activityLog) + [Reported(outcome.fault)]
                && sent == old(sent) + if old(currentSpeech) == Some(id) then [Notify(id, OnError(outcome.fault))] else []
      ensures !(outcome.Rejected? && !IsCancellation(outcome.fault)) ==>
                activityLog == old(activityLog) && sent == old(sent)
      ensures currentSpeech == if old(currentSpeech) == Some(id) then None else old(currentSpeech)
    {
      if outcome.Rejected? && !IsCancellation(outcome.fault) {
        activityLog := activityLog + [Reported(outcome.fault)];
        NotifyCaller(id, OnError(outcome.fault));
      }
      if currentSpeech == Some(id) {
        currentSpeech := None;
      }
    }

    /**
     * `await synth.readyPromise` settles. The voice is marked loaded either way. On
     * success the voice gains an active user, `onStart` goes out, and `speech.play()`
     * begins; on failure the speech ends.
     */
    method Ready(id: SpeechId, outcome: Settlement, sentenceStarts: seq<int>)
      requires Valid() && id in sessions && sessions[id].phase == AwaitingModel
      modifies this`sent, this`activityLog, this`currentSpeech, this`voiceList, this`sessions
      ensures Valid()
      ensures var key := old(sessions[id]).voiceKey;
              var loaded := UpdateFirst(old(voiceList).value, key, SetLoadState(Loaded));
              && voiceList == Some(if outcome.Resolved? then UpdateFirst(loaded, key, AdjustActiveUsers(1)) else loaded)
      ensures outcome.Resolved? ==>
                && sessions == old(sessions)[id := old(sessions[id]).(phase := Playing)]
                && sent == old(sent) + (if old(currentSpeech) == Some(id) then [Notify(id, OnStart(sentenceStarts))] else [])
                && currentSpeech == old(currentSpeech) && activityLog == old(activityLog)
      ensures outcome.Rejected? ==>
                && sessions == old(sessions)[id := old(sessions[id]).(phase := Settled)]
                && (IsCancellation(outcome.fault) ==> activityLog == old(activityLog) && sent == old(sent))
                && (!IsCancellation(outcome.fault) ==>
                      && activityLog == old(activityLog) + [Reported(outcome.fault)]
                      && sent == old(sent) + (if old(currentSpeech) == Some(id) then [Notify(id, OnError(outcome.fault))] else []))
                && currentSpeech == (if old(currentSpeech) == Some(id) then None else old(currentSpeech))
      ensures nextSpeech == old(nextSpeech) && cancelled == old(cancelled) && delivered == old(delivered)
      ensures voiceUsage == old(voiceUsage) && isExpanded == old(isExpanded)
      ensures installedCollapsed == old(installedCollapsed) && availableCollapsed == old(availableCollapsed)
      ensures old(Retired()) <= Retired()
      ensures OnlyCurrentNotifies(old(sent), sent, old(currentSpeech))
    {
      ghost var list, before, current := voiceList.value, sessions, currentSpeech;
      if outcome.Resolved? {
        MarkLoaded(id, true, sentenceStarts);
        PlayingKeepsConsistent(list, baseUsers, before, current, nextSpeech, cancelled, id, voiceList.value);
      } else {
        MarkLoaded(id, false, sentenceStarts);
        Settle(id, outcome);
        SettlingKeepsConsistent(list, baseUsers, before, current, nextSpeech, cancelled, id, voiceList.value);
      }
    }

    /**
     * The `finally` after `await synth.readyPromise` marks the voice loaded; when the
     * model is ready the voice gains an active user, `onStart` goes out and the speech
     * starts playing, otherwise the speech is over.
     */
    method MarkLoaded(id: SpeechId, ready: bool, sentenceStarts: seq<int>)
      requires Valid() && id in sessions && sessions[id].phase == AwaitingModel
      modifies this`voiceList, this`sessions, this`sent
      ensures var key := old(sessions[id]).voiceKey;
              var loaded := UpdateFirst(old(voiceList).value, key, SetLoadState(Loaded));
              && voiceList == Some(if ready then UpdateFirst(loaded, key, AdjustActiveUsers(1)) else loaded)
      ensures sessions == old(sessions)[id := old(sessions[id]).(phase := if ready then Playing else Settled)]
      ensures sent == old(sent) + if ready && currentSpeech == Some(id) then [Notify(id, OnStart(sentenceStarts))] else []
      ensures UniqueKeys(voiceList.value) && UsersInStep(voiceList.value, baseUsers, sessions, nextSpeech)
    {
      var list := voiceList.value;
      var key := sessions[id].voiceKey;
      var loaded := UpdateFirst(list, key, SetLoadState(Loaded));
      assert sessions[id := sessions[id]] == sessions;
      UsersStayInStep(list, baseUsers, sessions, nextSpeech, id, sessions[id], SetLoadState(Loaded));
      if ready {
        UsersStayInStep(loaded, baseUsers, sessions, nextSpeech, id, sessions[id].(phase := Playing), AdjustActiveUsers(1));
        voiceList := Some(UpdateFirst(loaded, key, AdjustActiveUsers(1)));
        sessions := sessions[id := sessions[id].(phase := Playing)];
        NotifyCaller(id, OnStart(sentenceStarts));
      } else {
        UsersStayInStep(list, baseUsers, sessions, nextSpeech, id, sessions[id].(phase := Settled), SetLoadState(Loaded));
        voiceList := Some(loaded);
        sessions := sessions[id := sessions[id].(phase := Settled)];
      }
    }

    /** The speech's `onSentence` callback: forwarded while the speech is current. */
    method Sentence(id: SpeechId, startIndex: int, endIndex: int)
      requires Valid() && id in sessions && sessions[id].phase == Playing
      modifies this`sent
      ensures Valid()
      ensures sent == old(sent) + if currentSpeech == Some(id) then [Notify(id, OnSentence(startIndex, endIndex))] else []
      ensures OnlyCurrentNotifies(old(sent), sent, old(currentSpeech))
    {
      NotifyCaller(id, OnSentence(startIndex, endIndex));
    }

    /**
     * The speech calls its `playAudio`: `onSynthesize` appends the chunk; external
     * playback sends `audioPlay` to the host (with no current-speech guard); local
     * playback is the audio module's and changes nothing here.
     */
    method PlayChunk(id: SpeechId, chunk: Chunk)
      requires Valid() && id in sessions && sessions[id].phase == Playing
      modifies this`sent, this`sessions
      ensures Valid()
      ensures match old(sessions[id]).sink
              case Collect(chunks) =>
                sessions == old(sessions)[id := old(sessions[id]).(sink := Collect(chunks + [chunk]))] && sent == old(sent)
              case Live(_, rate, volume, external) =>
                sessions == old(sessions)
                && sent == old(sent) + if external then [AudioPlay(id, chunk, rate, volume)] else []
      ensures OnlyCurrentNotifies(old(sent), sent, old(currentSpeech))
    {
      ghost var before := sessions;
      match sessions[id].sink {
        case Collect(chunks) =>
          sessions := sessions[id := sessions[id].(sink := Collect(chunks + [chunk]))];
          forall i | 0 <= i < |voiceList.value|
            ensures UsersInStepAt(voiceList.value, baseUsers, sessions, nextSpeech, i)
          {
            assert UsersInStepAt(voiceList.value, baseUsers, before, nextSpeech, i);
            CountPlayingSame(sessions, before, voiceList.value[i].key, nextSpeech);
          }
        case Live(_, rate, volume, external) =>
          if external {
            sent := sent + [AudioPlay(id, chunk, rate, volume)];
          }
      }
    }

    /**
     * `speech.play()` settles. On success `onEnd` goes out (with the collected audio
     * for `onSynthesize`). Either way the voice loses its active user and the speech's
     * duration is added to its usage; then the speech ends as in `Settle`.
     */
    method Finish(id: SpeechId, outcome: Settlement, duration: int)
      requires Valid() && id in sessions && sessions[id].phase == Playing
      modifies this`sent, this`activityLog, this`currentSpeech, this`voiceList, this`sessions, this`voiceUsage
      ensures Valid()
      ensures var s := old(sessions[id]);
              && voiceList == Some(UpdateFirst(old(voiceList).value, s.voiceKey, AdjustActiveUsers(-1)))
              && voiceUsage == AddUsage(old(voiceUsage), UsageKey(s.voiceKey, s.speakerName), duration)
              && sessions == old(sessions)[id := s.(phase := Settled)]
      ensures outcome.Resolved? ==>
                var audio := if old(sessions[id]).sink.Collect? then Some(old(sessions[id]).sink.chunks) else None;
                && sent == old(sent) + (if old(currentSpeech) == Some(id) then [Notify(id, OnEnd(audio))] else [])
                && activityLog == old(activityLog)
      ensures outcome.Rejected? && IsCancellation(outcome.fault) ==>
                activityLog == old(activityLog) && sent == old(sent)
      ensures outcome.Rejected? && !IsCancellation(outcome.fault) ==>
                && activityLog == old(activityLog) + [Reported(outcome.fault)]
                && sent == old(sent) + (if old(currentSpeech) == Some(id) then [Notify(id, OnError(outcome.fault))] else [])
      ensures currentSpeech == if old(currentSpeech) == Some(id) then None else old(currentSpeech)
      ensures nextSpeech == old(nextSpeech) && cancelled == old(cancelled) && delivered == old(delivered)
      ensures isExpanded == old(isExpanded)
      ensures installedCollapsed == old(installedCollapsed) && availableCollapsed == old(availableCollapsed)
      ensures old(Retired()) <= Retired()
      ensures OnlyCurrentNotifies(old(sent), sent, old(currentSpeech))
    {
      ghost var list, before, current := voiceList.value, sessions, currentSpeech;
      Release(id, outcome, duration);
      Settle(id, outcome);
      SettlingKeepsConsistent(list, baseUsers, before, current, nextSpeech, cancelled, id, voiceList.value);
    }

    /**
     * The inner `try` once `speech.play()` settles: `onEnd` goes out if it resolved
     * (with the collected audio for `onSynthesize`); then its `finally` takes the
     * active user off the voice and adds the speech's duration to `stats.voiceUsage`.
     */
    method Release(id: SpeechId, outcome: Settlement, duration: int)
      requires Valid() && id in sessions && sessions[id].phase == Playing
      modifies this`sent, this`voiceList, this`sessions, this`voiceUsage
      ensures var s := old(sessions[id]);
              && voiceList == Some(UpdateFirst(old(voiceList).value, s.voiceKey, AdjustActiveUsers(-1)))
              && voiceUsage == AddUsage(old(voiceUsage), UsageKey(s.voiceKey, s.speakerName), duration)
              && sessions == old(sessions)[id := s.(phase := Settled)]
      ensures var audio := if old(sessions[id]).sink.Collect? then Some(old(sessions[id]).sink.chunks) else None;
              sent == old(sent) + if outcome.Resolved? && currentSpeech == Some(id) then [Notify(id, OnEnd(audio))] else []
      ensures UniqueKeys(voiceList.value) && UsersInStep(voiceList.value, baseUsers, sessions, nextSpeech)
    {
      var s := sessions[id];
      if outcome.Resolved? {
        var audio := if s.sink.Collect? then Some(s.sink.chunks) else None;
        NotifyCaller(id, OnEnd(audio));
      }
      UsersStayInStep(voiceList.value, baseUsers, sessions, nextSpeech, id, s.(phase := Settled), AdjustActiveUsers(-1));
      voiceList := Some(UpdateFirst(voiceList.value, s.voiceKey, AdjustActiveUsers(-1)));
      voiceUsage := AddUsage(voiceUsage, UsageKey(s.voiceKey, s.speakerName), duration);
      sessions := sessions[id := s.(phase := Settled)];
    }

    /** Hands `command` to the current speech, if there is one. */
    method Deliver(command: Command)
      requires Valid()
      modifies this`delivered
      ensures Valid()
      ensures delivered == old(delivered) + if currentSpeech.Some? then [Delivery(currentSpeech.value, command)] else []
    {
      if currentSpeech.Some? {
        delivered := delivered + [Delivery(currentSpeech.value, command)];
      }
    }

    /** `onPause`. */
    method OnPause()
      requires Valid()
      modifies this`delivered
      ensures Valid()
      ensures delivered == old(delivered) + if currentSpeech.Some? then [Delivery(currentSpeech.value, Pause)] else []
    {
      Deliver(Pause);
    }

    /** `onResume`. */
    method OnResume()
      requires Valid()
      modifies this`delivered
      ensures Valid()
      ensures delivered == old(delivered) + if currentSpeech.Some? then [Delivery(currentSpeech.value, Resume)] else []
    {
      Deliver(Resume);
    }

    /** `onForward`. */
    method OnForward()
      requires Valid()
      modifies this`delivered
      ensures Valid()
      ensures delivered == old(delivered) + if currentSpeech.Some? then [Delivery(currentSpeech.value, Forward)] else []
    {
      Deliver(Forward);
    }

    /** `onRewind`. */
    method OnRewind()
      requires Valid()
      modifies this`delivered
      ensures Valid()
      ensures delivered == old(delivered) + if currentSpeech.Some? then [Delivery(currentSpeech.value, Rewind)] else []
    {
      Deliver(Rewind);
    }

    /** `onSeek`: any number, negative ones included, goes to the current speech; anything else is "Bad args". */
    method OnSeek(p: Payload) returns (r: Result<(), Fault>)
      requires Valid()
      modifies this`delivered
      ensures Valid()
      ensures !Field(p, "index").Num? ==> r == Failure(BadArgs) && delivered == old(delivered)
      ensures Field(p, "index").Num? ==>
                && r == Success(())
                && delivered == old(delivered)
                   + if currentSpeech.Some? then [Delivery(currentSpeech.value, Seek(Field(p, "index").n))] else []
    {
      var index := CheckSeek(p);
      if index.Failure? {
        return Failure(index.error);
      }
      Deliver(Seek(index.value));
      r := Success(());
    }

    /** `onStop`: cancels the current speech and clears it, so it never notifies again. */
    method OnStop()
      requires Valid()
      modifies this`delivered, this`cancelled, this`currentSpeech
      ensures Valid()
      ensures delivered == old(delivered) + if old(currentSpeech).Some? then [Delivery(old(currentSpeech).value, Cancel)] else []
      ensures cancelled == old(cancelled) + if old(currentSpeech).Some? then {old(currentSpeech).value} else {}
      ensures currentSpeech == None
      ensures old(Retired()) <= Retired()
    {
      CancelCurrent();
      currentSpeech := None;
    }

    /**
     * `onDelete`, once the user has confirmed: dispose and forget the voice's
     * synthesizer, then delete the voice; when that succeeds the voice shows as not
     * loaded and not installed, when it fails the failure is reported.
     */
    method OnDelete(voiceKey: string, confirmed: bool, deletion: Settlement)
      requires Valid()
      modifies this`voiceList, this`activityLog, registry
      ensures Valid()
      ensures !confirmed ==> unchanged(this) && unchanged(registry)
      ensures confirmed ==>
                && registry.synths == old(registry.synths) - {voiceKey}
                && registry.disposed == old(registry.disposed)
                   + (if voiceKey in old(registry.synths) then {old(registry.synths)[voiceKey]} else {})
                && registry.created == old(registry.created)
                && (deletion.Resolved? ==>
                      && voiceList == (if old(voiceList).Some? then Some(UpdateFirst(old(voiceList).value, voiceKey, MarkUninstalled))
                                       else None)
                      && activityLog == old(activityLog))
                && (deletion.Rejected? ==>
                      voiceList == old(voiceList) && activityLog == old(activityLog) + [Reported(deletion.fault)])
      ensures currentSpeech == old(currentSpeech) && sessions == old(sessions) && sent == old(sent)
      ensures delivered == old(delivered) && cancelled == old(cancelled) && voiceUsage == old(voiceUsage)
    {
      if !confirmed {
        return;
      }
      registry.Remove(voiceKey);
      if deletion.Resolved? {
        if voiceList.Some? {
          EditKeepsUsersInStep(voiceList.value, baseUsers, sessions, nextSpeech, voiceKey, MarkUninstalled);
          voiceList := Some(UpdateFirst(voiceList.value, voiceKey, MarkUninstalled));
        }
      } else {
        activityLog := activityLog + [Reported(deletion.fault)];
      }
    }

    /** `toggleExpanded`: an entry never set reads as collapsed, so it opens. */
    method ToggleExpanded(voiceKey: string)
      modifies this`isExpanded
      ensures isExpanded == old(isExpanded)[voiceKey := !(voiceKey in old(isExpanded) && old(isExpanded)[voiceKey])]
    {
      isExpanded := isExpanded[voiceKey := !(voiceKey in isExpanded && isExpanded[voiceKey])];
    }

    /** `toggleSection`. */
    method ToggleSection(section: Section)
      modifies this`installedCollapsed, this`availableCollapsed
      ensures section == InstalledSection ==>
                installedCollapsed == !old(installedCollapsed) && availableCollapsed == old(availableCollapsed)
      ensures section == AvailableSection ==>
                availableCollapsed == !old(availableCollapsed) && installedCollapsed == old(installedCollapsed)
    {
      if section == InstalledSection {
        installedCollapsed := !installedCollapsed;
      } else {
        availableCollapsed := !availableCollapsed;
      }
    }
  }
}
