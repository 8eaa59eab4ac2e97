/**
 * The voice catalogue as the page holds it: the language filter, the split into
 * installed and not-installed voices, and the lookups `speak` does on it
 * (src/index.tsx).
 */
module Voices {
  import opened Wrappers
  import opened Text

  datatype InstallState = NotInstalled | Installing | Installed
  datatype LoadState = NotLoaded | Loading | Loaded

  /** One entry of the voice list; `key` identifies the model and is unique in the list. */
  datatype Voice = Voice(
    key: string,
    name: string,
    languageCode: string,
    countryEnglish: string,
    installState: InstallState,
    loadState: LoadState,
    numActiveUsers: int,
    speakerIdMap: map<string, int>)

  // ---------------------------------------------------------------------------
  // Language filter and the two voice sections
  // ---------------------------------------------------------------------------

  /** English voices, and Hindi voices of India; both strings compared lower-cased. */
  predicate IsLanguageAllowed(v: Voice) {
    var code := ToLower(v.languageCode);
    var country := ToLower(v.countryEnglish);
    StartsWith(code, "en") || code == "hi_in" || (StartsWith(code, "hi") && Contains(country, "india"))
  }

  predicate Either(c: char, lower: char, upper: char) {
    c == lower || c == upper
  }

  /**
   * The same filter stated letter by letter, without lower-casing: a code whose first
   * two letters are e/E, n/N; the code hi_in in any case; or a code beginning h/H, i/I
   * for a country whose lower-cased name mentions india.
   */
  predicate AllowedByLetters(v: Voice) {
    var c := v.languageCode;
    (|c| >= 2 && Either(c[0], 'e', 'E') && Either(c[1], 'n', 'N'))
    || (|c| == 5 && Either(c[0], 'h', 'H') && Either(c[1], 'i', 'I') && c[2] == '_'
        && Either(c[3], 'i', 'I') && Either(c[4], 'n', 'N'))
    || (|c| >= 2 && Either(c[0], 'h', 'H') && Either(c[1], 'i', 'I') && Contains(ToLower(v.countryEnglish), "india"))
  }

  lemma LowerCharIs(c: char, lower: char, upper: char)
    requires 'a' <= lower <= 'z' && upper as int == lower as int - 32
    ensures LowerChar(c) == lower <==> Either(c, lower, upper)
  {
  }

  /** The filter keeps exactly the English voices and the Hindi voices of India. */
  lemma LanguageFilterByLetters(v: Voice)
    ensures IsLanguageAllowed(v) <==> AllowedByLetters(v)
  {
    var c := v.languageCode;
    var code := ToLower(c);
    if |c| >= 2 {
      LowerCharIs(c[0], 'e', 'E');
      LowerCharIs(c[1], 'n', 'N');
      LowerCharIs(c[0], 'h', 'H');
      LowerCharIs(c[1], 'i', 'I');
      assert StartsWith(code, "en") <==> code[0] == 'e' && code[1] == 'n';
      assert StartsWith(code, "hi") <==> code[0] == 'h' && code[1] == 'i';
    }
    if |c| == 5 {
      LowerCharIs(c[3], 'i', 'I');
      LowerCharIs(c[4], 'n', 'N');
      assert LowerChar(c[2]) == '_' <==> c[2] == '_';
      assert code == "hi_in" <==> code[0] == 'h' && code[1] == 'i' && code[2] == '_' && code[3] == 'i' && code[4] == 'n';
    }
  }

  /** `Array.prototype.filter`: the voices that `keep` accepts, in list order. */
  function Filter(s: seq<Voice>, keep: Voice -> bool): seq<Voice> {
    if s == [] then [] else (if keep(s[0]) then [s[0]] else []) + Filter(s[1..], keep)
  }

  predicate InstalledAndAllowed(v: Voice) {
    v.installState == Installed && IsLanguageAllowed(v)
  }

  predicate NotInstalledAndAllowed(v: Voice) {
    v.installState != Installed && IsLanguageAllowed(v)
  }

  /** `installed`: an absent (null) voice list gives the empty list. */
  function InstalledVoices(list: Option<seq<Voice>>): seq<Voice> {
    match list
    case None => []
    case Some(l) => Filter(l, InstalledAndAllowed)
  }

  /** `notInstalled`. */
  function NotInstalledVoices(list: Option<seq<Voice>>): seq<Voice> {
    match list
    case None => []
    case Some(l) => Filter(l, NotInstalledAndAllowed)
  }

  /** Every voice the language filter lets through. */
  function AllowedVoices(list: Option<seq<Voice>>): seq<Voice> {
    match list
    case None => []
    case Some(l) => Filter(l, IsLanguageAllowed)
  }

  lemma {:induction false} FilterMembers(s: seq<Voice>, keep: Voice -> bool)
    ensures forall v :: v in Filter(s, keep) <==> v in s && keep(v)
    decreases |s|
  {
    if s != [] {
      FilterMembers(s[1..], keep);
      assert s == [s[0]] + s[1..];
    }
  }

  lemma {:induction false} FilterSplit(s: seq<Voice>)
    ensures multiset(Filter(s, InstalledAndAllowed)) + multiset(Filter(s, NotInstalledAndAllowed))
         == multiset(Filter(s, IsLanguageAllowed))
    decreases |s|
  {
    if s != [] {
      FilterSplit(s[1..]);
    }
  }

  /** A voice is listed as installed exactly when it is in the list, installed and allowed. */
  lemma InstalledMembers(list: Option<seq<Voice>>, v: Voice)
    ensures v in InstalledVoices(list)
        <==> list.Some? && v in list.value && v.installState == Installed && IsLanguageAllowed(v)
  {
    if list.Some? { FilterMembers(list.value, InstalledAndAllowed); }
  }

  /** A voice is offered for install exactly when it is in the list, not installed and allowed. */
  lemma NotInstalledMembers(list: Option<seq<Voice>>, v: Voice)
    ensures v in NotInstalledVoices(list)
        <==> list.Some? && v in list.value && v.installState != Installed && IsLanguageAllowed(v)
  {
    if list.Some? { FilterMembers(list.value, NotInstalledAndAllowed); }
  }

  /**
   * The two sections share no voice, and together they hold every allowed voice,
   * each as often as the list does.
   */
  lemma SectionsPartitionAllowed(list: Option<seq<Voice>>)
    ensures multiset(InstalledVoices(list)) + multiset(NotInstalledVoices(list)) == multiset(AllowedVoices(list))
    ensures forall v :: !(v in InstalledVoices(list) && v in NotInstalledVoices(list))
  {
    if list.Some? {
      FilterSplit(list.value);
      FilterMembers(list.value, InstalledAndAllowed);
      FilterMembers(list.value, NotInstalledAndAllowed);
    }
  }

  // ---------------------------------------------------------------------------
  // Voice and speaker resolution in `speak`
  // ---------------------------------------------------------------------------

  /** What `parseAdvertisedVoiceName` extracts from an advertised voice name. */
  datatype ParsedVoiceName = ParsedVoiceName(modelId: string, speakerName: Option<string>)

  /**
   * The `speakerId` handed to `makeSpeech`: undefined, the number the voice's
   * `speaker_id_map` holds for the name, or the member the map inherits from
   * `Object.prototype` under that name (a function, not a number).
   */
  datatype SpeakerId = NoSpeaker | MappedId(id: int) | InheritedMember(name: string)

  datatype Resolution = Resolution(index: nat, speakerId: SpeakerId)

  predicate MatchesModel(v: Voice, modelId: string) {
    EndsWith(v.key, "-" + modelId)
  }

  /** `list.find(...)` from position `i` on: the first voice whose key ends with `-modelId`. */
  function FindModelFrom(list: seq<Voice>, modelId: string, i: nat): (r: Option<nat>)
    requires i <= |list|
    ensures r.Some? ==> i <= r.value < |list| && MatchesModel(list[r.value], modelId)
                        && forall j :: i <= j < r.value ==> !MatchesModel(list[j], modelId)
    ensures r.None? ==> forall j :: i <= j < |list| ==> !MatchesModel(list[j], modelId)
    decreases |list| - i
  {
    if i == |list| then None
    else if MatchesModel(list[i], modelId) then Some(i)
    else FindModelFrom(list, modelId, i + 1)
  }

  /** A speaker name counts only when it is a non-empty string (JavaScript truthiness). */
  predicate HasSpeakerName(speakerName: Option<string>) {
    speakerName.Some? && speakerName.value != ""
  }

  /** Voice then speaker resolution, as `speak` does it before touching any state. */
  function Resolve(list: Option<seq<Voice>>, parsed: ParsedVoiceName): (r: Result<Resolution, Fault>)
    ensures r.Success? ==> list.Some? && r.value.index < |list.value|
  {
    match list
    case None => Failure(VoiceListNotLoaded)
    case Some(l) =>
      match FindModelFrom(l, parsed.modelId, 0)
      case None => Failure(VoiceNotFound)
      case Some(i) =>
        if HasSpeakerName(parsed.speakerName) then
          var name := parsed.speakerName.value;
          if !JsIn(name, l[i].speakerIdMap.Keys) then Failure(SpeakerNotFound)
          else if name in l[i].speakerIdMap then Success(Resolution(i, MappedId(l[i].speakerIdMap[name])))
          else Success(Resolution(i, InheritedMember(name)))
        else Success(Resolution(i, NoSpeaker))
  }

  /**
   * The chosen voice is the first whose key ends with `-modelId`, and "Voice not found"
   * is thrown exactly when there is none; a null voice list throws a TypeError.
   */
  lemma ResolveFindsFirstMatch(list: Option<seq<Voice>>, parsed: ParsedVoiceName)
    ensures list.None? ==> Resolve(list, parsed) == Failure(VoiceListNotLoaded)
    ensures Resolve(list, parsed) == Failure(VoiceNotFound)
        <==> list.Some? && forall j :: 0 <= j < |list.value| ==> !MatchesModel(list.value[j], parsed.modelId)
    ensures Resolve(list, parsed).Success? ==>
              var i := Resolve(list, parsed).value.index;
              && MatchesModel(list.value[i], parsed.modelId)
              && forall j :: 0 <= j < i ==> !MatchesModel(list.value[j], parsed.modelId)
  {
  }

  /**
   * A non-empty speaker name must be a property of the chosen voice's speaker map,
   * as JavaScript's `in` sees it: an own entry gives its id, and a name the map
   * inherits from `Object.prototype` gives that member. "Speaker name not found" is
   * thrown exactly when the name is neither; no name (or an empty one) gives no
   * speaker id. Nothing else can fail.
   */
  lemma ResolveSpeaker(list: Option<seq<Voice>>, parsed: ParsedVoiceName)
    ensures Resolve(list, parsed).Success? ==>
              var v := list.value[Resolve(list, parsed).value.index];
              var id := Resolve(list, parsed).value.speakerId;
              && (HasSpeakerName(parsed.speakerName) && parsed.speakerName.value in v.speakerIdMap ==>
                    id == MappedId(v.speakerIdMap[parsed.speakerName.value]))
              && (HasSpeakerName(parsed.speakerName) && parsed.speakerName.value !in v.speakerIdMap ==>
                    parsed.speakerName.value in PrototypeKeys && id == InheritedMember(parsed.speakerName.value))
              && (!HasSpeakerName(parsed.speakerName) ==> id == NoSpeaker)
    ensures Resolve(list, parsed) == Failure(SpeakerNotFound) <==>
              && list.Some? && FindModelFrom(list.value, parsed.modelId, 0).Some?
              && HasSpeakerName(parsed.speakerName)
              && parsed.speakerName.value !in list.value[FindModelFrom(list.value, parsed.modelId, 0).value].speakerIdMap
              && parsed.speakerName.value !in PrototypeKeys
    ensures Resolve(list, parsed).Failure? ==>
              Resolve(list, parsed).error in {VoiceListNotLoaded, VoiceNotFound, SpeakerNotFound}
  {
  }

  /**
   * A speaker name such as `toString` passes the check on a voice whose speaker map has
   * no entries at all, because the map inherits it.
   */
  lemma InheritedSpeakerAccepted(v: Voice, modelId: string)
    requires MatchesModel(v, modelId) && v.speakerIdMap == map[]
    ensures Resolve(Some([v]), ParsedVoiceName(modelId, Some("toString")))
            == Success(Resolution(0, InheritedMember("toString")))
    ensures Resolve(Some([v]), ParsedVoiceName(modelId, Some("narrator"))) == Failure(SpeakerNotFound)
  {
  }

  // ---------------------------------------------------------------------------
  // The draft fields the controllers change: `draft.voiceList!.find(x => x.key == key)!`
  // ---------------------------------------------------------------------------

  datatype VoiceEdit = SetLoadState(state: LoadState) | AdjustActiveUsers(delta: int) | MarkUninstalled

  function Apply(v: Voice, e: VoiceEdit): Voice {
    match e
    case SetLoadState(s) => v.(loadState := s)
    case AdjustActiveUsers(d) => v.(numActiveUsers := v.numActiveUsers + d)
    case MarkUninstalled => v.(loadState := NotLoaded, installState := NotInstalled)
  }

  predicate FirstWithKey(list: seq<Voice>, key: string, i: nat)
    requires i < |list|
  {
    list[i].key == key && forall j :: 0 <= j < i ==> list[j].key != key
  }

  /**
   * Applies `e` to the first voice with `key`; every other voice, and every key, stays
   * as it was. When no voice has the key nothing changes.
   */
  function UpdateFirst(list: seq<Voice>, key: string, e: VoiceEdit): (r: seq<Voice>)
    ensures |r| == |list|
    ensures forall i {:trigger r[i]} :: 0 <= i < |list| ==>
              r[i] == if FirstWithKey(list, key, i) then Apply(list[i], e) else list[i]
    ensures forall i {:trigger r[i]} :: 0 <= i < |list| ==> r[i].key == list[i].key
  {
    if list == [] then []
    else if list[0].key == key then [Apply(list[0], e)] + list[1..]
    else [list[0]] + UpdateFirst(list[1..], key, e)
  }

  predicate UniqueKeys(list: seq<Voice>) {
    forall i, j :: 0 <= i < j < |list| ==> list[i].key != list[j].key
  }

  /** With unique keys, the voice edited is the one voice that has the key. */
  lemma FirstWithUniqueKey(list: seq<Voice>, key: string, i: nat)
    requires UniqueKeys(list) && i < |list|
    ensures FirstWithKey(list, key, i) <==> list[i].key == key
  {
  }

}
