# funpiper-tts: the request layer and the service worker, in Dafny

This project models two parts of funpiper-tts, a browser text-to-speech service built on Piper voice models.

**The request layer of the web page (`src/index.tsx`).** This is what other pages call through the message dispatcher:

- the argument checks of `speak`, `synthesize` and `seek`;
- how `speak` picks a voice and a speaker;
- the `synthesizers` map, one synthesizer per voice key;
- the module-level `currentSpeech`: a new speech cancels the previous one, and only the current speech may notify its caller;
- the bookkeeping around a speech: the voice's `loadState`, its `numActiveUsers`, and `stats.voiceUsage`;
- the transport handlers: pause, resume, forward, rewind, seek and stop;
- voice deletion;
- the language filter that splits the voice list into an installed section and an available section;
- the two toggles of the page state.

**The service worker (`build/debug/sw.js`).** On install it fills the cache buckets named in its manifest `myCache`. On activate it deletes every other bucket. Both hold with the two exceptions under "## Findings". It answers fetches from the cache, ignoring query strings, and goes to the network only on a miss.

Modules:

- `Wrappers`: `Option`, `Result`, and the errors the code throws.
- `Text`: ASCII string helpers, and JavaScript's `in` on a plain object, which also finds the names inherited from `Object.prototype`.
- `Voices`: the voice record, the language filter, the sections, voice and speaker resolution, and edits of one voice in the list.
- `Requests`: request payloads as maps from field name to JavaScript value, and the three validators.
- `Registry`: the `synthesizers` map, as a class.
- `Controller`: the page's controllers, as class `App`, together with the module globals. The async body of `speak` is split into the steps that run between its `await`s:
  - `Speak`: up to the first `await`;
  - `Ready`: `synth.readyPromise` settles;
  - `Sentence` and `PlayChunk`: callbacks while playing;
  - `Finish`: `speech.play()` settles.
- `ServiceWorker`: the manifest, the cache storage as a class over a map from bucket name to URL list, and the three handlers.

The main invariant of `Controller.App.Valid` covers:

- speeches are numbered in start order;
- only the newest speech can be current;
- a current speech is neither cancelled nor finished;
- every voice's `numActiveUsers` equals its value at load time plus the number of speeches playing with it.

`onSeek` checks only `typeof index == "number"` and forwards any number, negative ones included. `Requests.CheckSeek` and `Controller.App.OnSeek` do the same.

## Model

| member | source | states |
|---|---|---|
| Text.ToLower | src/index.tsx:42-43 | the lower-cased string has the same length and no capital letter left; each capital becomes its small letter and every other character is kept |
| Voices.LanguageFilterByLetters | src/index.tsx:41-49 | a voice is allowed exactly when its lower-cased code starts with "en", equals "hi_in", or starts with "hi" while its lower-cased country contains "india"; checked, both directions, against a definition that tests the language code letter by letter |
| Voices.InstalledMembers | src/index.tsx:51-54 | a voice is in the installed section exactly when it is in the list, installed, and allowed; the section is empty while the list is not loaded |
| Voices.NotInstalledMembers | src/index.tsx:55-58 | a voice is in the available section exactly when it is in the list, not installed, and allowed |
| Voices.SectionsPartitionAllowed | src/index.tsx:51-58 | the two sections are disjoint, and together they hold exactly the allowed voices, with multiplicity |
| Voices.FindModelFrom | src/index.tsx:565 | the search returns the first index whose key ends with "-" + modelId, or nothing when no key does |
| Voices.Resolve | src/index.tsx:564-573 | a resolved voice index lies inside the loaded list |
| Voices.ResolveFindsFirstMatch | src/index.tsx:565-566 | resolution fails with "Voice not found" exactly when no key ends with "-" + modelId, and otherwise picks the first such voice; an unloaded list fails with the TypeError of `null.find` |
| Voices.ResolveSpeaker | src/index.tsx:568-573 | an absent or empty speaker name gives no speaker id; a name that is neither an entry of `speaker_id_map` nor a member it inherits from `Object.prototype` fails with "Speaker name not found"; an entry gives its id, and an inherited name gives that member |
| Voices.InheritedSpeakerAccepted | src/index.tsx:570-571 | on a voice whose speaker map has no entries, the speaker name "toString" passes the `in` check and yields the inherited member, while an ordinary unknown name fails |
| Voices.UpdateFirst | src/index.tsx:598-621 | editing a voice by key changes only the first voice with that key, keeps every key, and changes nothing when no voice has the key |
| Voices.FirstWithUniqueKey | src/index.tsx:599 | when keys are unique, the first voice with a key is the only one |
| Requests.CheckSpeak | src/index.tsx:487-496 | `speak` arguments are accepted exactly when utterance and voiceName are strings, pitch, rate and volume are numbers or undefined, and externalPlayback is a boolean or undefined; otherwise the error is "Bad args" |
| Requests.SpeakRoundTrip | src/index.tsx:483-496 | every well-typed speak request, written as a payload, is accepted and read back unchanged |
| Requests.SpeakCheckReadsFields | src/index.tsx:484-496 | an accepted payload yields exactly its own field values, with absent numbers and booleans read as undefined |
| Requests.SpeakRejectsMistyped | src/index.tsx:487-496 | a payload with a mistyped field, such as a null pitch or a numeric voiceName, is rejected |
| Requests.CheckSynthesize | src/index.tsx:532-538 | `synthesize` arguments are accepted exactly when text and voiceName are strings and pitch is a number or undefined; otherwise the error is "Bad args" |
| Requests.SynthesizeRoundTrip | src/index.tsx:528-538 | every well-typed synthesize request, written as a payload, is accepted and read back unchanged |
| Requests.SynthesizeCheckReadsFields | src/index.tsx:529-538 | an accepted payload yields exactly its own field values |
| Requests.CheckSeek | src/index.tsx:663-664 | a seek index is accepted exactly when it is a number, whatever its sign; otherwise the error is "Bad args" |
| Requests.SeekRoundTrip | src/index.tsx:663-665 | every number, negative ones included, passes and is forwarded unchanged |
| Registry.SynthRegistry.constructor | src/index.tsx:16 | the map starts empty, and nothing is created or disposed yet |
| Registry.SynthRegistry.GetOrCreate | src/index.tsx:577-582 | returns the synthesizer already held under the key without creating one; otherwise creates exactly one fresh synthesizer and stores it under the key; other keys are untouched |
| Registry.SynthRegistry.Remove | src/index.tsx:469-470 | the key's synthesizer, if any, is disposed and the key is removed; other keys are untouched, and an absent key changes nothing |
| Controller.AddUsage | src/index.tsx:622-626 | the usage of `voice.key + (speakerName ?? "")` grows by exactly the duration, counting from 0 when absent; every other key is unchanged |
| Controller.AddUsageAccumulates | src/index.tsx:622-626 | two speeches with the same voice and speaker add up to one speech of their total length |
| Controller.AddUsageCommutes | src/index.tsx:622-626 | speeches with different keys can be recorded in either order |
| Controller.UsersStayInStep | src/index.tsx:610-621 | incrementing `numActiveUsers` when a speech starts playing, and decrementing it when the speech stops, keeps every voice's count equal to its base plus the speeches playing with it |
| Controller.IdleVoiceAtBase | src/index.tsx:610-621 | once no speech plays with a voice, however each one ended, its `numActiveUsers` is back at its value when the list was loaded |
| Controller.App.constructor | src/index.tsx:16-35 | no speech yet and none numbered or cancelled, an empty registry with nothing created or disposed, empty log and usage, sections expanded |
| Controller.App.NotifyCaller | src/index.tsx:590-593 | a notification goes out only while its speech is the current one |
| Controller.App.CancelCurrent | src/index.tsx:584 | the current speech, if any, is cancelled; nothing else is |
| Controller.App.Speak | src/index.tsx:558-599 | a resolution error returns before anything changes; otherwise it logs, gets the voice's synthesizer or creates exactly one when the key has none, cancels the previous current speech, installs the new speech as current, and marks the voice as loading; no notification is sent and no retired speech becomes current again |
| Controller.App.Start | src/index.tsx:575-599 | the part of `speak` after resolution: the log entries, the registry step (one synthesizer created exactly when the key has none), supersession and the loading mark |
| Controller.App.Begin | src/index.tsx:584-599 | the previous speech is cancelled before the new one, numbered next, becomes current; the voice is marked loading |
| Controller.App.OnSpeak | src/index.tsx:483-526 | bad arguments are rejected with "Bad args" before anything changes; otherwise the outcome is exactly that of `speak` on the utterance with live playback, external exactly when externalPlayback is true: a resolution error changes nothing, and success cancels the previous speech, gets or creates the synthesizer, logs, installs the new current speech and marks the voice loading |
| Controller.App.OnSynthesize | src/index.tsx:528-556 | bad arguments are rejected with "Bad args" before anything changes; otherwise the outcome is exactly that of `speak` on the text while collecting the audio, as for `OnSpeak` |
| Controller.App.Settle | src/index.tsx:630-638 | a CancellationException is neither reported nor sent; any other failure is reported once and sent as onError only while the speech is current; the speech stops being current only if it still is |
| Controller.App.Ready | src/index.tsx:597-614 | once readiness settles the voice is marked loaded either way; on success it gains one active user and onStart goes out if the speech is current; on failure the speech ends as in `Settle` |
| Controller.App.MarkLoaded | src/index.tsx:603-614 | the loaded mark, and on success the increment and onStart, keep the active-user counts in step |
| Controller.App.Sentence | src/index.tsx:587-589 | onSentence is forwarded only while the speech is current |
| Controller.App.PlayChunk | src/index.tsx:500-549 | `synthesize` appends the chunk; external playback sends audioPlay with rate and volume; local playback changes nothing here |
| Controller.App.Release | src/index.tsx:615-627 | onEnd goes out on success if current, with the collected audio for `synthesize`; the voice loses its active user and the usage grows by the duration |
| Controller.App.Finish | src/index.tsx:615-638 | when playing ends, however it ends, the active user is taken off, the usage is recorded, and the speech settles as in `Settle` |
| Controller.App.OnPause | src/index.tsx:642-644 | pause goes to the current speech, if any |
| Controller.App.OnResume | src/index.tsx:646-648 | resume goes to the current speech, if any |
| Controller.App.OnForward | src/index.tsx:655-657 | forward goes to the current speech, if any |
| Controller.App.OnRewind | src/index.tsx:659-661 | rewind goes to the current speech, if any |
| Controller.App.OnSeek | src/index.tsx:663-666 | a non-numeric index fails with "Bad args" and delivers nothing; any number is delivered to the current speech, if any |
| Controller.App.OnStop | src/index.tsx:650-653 | the current speech is cancelled and cleared, so it can never notify again |
| Controller.App.OnDelete | src/index.tsx:466-481 | nothing happens unless the user confirms; then the voice's synthesizer is disposed and evicted, nothing is created, and the voice shows as not loaded and not installed, or the failure is reported; only the voice list, the log and the registry can change |
| Controller.App.ToggleExpanded | src/index.tsx:436-440 | flips one voice's expanded flag, an unset flag counting as false |
| Controller.App.ToggleSection | src/index.tsx:442-446 | flips the collapsed flag of exactly the named section |
| ServiceWorker.ManifestNamesDistinct | build/debug/sw.js:38-56 | the manifest's bucket names are distinct |
| ServiceWorker.ManifestQueriesMatchVersions | build/debug/sw.js:34-56 | in every versioned bucket (`<name>-v<N>`), every URL carries the query `v=<N>` |
| ServiceWorker.AppQueriesMatchVersion | build/debug/sw.js:34-44 | every URL of app-v16 carries the query v=16 |
| ServiceWorker.PopulateKeepsExisting | build/debug/sw.js:63 | a bucket that already exists is left exactly as it was |
| ServiceWorker.PopulateCoversEntries | build/debug/sw.js:60-69 | a successful install leaves every manifest bucket in the store |
| ServiceWorker.PopulateNewBuckets | build/debug/sw.js:60-69 | installing adds only manifest buckets; a new bucket holds exactly its manifest list; only when the install fails may a new bucket be left empty |
| ServiceWorker.PopulateSucceedsWhenReachable | build/debug/sw.js:60-69 | the install succeeds when every listed URL can be fetched |
| ServiceWorker.PopulateAtomicConsistent | build/debug/sw.js:60-69 | the corrected install, whether or not it succeeds, adds only manifest buckets, each holding exactly its list; on success every manifest bucket is present |
| ServiceWorker.InterruptedInstallStrandsAppBucket | build/debug/sw.js:62-65 | as written, an install that fails on app-v16 leaves that bucket empty, and a later successful install never fills it |
| ServiceWorker.InterruptedInstallRecovers | build/debug/sw.js:62-65 | corrected, the failed install leaves nothing behind, and the retry fills every manifest bucket with exactly its list |
| ServiceWorker.CacheStorage.Open | build/debug/sw.js:64 | `caches.open` creates a missing bucket, empty, and leaves an existing one alone |
| ServiceWorker.CacheStorage.AddAll | build/debug/sw.js:65 | `addAll` fills the bucket with all of the URLs, or changes nothing when one cannot be fetched |
| ServiceWorker.CacheStorage.Delete | build/debug/sw.js:74 | `caches.delete` removes exactly that bucket |
| ServiceWorker.PopulateCache | build/debug/sw.js:60-69 | the install handler as written: the store and the outcome are those of the as-written install |
| ServiceWorker.PopulateCacheAtomic | build/debug/sw.js:60-69 | the corrected install handler: the store and the outcome are those of the corrected install |
| ServiceWorker.PruneAsWritten | build/debug/sw.js:73 | as written, activation keeps buckets named in the manifest and also buckets named after Object.prototype members |
| ServiceWorker.PrototypeNamedBucketSurvives | build/debug/sw.js:73 | as written, a stale bucket named "toString" survives activation; corrected, it is deleted |
| ServiceWorker.Prune | build/debug/sw.js:70-77 | corrected, activation keeps exactly the existing buckets that the manifest names, contents untouched; it adds nothing |
| ServiceWorker.RemoveOldCachesAsWritten | build/debug/sw.js:70-77 | the activate handler as written leaves exactly the store that `PruneAsWritten` describes, deleting one bucket at a time |
| ServiceWorker.RemoveOldCaches | build/debug/sw.js:70-77 | the activate handler corrected: every bucket the manifest does not name is deleted; manifest buckets are kept unchanged |
| ServiceWorker.InstallThenActivateAsWritten | build/debug/sw.js:57-77 | as written, a successful install followed by activation keeps every manifest bucket, and besides them only buckets that already existed under an `Object.prototype` name |
| ServiceWorker.InstallThenActivateNames | build/debug/sw.js:57-77 | corrected, a successful install followed by activation leaves exactly the manifest's bucket names, whatever the store held before |
| ServiceWorker.InstallThenActivate | build/debug/sw.js:57-77 | corrected, on a store with no stale contents under a manifest name, a successful install followed by activation leaves exactly the manifest's buckets, each holding exactly its list |
| ServiceWorker.InstallAndActivate | build/debug/sw.js:57-77 | the corrected handlers, run on one cache storage, give the same result; activation runs only after a successful install |
| ServiceWorker.QueryAfterMark | build/debug/sw.js:80 | the query of `<path>?<query>` is `<query>`, and ignoring the search leaves `<path>` |
| ServiceWorker.HandleFetch | build/debug/sw.js:78-82 | a cached entry matching the request with the query ignored is returned whenever one exists; the network is used exactly on a miss |

## Left out

- React rendering, DOM refs, the immer/`stateUpdater` plumbing and the test-form handlers (`onTestSpeak`, `onTestSynthesize`, `onStopTest`) are not part of this model. The draft fields the core changes are class fields.
- `src/speech.ts` and `src/synthesizer.ts` are not part of this model. Speeches and synthesizers are opaque ids. The sentence loop, pause/resume internals and seek arithmetic are left out. Pause, resume, forward, rewind, seek and cancel are recorded as deliveries to a speech id.
- The async body of `speak` is modelled as step methods that the environment calls in order. Interleavings of promises and the event loop are not modelled.
- These calls are foreign, so they are parameters or outcomes: `parseAdvertisedVoiceName`, `makeWav`, `playAudio`, `sender.send`, `waitForResponse`, `deleteVoice`, `confirm`, `Date.now` and `updateStats` persistence. `Date.now` becomes the duration argument. The outcome of `deleteVoice` and of readiness is an argument.
- `onInstall`, `getVoiceList` at start-up, popularity, `advertiseVoices` and `reportError`'s console output are left out. The voice list is given to the constructor.
- The text of activity-log lines, including the excerpt of the utterance, is left out. The log records which event happened, with its voice key, speaker or error.
- Voice keys are taken to be unique in the voice list, as the catalogue's keys are. The constructor of `Controller.App` requires it, because `getVoiceList` is not part of this model, and the invariant on `numActiveUsers` depends on it.
- A failed `find(...)!` inside a state updater is modelled as no edit. It throws inside React's updater, outside the try/catch of the code.
- Text.ToLower: lower-cases ASCII letters only, because JavaScript's full Unicode case mapping is not modelled.
- Numbers are real numbers. NaN, infinities and -0 are not modelled, and `typeof NaN == "number"` is represented only as "some number".
- Requests model each payload field as one JavaScript value. Symbols, bigints, functions and getters are left out.
- The `__awaiter` helper and the webpack runtime of sw.js are compiler scaffolding and are left out.
- Cache storage maps bucket names to the URLs cached in them. Responses, HTTP status beyond "fetchable or not", URL resolution against the worker's origin, and the order in which `caches.match` searches buckets are left out. `HandleFetch` may return a match from any bucket.
- ServiceWorker.CacheStorage.AddAll: specified for a bucket that is empty, the only way `populateCache` calls it. Re-adding URLs to a filled bucket is not modelled.

## Findings

| source | as written | input that shows it | evidently intended | confidence | as-written member | corrected member |
|---|---|---|---|---|---|---|
| build/debug/sw.js:62-65 | `caches.open(key)` creates the bucket before `addAll`. When `addAll` rejects, the empty bucket stays, and every later install skips it because `caches.has(key)` is true. | The first install runs while `/?v=16` cannot be fetched. A retry with every URL reachable then reports success, yet app-v16 is empty. | A bucket whose `addAll` fails is deleted, so that the next install fills it. | medium, not executed | ServiceWorker.InterruptedInstallStrandsAppBucket | ServiceWorker.InterruptedInstallRecovers |
| build/debug/sw.js:73 | `key in myCache` is also true for names inherited from `Object.prototype`. | A stale bucket named `toString` is never deleted on activation. | Keep only the manifest's own keys, as `Object.hasOwn(myCache, key)` would. | low (bucket names come from the app itself), not executed | ServiceWorker.PrototypeNamedBucketSurvives | ServiceWorker.RemoveOldCaches |
