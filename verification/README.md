# Necromancer: a Dafny model of its audio engine and ritual logic

Necromancer is a horror-themed web application. It sends legacy code to a
text-generation service to be "autopsied", "resurrected" (translated), "cleansed of
curses" (refactored) or "soul-bound" (documented and tested), or runs all four as a
"full ritual". A hand-built audio engine plays along: it has drones, whispers,
glitches, heartbeats, screams, growls and a demonic text-to-speech voice.

This project models the parts of the application that decide things:

- **The audio engine** (`HorrorAudio`):
  - It is a class whose fields are the engine's own state: context and master gain, the mute flag and the heartbeat clock. It also holds the speech synthesiser state and the sounds it has scheduled.
  - Every method is proved equal to a pure transition over a `Snapshot` value (module `AudioState`).
  - Its guards, debounce, mute handling and speech rules are proved there.
  - So is an invariant of every reachable state.
- **Sounds as records**: each sound is an `EffectRecord`. It holds the source, filter, modulation, automation segments, and start and stop times on the audio clock. Times are exact reals, and `Math.random()` draws are parameters in [0, 1).
- **The speech sanitiser** `cleanTextForSpeech`:
  - It is the chain of global replacements, on Unicode scalar values.
  - Web addresses become the word "link".
  - The sanitiser is proved to leave no emoji or markdown character and no address.
  - It is idempotent.
- **The resurrection service**: template selection, language fallbacks, the fenced code in the prompt, the reply's fence stripping and trimming, and error mapping. The text generator is a function parameter.
- **The application's decision helpers**:
  - download extension;
  - history entries;
  - the sanity meter, heartbeat pace and distortion;
  - the status texts and completed states;
  - the single-mode and full-ritual flows;
  - the speech buttons.

## Model

| member | source | states |
|---|---|---|
| JsText.Trim | services/geminiService.ts:142 | `trim` removes white space from both ends only: the result is no longer, starts and ends with non-white-space, and is empty exactly when the input is all white space |
| JsText.TrimIsInfix | services/geminiService.ts:142 | the trimmed text is a contiguous part of the input with only white space cut on either side |
| JsText.TrimFixpoint | services/geminiService.ts:142 | `trim` leaves text alone exactly when it has no white space at either end, and trimming twice is trimming once |
| JsText.AsciiLower | App.tsx:569 | `toLowerCase` keeps the length and lowers each ASCII capital to its small letter, leaving every other character as it is |
| JsText.Prefix | App.tsx:844 | `slice(0, n)` is the first `n` characters, or the whole text when it is shorter (the same call is at lines 455 and 457) |
| JsText.Utf16Length | App.tsx:262 | the JavaScript `length` lies between the number of characters and twice it, and equals it for text without astral characters |
| SpeechText.Drop | App.tsx:270-275 | one deleting `replace`: no character of the class survives, every survivor occurs in the input, and input without such characters is returned unchanged |
| SpeechText.DropSingle | App.tsx:270-275 | one character is deleted by a class replacement exactly when it is in the class, and kept otherwise |
| SpeechText.DropAppend | App.tsx:270-275 | a class replacement works on each part of a concatenation separately, so the surviving characters keep their order |
| SpeechText.UrlMatchLen | App.tsx:276 | an address match starts exactly where `http://` or `https://` is followed by a non-white-space character, and it extends greedily to the next white space or the end |
| SpeechText.ReplaceUrls | App.tsx:276 | the address replacement never lengthens the text and introduces only the letters of "link" |
| SpeechText.StripMarkup | App.tsx:270-275 | after the six deletions no character of U+1F300–U+1F6FF, U+1F900–U+1F9FF or `` ` * { } [ ] # `` remains; text without them is unchanged |
| SpeechText.StripMarkupSingle | App.tsx:270-275 | the six deletions remove one character exactly when it is an emoji of the listed blocks or a markdown character, and keep it otherwise |
| SpeechText.StripMarkupAppend | App.tsx:270-275 | the six deletions work on each part of a concatenation separately; with the single-character lemma this fixes the result as the input with exactly the removed characters left out, in order |
| SpeechText.CleanTextForSpeech | App.tsx:267-277 | the sanitised text has none of the removed characters and no address, is never longer, and equals the input when the input has neither removed characters nor an address |
| SpeechText.NoUrlFixed | App.tsx:276 | text in which no address starts is not changed by the address replacement |
| SpeechText.NoUrlAfterReplace | App.tsx:276 | no address remains after the replacement, even where "link" meets the text around it |
| SpeechText.UrlBecomesLink | App.tsx:276 | an address (scheme plus its whole non-white-space run) becomes the single word "link" and the text before and after it is kept |
| SpeechText.CleanUrlBecomesLink | App.tsx:267-277 | in the sanitiser itself, an address (free of markup, with its whole non-white-space run) becomes "link". The markup before it is stripped and the text after it is sanitised on its own. |
| SpeechText.CleanWithoutUrl | App.tsx:267-277 | text that holds no address once its markup is gone comes out as that stripped text |
| SpeechText.WholeUrlMatched | App.tsx:276 | a whole address followed by white space or the end becomes "link" and the rest is replaced on its own |
| SpeechText.ReplaceUrlsSplit | App.tsx:276 | text before the first address is copied unchanged by the replacement |
| SpeechText.FirstUrl | App.tsx:276 | the first position where an address starts, or the end when none does: no address starts before it |
| SpeechText.CleanTextIdempotent | App.tsx:267-277 | sanitising sanitised text changes nothing |
| AudioEffects.Drone | App.tsx:134-150 | an ambience drone is a sawtooth at the given frequency through a 120 Hz low-pass at gain 0.15, and it is never stopped |
| AudioEffects.WhisperEffect | App.tsx:153-177 | a whisper lasts 1.5 s, its band-pass centre lies in [800, 1300) Hz, its pan in [-1, 1), and it is well formed |
| AudioEffects.GlitchEffect | App.tsx:179-191 | a glitch lasts 0.3 s at a frequency in [100, 300) Hz, and its exponential ramp aims above zero |
| AudioEffects.TypingEffect | App.tsx:193-212 | a typing tick lasts 0.05 s at fixed gain 0.2 with no automation |
| AudioEffects.HeartbeatEffect | App.tsx:218-228 | a heartbeat lasts 0.5 s, and both of its exponential ramps aim above zero |
| AudioEffects.ScreamEffect | App.tsx:231-243 | a scream lasts 1 s and is well formed |
| AudioEffects.GrowlEffect | App.tsx:295-333 | a growl lasts `durationMs / 1000` s, its cutoff is modulated at 8 Hz by 300 Hz, and it is well formed |
| AudioState.Init | App.tsx:105-120 | `init`; its behaviour is stated by `AudioState.InitOnce`, `AudioState.InitIdempotent` and `AudioState.InitKeepsInv` |
| AudioState.StartAmbience | App.tsx:134-150 | `startDarkAmbience`; stated by `AudioState.DronesSound` and `HorrorAudioEngine.HorrorAudio.StartDarkAmbience` |
| AudioState.SetMute | App.tsx:122-132 | `setMute`; stated by `AudioState.SetMuteEffect`, `AudioState.MuteUnmuteRestoresGain` and `AudioState.SetMuteKeepsInv` |
| AudioState.Schedule | App.tsx:154 | the guard shared by the one-shot sounds; stated by `AudioState.OneShotGuard` and `AudioState.OneShotSchedules` |
| AudioState.PlayWhisper | App.tsx:153-177 | `playWhisper`; stated by `AudioState.OneShotGuard`, `AudioState.OneShotSchedules` and `AudioEffects.WhisperEffect` |
| AudioState.PlayGlitch | App.tsx:179-191 | `playGlitchSound`; stated by `AudioState.OneShotGuard`, `AudioState.OneShotSchedules` and `AudioEffects.GlitchEffect` |
| AudioState.PlayTyping | App.tsx:193-212 | `playTypingSound`; stated by `AudioState.OneShotGuard`, `AudioState.OneShotSchedules` and `AudioEffects.TypingEffect` |
| AudioState.PlayHeartbeat | App.tsx:214-229 | `playHeartbeat`; stated by `AudioState.HeartbeatDebounce`, `AudioState.HeartbeatRetrigger` and `AudioState.HeartbeatKeepsInv` |
| AudioState.PlayScream | App.tsx:231-243 | `playScream`; stated by `AudioState.OneShotGuard`, `AudioState.OneShotSchedules` and `AudioEffects.ScreamEffect` |
| AudioState.PlayGrowl | App.tsx:295-333 | `playGrowl`; stated by `AudioState.OneShotGuard`, `AudioState.OneShotSchedules` and `AudioEffects.GrowlEffect` |
| AudioState.SpeakDemon | App.tsx:246-265 | `speakDemon`; stated by `AudioState.SpeakDemonEffect`, `AudioState.SpeakWhileMuted`, `AudioState.LastSpeechWins` and `AudioState.SpeakKeepsInv` |
| AudioState.PlayFeedMe | App.tsx:335-337 | `playFeedMe`: `speakDemon` on its fixed line, so the `speakDemon` lemmas state it |
| AudioState.PauseSpeaking | App.tsx:279-283 | `pauseSpeaking`; stated by `AudioState.PauseResume` |
| AudioState.ResumeSpeaking | App.tsx:285-289 | `resumeSpeaking`; stated by `AudioState.PauseResume` |
| AudioState.StopSpeaking | App.tsx:291-293 | `stopSpeaking`; stated by `AudioState.PauseResume` and `AudioState.SpeechControlKeepsInv` |
| AudioState.FindPreferred | App.tsx:259 | `find`: the index of the first voice whose name contains "Google US English", or none when no name does |
| AudioState.PickVoice | App.tsx:258-260 | the voice is the first preferred voice if there is one, else the first voice, else none exactly when there are no voices |
| AudioState.FreshInv | App.tsx:98-103 | the engine as constructed satisfies the invariant |
| AudioState.AppendKeepsInv | App.tsx:153-333 | scheduling one well-formed sound that is neither a drone nor a heartbeat keeps the invariant |
| AudioState.InitKeepsInv | App.tsx:105-120 | `init` keeps the invariant |
| AudioState.SetMuteKeepsInv | App.tsx:122-132 | `setMute` keeps the invariant |
| AudioState.ScheduleKeepsInv | App.tsx:153-333 | a guarded one-shot sound keeps the invariant |
| AudioState.OneShotKeepsInv | App.tsx:153-333 | each of the six one-shot sounds keeps the invariant, whatever the guard decides |
| AudioState.DronesSound | App.tsx:134-150 | the ambience is exactly the 55 Hz and 58 Hz drones, both well formed |
| AudioState.SpeechControlKeepsInv | App.tsx:279-293 | pause, resume and stop keep the invariant |
| AudioState.SpeakKeepsInv | App.tsx:246-265 | `speakDemon` keeps the invariant |
| AudioState.DemonUtteranceDemonic | App.tsx:250-254 | every utterance `speakDemon` builds has pitch 0.01, rate 0.4 and volume 1, and its text holds none of the characters the sanitiser removes |
| AudioState.SpeechCmdKeepsInv | App.tsx:246-293 | speaking, pausing, resuming and stopping keep the invariant |
| AudioState.HeartbeatKeepsInv | App.tsx:214-229 | `playHeartbeat` keeps the invariant, including the spacing of accepted heartbeats |
| AudioState.ApplyKeepsInv | App.tsx:97-338 | every engine call keeps the invariant |
| AudioState.RunKeepsInv | App.tsx:97-338 | every sequence of engine calls keeps the invariant |
| AudioState.ReachableInv | App.tsx:97-338 | every reachable state satisfies the invariant. Nothing is scheduled before `init`. After it, the two drones come first and no other drone is ever started. Every sound is well formed. Once a mute transition is programmed, the master gain heads where the mute flag says. Heartbeats are at least 0.2 s apart. Nothing speaks while muted. Only the latest utterance can be current. Every utterance is demonic and sanitised. |
| AudioState.InitOnce | App.tsx:105-120 | the first `init` creates a master gain at 1.0 and starts exactly the 55 Hz and 58 Hz drones, and a later `init` changes nothing |
| AudioState.InitIdempotent | App.tsx:106 | `init` twice is `init` once, in every state |
| AudioState.OneShotGuard | App.tsx:154 | each one-shot sound is a no-op without a context or while muted (the same guard is at lines 180, 194, 215, 232 and 296) |
| AudioState.OneShotSchedules | App.tsx:153-333 | an allowed one-shot sound appends exactly one well-formed, finitely lived record starting now, and changes nothing else |
| AudioState.HeartbeatDebounce | App.tsx:214-217 | a heartbeat changes the state exactly when playing is allowed and at least 0.2 s have passed. It then stamps the clock with now. A rejected heartbeat leaves the clock alone. |
| AudioState.HeartbeatRetrigger | App.tsx:216-217 | after an accepted heartbeat, one less than 0.2 s later is dropped and one at least 0.2 s later is accepted |
| AudioState.ApplyKeepsClock | App.tsx:101 | no call other than a heartbeat moves the heartbeat clock |
| AudioState.HeartbeatClockUntouched | App.tsx:101 | a sequence of calls without heartbeats leaves the heartbeat clock where it was |
| AudioState.EarlyHeartbeatDropped | App.tsx:101-217 | since the clock starts at 0, a first heartbeat requested before 0.2 s is dropped |
| AudioState.SetMuteEffect | App.tsx:122-132 | `setMute(m)` always records `m`. With a context, it programs a 0.5 s approach of the master gain to 0 (muting) or 1. Muting silences speech; unmuting leaves speech alone. No sound is scheduled. |
| AudioState.MuteUnmuteRestoresGain | App.tsx:122-127 | muting then unmuting steers the master gain back to 1.0 |
| AudioState.MuteBeforeInitNotApplied | App.tsx:105-112 | a mute recorded before the first `init` is not applied: `init` sets the master gain to 1.0 although the engine is muted |
| AudioState.SpeakWhileMuted | App.tsx:247 | while muted, `speakDemon` changes nothing |
| AudioState.MuteThenSpeak | App.tsx:128-131 | muting and then speaking leaves nothing being spoken |
| AudioState.SpeakDemonEffect | App.tsx:246-265 | unmuted, `speakDemon` starts exactly one utterance: the sanitised text, pitch 0.01, rate 0.4, volume 1, the picked voice. It becomes the current speech. With a context, one growl is scheduled for 100 ms per UTF-16 unit of the raw text. |
| AudioState.SpeechGrowlLength | App.tsx:262 | that growl lasts a tenth of a second per UTF-16 unit of the raw text |
| AudioState.LastSpeechWins | App.tsx:248 | speaking A and then B leaves B's utterance as the only current speech |
| AudioState.PauseResume | App.tsx:279-293 | pause acts only on playing speech and resume only on paused speech, each undoes the other, and stop always silences |
| HorrorAudioEngine.NoiseSample | App.tsx:158 | a noise sample lies in [-amplitude, amplitude) |
| HorrorAudioEngine.FillNoise | App.tsx:157-158 | the buffer fill loop writes one scaled draw per sample, all within the amplitude (the same loop is at lines 197-198 and 299-300) |
| HorrorAudioEngine.HorrorAudio.constructor | App.tsx:98-103 | a new engine has no context, is not muted, has its heartbeat clock at 0 and says nothing |
| HorrorAudioEngine.HorrorAudio.Init | App.tsx:105-120 | the object's new state is `AudioState.Init` of its old state |
| HorrorAudioEngine.HorrorAudio.SetMute | App.tsx:122-132 | the new state is `AudioState.SetMute` of the old state |
| HorrorAudioEngine.HorrorAudio.StartDarkAmbience | App.tsx:134-150 | the loop over the two frequencies appends the two drones when there is a context, and changes nothing else |
| HorrorAudioEngine.HorrorAudio.PlayWhisper | App.tsx:153-177 | the new state is `AudioState.PlayWhisper` of the old state |
| HorrorAudioEngine.HorrorAudio.PlayGlitchSound | App.tsx:179-191 | the new state is `AudioState.PlayGlitch` of the old state |
| HorrorAudioEngine.HorrorAudio.PlayTypingSound | App.tsx:193-212 | the new state is `AudioState.PlayTyping` of the old state |
| HorrorAudioEngine.HorrorAudio.PlayHeartbeat | App.tsx:214-229 | the new state is the debounced `AudioState.PlayHeartbeat` of the old state |
| HorrorAudioEngine.HorrorAudio.PlayScream | App.tsx:231-243 | the new state is `AudioState.PlayScream` of the old state |
| HorrorAudioEngine.HorrorAudio.SpeakDemon | App.tsx:246-265 | the new state is `AudioState.SpeakDemon` of the old state |
| HorrorAudioEngine.HorrorAudio.PauseSpeaking | App.tsx:279-283 | the new state is `AudioState.PauseSpeaking` of the old state |
| HorrorAudioEngine.HorrorAudio.ResumeSpeaking | App.tsx:285-289 | the new state is `AudioState.ResumeSpeaking` of the old state |
| HorrorAudioEngine.HorrorAudio.StopSpeaking | App.tsx:291-293 | the new state is `AudioState.StopSpeaking` of the old state |
| HorrorAudioEngine.HorrorAudio.PlayGrowl | App.tsx:295-333 | the new state is `AudioState.PlayGrowl` of the old state |
| HorrorAudioEngine.HorrorAudio.PlayFeedMe | App.tsx:335-337 | the new state is that of speaking "Feeeed me." |
| GeminiService.EffectiveMode | services/geminiService.ts:33 | the destructuring default: an absent mode is resurrection; stated by `GeminiService.TemplateSelection` |
| GeminiService.TemplateFor | services/geminiService.ts:37-125 | the `switch` on the mode; stated by `GeminiService.TemplateSelection` |
| GeminiService.OrElse | services/geminiService.ts:43 | `s \|\| fallback` keeps a non-empty string and otherwise gives the fallback |
| GeminiService.BuildPrompt | services/geminiService.ts:33-125 | the prompt embeds the request's source code unchanged |
| GeminiService.CodeEmbedded | services/geminiService.ts:46-48 | the rendered prompt holds the code verbatim. An indented fence line and the indentation come right before it. A newline and an indented fence come right after it. The same layout is at lines 72-74, 93-95 and 114-116. |
| GeminiService.TemplateSelection | services/geminiService.ts:33-125 | an absent mode selects resurrection. The resurrection template is chosen exactly for an absent mode, resurrection, or the full ritual. |
| GeminiService.LanguageFallbacks | services/geminiService.ts:43-110 | in the prompt's language lines, an empty source language shows as "Unknown Corpse" (autopsy), "Unknown" (curse removal) or "Auto-detect" (resurrection); soul binding shows only the target language |
| GeminiService.LanguageShown | services/geminiService.ts:43-110 | outside soul binding, a non-empty source language is shown as given in the prompt's language lines |
| GeminiService.LetterRun | services/geminiService.ts:140 | `[a-z]*` under the case-insensitive flag matches the longest run of ASCII letters |
| GeminiService.StripOpeningFence | services/geminiService.ts:140 | the first `replace`; stated by `GeminiService.OpeningFenceStripped` and `GeminiService.NonLetterTagKept` |
| GeminiService.StripClosingFence | services/geminiService.ts:140 | the second `replace`; stated by `GeminiService.ClosingFenceStripped` |
| GeminiService.StripFences | services/geminiService.ts:139-142 | both replacements and the trim; stated by `GeminiService.NoFenceOnlyTrimmed`, `GeminiService.EmptyBlockLeavesFence` and `GeminiService.ResurrectCode` |
| GeminiService.OpeningFenceStripped | services/geminiService.ts:140 | at most one opening fence line (three backticks, ASCII letters, newline) is removed, only at the very start, and always when the reply starts with one |
| GeminiService.ClosingFenceStripped | services/geminiService.ts:140 | a final newline plus three backticks is removed exactly when the reply ends with them |
| GeminiService.NoFenceOnlyTrimmed | services/geminiService.ts:139-142 | a reply with neither fence is only trimmed |
| GeminiService.NonLetterTagKept | services/geminiService.ts:140 | a fence tagged "c++" is not an opening fence and stays |
| GeminiService.EmptyBlockLeavesFence | services/geminiService.ts:140-142 | the two strips are independent: an empty fenced block leaves three backticks behind |
| GeminiService.ResurrectCode | services/geminiService.ts:32-147 | the call fails exactly when the generator fails, and then always with "The ritual failed. The spirits refused to answer."; a success is the reply text (or "" when there is none) with its fences stripped and trimmed, and is already trimmed |
| GeminiService.MissingTextIsEmpty | services/geminiService.ts:139 | a reply without text yields the empty string |
| Download.GetExt | App.tsx:568-579 | `getExt`; stated by `Download.GetExtByTable`, `Download.GetExtIgnoresCase` and `Download.MixedCaseNames` |
| Download.GetExtByTable | App.tsx:568-579 | the extension is the table entry for the lower-cased language, and "txt" exactly when the language is not one of the eight known ones |
| Download.GetExtIgnoresCase | App.tsx:569 | lower-casing is idempotent, so the choice ignores case |
| Download.MixedCaseNames | App.tsx:568-579 | "TypeScript" gives "ts", "C++" gives "cpp", and "COBOL" gives "txt" |
| Graveyard.DigitChar | App.tsx:450 | each digit character stands for its value |
| Graveyard.DecimalString | App.tsx:450 | an id is a non-empty string of decimal digits without a leading zero |
| Graveyard.DecimalRoundTrip | App.tsx:450 | reading an id back gives the clock value it was made from |
| Graveyard.DecimalStringInjective | App.tsx:450 | different clock values give different ids |
| Graveyard.AddToGraveyard | App.tsx:448-462 | `addToGraveyard`; stated by `Graveyard.AddPrepends`, `Graveyard.StoredCodeAndPreview` and `Graveyard.IdMatchesClock` |
| Graveyard.AddPrepends | App.tsx:448-462 | the history grows by one entry at its head and keeps every older entry in order. The entry records the result, mode, languages and timestamp. |
| Graveyard.StoredCodeAndPreview | App.tsx:455-457 | the stored code is exactly the first 500 characters of the source (all of it when shorter). The preview is exactly the first 50 characters (all of them when shorter) plus "...", and its head is a prefix of the stored code. |
| Graveyard.IdMatchesClock | App.tsx:450-451 | the id decodes to the first clock reading, and to the timestamp when both readings agree |
| Sanity.Decay | App.tsx:492 | one decay tick; stated by `Sanity.TicksClosedForm` and `Sanity.ReplayInRange` |
| Sanity.Restore | App.tsx:483-485 | `restoreSanity`; stated by `Sanity.ReplayInRange` |
| Sanity.HeartbeatDelayMs | App.tsx:516 | the heartbeat interval; stated by `Sanity.HeartbeatDelayRange` |
| Sanity.SanityStyles | App.tsx:862-866 | `getSanityStyles`; stated by `Sanity.StylesMonotone` and `Sanity.TickRaisesStyleByAtMostOne` |
| Sanity.ReplayInRange | App.tsx:483-495 | decay ticks and restores keep the meter within [20, 100] |
| Sanity.TicksClosedForm | App.tsx:492 | `k` decay ticks from `s` leave `max(20, s - k)` |
| Sanity.FloorReached | App.tsx:359-495 | from the initial 100, 80 or more ticks without a restore leave the meter at 20 |
| Sanity.HeartbeatDelayRange | App.tsx:516 | over the meter's range the heartbeat delay lies in [2000, 5000] ms, grows with sanity, and is the 2000 ms minimum exactly at 40 or below |
| Sanity.StylesMonotone | App.tsx:862-866 | less sanity never means less distortion; full sanity shows none and the floor shows blur with sepia |
| Sanity.TickRaisesStyleByAtMostOne | App.tsx:862-866 | one decay tick raises the distortion by at most one level |
| RitualFlow.StatusText | App.tsx:724-729 | the status line of a single mode; stated by `RitualFlow.StatusAndDoneStates` |
| RitualFlow.DoneState | App.tsx:734-737 | the completed state of a single mode; stated by `RitualFlow.StatusAndDoneStates` |
| RitualFlow.StatusAndDoneStates | App.tsx:722-736 | single modes share their status line with the matching ritual step, except resurrection; each ends in its own completed state, never the ritual's |
| RitualFlow.PerformStep | App.tsx:666-673 | a step fails only with the service's fixed error, and a successful step is trimmed |
| RitualFlow.CompleteAddsEntry | App.tsx:717-719 | a completed call shows its result, sets the completed state, adds exactly one history entry at the head for that result and mode, and changes nothing else (the single-mode branch is at lines 731-740) |
| RitualFlow.RunFullRitual | App.tsx:688-719 | the full-ritual branch; stated by `RitualFlow.FullRitualEndsWell`, `RitualFlow.FullRitualOutcome` and `RitualFlow.AutopsyReportOnFailure` |
| RitualFlow.HandleResurrect | App.tsx:675-752 | `handleResurrect`; stated by `RitualFlow.BlankSourceIgnored`, `RitualFlow.RunOutcome` and `RitualFlow.SingleModeOutcome` |
| RitualFlow.FullRitualEndsWell | App.tsx:688-719 | the full ritual ends completed, with one history entry, or cursed with the failure text and the history unchanged |
| RitualFlow.BlankSourceIgnored | App.tsx:676 | empty or white-space-only source changes nothing |
| RitualFlow.RunOutcome | App.tsx:675-752 | every run restores sanity to 100 and ends completed or cursed. A cursed run shows the failure text, keeps the history and has no ritual data. A completed run adds one history entry for the shown result and mode. |
| RitualFlow.SingleModeOutcome | App.tsx:720-739 | a single mode completes exactly when its call succeeds. It then shows that output in the mode's completed state. It never sets an autopsy report. |
| RitualFlow.FullRitualOutcome | App.tsx:688-719 | the ritual completes exactly when the autopsy and the resurrect-exorcise-bind chain succeed. It then shows the chain's output as the bound code, with the autopsy report. The autopsy output never feeds later steps. |
| RitualFlow.AutopsyReportOnFailure | App.tsx:688-747 | a ritual whose autopsy succeeded but whose chain failed is cursed yet keeps the autopsy report; a failed autopsy leaves none |
| TtsControls.Play | App.tsx:837-847 | `handlePlayTTS`; stated by `TtsControls.PlaySpeaksPrefix`, `TtsControls.PauseThenPlayResumes` and `TtsControls.PlayWhileMutedIsSilent` |
| TtsControls.Pause | App.tsx:849-853 | `handlePauseTTS`; stated by `TtsControls.PauseThenPlayResumes` and `TtsControls.HandleKeepsCoherent` |
| TtsControls.Stop | App.tsx:855-859 | `handleStopTTS`; stated by `TtsControls.HandleKeepsCoherent` |
| TtsControls.ToggleMute | App.tsx:477-481 | `toggleMute`; stated by `TtsControls.HandleKeepsCoherent` and, on the engine, by `AudioState.SetMuteEffect` |
| TtsControls.HandleKeepsCoherent | App.tsx:837-859 | play, pause, stop and the mute toggle keep the flags coherent. They never say speaking and paused at once. Paused engine speech implies the paused flag. |
| TtsControls.ReplayKeepsCoherent | App.tsx:837-859 | every sequence of presses keeps the flags coherent |
| TtsControls.ReachableCoherent | App.tsx:393-394 | from the initial flags and a new engine, the controls stay coherent |
| TtsControls.PauseThenPlayResumes | App.tsx:837-853 | pause then play resumes the very utterance that was paused, without starting a new one |
| TtsControls.PlaySpeaksPrefix | App.tsx:843-846 | play, when not paused and not muted, speaks the first 500 characters of the result, sanitised |
| TtsControls.PlayWhileMutedIsSilent | App.tsx:843-846 | play while muted sets the speaking flag although the engine says nothing |

## Left out

- The audio graph itself is not modelled: node creation, `connect` calls, the dynamics compressor (App.tsx:107-117) and rendering. Each sound is a record of its parameters instead.
- Noise buffers inside the class methods are not modelled. `FillNoise` models the fill loop on its own. The class methods record only each buffer's length, amplitude and looping flag, not its samples or the sample rate.
- Floating-point timing is not modelled. The audio clock is an exact real passed in as `now`, and `Math.random()` draws are parameters.
- The speech synthesiser is modelled only as silent, speaking or paused, with cancel, pause and resume. An utterance ending by itself, asynchronous voice loading and browsers without speech synthesis are not modelled.
- AudioState.StopSpeaking: `speechSynthesis.cancel()` is modelled as also ending a pause, so the state becomes silent. The Web Speech API's `cancel` empties the queue but leaves the paused flag as it was. So after pause, stop and play, the program queues the new speech on a synthesiser that is still paused and nothing is heard. The model has that speech playing instead. The same choice is behind the cancel in `AudioState.SpeakDemon` and `AudioState.SetMute`, and behind `AudioState.SpeakDemonEffect`, `AudioState.LastSpeechWins` and `TtsControls.PlaySpeaksPrefix`.
- `HorrorAudio.cleanTextForSpeech` is modelled by the module function `SpeechText.CleanTextForSpeech`, because it uses no engine state.
- JsText.Prefix: `slice(0, n)` is taken on characters, not UTF-16 units. This differs only for text with astral characters, and lone surrogates are not representable.
- JsText.AsciiLower: `toLowerCase` lowers only ASCII letters. The only non-ASCII character that lowers to ASCII is the Kelvin sign, which lowers to "k", and no known language name contains "k".
- GeminiService.Role: the prose of the prompt templates is abstracted to a role line and short instructions. The language lines, captions, fences and code layout are kept.
- The network call is not modelled. The text generator is a function parameter, and the chat session (`createNecromancerChat`) is not part of this model.
- RitualFlow.RunOutcome: a failure raised outside the generator (for example by storage) is not modelled.
- What `handleResurrect` does besides the workspace is not modelled: screams, screen shaking, the transient status line and the active step.
- Presentational components are not part of this model: React hooks, timers and intervals, the random scares, subliminal flashes and watcher eye, drag and drop with file reading, the microphone, copy buttons, the archive download, `localStorage`, and the components under `components/`.
- TtsControls.ToggleMute flips the engine's mute flag in place of the interface's own `isMuted` state. The two start equal and change together.
