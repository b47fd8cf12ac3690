# Verified model of the key mapper

The program captures physical key events, decides for each one whether it passes, is swallowed or
is replaced by mapped output keys, and drives a virtual output device with the result. Rules come
from a configuration of ordered groups, scoped to applications and keyboards. This project models
its stateful cores in Dafny and proves what they promise over every run.

`dafny verify dfyconfig.toml` checks everything.

## Map of the modules

- `Bits`, `Hid`: modifier masks as sets of the eight bits of the HID modifier byte (section 8.3 of
  the Device Class Definition for HID 1.11), proved to correspond one to one to bytes under `|`, `&`
  and `& !`; key identities and usages (section 10 of the HID Usage Tables).
- `Engine`, `Emission`, `Device`: the tracker and the engine as classes with in-place updates, the
  emission plan, and the output device as the set of modifier bits that are down on it. Each event of
  a run carries its own reachability flag and its own rule table, so a run covers every flip of the
  emitter and every hot reload at any moment.
- `NoStuckModifiers`, `KeyFate`, `CleanTap`, `HeldOutputs`, `ActiveModifiers`, `OutputDevice`,
  `TapOnly`: theorems over whole runs, from any keys held at the start. Together they read every
  decision and every mask of the engine from the trace alone. `Prefixes` has their common induction. `CornerCases`: concrete runs at which the properties stop.
- `Expand`, `Config`, `Interpreter`, `FirstMatch`, `Compiler`, `Runtime`, `ConfigAdd`: the rule
  compiler against a direct interpreter of the configuration, the interpreter against a statement
  without recursion of which place answers, and the `config add` edit.
- `Frame`, `FrameStream`: the length-prefixed codec and its resumable reader.
- `Ttl`: the single-flight cache under every interleaving of its threads.
- `RateLimit`, `Reports`, `KeyText`, `Diagnostics`: the sliding-window limiter, the report sequencer
  with its bounded queue, the key-event text format and the configuration diagnostics.

## What the proofs found

Where a property stops, a lemma gives the input and a theorem gives the exact condition.

- **No stuck modifiers** holds without assuming one key per modifier bit. The device stays covered
  throughout a run if and only if no event is a *press* (rather than a repeat) of the only live key of
  a bit that a fired trigger consumed and no output holds (`NoStuckModifiers.NoStuckModifiers`). Such a
  press is forwarded and its release swallowed, so the bit stays down: `CornerCases.ControlStaysDown`.
  On Linux a repeat of a modifier is dropped before it reaches the virtual device
  (`src/platform/linux/mapping/device.rs:401-407`); where repeats are delivered as presses the
  condition is a real limit. The bookkeeping of the engine comes to rest in every run.
- **Clean tap.** A press that reaches the device without being recorded as forwarded leaks: one made
  while the emitter was unreachable, or a repeat that arrives as a press. What a fired trigger leaves
  down is exactly the leaked modifiers that no output holds (`CleanTap.FiredTriggerTapsCleanly`, for
  every run); `CornerCases.ControlRidesOnTheOutput` is a run with one. The unreachable case is a fact
  about the engine's interface and not about a backend: Linux and Windows always pass `true`, and on
  macOS, where the flag varies, forwarded keys and release masks do not reach the virtual keyboard
  (`src/platform/macos/mapping.rs:390-397`).
- **Held outputs.** A bit held by an output stays active for lookups until a key is let go that clears
  a bit another key still holds, and exactly until then (`HeldOutputs.HeldOutputsStayActive`,
  `CornerCases.HeldControlLeavesTheState`). The same is told of live keys
  (`ActiveModifiers.LiveKeysStayActive`) and of what is down on the device
  (`OutputDevice.RecordsStayDown`).
- **Extra modifiers.** The user documentation says that extra modifiers do not prevent a match (line
  252 of the program's own README.md); the code compares masks for equality
  (`src/keymap_core/lookup.rs:101-103`). One more modifier held prevents a match unless the trigger
  names that very modifier twice (`Interpreter.ExtraModifierPreventsMatch`,
  `Interpreter.ShiftPreventsCtrlH`).
- **Tokens that are no modifiers** count as left Ctrl in a trigger and as nothing in an output
  (`Interpreter.WrittenSidesAreAVariant`).
- **`config add`** is its rescoping for every key its trigger does not match
  (`ConfigAdd.AddIsItsRescoping`). With `--apps` or `--keyboard` on a group that had none, the whole
  group is gone for every other application or known keyboard.
- **The cache** runs one source at a time, but may run it on a fresh entry: a thread that found the
  entry stale claims the slot right after another published (`Ttl.RefreshedTwice`), and exactly then
  (`Ttl.SourceOnFreshEntry`).
- **Frames.** A payload survives `encode` and `parse` if and only if it fits the bound and is shorter
  than 2^32 bytes, where the length field wraps (`Frame.ParseUndoesEncodeExactly`).
- **Text.** Printing an event with more than eight modifiers gives text that does not parse
  (`KeyText.ParseUndoesPrint`).

## Model

| member | source | states |
|---|---|---|
| Bits.ByteIsItsMask | src/common/modifier.rs:26-63 | every mask byte is the byte of its set of bits |
| Bits.MaskIsItsByte | src/common/modifier.rs:26-63 | every set of bits is the set of its byte |
| Bits.ByteOperations | src/keymap_core/engine.rs:140-167 | the byte operators the source uses are union, intersection and difference of bit sets |
| Hid.ModifiersAreEightUsages | src/common/modifier.rs:65-78 | the modifier bits are the usages from left Control on, one by one, and no other usage has a bit |
| Engine.KeyTracker.RecordForwarded | src/keymap_core/engine.rs:140-144 | a forwarded modifier is marked forwarded and loses a stale consumed mark, nothing else changes |
| Engine.KeyTracker.Consume | src/keymap_core/engine.rs:153-167 | forwarded bits of the trigger become consumed, its bits leave every held mask, empty masks go, and both returned masks are exactly those bits |
| Engine.KeyTracker.Hold | src/keymap_core/engine.rs:172-179 | a non-empty mask is added to what the key holds |
| Engine.KeyTracker.Release | src/keymap_core/engine.rs:188-203 | the fate of a key-up and the whole tracker afterwards, in all four cases |
| Engine.MappingEngine.NoteHeldKey | src/keymap_core/engine.rs:261-269 | a key held at the start is pressed, and forwarded or stale |
| Engine.MappingEngine.UnnoteHeldKey | src/keymap_core/engine.rs:306-314 | undoes the note of a key released before the stream starts |
| Engine.MappingEngine.Down | src/keymap_core/engine.rs:359-460 | decision and whole state after a key-down, for every rule table and reachability |
| Engine.MappingEngine.HoldOutputs | src/keymap_core/engine.rs:435-444 | the loop over the outputs holds the union of their held masks, in tracker and modifier state |
| Engine.MappingEngine.Up | src/keymap_core/engine.rs:463-494 | decision and whole state after a key-up |
| Engine.MappingEngine.DecideEvent | src/keymap_core/engine.rs:343-357 | the engine steps as the transition function that all run theorems are about |
| Emission.BuildPlan | src/keymap_core/emission.rs:125-168 | for each decision the input's fate and the actions by index: a mask first and only when there is one, then each output held exactly if its base is a modifier key, else tapped |
| OutputDevice.HeldByOutputsIsExact | src/keymap_core/engine.rs:497-504 | the bits that outputs hold are the own bits and modifiers of exactly those whose base is a modifier key |
| OutputDevice.OutputsSetExactly | src/platform/linux/mapping/device.rs:314-380 | after a list of outputs a bit is down if one pressed it and none lifted it later, or it was down and none lifted it for good |
| OutputDevice.FireOnDevice | src/keymap_core/emission.rs:134-150 | the device after a fired trigger, bit by bit and exactly |
| OutputDevice.HoldsAreDown | src/keymap_core/engine.rs:430-444 | every bit a fired trigger holds is down unless a later tap of the same trigger lifts it |
| OutputDevice.StepKeepsDown | src/keymap_core/engine.rs:343-494 | forwarded and held bits stay down on the device through exactly the events that do not take one that is still recorded |
| OutputDevice.RecordsStayDown | src/keymap_core/engine.rs:343-494 | the same over whole runs from any state |
| Device.Session.Process | src/platform/linux/mapping/device.rs:260-302 | an engine with its device, stepped in place, is one step of the run machine |
| Device.Session.Execute | src/platform/linux/mapping/device.rs:271-302 | the input is forwarded if the plan says so, then the actions are performed in order |
| NoStuckModifiers.NotingIsConsistent | src/keymap_core/engine.rs:261-314 | any notes and undone notes at the start leave the bookkeeping consistent |
| NoStuckModifiers.SyncIsGood | src/platform/linux/mapping/device.rs:759-785 | re-emitting the key-downs of held modifiers still marked forwarded leaves every device bit witnessed |
| NoStuckModifiers.StepKeepsConsistent | src/keymap_core/engine.rs:343-494 | every event keeps the tracker invariant: swallowed keys pressed, holds swallowed and non-empty, forwarded and consumed disjoint, every mask bit has a live key or a hold |
| NoStuckModifiers.StepKeepsGood | src/keymap_core/engine.rs:343-494 | every event that is not a re-press of a consumed modifier keeps every device bit witnessed |
| NoStuckModifiers.StepKeepsGoodExactly | src/keymap_core/engine.rs:366-379 | the cover breaks if and only if the only live key of a consumed, unheld bit is pressed again |
| NoStuckModifiers.EngineIsConsistent | src/keymap_core/engine.rs:343-494 | the tracker invariant holds in every run from any held keys, without any condition |
| NoStuckModifiers.EngineComesToRest | src/keymap_core/engine.rs:343-494 | in every run without exception, an engine with no key pressed is in its initial state |
| NoStuckModifiers.RunIsGoodExactly | src/keymap_core/engine.rs:343-494 | from any covered state, every prefix of a run is covered if and only if no step presses the only live key of a consumed, unheld bit |
| NoStuckModifiers.NoStuckModifiers | src/keymap_core/engine.rs:343-494 | from any held keys: each modifier down on the device has a witness after every event if and only if no step is such a re-press, and then no modifier is down whenever no key is pressed |
| NoStuckModifiers.UnwitnessedIsStuck | src/keymap_core/engine.rs:463-494 | a bit without a witness stays down through some way of letting go of all keys |
| NoStuckModifiers.ClearsExactlyWhenCovered | src/keymap_core/engine.rs:343-494 | after any run at all, letting go of the keys always clears the device if and only if every device bit is witnessed |
| CornerCases.ControlStaysDown | src/keymap_core/engine.rs:366-379 | a five-event run that ends with every key released and Control down on the device |
| CornerCases.ControlRidesOnTheOutput | src/keymap_core/engine.rs:388-393 | Control pressed while unreachable is still down when a Control+A rule fires |
| CornerCases.HeldControlLeavesTheState | src/keymap_core/engine.rs:473-477 | letting the physical Control go takes a Control that CapsLock holds out of the modifier state |
| HeldOutputs.StepKeepsHeldActive | src/keymap_core/engine.rs:412-494 | held bits stay in the modifier state through exactly the events that do not let a key go whose bits another key still holds |
| HeldOutputs.HeldOutputsStayActive | src/keymap_core/engine.rs:412-494 | the same over whole runs from any held keys |
| ActiveModifiers.StepKeepsLiveActive | src/keymap_core/engine.rs:383-494 | the bits of live keys stay in the modifier state through exactly the events that do not clear a bit a live key still has |
| ActiveModifiers.LiveKeysStayActive | src/keymap_core/engine.rs:383-494 | the same over whole runs, for every rule table |
| ActiveModifiers.ModifierStateIsToldByTheTrace | src/keymap_core/engine.rs:222-228 | in every run the modifier state is the bits of passing keys and held outputs less those cleared and not set since, read from notes and trace alone |
| ActiveModifiers.FreshDownIsToldByTheTrace | src/keymap_core/engine.rs:383-459 | the whole decision on a fresh key-down from the trace: the rule table is asked under the active modifiers and exactly those of them that are forwarded or held are released |
| KeyFate.RunAgrees | src/keymap_core/engine.rs:95-134 | what notes and trace alone say about a key (up, passing, mapped, stale, and the bits it holds) is what the tracker records |
| KeyFate.FatesArePaired | src/keymap_core/engine.rs:366-379 | the first key-down, or the note at the start, decides repeats and release until the key is let go; a mapped release carries exactly the bits still held; a stale key repeats into nothing and is released natively |
| KeyFate.FreshDownFollowsTheRules | src/keymap_core/engine.rs:383-459 | an unpressed key emits, with exactly the rule's outputs, if and only if it is reachable and the rule table answers |
| KeyFate.ModifierIsReleasedOnce | src/keymap_core/engine.rs:188-203 | with one key per bit, a passing modifier's release is consumed if and only if it was forwarded, or noted at the start, and a later release mask took its bit; otherwise it passes |
| KeyFate.ApplicationSeesPassingKeys | src/keymap_core/emission.rs:160-166 | where consumed releases pass through, the application sees down exactly the pressed unmapped keys |
| CleanTap.RunForwards | src/keymap_core/engine.rs:136-204 | the forwarded and the consumed bits are told by the trace alone, in every run |
| CleanTap.ReleaseIsConsumedExactly | src/keymap_core/engine.rs:194-202 | however many keys share a bit, a passing key's release is consumed if and only if the trace says its bit is consumed |
| CleanTap.RunTracksDevice | src/keymap_core/engine.rs:405-459 | in every run, device levels stay within forwarded bits, held bits and the leaked bits that the trace tells |
| CleanTap.FiredTriggerTapsCleanly | src/keymap_core/engine.rs:412-421 | in every run, what a fired trigger leaves down of its modifiers is exactly the leaked ones no output holds; none when every press was reachable and fresh |
| TapOnly.TapOnlyRulesSeeOnlyKeys | src/keymap_core/engine.rs:383-458 | with tap-only rules and one key per bit, every decision is that of a machine with sets of keys and no masks |
| TapOnly.TapOnlyOutputsAreExact | src/keymap_core/emission.rs:134-150 | with such rules, what is down before each output of a fired trigger is exactly the leaked bits earlier outputs did not release; none when every press was reachable and fresh |
| Expand.ExpandModifierBits | src/keymap_core/mapping_cache.rs:248-287 | the loop returns exactly the matching masks, strictly ascending |
| Expand.VariantsAreTheMatches | src/keymap_core/mapping_cache.rs:248-287 | the variants are ascending, and contain a mask if and only if it is the union of one permitted side per token |
| Expand.NumberIsTheByte | src/keymap_core/mapping_cache.rs:283-285 | the order of the variants is the order of their bytes |
| Expand.ExpansionIsExact | src/keymap_core/mapping_cache.rs:268-281 | membership in the deduplicated product is matching by one choice per token |
| Expand.ExpansionHasClosedForm | src/keymap_core/mapping_cache.rs:258-281 | membership in closed form, pair by pair, from the counts of left, right and other tokens |
| Expand.OrderOfTokensIsIrrelevant | src/keymap_core/mapping_cache.rs:240-247 | only the multiset of tokens matters |
| Expand.ExpansionIsSmall | src/keymap_core/mapping_cache.rs:268-270 | at least one mask, at most 2^n and at most 81 |
| Interpreter.WrittenSidesAreAVariant | src/keymap_core/mapping_cache.rs:230-238 | the output mask of the same tokens is among the variants if and only if all are modifiers or left Ctrl is among them |
| Interpreter.NativesAreTheEvents | src/keymap_core/mapping_cache.rs:212-238 | the outputs that the interpreter gives are the written ones, token by token |
| Interpreter.ExtraModifierPreventsMatch | src/keymap_core/lookup.rs:100-106 | one more modifier than a matching mask matches if and only if the tokens name that modifier twice |
| Interpreter.ShiftPreventsCtrlH | src/keymap_core/lookup.rs:100-106 | a rule for Ctrl+H answers Ctrl+H and not Ctrl+Shift+H |
| Compiler.CompileModifierBits | src/keymap_core/mapping_cache.rs:230-238 | the bits of exactly the modifier tokens |
| Compiler.CompileOutputs | src/keymap_core/mapping_cache.rs:212-222 | one native key per event, in order, with its base and the bits of exactly its modifier tokens |
| Compiler.CompileFromConfig | src/keymap_core/mapping_cache.rs:143-208 | the nested loops build the rule lists that the meaning theorems are about |
| Compiler.FindMatchConcat | src/keymap_core/lookup.rs:91-110 | scanning a list that was appended to falls through to the appended part |
| Compiler.ScanIsInterpretation | src/keymap_core/mapping_cache.rs:143-208 | scanning the list of an application, or the global one, is interpreting the groups that reach it |
| Runtime.RuntimeState.SetLookupCache | src/daemon/state.rs:180-184 | the live cache is replaced |
| Runtime.RuntimeState.Reload | src/daemon/state.rs:180-184 | after compiling and swapping, every lookup has the meaning of the new configuration |
| Runtime.CompilerKeepsMeaning | src/daemon/state.rs:121-178 | for every configuration, application, usage, mask and device, application then global lookup on the compiled cache equals the interpreter |
| FirstMatch.AllowedIsPassing | src/daemon/state.rs:76-118 | who gets through a keyboard filter, field by field and letter by letter |
| FirstMatch.MeaningIsTheFirstAnswer | src/keymap_core/lookup.rs:85-110 | a key means the outputs at the first place that answers it: application groups before global ones, then the order of definition |
| FirstMatch.NoAnswerNoMeaning | src/daemon/state.rs:121-168 | a key means nothing exactly if the keyboard is filtered out or no place answers |
| Runtime.TypedKeyFollowsTheConfig | src/keymap_core/engine.rs:395-459 | in every run, a fresh reachable key emits what the live configuration means for it under the modifiers that the trace says are active, else passes |
| ConfigAdd.AppConfig.ApplyAdd | src/cli/config_cmd.rs:244-296 | the whole configuration after an add, group found or created |
| ConfigAdd.AddChangesOneGroup | src/cli/config_cmd.rs:258-296 | only the first group of the name changes, or a new one with that name and the given scopes comes last; scopes that are there stay, the trigger is mapped, all other mappings stay |
| ConfigAdd.InsertionKeepsTheOthers | src/common/config.rs:188-191 | all other entries keep their order, one entry per trigger, the new one is there |
| ConfigAdd.InsertionIsLocal | src/common/config.rs:188-191 | keys the trigger does not match are answered as before |
| ConfigAdd.InsertionTakesEffect | src/common/config.rs:188-191 | keys it matches get its outputs, or those of an earlier entry |
| ConfigAdd.AddIsItsRescoping | src/cli/config_cmd.rs:244-296 | for every key the trigger does not match, the configuration means what it means with the group's new scope alone |
| ConfigAdd.AddIsLocal | src/cli/config_cmd.rs:244-296 | unless an existing group is rescoped, an add changes no answer the trigger does not match |
| ConfigAdd.RecompiledLookupIsLocal | src/keymap_core/mapping_cache.rs:143-208 | the same of the compiled rules before and after the add |
| ConfigAdd.PlainAddRescopesNothing | src/cli/config_cmd.rs:276-290 | an add without scopes rescopes no group |
| ConfigAdd.AddedRuleFires | src/cli/config_cmd.rs:292-295 | what a key matched by the added trigger means afterwards, in a scope the group has |
| ConfigAdd.RescopingToAppsRemovesTheGroup | src/cli/config_cmd.rs:276-282 | in every configuration, giving applications to a group that had none is removing the group for every other application, on all keys |
| ConfigAdd.RescopingToKeyboardsRemovesTheGroup | src/cli/config_cmd.rs:284-290 | the same for keyboards, on every known keyboard they do not match |
| ConfigAdd.RescopingSilencesTheGroup | src/cli/config_cmd.rs:276-282 | a configuration of one such group answered before the add and is silent in other applications afterwards |
| Frame.ParseUndoesEncodeExactly | src/common/frame.rs:108-160 | parsing gives back the payload, whatever follows it, if and only if it fits the bound and 32 bits |
| Frame.FrameLayout | src/common/frame.rs:108-114 | version 1, four length bytes with the lowest first, the payload |
| Frame.ParseOutcomes | src/common/frame.rs:138-160 | which result and which error parsing gives, decided by length, first byte and declared length |
| Frame.ReadInto | src/common/frame.rs:295-312 | filling the buffer in place is the fill of the stream model, resumed at any point |
| Frame.FrameReader.ReadPayload | src/common/frame.rs:214-255 | result, bytes kept and rest of the stream after a call, from any partial frame |
| Frame.FrameReader.ReadAcceptedPayload | src/common/frame.rs:221-254 | the same for the part behind the complete header |
| Frame.FrameReader.FillPayload | src/common/frame.rs:239-254 | the same for the part behind an accepted header |
| Frame.FrameReader.Reset | src/common/frame.rs:261-265 | nothing of the frame in flight is kept |
| FrameStream.FillConserves | src/common/frame.rs:295-312 | filling moves bytes from the stream to the buffer and does nothing else to them; one timeout per failure |
| FrameStream.CallAccountsForBytes | src/common/frame.rs:214-255 | every byte a call takes is in a finished frame, a five-byte rejected header or the kept partial frame |
| FrameStream.ReaderRefinesDecoding | src/common/frame.rs:173-266 | under every chunking and placement of timeouts, repeated calls give the frames and header errors of the whole stream in order, one Io per timeout, then Eof |
| FrameStream.DecodingUndoesEncoding | src/common/frame.rs:108-114 | decoding concatenated frames gives the payloads |
| FrameStream.SentFramesArrive | src/common/frame.rs:173-266 | frames sent arrive unchanged, in order, each once |
| FrameStream.BufferAndStreamAgree | src/common/frame.rs:279-285 | on five bytes or more the buffer decoder and the one-shot reader agree; truncated is an early Eof |
| Ttl.TtlValue.TryClaim | src/common/ttl_value.rs:79-81 | claims the slot if and only if it was free |
| Ttl.TtlValue.Publish | src/common/ttl_value.rs:83-85 | value and deadline are replaced |
| Ttl.TtlValue.GetWith | src/common/ttl_value.rs:71-87 | a whole call that no other thread steps into: fresh, refused, refreshed, or panicking source |
| Ttl.RunIsGood | src/common/ttl_value.rs:71-87 | the slot has exactly one owner while claimed, runs are ordered, all values genuine, in every interleaving |
| Ttl.FreshCheckIsAnswered | src/common/ttl_value.rs:72-77 | a check of a fresh entry answers at once with its value and run, and changes nothing else |
| Ttl.StepIsTheOperation | src/common/ttl_value.rs:71-87 | what each step of a thread does to the shared fields and the answers is what the operation of the class does |
| Ttl.OnlyStaleChecksGoOn | src/common/ttl_value.rs:72-82 | in every run a thread past its check, and so one that runs a source, found the entry expired at its latest check |
| Ttl.SingleFlight | src/common/ttl_value.rs:79-82 | at most one source runs at any time |
| Ttl.SourceOnFreshEntry | src/common/ttl_value.rs:72-82 | a claimed slot starts a source on an entry fresh by the claimer's own check if and only if a run was published in between with a later deadline; with a positive time to live, if and only if any was |
| Ttl.RefreshedTwice | src/common/ttl_value.rs:72-82 | seven steps of two threads after which the second runs its source on a fresh entry |
| Ttl.AnswersNeverGoBack | src/common/ttl_value.rs:71-87 | every answer is the seed or a completed result, no answer of any thread is older than an earlier answer, publishes are in run order |
| Ttl.OnlyTheRefresherWaits | src/common/ttl_value.rs:67-69 | a thread is answered or becomes the refresher within three steps of its own, whatever the others do |
| Ttl.PanicFreesTheSlot | src/common/ttl_value.rs:69-70 | an aborting source leaves the entry alone and lets the next stale caller refresh |
| RateLimit.RateLimiter.CheckAndRecord | src/platform/endpoint/mod.rs:84-94 | the pruned and extended entries, and the verdict, for any entries and time |
| RateLimit.EntriesAreTheRecentHistory | src/platform/endpoint/mod.rs:85-87 | pruning leaves exactly the in-window part of every admission ever made |
| RateLimit.AdmissionIsExact | src/platform/endpoint/mod.rs:84-94 | admitted if and only if the peer has fewer than threshold admissions in the closed window that ends now |
| RateLimit.NoIntervalExceedsTheThreshold | src/platform/endpoint/mod.rs:57-63 | no closed interval as long as the window holds more than threshold admissions of a peer |
| RateLimit.PeersAreIsolated | src/platform/endpoint/mod.rs:57-63 | a peer's admissions are those of a limiter that sees its attempts alone |
| Reports.KeyboardReportSequence | src/platform/macos/emit.rs:82-110 | the loops build the sequence the next rows are about |
| Reports.KeyIsTypedCleanly | src/platform/macos/emit.rs:75-81 | 2n+2 reports, one transition each, the base down in exactly one report with exactly the modifiers, last report all-released |
| Reports.ModifiersGoInOrder | src/platform/macos/emit.rs:75-81 | modifiers go down lowest first and come up highest first |
| Reports.KeyIsTypedOnItsPage | src/platform/macos/emit.rs:44-73 | a key of page 7 is down with exactly its modifiers at exactly one moment and no media key ever is; any other key is a media key at exactly one moment and the keyboard stays released |
| Reports.Client.EmitNativeKey | src/platform/macos/emit.rs:44-73 | the commands that type the key on its page enter the queue all together or are all counted as dropped, unless the background thread dies |
| Reports.Client.SendAll | src/platform/macos/emit.rs:51-58 | commands that fit enter all, or up to the moment the background thread dies |
| Reports.EmitKeys | src/platform/macos/karabiner_client.rs:623-638 | with the background thread delivering before, within and after keys: at every moment between two keys the keys so far entered whole and in order or are counted as dropped, and a drained keyboard is all-released; a thread that keeps up loses nothing |
| KeyText.JoinUndoesSplit | src/common/config.rs:107-108 | splitting on plus signs loses nothing and leaves none in a token |
| KeyText.TrimTakesWhiteEnds | src/common/config.rs:150-157 | trimming takes white space off both ends and nothing else |
| KeyText.ParsedTokenByToken | src/common/config.rs:107-148 | the event of any accepted spelling, token by token: the last is the base, the others the modifiers in order |
| KeyText.RejectedWithItsError | src/common/config.rs:107-157 | which error a rejected string gets: empty, too many modifiers, the base's, the first modifier's |
| KeyText.TokensOfPrint | src/common/config.rs:73-90 | the tokens of a printed event are the canonical names, base last |
| KeyText.ParseUndoesPrint | src/common/config.rs:73-90 | printed events parse to themselves up to eight modifiers, and are rejected as too many beyond |
| KeyText.PrintingNormalizes | src/common/config.rs:73-90 | every accepted spelling parses to the same event as its printed form |
| KeyText.PrintIsInjective | src/common/config.rs:73-90 | different events print differently |
| KeyText.AcceptsExactly | src/common/config.rs:107-157 | accepted if and only if there are at most nine tokens, each an understood name when trimmed |
| Diagnostics.EventsAreOrdered | src/common/config.rs:32-41 | any two events are equal or ordered one way, never both |
| Diagnostics.EventsAreTransitive | src/common/config.rs:32-41 | the derived order of events is transitive |
| Diagnostics.OrderIsLexicographic | src/common/config.rs:32-41 | it is the order of the modifiers as words, then of the bases |
| Diagnostics.Check | src/common/config.rs:532-651 | the whole report in its order: local findings, then triggers in several groups by first sight, then swapped pairs by first sight |
| Diagnostics.LocalFindingsAreExact | src/common/config.rs:535-597 | no groups, empty groups, blank specifiers with their index and self-mappings are reported exactly where their cause is |
| Diagnostics.LabelIsNameOrPosition | src/common/config.rs:560-564 | a group goes by its name, or by its position from one in decimal |
| Diagnostics.LabelsInOrder | src/common/config.rs:584-604 | the labels of a trigger are those of exactly the groups that have it, in order |
| Diagnostics.JoinedWithCommas | src/common/config.rs:603-607 | labels are joined with a comma and a space |
| Diagnostics.LabelsCountGroups | src/common/config.rs:584-602 | a trigger has as many labels as groups that hold it |
| Diagnostics.SwapsInAreTheSwaps | src/common/config.rs:615-648 | the pairs are exactly the swaps inside some group, each once, smaller trigger first |
| Diagnostics.FirstSeenAreTheTriggers | src/common/config.rs:584-602 | the triggers compared are exactly those of the groups, each once |
| Diagnostics.CircularPairsAreExact | src/common/config.rs:612-648 | reported exactly once if some group swaps the two triggers, else never |
| Diagnostics.DuplicateTriggersAreExact | src/common/config.rs:600-610 | reported exactly once, with all its groups, if two groups hold the trigger, else never |

## Left out

- KeyFate.ModifierIsReleasedOnce: assumes one key per modifier bit, because two keys share one forwarded and one consumed mark; the theorems on stuck modifiers, clean taps and held outputs do not.
- FrameStream.ReaderRefinesDecoding: read errors other than interruption and unexpected end behave like the timeout.
- Reports.Client.EmitNativeKey: the sampled log warning of dropped commands is not modelled, only their count.
- KeyText.ParseUndoesPrint: the name table is a parameter whose names are distinct, trimmed and free of plus signs; the table itself (src/common/hid_usage.rs) is finite data.
- RateLimit.RateLimiter.CheckAndRecord: time is an integer, so subtracting the window from an early instant cannot fail as it may on the platform clock.
- Mask order and hashing: sets stand for the ordered and hashed sets of the source; the sort of the expansion is modelled as a scan by byte value.
- Unicode: lowercase folding of application names is an arbitrary function; white space is the Unicode White_Space set on code points.
- The keyboard registry and the focused application are parameters of a lookup; discovery and focus tracking are not modelled.
- Keys without a usage (stale marks by key code, dropped repeat tails) never reach the engine and are not in runs.
- Operating-system capture and emission, spacing delays and failures while emitting; a device action always succeeds.
- Windows: the elevated-foreground guard, the pending-output ledger, deferred emission. macOS: the echo tracker and reconnects of the virtual keyboard.
- Transports, peer credentials, configuration file access, YAML with its budgets, logging, the watcher, service management and the other commands.
- The keyboard-specifier argument parser of `config add`: an easy string loop.
