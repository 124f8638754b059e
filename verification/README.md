# FrameOS, modelled and verified

FrameOS drives digital frames from a backend. This project models the parts of it whose
correctness is least obvious and proves what they promise: the three-way sync of scenes and
settings between backend and device, uploads and caches under faults, the rewriting of generated
scene graphs, the packing of images for e-paper panels, the seeding of the scene store, the link to
a cloud provider, the websocket fan-out, the incremental asset build, the selection of end-to-end
scenes, and the text that ends up in generated Nim source.

`dafny verify dfyconfig.toml` checks everything.

How it is built:

- One module a component, in a file of the same name. Values and pure code are datatypes and
  functions. Code that works by changing things is a class or a method with loops, proved equal to a
  transition function on values; invariants, properties of runs and round trips are lemmas about
  that function.
- `Options`, `Json` and `PyText` hold what several components lean on: decoded JSON with Python's equality and
  the sync's pruning, Python's string order, decimal numerals, and the search for a free name.
- The scene sync is in three layers: `JsonDiff` (bounded diff), `SceneDiff` (what is compared and
  reported), `SceneMerge` (applying choices); `SceneSync` puts them together, and
  `SceneMeaning` says what equality, reports and details come to in terms of the scenes. `Normalisers`,
  `FrameModel` (how the frame row keeps and hands out settings), `ConfigImport` (what becomes of an
  imported one), `ConfigSync` and `ConfigMeaning` do the same for settings.
- `CloudLink` is the protocol as code and its safety, `CloudOutcomes` exactly when each outcome comes about.
- `StateSplit` is the graph rewrite on edge objects, `StateSplitMeaning` what it preserves.

Assumptions, where the code relies on something it cannot see:

- uuid4 is a supply of texts that never repeats and hits no id in use; hashes are collision-free at
  the level of what is fed to them; datetimes are written and read back by a lawful calendar.
- One HTTP request, one websocket operation under the lock, one mark, and one check-and-write at the
  end of a cache load are each one step; the clock moves on with each step.
- The states cache's stamp outlives every load that was running when it was written (its lifetime in
  Redis is far longer than a load).
- The broadcast channel hands a message to every instance once; instance ids are distinct; the set of
  instances is fixed during a run. A send is counted when the receivers are picked.
- A cloud provider's answers are arbitrary. `LoginScopeHeldWhileNeeded` alone assumes that approved
  upgrades do not drop the login scope while local login is off.
- A frame stores the settings that are pushed to it as they are pushed.
- The generated modules tell which pages they were made from (`EmbedsPages`): they embed them.

Where a promise does not hold for every input, the code is modelled as it is, and exactly when it
holds is proved: `DiffEmptyIffEqualUpToNulls` (values that were not pruned), `SyncConvergesIff`
(scene ids that repeat), `FrameValueStable`, `ImportReadsBack`, `ConfigOutcome` and
`ConfigConverges` (settings that change when they are stored, handed out and normalised again),
`SanitizedLexesBack` (strings with a NUL), `UploadIsExactIff` and `ChunkKeepsPrefixes` (chunks that
do not land true or end early), `RecordStaysStale` (loads that fail after a mark), `LoginScopeStays`
(upgrades that drop the login scope), `PushedAgainIffWrittenOtherwise` (deploy stamps in another
form), `DoubleConnectLeaks` (sockets that connect twice), `AnyRunIsClean` with
`TouchedWebGoesUnnoticed` and `UnhashedEditGoesUnnoticed` (changes that the asset build does not
see) and `SnapshotsUseGeneratedScenes` (missing reset scenes). `DuplicateIdsDoNotConverge`,
`ZeroPortIsUnstable`, `RebootWithoutCrontabComesBack`, `ImportedDeviceBringsButtons`,
`NulBreaksTheLiteral`, `RetryWithoutOffsetCorrupts`, `FailedLoadHidesStaleness` and
`ZoneLetterRepeatsAfterRestart` are instances.

## Model

| member | source | states |
|---|---|---|
| Json.PyEqIsCanonEq | backend/app/api/frame_sync.py:395-396 | The equality both sections compare with (containers by content, `1 == 1.0 == True`) is equality of canonical forms, hence an equivalence relation. |
| Json.PruneCleans | backend/app/api/frame_sync.py:213-246 | A pruned value has no empty value anywhere below the top, no number left as a text, and is never the empty string. |
| Json.PruneFixes | backend/app/api/frame_sync.py:233-246 | Pruning leaves a value as it is exactly when it has no nested empty value and no numeral in it. |
| Json.PruneIdempotent | backend/app/api/frame_sync.py:233-246 | Pruning twice is pruning once. |
| Json.PruneEmptyIffBlank | backend/app/api/frame_sync.py:233-246 | Pruning leaves nothing exactly of values made of nulls, empty strings and empty containers only. |
| Json.PruneDropsTheBlank | backend/app/api/frame_sync.py:233-246 | Of a dict and of a list pruning drops exactly what is blank, and prunes the rest where it stands. |
| JsonDiff.JsonDiffDetails | backend/app/api/frame_sync.py:663-709 | The diff with its early stops returns the first `limit` entries of the complete list of differences, hence never more than the limit. |
| JsonDiff.DictDiffDetails | backend/app/api/frame_sync.py:674-687 | The loop over the sorted keys of two dicts, against the same unlimited list. |
| JsonDiff.ListDiffDetails | backend/app/api/frame_sync.py:689-700 | The loop over the positions of two lists, against the same unlimited list. |
| JsonDiff.DiffEmptyIffEqual | backend/app/api/frame_sync.py:663-709 | On pruned values the diff is empty exactly when Python calls the values equal. |
| JsonDiff.DiffPointsAtDifferences | backend/app/api/frame_sync.py:663-709 | Every reported detail lies below the given path, shows what both sides hold there, and the two differ. |
| JsonDiff.DiffCoversDifferences | backend/app/api/frame_sync.py:663-709 | Wherever two pruned values differ, some reported detail lies on the way to that place or below it. |
| JsonDiff.DiffEmptyIffEqualUpToNulls | backend/app/api/frame_sync.py:663-709 | Of any two values, pruned or not, the diff is empty exactly when they are equal up to entries that are null on one side and absent on the other. |
| SceneDiff.SceneDiffDetails | backend/app/api/frame_sync.py:544-652 | The details of a changed scene are the first `limit` of the complete list over name, settings, fields, events, apps, nodes and edges. |
| SceneDiff.PartDiffDetails | backend/app/api/frame_sync.py:555-573 | The loop over the plain parts of a scene. |
| SceneDiff.CollectionDiffDetails | backend/app/api/frame_sync.py:575-652 | The loops over nodes and over edges, in sorted key order. |
| SceneDiff.ItemDiffDetails | backend/app/api/frame_sync.py:578-650 | One node or edge: added, removed, or the diff of the two compared values. |
| SceneDiff.SceneDiffEmptyIffEqual | backend/app/api/frame_sync.py:524-652 | Two scenes have no detail to show exactly when they compare equal, so a reported change is never without details. |
| SceneDiff.BuildSceneSyncSection | backend/app/api/frame_sync.py:855-920 | The loop over the sorted scene ids builds exactly the specified list of changes. |
| SceneDiff.SceneChange | backend/app/api/frame_sync.py:864-913 | One scene id: nothing, added, removed, or changed with details. |
| SceneDiff.SectionIsExact | backend/app/api/frame_sync.py:855-920 | The section lists exactly the ids where the frame differs from both the baseline and the backend; each changed scene has 1 to 12 details. |
| SceneMeaning.LastNodeCounts | backend/app/api/frame_sync.py:458-465 | Under an id stands the last node dict that goes by it, by its id or else its position. |
| SceneMeaning.LastSceneCounts | backend/app/api/frame_sync.py:836-848 | Under an id stands the last scene that goes by it. |
| SceneMeaning.EdgeKeysTellApart | backend/app/api/frame_sync.py:468-478 | Two edges share a key exactly if ends, handles and type agree, as long as no text has a bar in it. |
| SceneMeaning.LastEdgeCounts | backend/app/api/frame_sync.py:515-521 | Under a key stands the last edge that has it. |
| SceneMeaning.ComparedBy | backend/app/api/frame_sync.py:447-541 | Two scenes compare equal exactly if, up to what pruning drops, they have the same name, settings, fields, events and apps, the same nodes with the same type and data, and the same edges with the same six fields. |
| SceneMeaning.ReportedAs | backend/app/api/frame_sync.py:855-920 | A scene is reported exactly if the frame has it otherwise than the baseline and the backend: as added if the backend has none, removed if the frame has none, else changed with its first 12 details. |
| SceneMeaning.EditedNodeIsReported | backend/app/api/frame_sync.py:447-908 | A node whose type or data was edited on the frame alone makes its scene a reported change. |
| SceneMeaning.DetailsNameTheItems | backend/app/api/frame_sync.py:575-652 | The details name as added exactly the nodes and edges that only the frame has, as removed those that only the backend has, and as changed those with a field that differs. |
| SceneMeaning.OneSidedDetails | backend/app/api/frame_sync.py:583-600 | An added or removed item shows what pruning keeps of its fields on its own side and nothing on the other. |
| SceneMeaning.DetailsNameTheParts | backend/app/api/frame_sync.py:555-573 | A plain part has a detail under its label exactly if the two sides differ in it. |
| SceneMerge.ReplaceSceneByKey | backend/app/api/frame_sync.py:967-978 | The loop replaces the first scene with the key, or deletes it, or appends. |
| SceneMerge.ReplaceUpdatesLookup | backend/app/api/frame_sync.py:842-848 | With unique non-empty ids, replacing changes the lookup at its own key and nowhere else, and keeps the ids unique. |
| SceneMerge.ReplaceKeepsPlaces | backend/app/api/frame_sync.py:967-978 | A scene is exchanged where it stands, taken out without a gap, or added at the end. |
| SceneMerge.ReplaceEditsTheFirst | backend/app/api/frame_sync.py:842-978 | With ids that may repeat, replacing changes the lookup at its key exactly if the id stands there at most once; other ids keep lookup and repetition. |
| SceneMerge.SceneCopyName | backend/app/api/frame_sync.py:989-997 | The name search ends, at a name nobody has. |
| SceneMerge.CopyIsNamedAfter | backend/app/api/frame_sync.py:989-997 | The copy has the title of the original with the first of the endings "(frame copy)", "(frame copy 2)" and so on that nobody has. |
| SceneMerge.CopyFrameSceneVariant | backend/app/api/frame_sync.py:1000-1010 | The copy of the frame version gets the first unused drawn id and an unused name. |
| SceneMerge.FrameCopyIsFresh | backend/app/api/frame_sync.py:981-1010 | Id and name of the copy occur in neither list; all else equals the original. |
| SceneMerge.ApplySceneSyncChoices | backend/app/api/frame_sync.py:1013-1046 | The loop over the choices equals applying them one after the other. |
| SceneMerge.StepLookups | backend/app/api/frame_sync.py:1013-1046 | One choice: both sides agree on the chosen key, at most one fresh copy appears on both, every other lookup stays. |
| SceneSync.AgreeOrUntouched | backend/app/api/frame_sync.py:1013-1046 | After any number of choices the two sides agree on a scene, or nobody decided about it and it is as it was. |
| SceneSync.SyncConverges | backend/app/api/frame_sync.py:855-1046 | With unique non-empty ids: once every reported scene got a choice, rebuilding the section from the merged lists against the same baseline reports no change. |
| SceneSync.ReportedAgainIffRepeated | backend/app/api/frame_sync.py:836-1046 | With ids that repeat: a scene is reported after the choices, any of the three, exactly if it was reported before and got none, or its id stands twice or more in the list that was to take the scene over. |
| SceneSync.CopiesAgree | backend/app/api/frame_sync.py:1013-1046 | A scene that both sides have alike and nobody decides about stays alike on both, also one that appears as a copy. |
| SceneSync.SyncConvergesIff | backend/app/api/frame_sync.py:836-1046 | With ids that repeat: the rebuilt section is empty exactly if every reported scene got a choice and no list that was to take one over has its id twice or more. |
| SceneSync.DuplicateIdsDoNotConverge | backend/app/api/frame_sync.py:836-978 | An instance of that: lists with an id twice that stay in conflict. |
| SceneSync.OthersUndisturbed | backend/app/api/frame_sync.py:967-1046 | Scenes without a choice keep content and relative order on both sides; all that is added are copies with drawn ids. |
| SceneSync.AgreedScenesStay | backend/app/api/frame_sync.py:1013-1046 | A scene both sides agree on is left alone by the later choices for other keys. |
| SceneSync.BothKeepsBothVersions | backend/app/api/frame_sync.py:1000-1046 | "Both" ends with the backend version under the key and the frame version under an id and name used in neither list, on both sides. |
| SceneSync.OutcomeByKey | backend/app/api/frame_sync.py:1013-1046 | What stands under an id is a function of the choice for that id, "both" included: a side takes the chosen scene over if its own list has the id at most once. |
| SceneSync.OrderIrrelevant | backend/app/api/frame_sync.py:1013-1046 | Backend and frame choices can be applied in any order: the id-to-scene result is the same, also with ids that repeat. |
| Normalisers.SwitchSurvives | backend/app/api/frame_sync.py:199-246 | A switch is still on after pruning exactly if it was on and is not misleading ("00", or a container of blanks). |
| Normalisers.CompactMappingStable | backend/app/api/frame_sync.py:249-258 | The compact mapping is idempotent, and nothing exactly when all its allowed entries are blank. |
| Normalisers.SwitchedMappingStable | backend/app/api/frame_sync.py:279-282 | Agent, reboot, control code and mountpoints: stable exactly unless the switch is misleading and an entry is kept. |
| Normalisers.DeviceConfigStable | backend/app/api/frame_sync.py:285-297 | The device config is stable exactly unless its partial-refresh switch is a zero written as a text that reads as on. |
| Normalisers.HttpsProxyStable | backend/app/api/frame_sync.py:261-276 | The proxy is stable exactly unless it is on and its port is read as a number that vanishes. |
| Normalisers.ScheduleStable | backend/app/api/frame_sync.py:314-320 | The schedule is idempotent. |
| Normalisers.ButtonsStable | backend/app/api/frame_sync.py:323-338 | The button list is idempotent. |
| Normalisers.ErrorBehaviorStable | backend/app/api/frame_sync.py:347-350 | The error behaviour is idempotent. |
| Normalisers.FrameAdminAuthStable | backend/app/api/frame_sync.py:376-377 | A login is stable exactly unless its user name or password reads as a number: pruning stores the number, the next normalising drops it. |
| Normalisers.FrameValueStable | backend/app/api/frame_sync.py:353-378 | Setting by setting, for every key, the exact condition under which normalising twice is normalising once. |
| Normalisers.PlainSwitchesAreStable | backend/app/api/frame_sync.py:199-210 | With boolean or listed-word switches every setting but the proxy port and the login is stable. |
| Normalisers.ZeroPortIsUnstable | backend/app/api/frame_sync.py:261-276 | Port "0" of an enabled proxy normalises to 0 and then to 8443. |
| ConfigMeaning.DictSettingsComparedBy | backend/app/api/frame_sync.py:199-378 | Network, agent, device config, reboot, control code, mountpoints, palette and schedule compare equal exactly if what counts of each field, given the switches and the fields left out, is the same once pruned. |
| ConfigMeaning.ProxiesComparedBy | backend/app/api/frame_sync.py:261-276 | Two proxies compare equal exactly if both are off, or both on with the same port (8443 if none), exposure, server certificate and key. |
| ConfigMeaning.ButtonsComparedBy | backend/app/api/frame_sync.py:323-338 | Two button lists compare equal exactly if their pins above zero and their labels are the same in order; a label that repeats the pin is none. |
| ConfigMeaning.ErrorBehavioursComparedBy | backend/app/api/frame_sync.py:347-350 | Two error behaviours compare equal exactly if mode, switch and the four times are, with their defaults and the old name of the window. |
| ConfigMeaning.LoginsComparedBy | backend/app/api/frame_sync.py:376-377 | Two logins compare equal exactly if switch, stripped user name and password are, as pruning reads texts. |
| ConfigMeaning.OthersComparedBy | backend/app/api/frame_sync.py:353-378 | Every other setting is compared as pruning leaves it. |
| ConfigSync.BuildFrameSyncSection | backend/app/api/frame_sync.py:801-833 | The loop over the settings builds exactly the specified list of changes. |
| ConfigSync.ConfigSectionIsExact | backend/app/api/frame_sync.py:801-833 | A setting is listed exactly when the device value differs from both the baseline and the backend value, each with 1 to 8 details. |
| ConfigSync.FirstDetails | backend/app/api/frame_sync.py:816-826 | A reported setting comes with the first 8 of all its differences. |
| ConfigSync.FrameValueClean | backend/app/api/frame_sync.py:353-378 | Every normaliser returns a value without nested empties, which is what makes the diff complete on settings. |
| FrameModel.ErrorBehaviorStays | backend/app/models/frame.py:218-249 | Normalising an error behaviour twice is normalising it once. |
| FrameModel.PortStoredIffFits | backend/app/models/frame.py:91-109 | The proxy port is stored as it was exactly if it is a number in the range of ports. |
| FrameModel.StoredPortIs | backend/app/models/frame.py:91-100 | What is no number from 1 to 65535 is stored as port 8443. |
| FrameModel.ProxyStays | backend/app/models/frame.py:91-109 | Normalising a proxy twice is normalising it once, so storing and handing out agree. |
| FrameModel.CrontabFixedIff | backend/app/models/frame.py:151-170 | A crontab is left as it is exactly if it has no outer spaces, is not empty, and is not of the old form with the hour in the place of the minute. |
| FrameModel.CrontabStays | backend/app/models/frame.py:151-170 | Normalising a crontab twice is normalising it once: what the old form is rewritten to is not of the old form. |
| FrameModel.OldCrontabIsRewritten | backend/app/models/frame.py:151-170 | A crontab "h 0 * * *" with h from 1 to 23 becomes "0 h * * *". |
| FrameModel.ItemsHandedOut | backend/app/models/frame.py:182-199 | Of mountpoint items the dicts are handed out in order, on unless they say otherwise, with texts stripped or not as the field asks. |
| FrameModel.HandedOutRest | backend/app/models/frame.py:362-424 | The response limit has its default, a device brings its buttons along, a reboot gets its crontab, and the settings without a rule are handed out as they are. |
| FrameModel.SplitParts | backend/app/utils/timezone.py:39-39 | The parts of a zone name have no slash in them and make up the name. |
| ConfigImport.UnstableDiffers | backend/app/api/frame_sync.py:261-378 | Of every setting: where normalising again changes a value at all, it changes it visibly to the comparison. |
| ConfigImport.StoredProxyReadsBack | backend/app/models/frame.py:91-131 | An imported proxy is handed out again as it was imported exactly if it is off or its port fits. |
| ConfigImport.TextReadsBack | backend/app/models/frame.py:194-199 | A value read with `str(value or "")`, stripped or not, gives itself back exactly if it is absent, a text without spaces to strip, or a nonzero number whose text is read as that number. |
| ConfigImport.RebootReadsBack | backend/app/models/frame.py:173-179 | An imported reboot schedule is handed out as it was imported exactly if it still reads as on and has a crontab in its normal form. |
| ConfigImport.ItemsReadBack | backend/app/models/frame.py:182-199 | Imported mountpoint items are handed out as they were exactly if each is a dict of known keys with its switch written out and its texts as they are stored; others are dropped or change. |
| ConfigImport.MountpointsReadBack | backend/app/models/frame.py:182-204 | Imported mountpoints are handed out as they were exactly if the switch is a true, no key is unknown, and the items are. |
| ConfigImport.TimezoneReadsBack | backend/app/utils/timezone.py:14-42 | An imported time zone is handed out as it was exactly if there is none, or its text is that of the value and is accepted as a zone or a zone-like name. |
| ConfigImport.ButtonsReadBack | backend/app/drivers/devices.py:218-220 | Imported buttons are handed out as they were exactly if the device has none of its own or they equal these. |
| ConfigImport.ResponseLimitReadsBack | backend/app/models/frame.py:394-394 | An imported response limit is handed out as it was exactly if it is not null or zero. |
| ConfigImport.ImportReadsBack | backend/app/api/frame_sync.py:1092-1112 | Of every setting: what an import stores is handed out, and read by the next comparison, as it was imported exactly unless the condition of that setting holds. |
| ConfigSync.ConfigOutcome | backend/app/api/frame_sync.py:1205-1244 | A setting is reported after the choices exactly if it was reported, and the request was refused or its choice does not settle it: none was made, the import is lost, or the pushed value changes when normalised again (and does not read as the deployed one). |
| ConfigSync.ButtonsOutcome | backend/app/models/frame.py:362-424 | The buttons, whichever device an import brings: reported afterwards exactly if the frame's differ from those of the device, the import or the row, in this order, and from those of the last deploy. |
| ConfigSync.ConfigConverges | backend/app/api/frame_sync.py:801-1244 | The section is empty after the choices exactly if every reported setting got a choice that settles it and the request was not refused. |
| ConfigSync.PlainSettingsSettle | backend/app/api/frame_sync.py:199-378 | With plain switches the backend side settles every setting but the proxy and the login, and the frame side those that the row does not rewrite. |
| ConfigSync.RebootWithoutCrontabComesBack | backend/app/models/frame.py:173-179 | An instance: a reboot that is merely switched on, taken from the frame, gets a crontab and is reported again. |
| ConfigSync.ImportedDeviceBringsButtons | backend/app/models/frame.py:410-410 | An instance: importing a device alone makes its buttons a change that was not reported before. |
| ChunkedUpload.UploadServer.ChunkedAssetUpload | backend/app/api/frames.py:2669-2748 | One request on the part files and stored assets, with every rejection, equals the transition function. |
| ChunkedUpload.RepliesExactly | backend/app/api/frames.py:2669-2748 | Exactly when each reply is given, and from it what every part and asset holds afterwards. |
| ChunkedUpload.RetryIsHarmless | backend/app/api/frames.py:2721-2740 | A chunk that is sent again at its offset is accepted again and changes nothing. |
| ChunkedUpload.OverwriteKeepsPrefix | backend/app/api/frames.py:2731-2737 | Overwriting keeps a prefix a prefix exactly if it writes what the file has at that place. |
| ChunkedUpload.LandsTrueIffPrefix | backend/app/api/frames.py:2727-2740 | With or without an offset, an accepted chunk leaves a prefix exactly if it is what the file has where it lands. |
| ChunkedUpload.ChunkKeepsPrefixes | backend/app/api/frames.py:2721-2748 | A chunk that lands true keeps parts prefixes of their files; what is stored is the file exactly if the chunk ends at its end or the part already was the file. |
| ChunkedUpload.UploadStaysExact | backend/app/api/frames.py:2660-2748 | Over any run of repeats, reorderings, rejected gaps and lost parts, while every chunk lands true every part is a prefix of its file. |
| ChunkedUpload.UploadIsExactIff | backend/app/api/frames.py:2660-2748 | Over any run, what is written is always a prefix if and only if every accepted chunk landed true. |
| ChunkedUpload.TrueOffsetsLandTrue | backend/app/api/frames.py:2676-2737 | Chunks that are true at the offset they name land true in every run, so parts stay prefixes. |
| ChunkedUpload.AppendedChunkLandsTrue | backend/app/api/frames.py:2731-2737 | A chunk without an offset lands true exactly if it is what comes next in the file. |
| ChunkedUpload.CompletedUploadIsTheFile | backend/app/api/frames.py:2739-2748 | An accepted completing chunk that ends at the end of the file stores exactly the file. |
| ChunkedUpload.OthersUntouched | backend/app/api/frames.py:2669-2736 | Rejected requests and other uploads leave a part as it was. |
| ChunkedUpload.SendingProgresses | backend/app/api/frames.py:2727-2740 | Sent in order, the first n chunks leave exactly the first bytes, whatever was there before. |
| ChunkedUpload.InOrderUploadArrives | backend/app/api/frames.py:2727-2748 | Chunks sent in order without a loss store the file, whatever earlier attempts left behind. |
| ChunkedUpload.RetryWithoutOffsetCorrupts | backend/app/api/frames.py:2731-2737 | An instance of that condition failing: a retried chunk without an offset is appended again. |
| StatesCache.FrameStates.MarkStale | backend/app/api/frames.py:406-425 | Marking: record stale, scene id set, stamp written. |
| StatesCache.FrameStates.Schedule | backend/app/api/frames.py:985-1009 | A load starts exactly if the lock was free. |
| StatesCache.FrameStates.FinishRefresh | backend/app/api/frames.py:933-982 | The end of a load: a stale one only gives the lock back, a failed one keeps the cached states. |
| StatesCache.RunsAreValid | backend/app/api/frames.py:406-1009 | In every reachable state the stamp is that of the latest mark, or no load from before that mark is running. |
| StatesCache.StaleLoadsLose | backend/app/api/frames.py:933-982 | In any interleaving a load from before the latest mark replaces neither record nor active scene; a failed load keeps the cached states and scene. |
| StatesCache.FreshLoadsWin | backend/app/api/frames.py:933-982 | In any interleaving a load that began after the latest mark is what the cache then holds, fresh, with its scene active and the lock free; a failed one leaves its message, and a missing frame nothing. |
| StatesCache.OtherEvents | backend/app/api/frames.py:322-425 | What marks, served requests and expiries change: scene, age and error of the record, the active scene and the stamp. |
| StatesCache.OneLoadAtATime | backend/app/api/frames.py:985-1009 | Over any run loads run one at a time, but for one more per lock that expired under a running one; one starts exactly if the lock is free. |
| StatesCache.MarkHolds | backend/app/api/frames.py:406-982 | The scene of a mark is what the cache shows until another mark or a load that began after it. |
| StatesCache.RecordStaysStale | backend/app/api/frames.py:406-982 | Over any run: a marked record keeps its age of 0 exactly as long as every load that ends was for a gone frame, or succeeded and began before the mark. |
| StatesCache.FailedLoadHidesStaleness | backend/app/api/frames.py:406-982 | A reachable instance: an older load fails after the mark and the record passes for fresh. |
| StateSplit.OrderIsSplit | backend/app/api/ai_scenes.py:149-169 | Exactly the pairs of states that feed several apps are split, each once. |
| StateSplit.GroupEdges | backend/app/api/ai_scenes.py:149-156 | The loop groups the edges by state and app in order of first appearance. |
| StateSplit.RedirectEdges | backend/app/api/ai_scenes.py:174-175 | Assigning `edge["source"]` changes that field of the edges of the group and of no other edge. |
| StateSplit.SplitStateNodes | backend/app/api/ai_scenes.py:126-194 | The whole pass on edge objects in place equals the pure result on edges and nodes, with one drawn id a pair. |
| StateSplitMeaning.EdgesKeepPlaceAndTarget | backend/app/api/ai_scenes.py:161-176 | Every edge keeps its position, target, handles and all but its source. |
| StateSplitMeaning.SourcesKeepContent | backend/app/api/ai_scenes.py:161-194 | Every source that resolved still resolves, to the same node or a copy that differs in its id only. |
| StateSplitMeaning.OldNodeStays | backend/app/api/ai_scenes.py:178-194 | An old node that is not removed is found under its id, as it was. |
| StateSplitMeaning.NewNode | backend/app/api/ai_scenes.py:169-175 | Under each new id stands an exact copy of its state node. |
| StateSplitMeaning.NodeOrigin | backend/app/api/ai_scenes.py:178-194 | There are no other nodes. |
| StateSplitMeaning.TargetsResolve | backend/app/api/ai_scenes.py:178-194 | Every target still resolves to the same node, unless it is a removed state node. |
| StateSplitMeaning.SplitIffSeveral | backend/app/api/ai_scenes.py:149-166 | A state is split exactly if it feeds two apps or more, and then for every one of them. |
| StateSplitMeaning.GoneExactly | backend/app/api/ai_scenes.py:166-190 | A node is taken out exactly if it is a state feeding two apps or more and every edge that leaves it leads to an app. |
| StateSplitMeaning.EachStateFeedsOneApp | backend/app/api/ai_scenes.py:147-194 | Afterwards no state node feeds two apps. |
| StateSplitMeaning.SecondPassChangesNothing | backend/app/api/ai_scenes.py:126-194 | A second pass changes nothing. |
| Packers.NearestPaletteIndex | backend/app/api/embedded_device.py:113-118 | The index is of a colour at least distance, and of the first such. |
| Packers.OwnColourIsNearest | backend/app/api/embedded_device.py:113-118 | The distance is the sum over the channels, and a colour of the palette is shown as itself. |
| Packers.PlaceholderNeverNearest | backend/app/api/embedded_device.py:70-118 | The placeholder of the Spectra palette is never the nearest colour. |
| Packers.GrayLevelIsClose | backend/app/api/embedded_device.py:143-162 | A level fits its field and is within 42 (2 bits) or 8 (4 bits) of the grey it stands for. |
| Packers.FieldLayout | backend/app/api/embedded_device.py:143-177 | Four fields of two bits or two of four in a byte, the first one highest: by masks, without the shifts of the packers. |
| Packers.BufferLayout | backend/app/api/embedded_device.py:143-177 | The place of every pixel in a whole buffer in numbers: byte `y * row + x // 4` or `x // 2`, and its bits. |
| Packers.OrSetsOneField | backend/app/api/embedded_device.py:143-177 | Or-ing a value into a zero field sets that field and no other of the byte. |
| Packers.RowReadsBack | backend/app/api/embedded_device.py:143-177 | In a row every pixel written reads back, whatever was written later; the rest stays zero. |
| Packers.PackFields | backend/app/api/embedded_device.py:143-177 | The nested loops on the byte array, against the specified rows. |
| Packers.PackRow | backend/app/api/embedded_device.py:143-177 | The inner loop writes one row and no other byte. |
| Packers.RowsHold | backend/app/api/embedded_device.py:143-177 | Rows are padded to whole bytes, every pixel is at its place, padding is zero. |
| Packers.PackGray | backend/app/api/embedded_device.py:143-162 | For every size: padded length, every pixel decodes to its grey level, padding to 0. |
| Packers.PackPalette | backend/app/api/embedded_device.py:165-177 | For every size: padded length, every pixel decodes to its nearest palette index, padding to 0. |
| Packers.SpectraPixelsAreColours | backend/app/api/embedded_device.py:70-177 | On the Spectra panel every pixel decodes to a colour the panel has. |
| Packers.PlaneRowReadsBack | backend/app/api/embedded_device.py:125-140 | A bit of a plane row is cleared exactly for a chosen pixel. |
| Packers.PlaneReadsBack | backend/app/api/embedded_device.py:125-140 | The same for whole planes, for every pixel and padding bit. |
| Packers.PlaneLayout | backend/app/api/embedded_device.py:125-140 | The place of every pixel in a plane in numbers: byte `y * row + x // 8`, the first pixel in bit 0x80. |
| Packers.DualColours | backend/app/api/embedded_device.py:125-140 | Black pixels belong to the first plane, pixels of the accent colour to the second, white ones to neither. |
| Packers.PackPlanes | backend/app/api/embedded_device.py:125-140 | The nested loops with `&=` on two byte arrays, against the specified planes. |
| Packers.ClearPixel | backend/app/api/embedded_device.py:129-139 | Clearing one pixel is one step of the row and touches no other byte. |
| Packers.PackDualRow | backend/app/api/embedded_device.py:129-139 | The inner loop clears bits of one row in both arrays and no other byte. |
| Packers.PackDual | backend/app/api/embedded_device.py:125-140 | Black plane, then accent plane: bits cleared exactly for the black and the accent pixels, never both, padding set. |
| StoreSeeding.Project.SeedStore | backend/app/api/repositories.py:364-426 | The branches on marker, provider and version equal the transition function. |
| StoreSeeding.Project.DropLegacyStores | backend/app/api/repositories.py:391-406 | The loop over legacy stores drops all but those at the store URL, and says whether to seed. |
| StoreSeeding.Project.CreateRepository | backend/app/api/repositories.py:233-252 | A new row is added with the given URL and the fetched name, unless there is no URL. |
| StoreSeeding.Project.UpdateRepository | backend/app/api/repositories.py:462-477 | A row gets the given name and URL, then the fetched name. |
| StoreSeeding.Project.DeleteRepository | backend/app/api/repositories.py:479-489 | The row is removed and the marker stays. |
| StoreSeeding.StoreUrlIsOwn | backend/app/api/repositories.py:46-68 | A provider recognises its own store URL for every version, and no store URL reads as the old boolean marker. |
| StoreSeeding.ListingTwiceIsOnce | backend/app/api/repositories.py:364-436 | Listing twice equals listing once. |
| StoreSeeding.StoreCountBounded | backend/app/api/repositories.py:364-426 | The number of rows at the store URL never exceeds max(1, what it was). |
| StoreSeeding.UnrelatedUntouched | backend/app/api/repositories.py:364-426 | Rows at unrelated URLs keep content and order. |
| StoreSeeding.UpgradeKeepsTheRow | backend/app/api/repositories.py:407-421 | A version upgrade keeps the id and place of the seeded row unless a row is already at the new URL; then that one row goes. |
| StoreSeeding.ListingAddsNothing | backend/app/api/repositories.py:364-426 | Once seeded for a provider, a listing for it adds no row and no id, and makes no other row a store. |
| StoreSeeding.NoListingAddsARow | backend/app/api/repositories.py:364-489 | The same of every listing in any run of listings, version upgrades and user edits. |
| StoreSeeding.FirstListingSeeds | backend/app/api/repositories.py:364-426 | After the first connected listing the marker is of this provider. |
| StoreSeeding.DueSeedingIsDone | backend/app/api/repositories.py:364-435 | On the first listing, and after a change of provider, the store stands in the list: as a new last row with its own or the fetched name, unless a row was at its URL; besides, only the first row of the old provider goes. |
| StoreSeeding.OldMarkerIsFollowed | backend/app/api/repositories.py:391-435 | Of the old boolean marker: the old stores at other URLs go, and a row is added exactly if there was an old store and no row at the URL. |
| StoreSeeding.StoreUrlOf | backend/app/api/repositories.py:46-61 | The store URL: the provider without slashes at its end, the path and the version. |
| StoreSeeding.EditsOneRow | backend/app/api/repositories.py:233-489 | A user's edit touches one row: it keeps its id, takes what is given, and is named as fetched. |
| StoreSeeding.DeletedStoreStaysDeleted | backend/app/api/repositories.py:364-489 | Over any run without store URLs typed by hand, the ids at the store's URLs are among those that were there: a deleted store stays deleted, whichever other versions were kept, until the provider changes. |
| CloudLink.Install.ResetLink | backend/app/api/cloud.py:321-341 | Losing the link drops credentials and scope and re-enables local login. |
| CloudLink.Install.ClearUpgrade | backend/app/api/cloud.py:174-182 | A pending upgrade is forgotten; the link stays. |
| CloudLink.Install.StatusPayload | backend/app/api/cloud.py:211-235 | Expired grants are reset and expired upgrades cleared when the status is asked for. |
| CloudLink.Install.UpdateProvider | backend/app/api/cloud.py:189-378 | The provider changes only when it may, and a held grant is reset first. |
| CloudLink.Install.StartConnect | backend/app/api/cloud.py:386-443 | A device grant is started with the requested known scopes. |
| CloudLink.Install.PollUpgrade | backend/app/api/cloud.py:451-475 | The poll of a scope upgrade on a live link. |
| CloudLink.Install.PollLink | backend/app/api/cloud.py:478-523 | The poll of a device grant: pending, approved, refused, unreachable. |
| CloudLink.Install.Approve | backend/app/api/cloud.py:499-523 | Approval stores token, scope, owner and the approving identity. |
| CloudLink.Install.ClaimIdentity | backend/app/api/cloud.py:526-542 | Linking never takes an identity from another user. |
| CloudLink.Install.UpsertCloudIdentity | backend/app/api/cloud.py:910-929 | An identity row is created or renewed under its (issuer, subject). |
| CloudLink.Install.DisconnectCloud | backend/app/api/cloud.py:583-597 | Disconnecting resets the link. |
| CloudLink.Install.SetLocalFallback | backend/app/api/cloud.py:1092-1149 | Local login is turned off only by the verified owner of a connected link with `auth:login`. |
| CloudLink.Install.SetCloudFeatures | backend/app/api/cloud.py:1187-1245 | A feature change applies at once, waits for approval, or changes nothing. |
| CloudLink.Install.CancelCloudFeatures | backend/app/api/cloud.py:1249-1258 | A pending feature change is withdrawn. |
| CloudLink.Install.LoginCallback | backend/app/api/cloud.py:933-1048 | Logging in and linking an account; only the very first user is created from the cloud. |
| CloudLink.Install.CloudIdentityUnlink | backend/app/api/cloud.py:1075-1088 | The identities of a user go unless they are the only way in. |
| CloudLink.Install.SyncLink | backend/app/cloud/sync.py:139-253 | A grants sync records the owner, or resets a revoked link. |
| CloudLink.CredentialsStayInOrder | backend/app/api/cloud.py:321-523 | Every request keeps: credentials issued by the current provider; connecting holds a device code and no token, connected a token, disconnected neither. |
| CloudLink.NoLockoutStays | backend/app/api/cloud.py:321-1258 | Every request keeps: local login off only while connected and with an identity at this provider. |
| CloudLink.LoginScopeStays | backend/app/api/cloud.py:451-475 | The login scope is kept by a request exactly unless it is an approved upgrade that drops it while local login is off. |
| CloudLink.OwnershipStays | backend/app/api/cloud.py:526-929 | An identity keeps its user as long as its row is there, and its row goes only by that user unlinking. |
| CloudLink.ReachableStatesAreSafe | backend/app/api/cloud.py:321-1258 | Both invariants hold in every reachable state of any run. |
| CloudLink.LoginScopeHeldWhileNeeded | backend/app/api/cloud.py:451-1245 | If no approved upgrade drops it, `auth:login` is held whenever local login is off, in every run. |
| CloudLink.OwnerKeptOverRuns | backend/app/api/cloud.py:910-1088 | Over any run an identity that is not unlinked stays with its user. |
| CloudLink.OneFeatureChangeAtATime | backend/app/api/cloud.py:174-1258 | While a feature change is pending, after any request its device code is gone, or code and expiry are the same and it is still the pending one. |
| CloudLink.PendingChangeStays | backend/app/api/cloud.py:174-1258 | Over any run the pending change stays the same until its code is gone. |
| CloudLink.ProviderChangeDropsCredentials | backend/app/api/cloud.py:189-443 | Repointing and reconnecting never carry a credential to another provider. |
| CloudOutcomes.ConnectsExactlyWhenApproved | backend/app/api/cloud.py:478-523 | A link becomes connected exactly when a waiting grant is polled and a token handed out; it then holds that token, the scope and owner named, and nothing of the grant. |
| CloudOutcomes.EndsExactlyWhenRevoked | backend/app/api/cloud.py:321-597 | A connected link ends exactly when it is disconnected or a sync is told 401, and then nothing of it is left. |
| CloudOutcomes.GrantStartsExactly | backend/app/api/cloud.py:386-443 | Whatever the state, an accepted grant waits, with its code, lifetime and scopes, at the provider asked. |
| CloudOutcomes.RequestedScopesAre | backend/app/api/cloud.py:386-443 | A grant asks for the known ones of the scopes asked for, or for a fixed set if none is known. |
| CloudOutcomes.OnlyOneWayToWait | backend/app/api/cloud.py:321-523 | A grant that waits after any other request is the one that waited before. |
| CloudOutcomes.WaitingEndsExactly | backend/app/api/cloud.py:189-523 | A waiting grant ends without success exactly when called off, refused, or out of time when a request looks at the clock. |
| CloudOutcomes.PollReports | backend/app/api/cloud.py:478-523 | What a poll reports of a pending, unreachable, refused or lapsed grant; until then the rest of the link stays. |
| CloudOutcomes.UpgradePollReports | backend/app/api/cloud.py:451-475 | The same for a feature change, which leaves the link connected whatever the answer. |
| CloudOutcomes.ProviderIs | backend/app/api/cloud.py:189-443 | Which provider the link is to after any request, and when there is a link at all. |
| CloudOutcomes.GrantConnects | backend/app/api/cloud.py:386-523 | Over a run: a started grant, polled however often before its time is up, connects as soon as the provider hands out the token. |
| CloudOutcomes.ScopeIsAsGranted | backend/app/api/cloud.py:451-1245 | While connected the scope is what the provider last granted in an approved upgrade or an applied change; token and provider stay, and the owner is what a sync said last. |
| CloudOutcomes.UpgradeWaitsExactly | backend/app/api/cloud.py:451-1258 | A feature change waits exactly from the reply that wants approval until it is decided, called off or out of time. |
| CloudOutcomes.LocalLoginIsOffExactly | backend/app/api/cloud.py:1092-1245 | Local login is off exactly after the verified owner switched it off and nothing has switched it on since. |
| CloudOutcomes.UsersChangeExactly | backend/app/api/cloud.py:933-1048 | A user is created exactly by the first cloud login to an install without users, and by no stranger. |
| CloudOutcomes.IdentitiesChangeExactly | backend/app/api/cloud.py:526-1088 | Row by row, which identities there are after any request: recorded by approval, linking or first login, removed by their own user only. |
| FrameBackups.CloudSync.PrimeDeploysSeen | backend/app/cloud/sync.py:257-268 | The loop loads the persisted stamp of every frame into memory. |
| FrameBackups.CloudSync.MarkDeployBackedUp | backend/app/cloud/sync.py:270-283 | The stamp is parsed and written to the frame, if the frame is still there. |
| FrameBackups.CloudSync.MaybeBackupFrame | backend/app/cloud/sync.py:285-314 | An update event pushes, records in both places, or does nothing, as the transition function says. |
| FrameBackups.MemoryMatchesDatabase | backend/app/cloud/sync.py:257-314 | After every event of any run, restarts included, the in-memory marker equals the persisted one. |
| FrameBackups.PushedUnlessRecorded | backend/app/cloud/sync.py:285-302 | A deploy is pushed exactly when uploads are on and it is not the one recorded last. |
| FrameBackups.RecordedExactly | backend/app/cloud/sync.py:270-314 | A deploy is recorded, in its own row only, exactly if its push succeeds. |
| FrameBackups.FailedPushStaysEligible | backend/app/cloud/sync.py:303-314 | A failed push records nothing and stays eligible. |
| FrameBackups.NoRepeats | backend/app/cloud/sync.py:257-314 | A deploy equal to the last recorded success is never pushed again, through restarts. |
| FrameBackups.PushedAgainIffWrittenOtherwise | backend/app/cloud/sync.py:270-314 | Whatever text a stamp comes as: once backed up, its event is pushed again after a restart exactly if the text without the offset is not how the stamp is written. |
| Broadcast.ConnectionManager.Connect | backend/app/websockets.py:33-38 | The socket is listed and its projects recorded. |
| Broadcast.ConnectionManager.Disconnect | backend/app/websockets.py:40-45 | The first listing goes, and the entry in the map. |
| Broadcast.ConnectionManager.SelectReceivers | backend/app/websockets.py:69-85 | The locked section picks the listed connections that can receive. |
| Broadcast.ConnectionManager.DropStale | backend/app/websockets.py:98-106 | Connections that could not be sent to are removed. |
| Broadcast.ReceiversAreExact | backend/app/websockets.py:69-85 | In a valid registry exactly the registered connections permitted to see the message are picked, each once. |
| Broadcast.PermitsExactly | backend/app/websockets.py:14-75 | Who may see what: full access everything, others their projects, and what has no project unless it is one of the eight events of projects. |
| Broadcast.ConnectStaysValid | backend/app/websockets.py:33-38 | With sockets connecting once, list and map stay of the same connections without duplicates. |
| Broadcast.DisconnectStaysValid | backend/app/websockets.py:40-45 | The same for disconnecting, which removes that connection and no other. |
| Broadcast.DropAllStaysValid | backend/app/websockets.py:101-106 | The same for any set of stale connections. |
| Broadcast.HistoryCounts | backend/app/websockets.py:33-45 | After any history a socket is listed as often as it connected beyond its disconnects, and has an entry exactly if it connected last. |
| Broadcast.DoubleConnectLeaks | backend/app/websockets.py:33-75 | A socket is listed without an entry, and then sent every message, exactly if it connected more often than it disconnected and disconnected last. |
| Broadcast.NothingLeaksOrRepeats | backend/app/websockets.py:77-151 | In no run across instances is a connection sent a message it may not see, or any message twice. |
| Broadcast.ExactlyOnce | backend/app/websockets.py:77-151 | A connection registered throughout has, once the channel delivered to all, been sent the message once if permitted, else never. |
| AssetBuild.HashInputs | frameos/tools/prepare_assets.py:136-171 | The loops with the seen set feed exactly the specified items. |
| AssetBuild.HashIsExact | frameos/tools/prepare_assets.py:136-171 | Two trees hash alike exactly if they agree on everything the entries reach: which entries exist, which files, and their contents. |
| AssetBuild.HashHoldsTheView | frameos/tools/prepare_assets.py:136-171 | A hash determines all the files its entries reach. |
| AssetBuild.GeneratorInputsAreKnown | frameos/tools/prepare_assets.py:182-195 | Everything the module generators read is hashed, or is one of the unlisted pages. |
| AssetBuild.Checkout.Bundle | frameos/tools/prepare_assets.py:303-313 | The frontend build: generate one of its inputs, clear, bundle. |
| AssetBuild.Checkout.PrepareAssets | frameos/tools/prepare_assets.py:379-422 | Every branch, with its error, leaves the specified disk and result. |
| AssetBuild.ManifestCounts | frameos/tools/prepare_assets.py:198-229 | A manifest counts exactly if it is of version 1 and has both hashes. |
| AssetBuild.PackagedStepExactly | frameos/tools/prepare_assets.py:384-394 | Without its inputs the build uses and keeps a packaged frontend, or fails, naming exactly what is missing. |
| AssetBuild.FrontendStepExactly | frameos/tools/prepare_assets.py:395-408 | With its inputs the frontend is rebuilt exactly unless outputs and hash are in order, and the build fails exactly if an output is then not there. |
| AssetBuild.ModuleStepExactly | frameos/tools/prepare_assets.py:410-422 | The modules are made anew exactly unless they are all there and recorded under the hash of their inputs; a failure keeps the old record. |
| AssetBuild.PrepareStaysTrusted | frameos/tools/prepare_assets.py:379-422 | However a build ends, also half-way, the hashes in the manifest lead to what the last recorded builds made. |
| AssetBuild.IncrementalIsClean | frameos/tools/prepare_assets.py:379-422 | With all inputs present, what a build leaves, manifest included, is what a build from scratch leaves, if and only if nothing that it skips was touched: the compiled frontend, and the pages the modules embed. |
| AssetBuild.AnyRunIsClean | frameos/tools/prepare_assets.py:379-422 | The same after any run of edits of any source, touched or lost outputs, lost manifests and builds, failed ones included. |
| AssetBuild.RepeatingDoesNothing | frameos/tools/prepare_assets.py:379-422 | Building again rebuilds nothing and leaves the disk as it is. |
| AssetBuild.TouchedWebGoesUnnoticed | frameos/tools/prepare_assets.py:17-21 | Compiled files changed while the listed ones are there stay as they are: the next build is clean exactly if they are what was bundled. |
| AssetBuild.UnhashedEditGoesUnnoticed | frameos/tools/prepare_assets.py:31-38 | An edit that changes no hash rebuilds nothing: the next build is clean exactly if the pages that are not hashed are the same as before. |
| SceneSelection.IncludeSceneDependencies | e2e/makescenes.py:16-49 | The worklist ends with the least set that has the input and is closed under resolvable references, sorted, each added scene once. |
| SceneSelection.SortFilesSorts | e2e/makescenes.py:111-130 | Sorting keeps the files and orders them. |
| SceneSelection.OrderedIsUnique | e2e/makesnapshots.py:279-282 | Two listings of the same files sort alike, whatever order the directory gave. |
| SceneSelection.StrideSize | e2e/makescenes.py:85-89 | A shard has the even share of files, and the first ones one more. |
| SceneSelection.ShardsAreEven | e2e/makescenes.py:85-89 | The sizes of two shards differ by at most one. |
| SceneSelection.EachFileHasItsShard | e2e/makescenes.py:85-89 | File i is the i/n-th of shard i%n. |
| SceneSelection.ShardsPartition | e2e/makesnapshots.py:46-50 | Together the shards hold every file exactly as often as the list. |
| SceneSelection.PickExactly | e2e/makescenes.py:61-115 | Exactly which settings are refused and why, and which file stands where in a shard. |
| SceneSelection.ShardsPickEachOnce | e2e/makescenes.py:61-115 | Between them the shards pick every file that passes the filter, and each once. |
| SceneSelection.ReferencesAre | e2e/makescenes.py:16-23 | A scene refers exactly to what its scene nodes name. |
| SceneSelection.SelectScenes | e2e/makescenes.py:93-131 | Filter, shard, reset scenes and dependencies: the least closed selection, or the error of the shard settings. |
| SceneSelection.TakeBoth | e2e/makesnapshots.py:288-305 | The inner loop: each variant of a scene after its reset scene. |
| SceneSelection.ResetSceneDiffers | e2e/makesnapshots.py:165-167 | The scene shown before a snapshot is blue, or black for blue and its twin, so never the one to be shown. |
| SceneSelection.TakeSnapshots | e2e/makesnapshots.py:279-305 | The loop over the picked files sets the specified scene ids in order. |
| SceneSelection.PickIsTheSame | e2e/makesnapshots.py:29-52 | Both programs pick the same files for the same filter and shard. |
| SceneSelection.SnapshotsUseGeneratedScenes | e2e/makesnapshots.py:165-305 | Everything a snapshot shard activates was generated for that shard and filter, exactly if the reset scenes it falls back on exist (so always with black and blue). |
| NimLiterals.SanitizeIsOnePass | backend/app/codegen/utils.py:3-13 | The four chained replaces equal escaping each character once. |
| NimLiterals.SanitizedLexesBack | backend/app/codegen/utils.py:3-13 | The quoted form is read back as the string and closes at its own last quote, whatever follows, exactly unless the string holds a NUL, which breaks the literal off. |
| NimLiterals.NulBreaksTheLiteral | backend/app/codegen/utils.py:3-13 | An instance: any string around a NUL gives a literal that does not close. |
| NimLiterals.CompressedNimLiteral | frameos/tools/generate_compressed_asset_nim.py:21-32 | The byte literal is read back as the bytes, whatever follows. |
| NimLiterals.BytesLexBack | frameos/tools/generate_compressed_asset_nim.py:25-32 | The text of the bytes is read as the bytes and then what follows, also before a hex digit. |
| NimLiterals.DumpsAreLongSafe | frameos/tools/generate_apps_asset_nim.py:31-33 | Compact JSON never has three quotes in a row, nor a control character. |
| NimLiterals.AppsModuleHoldsTheJson | frameos/tools/generate_apps_asset_nim.py:31-42 | The triple-quoted constant of the generated module is exactly the JSON. |
| JsonReading.DumpsReadBack | frameos/tools/generate_apps_asset_nim.py:31-33 | What is written for any value without floats, before whatever may follow a value, is read back as that value: escapes, surrogate pairs, numbers, lists and dicts. |
| JsonReading.ModuleReadsBack | frameos/tools/generate_apps_asset_nim.py:31-42 | The app configs can be read back from the generated module, whatever texts they contain. |
| PyText.SortedInOrder | backend/app/api/frame_sync.py:675-675 | Sorting a set of keys lists them in strictly increasing order. |
| PyText.LeqIsLexicographic | backend/app/api/frame_sync.py:675-675 | The order goes by the first character that differs, and a prefix comes first. |

## Left out

- The display text of the sync dialog: summaries, labels, masked secrets and path strings; a path is a sequence of steps here.
- Unicode digits, case folding and spaces in `_sync_number` and `_sync_bool` (ASCII only), and float rounding (floats are exact reals).
- The text of floats and containers used as ids: a stand-in text. Unhashable values where a dict key is needed.
- The table of time zones (a parameter of `Host`, as are Python's texts of floats and containers) and Unicode letters in names of zones.
- Number texts that `float()` takes beyond plain decimals (exponents, a leading plus, underscores) in an error behaviour, and the dates of certificates. A login or proxy that is no dict, on which the source raises, reads as an empty one.
- What the defaults of a device mode are (buildroot, embedded): a parameter of `Host` that may set the settings in `SetByMode`; that they may refuse a platform, what `Frame.to_dict` makes of the updater, the widths and types of database columns, and the HTTP exchange with the device.
- ConfigSync.ConfigOutcome: leaves out the settings that the device mode sets itself, and the buttons while an import changes which ones the device has (`ButtonsOutcome` has these); speaks of settings as they are pushed, not of what a device makes of them.
- ConfigSync.ConfigConverges: the same.
- Uploads: the branch that forwards chunks to an embedded device, checks of ids and paths, and parsing of query parameters.
- States cache: lifetimes of keys in Redis beyond the assumption above, serving under timeouts, decoding of records.
- State splitting: the outer loop over scenes, edges whose source or target is no text, and two list entries that are the same dict object.
- StateSplit.GroupEdges: groups hold positions of edges instead of references to them; the edges changed are the same.
- Packing: `_pack_1bpp` (done by the image library), the header written by `fosb_payload`, and image decoding. `PackFields` is the loop that three packers share in shape, with the pixel value as a parameter.
- Store: fetching and refreshing templates, the older cleanup of repositories at the start of a listing, name and URL checks.
- Cloud: user codes and verification addresses, setup claims, sessions, login state and handoff, encryption of secrets, memberships, backup switches, deletion of users.
- Backups: virtual frames, project names, the content of a backup, and message parsing.
- Broadcast: timing of sends and reconnecting of the listener. A connection dropped as stale may be any.
- Asset build: the byte framing of the hash stream, installing node packages, failing commands in the middle of their writing, and empty files versus folders of the same name. Files of a folder come in one fixed order, by text rather than by path parts.
- AssetBuild.AnyRunIsClean: a manifest may be lost or spoilt, not put back from an older build; generated modules may be lost, not edited.
- Scene selection: fixture URLs, the generated Nim, the interpreted scenes' renamed references, and comparing snapshots. A scene file has a name before `.json`.
- SceneSelection.TakeSnapshots: the scene ids are those set when no request fails.
- Literals: gzip, asset keys and the rest of the generated modules, reading of config files, lone surrogates, and the text of floats (a parameter without three quotes in a row or control characters).
- JsonReading.DumpsReadBack: values without floats, and a reader that is strict about what `json.dumps` writes, without spaces.
- HTTP routing and schemas, SQL and Redis clients, AI prompting, SSH, release tooling and the user interface.
