# Broadcom QoS parameter generator and PTF remote interface map, in Dafny

This project models two pieces of the SONiC management test suite.

The first is the Broadcom QoS parameter generator (`QosParamBroadcom`). Its input is a `qos_params`
table keyed by "<speed>_<cable length>m" scenario. The generator fills in that table and recomputes it
from the DUT's buffer configuration:

- It first makes sure the scenario under test exists. A missing scenario is cloned from its neighbour
  in (speed, length) order.
- It then makes sure the scenario has `xon_1`, `xon_2` and, when defined at top level,
  `hdrm_pool_size`.
- It gives every `xoff_*`/`xon_*` profile a `pkts_num_margin` of at least 4.
- It converts the lossless PG profile's byte sizes to ASIC cells (`byte_to_cell`).
- It computes the shared buffer. On th/th2/th3 that is the ingress lossless pool divided among the
  XPEs. On td2/td3 it is the pool minus xoff and minus every statically bound egress queue and
  lossless PG.
- It derives the part of the shared buffer the dynamic threshold (alpha = 2^dynamic_th) still grants
  one PG.
- Finally it writes the PFC trigger, drop, dismiss and headroom thresholds back into the scenario's
  profiles.

The second is the remote PTF platform's interface discovery:

- `get_ifaces` filters the lines of `/proc/net/dev` down to front-panel (`eth…`) and backplane
  interfaces.
- `build_ifaces_map` numbers them into the `(device, port) -> interface` map PTF opens its dataplane
  with, in the original-interface or sub-interface mapping mode.

Modules:

- `Wrappers`: Option/Result.
- `Text`: the Python string builtins the code relies on (`int()`, `split`, `strip`, `lstrip`,
  `re.match` of digit runs).
- `QosTypes`: qos_params values, records, scenarios and errors.
- `Asic`: the ASIC table and `byte_to_cell`.
- `DynamicThreshold`: `calc_avaiable_shared_buffer`.
- `BufferAccounting`: the buffer configuration, `extract_profile_name`, the binding-key patterns and
  the shared-buffer accounting.
- `ProfileDefaults`: the `prepare_default_parameters` steps as functions, and the loop that chooses
  the reference scenario.
- `ThresholdAssembly`: the write-back of `calculate_parameters` as functions.
- `QosParamGenerator`: the class `QosParamBroadcom`, whose `qosParams` field its methods update.
- `PtfRemote`: `get_ifaces` and `build_ifaces_map` as methods with loops, proved against fold
  functions.

Every method is proved equal to a specification function. The lemmas then state what that function
guarantees.

## Model

| member | source | states |
|---|---|---|
| Asic.LookupAsic | tests/qos/files/brcm/qos_param_generator.py:48-72 | exactly td2, td3, th, th2 and th3 are known. The cell size is 256 bytes on td3 and 208 elsewhere. th and th2 have 4 XPEs, th3 has 2, td2 and td3 have 1 |
| Asic.ByteToCell | tests/qos/files/brcm/qos_param_generator.py:170-171 | the result is the ceiling of bytes / cell size: that many cells hold the bytes and one fewer does not; never negative for non-negative bytes |
| Asic.ByteToCellIsCeiling | tests/qos/files/brcm/qos_param_generator.py:170-171 | any cell count that holds the bytes while one fewer does not equals byte_to_cell, so the rounding is unique |
| DynamicThreshold.AvailableSharedBuffer | tests/qos/files/brcm/qos_param_generator.py:189-222 | fails, with the static-mode assertion error, exactly when the pool mode is not "dynamic". Otherwise the result x satisfies (shared - x) * alpha >= x and x + 1 does not: it is the largest usage the dynamic threshold still lets grow |
| DynamicThreshold.MayGrowIff | tests/qos/files/brcm/qos_param_generator.py:212-218 | the growth rule with fractional alpha is the integer inequality the two branches divide by (2^\|dynamic_th\| + 1) |
| DynamicThreshold.AvailableWithinShared | tests/qos/files/brcm/qos_param_generator.py:212-219 | for a non-negative shared buffer the available cells lie in [0, shared], and are strictly below shared when shared is positive |
| DynamicThreshold.AvailableMonotoneInAlpha | tests/qos/files/brcm/qos_param_generator.py:196-218 | a larger dynamic_th (a larger alpha in the register table) never yields fewer available cells |
| DynamicThreshold.AvailableMonotoneInShared | tests/qos/files/brcm/qos_param_generator.py:212-218 | a larger shared buffer never yields fewer available cells |
| DynamicThreshold.AlphaOneEighthExample | tests/qos/files/brcm/qos_param_generator.py:214-216 | dynamic_th -3 (alpha 1/8) on 100000 shared cells grants 11111 cells |
| Text.ParseInt | ansible/roles/test/files/ptftests/remote.py:63 | int() succeeds exactly on an optional '+' or '-' followed by at least one digit. Its value is the digits' decimal value, negated after '-' |
| Text.ParseIntExamples | ansible/roles/test/files/ptftests/remote.py:63 | int() reads "+5" as 5, "-05" as -5 and "007" as 7, and refuses "x5", "-" and the empty string |
| Text.ParseIntOfIntToString | tests/qos/files/brcm/qos_param_generator.py:113-126 | int() reads back every number str() formats, negative ones included |
| Text.JoinSplit | ansible/roles/test/files/ptftests/remote.py:20 | joining the pieces of a split with the separator gives back the string |
| Text.SplitJoin | ansible/roles/test/files/ptftests/remote.py:20 | splitting a join of separator-free pieces gives back the pieces |
| Text.DropLeading | ansible/roles/test/files/ptftests/remote.py:56 | lstrip with a character set removes exactly the longest prefix made of those characters: the result is a suffix, everything before it is in the set, its first character is not |
| Text.Strip | ansible/roles/test/files/ptftests/remote.py:25 | the result occurs in the input at some index, everything before that index and after the result is whitespace, and the result neither starts nor ends with whitespace |
| Text.StripTrimmed | ansible/roles/test/files/ptftests/remote.py:25 | strip leaves a string without surrounding whitespace unchanged |
| Text.LeadingDigits | tests/qos/files/brcm/qos_param_generator.py:117 | the longest all-digit prefix: what follows it, if anything, is not a digit |
| BufferAccounting.ExtractProfileName | tests/qos/files/brcm/qos_param_generator.py:186-187 | the result is None exactly for a missing or empty profile reference. Any name it returns contains no '\|' |
| BufferAccounting.ExtractPlainName | tests/qos/files/brcm/qos_param_generator.py:180-187 | the plain form "egress_lossless_profile" is returned unchanged |
| BufferAccounting.ExtractQualifiedName | tests/qos/files/brcm/qos_param_generator.py:186-187 | for "<table>\|<name>" the name is the last '\|'-piece, with one trailing ']' removed |
| BufferAccounting.ExtractBracketedName | tests/qos/files/brcm/qos_param_generator.py:175-187 | the bracketed form "[BUFFER_PROFILE\|<name>]" yields exactly <name> |
| BufferAccounting.ParseBindingKey | tests/qos/files/brcm/qos_param_generator.py:262-283 | any key the patterns accept starts with "Ethernet" and a digit and is at least 11 characters long. A range key's bounds are single digits. RangeKeySound and SingleKeySound give the exact shapes |
| BufferAccounting.RangeKeyParses | tests/qos/files/brcm/qos_param_generator.py:262-264 | "Ethernet<port>\|<lo>-<hi>…" is a range binding of lo..hi |
| BufferAccounting.SingleKeyParses | tests/qos/files/brcm/qos_param_generator.py:268-270 | "Ethernet<port>\|<d>" not followed by "-<digit>" is a single-index binding |
| BufferAccounting.RangeKeySound | tests/qos/files/brcm/qos_param_generator.py:262-264 | a key that parses as the range lo..hi is "Ethernet<port>\|<lo>-<hi>" followed by anything, with a non-empty digit port |
| BufferAccounting.SingleKeySound | tests/qos/files/brcm/qos_param_generator.py:268-270 | a key that parses as a single index is "Ethernet<port>\|<d>" followed by anything that does not start with "-<digit>" |
| BufferAccounting.MultiDigitRangeIsSingle | tests/qos/files/brcm/qos_param_generator.py:262-270 | "Ethernet0\|10-12" does not match the one-digit range pattern and is treated as a single index |
| BufferAccounting.PgLosslessNameExamples | tests/qos/files/brcm/qos_param_generator.py:253-255 | "pg_lossless_100000_5m_profile" is picked as a lossless PG profile. "pg_lossless_profile" is not |
| BufferAccounting.BindingCellsPolicy | tests/qos/files/brcm/qos_param_generator.py:260-287 | a binding fails exactly when its key is a range and its profile is not in the table, and the error names that profile. An unknown profile on a single key deducts nothing, and so does a key that matches neither pattern |
| BufferAccounting.BindingCells | tests/qos/files/brcm/qos_param_generator.py:260-287 | one binding fails only when its key is a range, and then with the error naming its profile. A key of neither pattern deducts nothing |
| BufferAccounting.KnownBindingCells | tests/qos/files/brcm/qos_param_generator.py:260-272 | a known profile deducts its size in cells times (hi - lo + 1) for a range key, or once for a single key |
| BufferAccounting.BindingResults | tests/qos/files/brcm/qos_param_generator.py:260-287 | one result per binding |
| BufferAccounting.DeductionsConcat | tests/qos/files/brcm/qos_param_generator.py:260-287 | the deduction of a concatenation of binding tables combines the deductions of the parts |
| BufferAccounting.DeductionsOrderFree | tests/qos/files/brcm/qos_param_generator.py:253-287 | the result of the accounting does not depend on the dictionary iteration order of the two halves of a table |
| BufferAccounting.DeductionsPermutation | tests/qos/files/brcm/qos_param_generator.py:253-287 | two binding tables holding the same bindings in any order give the same success and the same number of cells |
| BufferAccounting.DeductionsFailure | tests/qos/files/brcm/qos_param_generator.py:265-280 | the accounting fails exactly when some binding fails, and then with the error of the first failing binding |
| BufferAccounting.TotalFailure | tests/qos/files/brcm/qos_param_generator.py:260-287 | the running subtraction fails exactly when a step fails, with the first failing step's error |
| BufferAccounting.EgressProfiles | tests/qos/files/brcm/qos_param_generator.py:249-251 | succeeds exactly when both egress profiles are configured, and then holds exactly those two, unchanged |
| BufferAccounting.PgLosslessProfiles | tests/qos/files/brcm/qos_param_generator.py:252-255 | holds exactly the configured profiles whose name matches pg_lossless_(.*)_profile anywhere, unchanged |
| BufferAccounting.SharedBufferCells | tests/qos/files/brcm/qos_param_generator.py:230-257 | a configuration without ingress_lossless_pool is a KeyError |
| BufferAccounting.MultiXpeShare | tests/qos/files/brcm/qos_param_generator.py:236-240 | on th/th2/th3 each XPE's share is the floor of the pool's cells over the XPE count |
| BufferAccounting.SubtractBindings | tests/qos/files/brcm/qos_param_generator.py:260-287 | the loops over BUFFER_QUEUE and BUFFER_PG end with the start value minus the total deduction, or with the error of the first failing binding |
| BufferAccounting.ComputeSharedBufferCells | tests/qos/files/brcm/qos_param_generator.py:230-287 | the imperative computation equals the shared-buffer specification |
| BufferAccounting.ExampleAccounting | tests/qos/files/brcm/qos_param_generator.py:241-287 | worked td example: 8 MiB pool, 1 MiB xoff, a 2048-byte egress profile on 4 queues and a 1024-byte PG on one PG leave 35243 cells |
| BufferAccounting.MultiXpeExample | tests/qos/files/brcm/qos_param_generator.py:236-240 | a 16 MiB pool on th2 (4 XPEs, 208-byte cells) gives 20165 cells per XPE |
| BufferAccounting.SubtractiveAccountingAsWrittenFails | tests/qos/files/brcm/qos_param_generator.py:253-254 | as written, the td2/td3 accounting never produces a number, while the corrected accounting yields 35243 cells on the worked example |
| BufferAccounting.SharedBufferCellsAsWritten | tests/qos/files/brcm/qos_param_generator.py:253-254 | whenever the as-written accounting gives a number it is the corrected one. On th/th2/th3 both agree. On td2/td3 with the egress profiles present and any BUFFER_PROFILE entry it fails with NameError |
| ProfileDefaults.ParseTargetKey | tests/qos/files/brcm/qos_param_generator.py:112-114 | parsing succeeds exactly when the key has a '_', int() accepts the text before the first '_', and int() accepts the second piece without its last character. The pair is those two numbers. Any other key is a BadScenarioKey error |
| ProfileDefaults.ParseScenarioKey | tests/qos/files/brcm/qos_param_generator.py:117-120 | the numbers matched by (\d+)_(\d+)m are never negative |
| ProfileDefaults.ParseScenarioKeyComplete | tests/qos/files/brcm/qos_param_generator.py:117-120 | every key "<digits>_<digits>m" followed by anything matches, with the two digit runs' values |
| ProfileDefaults.ParseScenarioKeySound | tests/qos/files/brcm/qos_param_generator.py:117-120 | every key that matches is "<digits>_<digits>m" followed by anything, and the match is the two digit runs' values |
| ProfileDefaults.ParseFormattedScenarioKey | tests/qos/files/brcm/qos_param_generator.py:117-126 | a key formatted as '{}_{}m' from a pair is matched back as that pair |
| ProfileDefaults.ParseFormattedTargetKey | tests/qos/files/brcm/qos_param_generator.py:112-126 | the target parse reads a formatted key back as its pair |
| ProfileDefaults.CompareIsLexicographic | tests/qos/files/brcm/qos_param_generator.py:98-110 | the comparator is the lexicographic order on (speed, length): -1, 1 or 0 exactly when before, after or equal, and it is total |
| ProfileDefaults.ReferenceUnique | tests/qos/files/brcm/qos_param_generator.py:122-124 | at most one scenario is the reference (the least one at or after the target, else the greatest) |
| ProfileDefaults.ReferenceExists | tests/qos/files/brcm/qos_param_generator.py:121-124 | whenever another scenario exists, a reference exists |
| ProfileDefaults.SortedNeighbourIsReference | tests/qos/files/brcm/qos_param_generator.py:115-124 | in any sorted permutation of the target and the others, the element after the target's first occurrence is the reference. When the target is last, the element before it is |
| ProfileDefaults.ScenarioTuples | tests/qos/files/brcm/qos_param_generator.py:116-120 | exactly the pairs parsed from the keys that match the scenario pattern |
| ProfileDefaults.FindReference | tests/qos/files/brcm/qos_param_generator.py:115-124 | the loop fails with the assertion error exactly when no key parses as a scenario. Otherwise it returns the reference of the target among the parsed pairs |
| ProfileDefaults.ReferenceIsParsed | tests/qos/files/brcm/qos_param_generator.py:116-126 | the reference is a non-negative pair parsed from an existing key |
| ProfileDefaults.ScenarioAt | tests/qos/files/brcm/qos_param_generator.py:153 | qos_params[scl] is usable exactly when it exists and is a scenario, and then gives its profiles |
| ProfileDefaults.DefaultScenarioClonesReference | tests/qos/files/brcm/qos_param_generator.py:112-127 | a created scenario equals the reference scenario's entry, adds exactly the key scl, and leaves every other key alone |
| ProfileDefaults.DefaultScenario | tests/qos/files/brcm/qos_param_generator.py:112-127 | an unparsable target key is a BadScenarioKey error, and no parsable neighbour is the assertion error. A created table adds exactly the key scl and keeps every other entry |
| ProfileDefaults.DefaultScenarioAsWritten | tests/qos/files/brcm/qos_param_generator.py:112-127 | as written, creation never succeeds, and with any key in qos_params it fails with NameError at the regular expression |
| ProfileDefaults.DefaultScenarioSucceeds | tests/qos/files/brcm/qos_param_generator.py:112-127 | creation succeeds whenever the key parses, another scenario exists and the reference's formatted key is present |
| ProfileDefaults.DefaultScenarioAsWrittenNeverSucceeds | tests/qos/files/brcm/qos_param_generator.py:117-121 | as written, creating a missing scenario always fails: with NameError when qos_params has keys, and with the assertion error otherwise |
| ProfileDefaults.CloneMissingProfile | tests/qos/files/brcm/qos_param_generator.py:131-154 | a profile already in the scenario is left alone. A missing one is copied from the top-level record of that name. A missing top-level record is a KeyError |
| ProfileDefaults.CloneHeadroomPool | tests/qos/files/brcm/qos_param_generator.py:136-141 | without a top-level hdrm_pool_size nothing changes |
| ProfileDefaults.CloneProfile | tests/qos/files/brcm/qos_param_generator.py:131-145 | the scenario's entry for the name becomes the top-level record. Keys and all other entries are unchanged. A missing source or scenario is the matching KeyError |
| ProfileDefaults.RaiseMargin | tests/qos/files/brcm/qos_param_generator.py:161-164 | the margin ends at least 4. It is set to exactly 4 when absent or lower, a margin of 4 or more is kept, and no other field changes |
| ProfileDefaults.FloorMargin | tests/qos/files/brcm/qos_param_generator.py:161-164 | succeeds exactly when the scenario has the profile, and then raises only that profile's margin |
| ProfileDefaults.CloneMissingProfilesSpec | tests/qos/files/brcm/qos_param_generator.py:152-154 | only the scenario changes. Existing profiles are kept, the profile set grows by exactly the names, and each missing one is the top-level record |
| ProfileDefaults.CloneHeadroomPoolSpec | tests/qos/files/brcm/qos_param_generator.py:156-158 | only the scenario changes. Existing profiles are kept, hdrm_pool_size is added exactly when defined at top level, and then copied from there |
| ProfileDefaults.FloorMarginsSpec | tests/qos/files/brcm/qos_param_generator.py:161-165 | succeeds exactly when every named profile exists. Then the named profiles have their margins raised and the others are unchanged |
| ProfileDefaults.RaiseMarginIdempotent | tests/qos/files/brcm/qos_param_generator.py:161-164 | raising a margin twice equals raising it once |
| ProfileDefaults.CompleteScenarioSpec | tests/qos/files/brcm/qos_param_generator.py:152-165 | after completing an existing scenario every threshold profile exists with margin >= 4, and hdrm_pool_size is there when defined at top level. Old profiles are kept, with raised margins on the threshold profiles. Cloned xon profiles are the top-level records with raised margins |
| ProfileDefaults.CompleteScenarioMargins | tests/qos/files/brcm/qos_param_generator.py:152-165 | only the scenario changes. Every xoff/xon profile is present with margin >= 4, and the headroom pool is there when defined at top level |
| ProfileDefaults.CompleteScenarioKeeps | tests/qos/files/brcm/qos_param_generator.py:152-165 | old profiles survive (threshold profiles with raised margins). Cloned xon profiles are the raised top-level records |
| ProfileDefaults.PrepareDefaultsSpec | tests/qos/files/brcm/qos_param_generator.py:148-165 | prepare adds at most the key scl and changes no other key. Afterwards scl is a scenario whose xoff_1, xoff_2, xon_1 and xon_2 have margin >= 4 |
| ProfileDefaults.PrepareDefaultsKeepsMargins | tests/qos/files/brcm/qos_param_generator.py:161-164 | a profile whose margin is already at least 4 comes out unchanged |
| ProfileDefaults.CompleteScenarioIdempotent | tests/qos/files/brcm/qos_param_generator.py:152-165 | completing a completed scenario changes nothing |
| ProfileDefaults.CloneMissingNoop | tests/qos/files/brcm/qos_param_generator.py:152-154 | when xon_1 and xon_2 exist, nothing is cloned |
| ProfileDefaults.FloorMarginsNoop | tests/qos/files/brcm/qos_param_generator.py:161-164 | when every threshold profile already has margin >= 4, the margin step changes nothing |
| ProfileDefaults.PrepareDefaultsIdempotent | tests/qos/files/brcm/qos_param_generator.py:148-165 | preparing prepared parameters changes nothing |
| ThresholdAssembly.AvailableFor | tests/qos/files/brcm/qos_param_generator.py:189-222 | a static pool is the assertion error, and a missing dynamic_th is a KeyError. Otherwise the result is the largest usage the profile's alpha admits |
| ThresholdAssembly.ComputeThresholds | tests/qos/files/brcm/qos_param_generator.py:224-314 | success exactly when size, dynamic_th, xoff and xon_offset are in the profile, the ingress lossless pool exists and is dynamic, and the shared buffer is computed. The errors come in source order: missing size, missing pool, the shared-buffer error, static mode, then missing dynamic_th, xoff and xon_offset. On success, headroom and reset offset are the cell counts of xoff and xon_offset. PG min is half the reset offset on td2 and the size in cells elsewhere. Available is the dynamic-threshold maximum of shared_limit_sp0 when that is configured and differs, else of the computed shared buffer |
| ThresholdAssembly.ComputeThresholdsAsWritten | tests/qos/files/brcm/qos_param_generator.py:236-257 | as written, only th/th2/th3 can reach a result |
| ThresholdAssembly.UpdateField | tests/qos/files/brcm/qos_param_generator.py:318-335 | an indexed read of a missing field is a KeyError. Otherwise only that field changes, to the new value, and an equal value leaves the record as it was |
| ThresholdAssembly.SetField | tests/qos/files/brcm/qos_param_generator.py:342-359 | update() adds or replaces exactly that field; an equal value leaves the record as it was |
| ThresholdAssembly.AssembleXoff | tests/qos/files/brcm/qos_param_generator.py:317-325 | fails exactly when pkts_num_trig_pfc or pkts_num_trig_ingr_drp is missing. Otherwise trig_pfc = PG min + available and trig_ingr_drp = trig_pfc + headroom, with no other field changed |
| ThresholdAssembly.AssembleXon | tests/qos/files/brcm/qos_param_generator.py:327-335 | fails exactly when pkts_num_trig_pfc or pkts_num_dismiss_pfc is missing. Otherwise trig_pfc = PG min + available and dismiss_pfc = reset offset, with no other field changed |
| ThresholdAssembly.HeadroomMarginOf | tests/qos/files/brcm/qos_param_generator.py:350-355 | the headroom margin used is at least 4, and is the record's own margin when that is 4 or more |
| ThresholdAssembly.FloorHeadroomMargin | tests/qos/files/brcm/qos_param_generator.py:350-355 | the record gets that margin, keeps a margin of 4 or more, and changes no other field |
| ThresholdAssembly.HdrmFields | tests/qos/files/brcm/qos_param_generator.py:341-359 | the four headroom fields are set: trig_pfc = PG min + available, hdrm_full = headroom, margin >= 4 (kept when already so), hdrm_partial = headroom - margin. All other fields are kept |
| ThresholdAssembly.AssembleHdrm | tests/qos/files/brcm/qos_param_generator.py:337-363 | as HdrmFields. dynamic_threshold is set to true for a dynamic pool, and otherwise left as it was. The key set grows by exactly those fields |
| ThresholdAssembly.AssembleXoffIdempotent | tests/qos/files/brcm/qos_param_generator.py:317-325 | rewriting an updated xoff profile changes nothing |
| ThresholdAssembly.AssembleXonIdempotent | tests/qos/files/brcm/qos_param_generator.py:327-335 | rewriting an updated xon profile changes nothing |
| ThresholdAssembly.AssembleHdrmIdempotent | tests/qos/files/brcm/qos_param_generator.py:337-363 | rewriting an updated headroom pool profile changes nothing |
| ThresholdAssembly.AssembleHdrmFixed | tests/qos/files/brcm/qos_param_generator.py:341-363 | a headroom profile that already satisfies every update condition is left unchanged |
| ThresholdAssembly.AssembleProfileIdempotent | tests/qos/files/brcm/qos_param_generator.py:317-335 | rewriting an updated xoff or xon profile changes nothing |
| ThresholdAssembly.AssembleProfilesSucceeds | tests/qos/files/brcm/qos_param_generator.py:317-335 | a pass over named profiles succeeds exactly when each name exists and its record has the fields the pass reads |
| ThresholdAssembly.AssembleProfilesSpec | tests/qos/files/brcm/qos_param_generator.py:317-335 | a successful pass keeps the key set, rewrites each named profile, and leaves every other profile unchanged |
| ThresholdAssembly.AssembleProfilesPrefixFails | tests/qos/files/brcm/qos_param_generator.py:317-335 | once a pass has failed on a prefix of the names, the rest of the names do not change the outcome |
| ThresholdAssembly.AssembleProfileSetSucceeds | tests/qos/files/brcm/qos_param_generator.py:316-363 | the whole write-back succeeds exactly when xoff_1, xoff_2, xon_1 and xon_2 exist with the fields they read |
| ThresholdAssembly.AssembleProfileSetSteps | tests/qos/files/brcm/qos_param_generator.py:316-363 | the write-back is the xoff pass, then the xon pass on its result, then the headroom pool. Each pass changes only its own profiles |
| ThresholdAssembly.AssembleProfileSetXoff | tests/qos/files/brcm/qos_param_generator.py:317-325 | after the write-back, each xoff profile is the xoff update of its original record |
| ThresholdAssembly.AssembleProfileSetXon | tests/qos/files/brcm/qos_param_generator.py:327-335 | after the write-back, each xon profile is the xon update of its original record |
| ThresholdAssembly.AssembleProfileSetRest | tests/qos/files/brcm/qos_param_generator.py:337-363 | hdrm_pool_size, when present, is the headroom update of its record. Every other profile is unchanged |
| ThresholdAssembly.AssembleProfileSetSpec | tests/qos/files/brcm/qos_param_generator.py:316-363 | the write-back result is the assembled form of the input profiles |
| ThresholdAssembly.AssembleScenarioSucceeds | tests/qos/files/brcm/qos_param_generator.py:316-363 | the write-back on qos_params succeeds exactly when scl is a scenario whose profiles can be assembled |
| ThresholdAssembly.AssembleScenarioSpec | tests/qos/files/brcm/qos_param_generator.py:316-363 | only qos_params[scl] changes, and its profiles become the assembled form of the old ones |
| ThresholdAssembly.AssembledFixed | tests/qos/files/brcm/qos_param_generator.py:316-363 | an assembled profile set is its own assembled form |
| ThresholdAssembly.AssembledUnique | tests/qos/files/brcm/qos_param_generator.py:316-363 | the assembled form of a profile set is unique |
| ThresholdAssembly.AssembleScenarioIdempotent | tests/qos/files/brcm/qos_param_generator.py:316-363 | writing the same thresholds a second time changes nothing |
| ThresholdAssembly.CalculateIdempotent | tests/qos/files/brcm/qos_param_generator.py:168-363 | calculate_parameters run on its own output with the same configuration changes nothing |
| ThresholdAssembly.Calculate | tests/qos/files/brcm/qos_param_generator.py:168-363 | a threshold error is returned as is. Once the thresholds are computed, it succeeds exactly when scl is a scenario whose profiles the write-back can assemble, and a missing scl is its KeyError. A success writes the thresholds back into the scenario's profiles as Assembled says and changes no other entry of qos_params |
| ThresholdAssembly.AssembleProfilesKeyError | tests/qos/files/brcm/qos_param_generator.py:316-335 | a failing xoff or xon pass raises KeyError: a named sub-profile or one of its fields is missing |
| ThresholdAssembly.AssembleScenarioKeyError | tests/qos/files/brcm/qos_param_generator.py:316-335 | the write-back fails with KeyError for a missing scenario, with WrongShape for an entry that is not a scenario, and otherwise with a KeyError |
| QosParamGenerator.QosParamBroadcom.constructor | tests/qos/files/brcm/qos_param_generator.py:14-86 | the object holds the given qos_params and configuration, and the ASIC parameters of its known family |
| QosParamGenerator.QosParamBroadcom.Create | tests/qos/files/brcm/qos_param_generator.py:48-72 | construction fails exactly for an ASIC type outside td2, td3, th, th2 and th3, with the KeyError of line 71. Otherwise the new object stores the given inputs |
| QosParamGenerator.QosParamBroadcom.CreateDefaultSpeedCableLengthParameter | tests/qos/files/brcm/qos_param_generator.py:96-128 | qos_params becomes the cloned-scenario table, or the error is returned and qos_params is untouched |
| QosParamGenerator.QosParamBroadcom.CreateDefaultXonParameter | tests/qos/files/brcm/qos_param_generator.py:131-133 | the scenario's xon profile becomes the top-level record, or the KeyError is returned with qos_params untouched |
| QosParamGenerator.QosParamBroadcom.CreateDefaultHeadroomPoolSizeParameter | tests/qos/files/brcm/qos_param_generator.py:136-141 | without a top-level headroom record nothing changes and nothing fails. Otherwise the record is cloned into the scenario |
| QosParamGenerator.QosParamBroadcom.CreateDefaultPgSharedWatermarkParameter | tests/qos/files/brcm/qos_param_generator.py:143-145 | the scenario's PG watermark profile becomes the top-level record, or the KeyError is returned with qos_params untouched |
| QosParamGenerator.QosParamBroadcom.CloneTopLevelProfile | tests/qos/files/brcm/qos_param_generator.py:131-145 | the assignment shared by the three cloning methods updates qos_params as CloneProfile specifies |
| QosParamGenerator.QosParamBroadcom.CloneMissingXonProfiles | tests/qos/files/brcm/qos_param_generator.py:152-154 | the xon loop updates qos_params as CloneMissingProfiles specifies, and on success leaves scl a scenario |
| QosParamGenerator.QosParamBroadcom.FloorThresholdMargins | tests/qos/files/brcm/qos_param_generator.py:161-165 | the margin loop updates qos_params as FloorMargins specifies |
| QosParamGenerator.QosParamBroadcom.PrepareDefaultParameters | tests/qos/files/brcm/qos_param_generator.py:148-165 | qos_params ends as PrepareDefaults specifies (see PrepareDefaultsSpec), or the first error is returned |
| QosParamGenerator.QosParamBroadcom.ComputeThresholdValues | tests/qos/files/brcm/qos_param_generator.py:224-314 | the cell counts equal ComputeThresholds (see its contract) |
| QosParamGenerator.QosParamBroadcom.WriteThresholdProfiles | tests/qos/files/brcm/qos_param_generator.py:317-335 | one loop over xoff or xon profiles rewrites the scenario's profiles as AssembleProfiles specifies |
| QosParamGenerator.QosParamBroadcom.WriteHeadroomPool | tests/qos/files/brcm/qos_param_generator.py:337-363 | the headroom loop rewrites hdrm_pool_size when present, as AssembleHdrm specifies |
| QosParamGenerator.QosParamBroadcom.WriteProfilePasses | tests/qos/files/brcm/qos_param_generator.py:317-335 | the xoff loop then the xon loop, as AssembleProfilePasses specifies |
| QosParamGenerator.QosParamBroadcom.WriteProfileSet | tests/qos/files/brcm/qos_param_generator.py:316-363 | the three loops rewrite the scenario as AssembleProfileSet specifies |
| QosParamGenerator.QosParamBroadcom.WriteThresholds | tests/qos/files/brcm/qos_param_generator.py:316-363 | the write-back on qos_params is AssembleScenario (see AssembleScenarioSpec) |
| QosParamGenerator.QosParamBroadcom.CalculateParameters | tests/qos/files/brcm/qos_param_generator.py:168-363 | qos_params ends as Calculate specifies, or the first error is returned |
| QosParamGenerator.QosParamBroadcom.Run | tests/qos/files/brcm/qos_param_generator.py:89-93 | run() returns prepare-then-calculate of the original qos_params, and the object's qos_params is that result |
| PtfRemote.GetIfaces | ansible/roles/test/files/ptftests/remote.py:15-34 | the returned list is, in /proc/net/dev order, the interface of every line that yields one |
| PtfRemote.IfaceOfLineSound | ansible/roles/test/files/ptftests/remote.py:20-31 | a line without ':' yields nothing. A returned name has no ':' and no surrounding whitespace, and contains "eth" or is "backplane" |
| PtfRemote.IfaceOfLine | ansible/roles/test/files/ptftests/remote.py:20-31 | a line without ':' yields nothing, and a yielded name contains "eth" or is "backplane". IfaceOfLineComplete gives the converse |
| PtfRemote.IfaceOfLineComplete | ansible/roles/test/files/ptftests/remote.py:20-31 | a line whose text before the first ':' strips to a name containing "eth", or to "backplane", yields that name. Any other line with ':' yields nothing |
| PtfRemote.GetIfacesMembers | ansible/roles/test/files/ptftests/remote.py:19-31 | a name is in the list exactly when some line yields it |
| PtfRemote.KeptLinesAppend | ansible/roles/test/files/ptftests/remote.py:19-31 | filtering a concatenation of lines concatenates the filtered parts, so the order is kept |
| PtfRemote.LoopbackLineExample | ansible/roles/test/files/ptftests/remote.py:27-29 | the loopback line "lo: 5" is skipped |
| PtfRemote.EthLineExample | ansible/roles/test/files/ptftests/remote.py:25-31 | the line "eth0: 5" yields "eth0" |
| PtfRemote.ClassifyBackplane | ansible/roles/test/files/ptftests/remote.py:60-61 | exactly the name "backplane" is the backplane |
| PtfRemote.Classify | ansible/roles/test/files/ptftests/remote.py:56-65 | only the name "backplane" is the backplane. A sub-interface name contains '.'. A plain port name contains no '.' and is not "backplane". ClassifyPlain and ClassifySub give the index |
| PtfRemote.ClassifyPlain | ansible/roles/test/files/ptftests/remote.py:56-65 | a name without '.' other than "backplane" is the plain port int() reads after lstrip('eth'). When int() refuses that rest, it is the ValueError |
| PtfRemote.ClassifySub | ansible/roles/test/files/ptftests/remote.py:56-59 | a name with '.' is a sub-interface of the port int() reads between lstrip('eth') and the first '.'. When int() refuses that text, it is the ValueError |
| PtfRemote.ClassifyLeadingZero | ansible/roles/test/files/ptftests/remote.py:62-63 | "eth01" is plain port 1 |
| PtfRemote.ClassifyOtherLetters | ansible/roles/test/files/ptftests/remote.py:62-63 | "te5" is plain port 5: lstrip removes any run of 'e', 't' and 'h' |
| PtfRemote.ClassifyAnySubSuffix | ansible/roles/test/files/ptftests/remote.py:57-59 | "eth1.x" is a sub-interface of port 1: nothing after the first '.' is read |
| PtfRemote.ClassifyRefused | ansible/roles/test/files/ptftests/remote.py:62-63 | "ethx" is the ValueError of int() |
| PtfRemote.ClassifyEthName | ansible/roles/test/files/ptftests/remote.py:56-65 | "eth<n>" is plain port n |
| PtfRemote.ClassifySubName | ansible/roles/test/files/ptftests/remote.py:56-59 | "eth<n>.<m>" is a sub-interface of port n |
| PtfRemote.LeastFree | ansible/roles/test/files/ptftests/remote.py:67-69 | the backplane's index is the least positive integer not taken by a plain port |
| PtfRemote.FreeFrom | ansible/roles/test/files/ptftests/remote.py:67-69 | counting up from a point below which every index is taken stops at the first free index |
| PtfRemote.CollectFailure | ansible/roles/test/files/ptftests/remote.py:55-65 | a failed loop reports the ValueError of the first name whose index int() refuses |
| PtfRemote.CollectSuccess | ansible/roles/test/files/ptftests/remote.py:55-65 | the loop succeeds exactly when every name's index parses |
| PtfRemote.CollectPlain | ansible/roles/test/files/ptftests/remote.py:55-65 | plain entries are keyed exactly (0, n) for the used indices, and each maps to one of the given names that is plain port n. An index is used exactly when some name is that plain port. The backplane flag is set exactly when the name "backplane" occurs |
| PtfRemote.PlainLastWins | ansible/roles/test/files/ptftests/remote.py:62-64 | when several names give the same plain index, the last one is mapped |
| PtfRemote.SubLastWins | ansible/roles/test/files/ptftests/remote.py:73-76 | in sub-interface mode the last sub-interface of port n replaces entry (0, n) |
| PtfRemote.SubUntouched | ansible/roles/test/files/ptftests/remote.py:73-76 | entries of ports without sub-interfaces are neither added nor changed by the override |
| PtfRemote.OrigInterfaceMap | ansible/roles/test/files/ptftests/remote.py:51-79 | original mode: the keys are exactly (0, n) for plain indices, plus (0, least free index) when the backplane exists and is needed, which then maps to "backplane". Every value is a name of its own index or the backplane |
| PtfRemote.SubInterfaceMap | ansible/roles/test/files/ptftests/remote.py:73-77 | sub-interface mode is the original map with each port's last sub-interface overriding it; nothing else differs |
| PtfRemote.IfacesMapErrors | ansible/roles/test/files/ptftests/remote.py:55-82 | an unparsable index is reported in every mode. Otherwise the map fails exactly for an unsupported mode, with the ValueError naming it |
| PtfRemote.CollectPorts | ansible/roles/test/files/ptftests/remote.py:51-65 | the loop's result equals the Collect fold |
| PtfRemote.FirstFreeIndex | ansible/roles/test/files/ptftests/remote.py:67-69 | the while loop computes LeastFree |
| PtfRemote.OverrideSubInterfaces | ansible/roles/test/files/ptftests/remote.py:75-76 | the override loop computes Override |
| PtfRemote.MappingMode | ansible/roles/test/files/ptftests/remote.py:39-45 | the mode is "use_orig_interface" when constants.yaml is absent or does not name PTF_PORT_MAPPING_MODE, and otherwise the named value. A document that is not a mapping, such as an empty file, fails with the AttributeError of line 44 |
| PtfRemote.BuildIfacesMap | ansible/roles/test/files/ptftests/remote.py:37-82 | a constants document that is not a mapping is the AttributeError, raised before any interface is read. Otherwise the method returns IfacesMap for the configured mode and need_backplane (see OrigInterfaceMap and SubInterfaceMap) |
| PtfRemote.IfacesMap | ansible/roles/test/files/ptftests/remote.py:37-82 | a map is built only in the two supported modes. An unparsable index is the error of the whole call, and otherwise an unsupported mode is the ValueError naming it |

## Left out

- Logging (every `logger.info` call and the verbose dump in `__init__`) is left out: it has no effect on the result.
- The constructor takes only the inputs the computation reads. Seven inputs are stored by the source (lines 70-85) but never read: dutConfig, the three buffer profiles other than the ingress lossless one (ingressLossyProfile, egressLosslessProfile, egressLossyProfile), dualTor, dutTopo and testbedTopologyName. sharedHeadroomPoolSize is only logged (line 41), never stored.
- The constructor requires a known ASIC type. The source raises KeyError at line 71 for any other; `QosParamBroadcom.Create` returns that error and `Asic.LookupAsic` models the lookup.
- `BufferConfig` does not model a missing table. All four tables of the buffer configuration are always present in the model; an absent table is an empty one. The source indexes `BUFFER_POOL` (line 230), `BUFFER_PROFILE` (lines 250-253), `BUFFER_QUEUE` (line 260) and `BUFFER_PG` (line 274) directly, so a missing table raises KeyError. For BUFFER_POOL and BUFFER_PROFILE the model still fails with a KeyError, but it names the missing pool or egress profile instead of the table. For BUFFER_QUEUE and BUFFER_PG the model deducts nothing and returns a cell count where the program raises.
- `Text.IsSpace` is ASCII only: space, tab, line feed, vertical tab, form feed, carriage return and the four separator controls 28-31. Python's `str.strip()` (remote.py line 25) also removes the other Unicode whitespace characters, such as U+00A0 and U+2028, and the model keeps them.
- Three KeyError paths of the source are not modelled. A BUFFER_QUEUE or BUFFER_PG entry without a "profile" field raises KeyError at lines 261 and 275, while `Binding.profile` is an `Option` whose None is treated as an unknown profile. A pool without "mode" or "size" (lines 191, 240, 257) or a BUFFER_PROFILE entry without "size" (lines 265, 271, 280, 286) raises KeyError, while `Pool` and `BufferProfile` are records that always carry those fields. The clone steps (lines 127, 132, 138, 144, 153) fail with WrongShape when the entry is not a scenario or a profile, where Python would assign or test whatever dict it finds.
- Aliasing is not modelled. The source assigns references: the cloned scenario (line 127) and each cloned profile (lines 132, 138, 144) share the same dict with their source. Later margin and threshold updates therefore also change the scenario they were cloned from, and the top-level xon/hdrm records. The model copies values, and its lemmas state that every other key of qos_params is unchanged. Copy semantics are chosen deliberately; they do not describe the Python aliasing.
- Partial writes before an exception are not modelled. A Python method that raises midway leaves its earlier writes in qos_params. The model's methods either commit the whole specified result or, for the creation steps, leave qos_params unchanged. The multi-step methods (`CloneMissingXonProfiles`, `FloorThresholdMargins`, `PrepareDefaultParameters`, `WriteThresholds`, `CalculateParameters`, `Run`) state only the error on failure, not the state.
- The sort with `cmp=` at line 122 (Python 2 only) is modelled by its outcome, the neighbour of the target in lexicographic order. `FindReference` computes it with a running choice, and `SortedNeighbourIsReference` proves that any sorted list gives the same neighbour. Equal pairs are identical tuples, so sort stability cannot change the outcome.
- `int()` is modelled on ASCII: an optional sign then decimal digits. Surrounding whitespace, underscores and non-ASCII digits, which Python also accepts, are rejected.
- `int(bytes)` on a configuration string is taken as already converted: byte sizes and dynamic_th are `int` inputs. A non-numeric size, which would raise ValueError, is not modelled.
- Values in qos_params are numbers or booleans. Comparisons treat a boolean as 0 or 1, as Python does. Other value types are left out.
- `ByteToCell` follows the code, which accepts negative sizes (Python's `//` floors). The code defines no InvalidSize error, and the model has none.
- Only the scenario under test is read as "<speed>_<len>m". The other keys only need the regular-expression prefix match (`ParseScenarioKey`); anything may follow the 'm'.
- File I/O is modelled by parameters. `get_ifaces` takes the text of /proc/net/dev. `build_ifaces_map` takes what `yaml.safe_load` made of constants.yaml as a `ConstantsFile`: no file, a mapping, or a document that is not a mapping. The last case covers an empty file, which loads to None, and it is the AttributeError of line 44 (`ConstantsNotMapping`). It also takes need_backplane's source dictionary. YAML parsing itself, a PTF_PORT_MAPPING_MODE value that is not a string, and a need_backplane value that is not a boolean are left out.
- `platform_config_update` (remote.py lines 85-95) is outside the interface-discovery core and not modelled.
- `GetIfaces` follows the code, which does not sort despite its "Sort before return" comment: the list keeps /proc/net/dev order.

## Findings

| source | as written | input that shows it | evidently intended | confidence | as-written member | corrected member |
|---|---|---|---|---|---|---|
| tests/qos/files/brcm/qos_param_generator.py:117 | the module calls `re.match` but never imports `re`, so creating a missing scenario raises NameError | any qos_params with at least one key and a speed_cable_len it does not contain | the scenario is cloned from its neighbour in (speed, length) order | high (not executed) | ProfileDefaults.DefaultScenarioAsWrittenNeverSucceeds | ProfileDefaults.DefaultScenarioClonesReference |
| tests/qos/files/brcm/qos_param_generator.py:254 | `re.search` without importing `re`, so the td2/td3 shared-buffer accounting raises NameError | asic td2 with both egress profiles and any BUFFER_PROFILE entry, e.g. the worked example's configuration | the lossless PG profiles are selected by name and the subtraction completes (35243 cells on the worked example) | high (not executed) | BufferAccounting.SubtractiveAccountingAsWrittenFails | BufferAccounting.ExampleAccounting |
