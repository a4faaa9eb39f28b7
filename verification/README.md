# inadyn: a verified model

inadyn keeps the records of dynamic-DNS servers at the current address of the machine it
runs on. Around a long-running update loop it carries several self-contained algorithms: a
JSON tokenizer, two message digests, Base64, tail queues, URL templates. This project models
those parts in Dafny and proves what they promise, for every input, every state and every run.

Each component comes in two layers. Functions over values say what the code does. Code that
works step by step is then written again as it stands (classes with the source's fields,
methods with its loops and in-place writes) and proved to compute exactly those functions,
so that the lemmas about the functions are theorems about the code.

| files | component |
|---|---|
| `Jsmn`, `JsmnRuns`, `JsmnVerdicts`, `JsmnShape`, `JsmnStack` | the strict tokenizer, runs of it, what its return values say, the shape of its tokens, the stack machine it is |
| `JsonText`, `JsonRoundTrip` | JSON trees with their exact spelling (RFC 8259), and their tokens |
| `JsonLookup`, `JsonTreeLookup`, `JsonExamples` | finding a value through the token array, and what that means for the tree |
| `Ddns`, `DdnsSlots` | one round of the client, runs of rounds, and their effect on one alias |
| `DdnsSafety`, `DdnsErrors`, `DdnsRestarts`, `DdnsAgreement` | when updates get lost, which errors are reported, what a restart knows, when cache, record and memory agree |
| `DdnsClient`, `DdnsLoop` | the round and the main loop over the mutable tables |
| `Words`, `Blocks` | 32-bit words in wider ones, block folding, padding, the split length counter |
| `Sha1`, `Sha1Stream`, `Sha1Vector`, `Md5`, `Md5Stream`, `Md5Vectors` | the digests against FIPS 180-1 and RFC 1321, with the known digests given there |
| `Division`, `Base64`, `Strings`, `Credentials` | Base64, bounded copies, the HTTP Basic credential |
| `TailQueue`, `Registry` | the tail-queue macros in the heap, the plugin registry over them |
| `Template`, `TemplateEnds`, `UrlEncode` | the custom server URL |
| `AddressScan` | finding an address in the reply of a check-IP server |
| `Wrappers`, `CStrings`, `Letters` | optional values, NUL-terminated strings, letters and digits |

What comes from outside is a parameter: check-IP answers, server replies, clock readings,
signals, DNS answers, success of `malloc` and of opening a file, `inet_pton` with
`inet_ntop`, and `is_address_valid`. No property depends on what these answer unless its
`requires` says so.

## What turned out not to hold

The code is modelled as it is. Where a property one would expect fails, a lemma gives a
concrete failure, and another says exactly when the property holds.

- An update can be lost. `RoundSafeIff` is the exact condition for one round and one alias,
  measured against the address the client believed in when the round began to send. There are
  five ways. Three skip a due update: the COMPAT break (`CompatLosesAnUpdate`), a failing setup
  hook (`SetupLosesAnUpdate`), and a request of negative length, which fails as silently as
  the hook. Two need made-up addresses, and are in the next but one item. `NoUpdateIsLost` names
  the configurations without any of them.
- A restart takes the cached address for the one on record. `RestartAfterRunIff` says exactly
  after which runs that is right, `UnwrittenCacheLosesAnUpdate` shows one where it is wrong,
  and `NothingIsLostAcrossRestarts` covers runs that mix failures and restarts.
- A made-up address can end up on record, with no flag set, in exactly two ways
  (`FlaggedRoundSafeIff`): its update fails, which leaves it in place for the real pass to send
  (`FakeAddressGoesOut`), or its update succeeds and clears the flag, and the real one is
  then skipped (`FakeSuccessLosesTheFlag`). The fake pass of a provider restores its addresses
  exactly when none of its sends fails (`FakePassRestoresIff`).
- A failed checkip keeps the old change mark, so an acknowledged address is sent again
  (`StaleFlagSendsTwice`); `ResentIff` says that this is the only way.
- In EVENT mode a later success hides an authentication failure (`LaterSuccessHidesAnError`);
  `ReportedIff` and `ReportedCode` say which codes a round reports, in both modes.
- The tokenizer, strict as it is, accepts texts that are no JSON (`KeyWithoutValue`); which
  ones, `FillSucceedsIff` says, and `VerdictsIff` which texts can still become one of them.
- The second pass of `parse_json` can fail although the first one counted
  (`SecondPassCanFail`); `SecondPassIff` says exactly on which texts it succeeds.
- `get_result_value` also matches string values. It answers wrongly exactly under the
  conditions of `ResultIsLookup`; `ShadowedKeyIsMissed` and `FailureLooksLikeSuccess` are texts
  on which it does.
- A substituted value is read again, and so is the text left by `%%`. The template is expanded
  as documented exactly when no specifier in use stands for text with a percent sign
  (`SubstitutesIff`): not with `%%` (`EscapedSpecifierIsExpanded`), not with a password such as
  `50%off` (`PercentInPasswordIsRefused`). The expansion can go on for ever
  (`ExpansionMayNeverEnd`); `ExpansionEndsIff` says exactly when it ends, for all templates and
  values, and `EndsExactly` after how many turns and how.
- Encoding a URL twice is encoding it once exactly when the text has no space
  (`TwiceIsOnceIff`, `SpaceIsEncodedTwice`).
- The length counters of the digests are right exactly below the bounds in `CarryIff` and
  `CutCarryIff`: MD5 cuts the length of each piece to 32 bits, SHA-1 does not.
- A plugin need not be found by its own name. After any run one that is registered is found
  exactly if its name has no colon, or its old name is its name up to the colon (`RunsFindIff`;
  `ColonHides`). A registration makes it found exactly if, besides, nothing was found by that
  name before (`RegisteredIff`; `OldNamesShutOut`).

## Model

| member | source | states |
|---|---|---|
| Jsmn.FillStepAdvances | include/jsmn.h:272 | a turn that goes on moves the position forward and never past the input: the main loop terminates |
| Jsmn.LastOpen | include/jsmn.h:334-355 | the backward scan yields the innermost unclosed bracket, or that there is none |
| Jsmn.LastOpenContainer | include/jsmn.h:383-390 | the scan behind a comma yields the innermost unclosed token that is a container |
| Jsmn.StepIgnoresUsedSlots | include/jsmn.h:106-119 | a turn looks only at the number of slots and the stale types in the unused ones |
| Jsmn.Parser.Init | include/jsmn.h:456-460 | a fresh parser: position 0, no tokens, no super token |
| Jsmn.Parser.AllocToken | include/jsmn.h:106-119 | the next unused slot with reset bounds and size, its stale type kept; nothing when the array is full |
| Jsmn.Parser.ParsePrimitive | include/jsmn.h:135-185 | accepts up to the first delimiter, refuses other bytes, and on any failure restores the position |
| Jsmn.Parser.SkipHex | include/jsmn.h:236-250 | at most four hexadecimal digits, fewer only where the input ends |
| Jsmn.Parser.ParseString | include/jsmn.h:190-260 | accepts up to the closing quote over well-formed escapes; on any failure restores the position |
| Jsmn.Parser.OpenBracket | include/jsmn.h:278-304 | allocates, checks that an object is not the super token, counts the child and makes the bracket the super token |
| Jsmn.Parser.CloseBracket | include/jsmn.h:305-357 | closes the innermost open bracket if its kind fits and makes the one around it the super token |
| Jsmn.Parser.Comma | include/jsmn.h:376-393 | brings the super token back to the enclosing open container |
| Jsmn.Parser.Parse | include/jsmn.h:265-450 | both passes: the whole new record, token array and return value are those of the specified run |
| JsonRoundTrip.ScanStringWhole | include/jsmn.h:190-260 | every string body of section 7 of RFC 8259 is scanned to its closing quote |
| JsonRoundTrip.NumberIsPrimitiveText | include/jsmn.h:143-162 | every number of section 6 of RFC 8259 passes as a primitive and holds no delimiter |
| JsonRoundTrip.RunValue | include/jsmn.h:265-450 | from any state that expects a value, the run over a printed value appends exactly its flattening and counts one child |
| JsonRoundTrip.RunItems | include/jsmn.h:265-450 | the elements of an array and its closing bracket: size, end and super token are right, whatever the nesting |
| JsonRoundTrip.RunMembers | include/jsmn.h:265-450 | the pairs of an object and its closing bracket: keys own their values, the object owns its keys |
| JsonRoundTrip.TokenizingUndoesPrinting | include/jsmn.h:265-450 | for every tree with an object or array root, any whitespace and enough tokens: the node count is returned and the tokens are the preorder flattening |
| JsmnRuns.Lockstep | include/jsmn.h:265-450 | filling that succeeds returns what counting returns; with as many tokens as counted, filling returns the count, INVAL or PART, never NOMEM |
| JsmnRuns.SamePositions | include/jsmn.h:169-177 | the filling pass visits the positions of the counting pass in order, and all of them if it succeeds |
| JsmnRuns.Resumable | include/jsmn.h:158-178 | after NOMEM or PART, going on with longer input or a larger array ends like one call from the start |
| JsmnRuns.FeedingIsOneCall | include/jsmn.h:265-450 | any number of interrupted calls ends like the last call alone |
| JsmnRuns.ParseJson | src/json.c:27-56 | counts, allocates exactly that many tokens and fills them; returns the count, whatever the second pass returned |
| JsmnRuns.SecondPass | src/json.c:52-55 | the ignored second pass never runs out of tokens, and if it succeeds it fills all of them |
| JsmnRuns.SecondPassCanFail | src/json.c:52-55 | on `{{}}` counting returns 2 and filling fails, leaving a token half written |
| JsmnVerdicts.InvalidIsFinal | include/jsmn.h:265-450 | what is refused once is refused with any continuation and any larger array |
| JsmnVerdicts.Completed | include/jsmn.h:440-447 | what is not refused has a continuation that is accepted: the rest of the lexeme it was cut off in, and the closing brackets |
| JsmnVerdicts.VerdictsIff | include/jsmn.h:265-450 | with enough tokens and no NUL: INVAL if and only if no continuation is accepted; PART if and only if the text is not accepted and some continuation is |
| JsmnVerdicts.CountVerdictsIff | include/jsmn.h:265-450 | the same of the counting pass |
| JsmnVerdicts.PrefixVerdict | include/jsmn.h:440-447 | every prefix of a printed object or array: 0 for whitespace alone, PART from the opening bracket on, the node count as soon as the root is closed |
| JsmnVerdicts.NoMemIff | include/jsmn.h:106-119 | NOMEM if and only if a large enough array would be filled further, be it by the half-written token of a refused container; otherwise a larger array changes nothing |
| JsmnVerdicts.RefusedTexts | include/jsmn.h:394-438 | refused with any continuation: a primitive as a member, one behind a key without a colon, a second value, the wrong bracket |
| JsmnVerdicts.KeyWithoutValue | include/jsmn.h:358-372 | accepted although it is no JSON: a key without a value |
| JsmnVerdicts.LexicalSets | include/jsmn.h:143-163 | the character sets of the main loop and the scanners, written out |
| JsmnVerdicts.PrimitiveScanIff | include/jsmn.h:143-169 | a primitive ends at the first delimiter if and only if all characters before it are graphic |
| JsmnVerdicts.PrimitiveRefusedIff | include/jsmn.h:159-162 | and is refused if and only if some other character comes before any delimiter |
| JsmnVerdicts.StringScanIff | include/jsmn.h:190-260 | on every input a string is scanned to its quote if and only if it is one of section 7 of RFC 8259 after its control characters have become spaces |
| JsmnShape.TokensAreWellFormed | include/jsmn.h:277-357 | for any input that is accepted: every token closed and in bounds, starts strictly increase, spans nested or disjoint, only containers enclose |
| JsmnShape.BracketsBalance | include/jsmn.h:305-357 | for any input that is accepted, the brackets outside strings and primitives form a balanced word of two kinds |
| JsmnShape.SizesFromTheStart | include/jsmn.h:288-303 | for any input that is accepted, each size is the number of tokens allocated while the super token pointed at it, and parents precede children |
| JsmnShape.TurnKeepsShape | include/jsmn.h:272-438 | every single turn keeps tokens ordered, nested and delimited by the right characters |
| JsmnStack.TurnIsMove | include/jsmn.h:272-438 | every turn is one move of a machine with an explicit stack of open brackets and the role of the super token |
| JsmnStack.FillSucceedsIff | include/jsmn.h:265-450 | filling succeeds if and only if that machine accepts the text and the array holds what counting finds |
| JsmnStack.SecondPassIff | src/json.c:52-55 | the ignored second pass succeeds if and only if the machine accepts |
| JsonLookup.First | src/json.c:58-66 | the first token that is a string with exactly the wanted text |
| JsonLookup.JsonBool | src/json.c:68-76 | a primitive is true exactly if it begins with a t; other tokens leave the out value alone |
| JsonLookup.CheckSuccess | plugins/cloudflare.c:144-161 | 0 exactly if the token behind the first "success" is a true primitive |
| JsonLookup.GetResultValue | plugins/cloudflare.c:179-214 | which token is copied out, and that every failure leaves the out token alone; asks only that the tokens read be legible |
| JsonLookup.CleanMemoryIsLegible | plugins/cloudflare.c:179-214 | from zeroed memory they are, on every input, even where the second pass fails |
| JsonLookup.JsonCopyValue | plugins/cloudflare.c:216-230 | copies exactly the slice and a NUL when both fit; otherwise changes nothing and says which way it failed |
| JsonTreeLookup.TreeDenotes | src/json.c:58-66 | token by token, the flattening names the keys, texts and spans of the tree |
| JsonTreeLookup.LookupIff | plugins/cloudflare.c:199-207 | the loop finds the value under the first occurrence of the key in preorder if and only if no string value shadows it |
| JsonTreeLookup.SuccessIff | plugins/cloudflare.c:144-161 | success exactly if the node behind the first key or string value "success" is the value `true` |
| JsonTreeLookup.UnshadowedSuccess | plugins/cloudflare.c:144-161 | unless a string value shadows the key, that is whether its value is `true` |
| JsonTreeLookup.TreesTokenize | src/json.c:27-56 | on the text of a tree `parse_json` returns the node count and the flattening, whatever the new memory held |
| JsonTreeLookup.ResultIsLookup | plugins/cloudflare.c:179-230 | end to end from any printed object to the answer, exactly when it is the right one, and the slice to copy |
| JsonExamples.ShadowedKeyIsMissed | plugins/cloudflare.c:199-207 | a text with "success" true on which the value of a shadowed key is missed |
| JsonExamples.FailureLooksLikeSuccess | plugins/cloudflare.c:144-161 | a text with "success" false that is taken for a success |
| DdnsClient.Daemon.GetAddress | src/ddns.c:525-563 | every alias of a provider takes the new address and the change mark; a failed checkip leaves the provider alone |
| DdnsClient.Daemon.CheckAliasUpdateTable | src/ddns.c:565-608 | an update is required exactly if the address changed, the flag is set or the period is over |
| DdnsSafety.RequiredIff | src/ddns.c:565-608 | an update is due if and only if the reported address is another one, an older change mark is still set, the flag is set, or more than the forced period has passed |
| DdnsClient.Daemon.Send | src/ddns.c:610-682 | which outcomes set, clear or leave the flag, and when the server's record changes |
| DdnsClient.Daemon.FakeUpdates | src/ddns.c:689-719 | the pass with made-up addresses, left on failure before the address is put back |
| DdnsClient.Daemon.UpdateAliasTable | src/ddns.c:684-762 | both passes over all providers: tables, records, cache files and the remembered code |
| DdnsClient.Daemon.CheckAddressNow | src/ddns.c:874-889 | a whole round over the mutable tables is the round on values |
| DdnsClient.Daemon.ReadCacheFile | src/cache.c:132-173 | every alias is seeded from its cache file, or from DNS where there is none; its flags stay |
| DdnsSlots.TurnIsSlotwise | src/ddns.c:721-759 | one turn of the update loop changes one alias and its record and cache file, and nothing else |
| DdnsSlots.RealAllIsSlotwise | src/ddns.c:721-759 | the pass over all providers acts on each alias separately, up to the COMPAT break |
| DdnsSlots.FakeAllIsSlotwise | src/ddns.c:689-719 | the pass with made-up addresses acts on each alias separately, up to its break |
| DdnsSlots.RoundIsSlotwise | src/ddns.c:874-889 | what a whole round, with made-up addresses or without, does to one alias: its table entry, server record, cache file and acknowledged updates |
| DdnsSlots.CacheFilesDiffer | src/cache.c:119 | two aliases have different cache files, when no plugin name has a hyphen |
| DdnsSlots.CacheFilesCanCoincide | src/cache.c:119 | with a hyphen they can have the same one |
| DdnsSafety.RoundSafeIff | src/ddns.c:525-762 | from a safe state, exactly when a round leaves an alias flagged or the server with the address the client believed in, for every mode and with made-up addresses or without |
| DdnsSafety.FlaggedRoundSafeIff | src/ddns.c:689-759 | for a flagged alias it fails if and only if the made-up address differs and is acknowledged with the real update skipped, or fails and is then acknowledged as the real one |
| DdnsSafety.UnflaggedRoundSafeIff | src/ddns.c:721-759 | for an unflagged one, if and only if a due update for an address the server lacks is skipped or fails silently |
| DdnsSafety.DeliveredIsSafe | src/ddns.c:684-762 | without made-up addresses the client still holds that address behind the round |
| DdnsSafety.StaysFresh | src/ddns.c:565-608 | behind any round the last update is at most the forced period ago, or the alias is flagged, or its update was skipped |
| DdnsSafety.FlagInsists | src/ddns.c:565-682 | a set flag makes the update required and is cleared only by an acknowledged update, whose address it names: the believed one, or the made-up one and why |
| DdnsSafety.ResentIff | src/ddns.c:525-608 | an acknowledged address goes out again before its time if and only if checkip failed, the old change mark is set, and the update is reached and succeeds |
| DdnsSafety.FakeSuccessLosesTheFlag | src/ddns.c:700-714 | a made-up update that succeeds clears the flag, and the failing hook does not set it again |
| DdnsSafety.NoUpdateIsLost | src/ddns.c:525-762 | no update is lost in any run, in EVENT mode or with one alias per provider, without setup hooks and fake addresses |
| DdnsSafety.CompatLosesAnUpdate | src/ddns.c:735-736 | the COMPAT break loses the update of a later alias |
| DdnsSafety.SetupLosesAnUpdate | src/ddns.c:616-617 | a failing setup hook loses the update |
| DdnsSafety.StaleFlagSendsTwice | src/ddns.c:535-536 | a failed checkip makes an acknowledged address go out again |
| DdnsSafety.FakeAddressGoesOut | src/ddns.c:708-710 | after a failed fake update the made-up address is sent as the real one |
| DdnsSafety.FakePassRestoresIff | src/ddns.c:700-714 | the addresses of a provider survive the fake pass if and only if none of its sends fails |
| DdnsErrors.CheckAddressCodes | src/ddns.c:752-761 | a round returns OK, NOTOK, AUTH_FAIL, RETRY_LATER or TOO_FREQUENT and nothing else |
| DdnsErrors.LaterSuccessHidesAnError | src/ddns.c:724-756 | in EVENT mode a later success of the same provider hides an authentication failure |
| DdnsErrors.PassCode | src/ddns.c:724-750 | the code a provider leaves: that of its last alias in EVENT mode, of the first that fails in COMPAT mode |
| DdnsErrors.ReportedIff | src/ddns.c:684-762 | a round reports a fatal code, or any, if and only if the deciding alias of some provider was answered with one, or an empty first provider inherits one |
| DdnsErrors.ReportedCode | src/ddns.c:752-756 | the code itself: the fatal one of the last provider that has one, and without any the temporary one of the first that has one |
| DdnsErrors.FakeCodeIff | src/ddns.c:689-719 | the code it inherits: that of the last provider with a flagged alias, the first of them that fails |
| DdnsRestarts.RestartSafeIff | src/cache.c:78-112 | a restarted client is safe if and only if the address it is seeded with is the one on record |
| DdnsRestarts.RunRecords | src/ddns.c:684-762 | after any run the server has the address acknowledged last and the cache file the one written last |
| DdnsRestarts.RestartAfterRunIff | src/cache.c:179-200 | a restart after any run is safe if and only if the address acknowledged last is the one written last, or what DNS says where none was |
| DdnsRestarts.NothingIsLostAcrossRestarts | src/ddns.c:525-762 | in a lossless configuration with writable cache files every round ends safe, in runs that mix failures, forced updates and restarts |
| DdnsAgreement.SmoothRoundAgrees | src/ddns.c:721-759 | after a round in which nothing fails, record, cache file and memory hold the address checkip reported |
| DdnsAgreement.RestartStaysInStep | src/cache.c:78-112 | a restarted client holds what its cache files say |
| DdnsAgreement.RunsStayInStep | src/ddns.c:565-608 | consecutive updates of an alias differ or lie more than the forced period apart, across restarts too |
| DdnsAgreement.SmoothRoundIsFresh | src/ddns.c:592-599 | behind a round in which nothing fails the last update is at most the forced period ago |
| DdnsAgreement.EveryRoundIsFresh | src/ddns.c:565-608 | throughout such runs, across restarts, updates are neither repeated too soon nor put off too long |
| DdnsAgreement.EveryRoundAgrees | src/cache.c:179-200 | every round of every such run ends in agreement |
| DdnsAgreement.FirstStartIsInStep | src/cache.c:132-173 | a first start qualifies when the cache files there are name the addresses on record |
| DdnsAgreement.UnwrittenCacheLosesAnUpdate | src/cache.c:179-200 | with an unwritable cache file a restart takes an old address for the one on record |
| DdnsLoop.MainLoop.WaitForCmd | src/ddns.c:56-77 | ends with the first signal among its sleeps, if any |
| DdnsLoop.MainLoop.CheckError | src/ddns.c:896-935 | which codes leave the loop, and the period until the next round for the others |
| DdnsLoop.MainLoop.TurnOnce | src/ddns.c:1006-1060 | one turn of the main loop over the mutable client is the turn on values |
| DdnsLoop.MainLoop.Iterate | src/ddns.c:1006-1065 | any number of turns |
| DdnsLoop.ExitsAreFour | src/ddns.c:1006-1060 | the loop is left by the iteration limit, STOP, RESTART, or NOTOK or AUTH_FAIL unless errors are ignored, each exactly under its condition on the signals, the round and the filter, with the right code |
| DdnsLoop.PeriodIs | src/ddns.c:896-935 | the time until the next round: the normal period after OK, the error period after RETRY_LATER or TOO_FREQUENT, unchanged after an ignored fatal code |
| DdnsLoop.FilterIff | src/ddns.c:900-933 | by number, the codes that end the loop |
| DdnsLoop.SignalIsObeyed | src/ddns.c:56-77 | with no command pending the loop obeys the signal in sleep k if and only if it is the first and k is below the period over the length of a sleep |
| DdnsLoop.SignalDuringRound | src/ddns.c:1006-1060 | a signal during the round replaces what was pending and is obeyed without a sleep |
| DdnsLoop.CommandsAreConsumed | src/ddns.c:1014-1059 | no command outlives a turn that stays, and which one is left behind by each exit |
| DdnsLoop.ForceAllFlags | src/ddns.c:1035-1048 | a forced update sets every flag and nothing else |
| DdnsLoop.LimitHoldsAcrossRestarts | src/ddns.c:1006-1065 | the OK rounds summed over all restarts never exceed a non-zero limit |
| DdnsLoop.LoopLosesNothing | src/ddns.c:1006-1065 | the main loop loses no update, whatever the signals and answers |
| Sha1.RefreshSlides | src/sha1.c:96-101 | R(t) yields W[t] of the 80-word schedule in the low 32 bits, and the 16-word window moves on by one |
| Sha1.PIsARound | src/sha1.c:103-106 | one use of P in 64-bit words is one round of FIPS 180-1 in the low 32 bits, up to renamed registers |
| Sha1.LowMix | src/sha1.c:94-101 | the rotation macro on a wide word rotates its low 32 bits and is not disturbed by the others |
| Sha1.KIsRoot | src/sha1.c:114-197 | the four constants are the square roots of 2, 3, 5 and 10 times 2^30, cut to integers |
| Sha1Vector.DigestOfAbc | src/sha1.c:60-322 | the digest of "abc" is the one of appendix A of FIPS 180-1 |
| Sha1Stream.NextWord | src/sha1.c:96-101 | the circular schedule in place: the word of the round, and the array ready for the next |
| Sha1Stream.P | src/sha1.c:103-106 | the registers stay those of the standard from round to round |
| Sha1Stream.TwentyRounds | src/sha1.c:114-220 | twenty rounds under one definition of F and K |
| Sha1Stream.Context.Process | src/sha1.c:73-227 | the block function of sections 7 and 8 of FIPS 180-1, for every state and block |
| Sha1Stream.Context.Update | src/sha1.c:232-271 | state and buffer are those of the longer message; the counters stay exact if and only if one carry is enough |
| Sha1Stream.Context.Finish | src/sha1.c:284-308 | the digest of the message however it was split |
| Sha1Stream.Hash | src/sha1.c:313-322 | the one-call digest |
| Md5.PIsAStep | src/md5.c:91-96 | one use of P is one step of RFC 1321, up to renamed registers |
| Md5.FLaws | src/md5.c:103 | F chooses y where x is set and z where it is not |
| Md5.GLaws | src/md5.c:124 | G chooses x where z is set and y where it is not |
| Md5.HLaws | src/md5.c:145 | H is a parity |
| Md5.ILaws | src/md5.c:166 | I flips the bits of y where x is set or z is not |
| Md5Vectors.DigestOfEmpty | src/md5.c:58-283 | the digest of the empty message is the one of section A.5 of RFC 1321 |
| Md5Vectors.DigestOfAbc | src/md5.c:58-283 | so is that of "abc" |
| Md5Stream.Context.Process | src/md5.c:70-191 | the block function of section 3.4 of RFC 1321 |
| Md5Stream.Context.Update | src/md5.c:196-233 | state and buffer are those of the longer message; the counters stay exact if and only if the piece is shorter than 2^32 bytes |
| Md5Stream.Context.Finish | src/md5.c:246-269 | the digest of the message however it was split |
| Md5Stream.Hash | src/md5.c:274-283 | the one-call digest |
| Blocks.PaddingIsLeast | src/sha1.c:297-298 | the padding is the shortest that is congruent to 56 modulo 64 |
| Blocks.PaddingIs | src/sha1.c:273-279 | the padding is one set bit and zeros |
| Blocks.LengthIsWritten | src/sha1.c:290-295 | the length field is 8 times the length to the base of 256, the highest digit first for SHA-1 and the lowest for MD5 |
| Blocks.CarryIff | src/sha1.c:243-247 | the exact bound for a counter update with the uncut length |
| Blocks.CutCarryIff | src/md5.c:207-211 | the exact bound for a counter update with the length cut to 32 bits |
| Blocks.LengthFromCounters | src/sha1.c:290-295 | the length field rebuilt from the two counters is 8 times the length modulo 2^64, in both byte orders |
| Base64.Encode | src/base64.c:59-117 | the size query, the untouched output when there is nothing to do, and otherwise the encoding and its NUL |
| Base64.AlphabetIs | src/base64.c:28-37 | the encoder writes the alphabet of table 1 of RFC 4648 |
| Base64.AlphabetIff | src/base64.c:39-54 | the decoder takes exactly these characters back and tells the padding from the rest |
| Base64.TestVectors | src/base64.c:59-117 | the test vectors of section 10 of RFC 4648 |
| Base64.SizesAre | src/base64.c:67-79 | the sizes asked for: the encoding and its NUL, and the least number of bytes that hold six bits for every character |
| Base64.BreaksAreStripped | src/base64.c:129-137 | LF, and CR with LF, are taken out wherever they stand |
| Base64.LoneReturnIsRefused | src/base64.c:129-137 | any other CR makes the text invalid |
| Base64.AcceptsExactly | src/base64.c:129-148 | accepts exactly alphabet characters, then at most two signs of padding, with line breaks anywhere, and counts what is not a break |
| Base64.WritesWithinDemand | src/base64.c:153-176 | writes no more than it demanded on every accepted input, incomplete last groups included |
| Base64.Decode | src/base64.c:122-181 | error, size query and result, and that nothing else is written |
| Base64.DecodingUndoesEncoding | src/base64.c:59-181 | decoding an encoding gives the bytes back, although the accumulator is never reset |
| Strings.Strlcpy | lib/strlcpy.c:27-50 | as much as fits, a NUL, the rest untouched, the full length returned |
| Strings.Strlcat | lib/strlcat.c:29-55 | the same behind the string already there, and nothing when there is none within the size |
| Credentials.Compose | src/ddns.c:792-794 | user name, colon and password are joined without truncation |
| Credentials.EncodeOne | src/ddns.c:784-815 | the stored credential is the encoding of the whole text, with its length |
| Credentials.EncodeAll | src/ddns.c:764-827 | every provider gets its credential, up to the first one there is no memory for |
| Credentials.CredentialDecodes | src/ddns.c:764-827 | the credential decodes to user name, colon, password (section 2 of RFC 7617) |
| Credentials.AladdinsCredential | src/ddns.c:764-827 | the example of section 2 of RFC 7617 |
| TailQueue.Init | include/queue.h:462-465 | an empty queue |
| TailQueue.InsertHead | include/queue.h:467-475 | next links, back slots and last slot are those of the sequence with the element in front |
| TailQueue.InsertTail | include/queue.h:477-482 | the same at the end |
| TailQueue.InsertAfter | include/queue.h:484-492 | the same behind a given element |
| TailQueue.InsertBefore | include/queue.h:494-499 | the same before a given element, without the head |
| TailQueue.Remove | include/queue.h:501-510 | the sequence without the element |
| TailQueue.Replace | include/queue.h:512-522 | the sequence with the element exchanged |
| TailQueue.Concat | include/queue.h:524-531 | the first queue holds both sequences, the second is empty |
| TailQueue.Last | include/queue.h:428-429 | the last element, found through two back slots |
| TailQueue.Prev | include/queue.h:431-432 | the element before |
| TailQueue.ForeachReverse | include/queue.h:448-451 | walks the exact reverse |
| Registry.Plugins.SearchPlugin | src/plugin.c:100-123 | the first plugin whose name or old name matches |
| Registry.Plugins.FindPlugin | src/plugin.c:234-296 | the same up to the first colon |
| Registry.Plugins.Register | src/plugin.c:35-54 | appended with its request unless its name is taken; the queue stays well formed |
| Registry.Plugins.RegisterV6 | src/plugin.c:57-72 | a clone under the other name, likewise |
| Registry.Plugins.Unregister | src/plugin.c:74-98 | takes out the plugin and the clone of its other name, and nothing else |
| Registry.RunsFindIff | src/plugin.c:35-123 | after any run of the three operations, on any names, strict lookup of a registered name yields that very plugin if and only if its name has no colon or its old name is the name up to the colon |
| Registry.RunsStayUnhidden | src/plugin.c:35-123 | in particular whenever its name has no colon |
| Registry.ClonesKeepTheirPlugins | src/plugin.c:57-98 | no clone outlives its plugin, in any run in which clones are asked for under the `default@` name of a linked plugin |
| Registry.LooseIff | src/plugin.c:104-113 | the loose test holds if and only if one name occurs within the other, whatever the case |
| Registry.StrictIsLoose | src/plugin.c:104-120 | what the strict test finds the loose one finds, there or before |
| Registry.LowerCharIs | src/plugin.c:115-120 | case is folded for the 26 letters and for nothing else |
| Registry.CutIs | src/plugin.c:247-253 | a name is looked up by what stands before its first colon |
| Registry.RegisteredIff | src/plugin.c:35-54 | a registration makes the plugin found by its name if and only if nothing was found by it before, and the same condition holds |
| Registry.UnregisterIsSafeIff | src/plugin.c:74-86 | after a registration, what the removal takes for granted (a plugin whose name is found is linked) holds if and only if the registration linked it |
| Registry.ColonHides | src/plugin.c:247-253 | a plugin with a colon in its name is not found by it |
| Registry.OldNamesShutOut | src/plugin.c:44-47 | an old name shuts out a plugin of that name |
| Template.ReplaceFmt | plugins/generic.c:63-79 | memmove and memcpy in place exchange two characters for a value |
| Template.CustomServerUrl | plugins/generic.c:89-139 | the buffer holds the expansion and its length is returned, or -1 |
| Template.ExpansionEnds | plugins/generic.c:93-136 | with values free of percent signs the loop ends within as many turns as there are percent signs |
| Template.ExpandedIsPercentFree | plugins/generic.c:93-138 | whatever the values, success leaves no percent sign |
| TemplateEnds.MeetsFate | plugins/generic.c:93-136 | a text in front of another takes exactly its own turns and then leaves no percent sign, one at its end, or a refusal |
| TemplateEnds.EndsExactly | plugins/generic.c:93-138 | a settled expansion ends after exactly so many turns, and succeeds if and only if no percent sign is left open |
| TemplateEnds.ExpansionEndsIff | plugins/generic.c:93-136 | for every template and all values the loop ends if and only if the derivation is settled within a height the number of specifiers bounds, which a caller can compute |
| TemplateEnds.NeverEndsIff | plugins/generic.c:93-136 | it never ends if and only if the template leads to a set of specifiers whose values all lead back to the set |
| TemplateEnds.ExpansionMayNeverEnd | plugins/generic.c:93-103 | a user name that is a specifier is replaced by itself for ever |
| Template.RescanningIsOnePass | plugins/generic.c:93-136 | where the values in use have no percent sign, rescanning from the start equals one substitution from left to right |
| Template.SubstitutesIff | plugins/generic.c:93-136 | the expansion is the documented one if and only if no specifier in use stands for text with a percent sign, which `%%` always does |
| Template.KnownIff | plugins/generic.c:93-134 | there are five specifiers |
| Template.DocumentedPath | plugins/generic.c:81-88 | around any texts, `%u` becomes the user name, `%p` the password, `%h` the host name and `%i` the address |
| Template.PercentInPasswordIsRefused | plugins/generic.c:104-113 | a password `50%off` makes the expansion fail |
| Template.EscapedSpecifierIsExpanded | plugins/generic.c:127-131 | `%%u` yields the user name |
| Template.OnePassLength | plugins/generic.c:63-70 | the length is that of the template plus what each value adds to its specifier |
| Template.FitsIff | plugins/generic.c:63-70 | where the values in use have no percent sign, a buffer is not overrun if and only if it is larger than the longest text the loop goes through |
| UrlEncode.Encode | plugins/generic.c:165-197 | the output buffer holds the encoding; 3 bytes for each input byte are enough |
| UrlEncode.EncodingKeepsMeaning | plugins/generic.c:165-197 | form-decoding the output gives what percent-decoding the input gives (section 2.1 of RFC 3986) |
| UrlEncode.EncodingIsSafe | plugins/generic.c:165-197 | only safe characters, plus signs and complete escapes, at most three times the length |
| UrlEncode.SafeIff | plugins/generic.c:184-187 | the safe characters: letters, digits, `-._~`, and the four of paths and queries |
| UrlEncode.HexDigitIff | plugins/generic.c:149-158 | what may follow the percent sign of an escape |
| UrlEncode.UnchangedIff | plugins/generic.c:149-158 | a text passes unchanged if and only if it is encoded already and has no plus sign |
| UrlEncode.TwiceIsOnceIff | plugins/generic.c:165-197 | encoding is idempotent on a text if and only if the text has no space |
| UrlEncode.SpaceIsEncodedTwice | plugins/generic.c:188-189 | a space becomes a plus sign, and then an escaped one |
| AddressScan.ScanFindsTheFirst | src/ddns.c:247-285 | the first maximal run of accepted characters that the library approves, and none only if there is none |
| AddressScan.ScanFindsIff | src/ddns.c:287-325 | an address is found exactly when some maximal run is approved |
| AddressScan.AcceptedIff | src/ddns.c:250-290 | the two character sets, written out |
| AddressScan.TryRun | src/ddns.c:264-279 | the library sees exactly the run; a rejected run leaves the buffer byte for byte as it was |
| AddressScan.ParseAddress | src/ddns.c:287-325 | the search in place: the buffer restored if there is no address, and what the address buffer holds in every case |
| AddressScan.FoundAddressIsLeft | src/ddns.c:264-279 | when an address is found, the address buffer holds its canonical text, and that is valid |
| AddressScan.ParseMyAddress | src/ddns.c:327-333 | the IPv4 search sees the original text |
| AddressScan.SomeAddressIff | src/ddns.c:327-333 | an address is found in a reply exactly when some maximal run is one |

## Left out

- Sockets, TLS, DNS queries, interface queries, shell commands, logging, PID files and privileges: their results are parameters.
- The configuration file and the command line: providers and aliases are given, with strings within their bounds.
- The provider plugins themselves: a request is its length and a response a return code.
- `plugins/yandex.c` record lookup.
- The LIST operations of `include/queue.h`: the tail queue has the same links and more.
- Startup delay, `--once --force` and the shutdown that follows a session: the loop starts behind them.
- Signals inside the dispatch window of the loop: a signal arrives while a round runs or during a sleep. A send and the write of its cache file are one step.
- Script execution after an update, which changes no table.
- `ENABLE_SIMULATION`, the non-strict tokenizer and its variant with parent links, which are not built.
- JsonLookup.GetResultValue: demands that the tokens read be legible; where the second pass fails the source reads what new memory held.
- Jsmn.Parser.Parse: positions and sizes do not wrap around, so inputs are taken to be shorter than 2^31 bytes.
- DdnsClient.Daemon.ReadCacheFile: a cache path is not cut at 256 bytes, and whether a name is looked up at all is part of the DNS answer.
- DdnsAgreement.RunsStayInStep: an acknowledged update and its cache file carry the same time.
- Sha1.PIsARound: `unsigned long` has 64 bits; with 32 bits the code is the standard's own arithmetic.
- Sha1Stream.Context.Update: the second counter is unbounded; it would wrap only for messages of 2^64 bytes and more, where the standard stops.
- Sha1Stream.TwentyRounds: the unrolled uses of P are grouped into methods of five and twenty.
- Base64.Encode: its two tables are written as case distinctions.
- Registry.Plugins.FindPlugin: the plugin path is never set, because the loader that would set it is compiled out.
- Registry.Plugins.Unregister: demands that a plugin whose name is found be linked; for one whose registration was refused, the source unlinks an element of no queue.
- Template.CustomServerUrl: requires that the loop end and that the buffer be large enough; the source checks neither.
- UrlEncode.Encode: letters and digits are those of the "C" locale.
- AddressScan.ScanFindsTheFirst: assumes that no address is one character long, since the loop does not start on the last character.
