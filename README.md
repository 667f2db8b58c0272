# DRM crypto HAL shim: buffer registry and decrypt validation

This project is a Dafny model of the core of the DRM crypto plugin shim
(HAL version 1.0). The shim sits between an untrusted caller and a legacy
decryption engine. The caller registers shared memory under buffer ids with
`setSharedBufferBase`. It then asks `decrypt` to decrypt a window of one
buffer, described by a list of clear/encrypted subsamples, into another
buffer or into a secure native handle. `decrypt` runs a fixed chain of checks
with early returns. Only when every check passes does it call the engine,
once, with raw source and destination addresses. It then maps the engine's
`ssize_t` answer onto a status and a byte count.

The model is organised as follows:

- `DrmTypes` (`drm_types.dfy`) holds the HAL and legacy value types and the
  integer widths. `size_t` is 64 bits wide. A mapped region
  is its identity and its size. An address is a region plus a byte offset.
- `SubSamples` (`sub_samples.dfy`) models the subsample loop. `Accumulate` is
  the checked accumulation as a function; `Sum` is the exact mathematical
  total. `ConvertSubSamples` is the loop itself, filling a fresh array, proved
  against `Accumulate`.
- `Validation` (`validation.dfy`) defines `Validate`, the whole decision
  chain as a pure function of the registry and the call's arguments. It
  yields either the rejection delivered to the caller or the one engine
  request issued. It also holds the mode and pattern translation, the two
  window checks and the result mapping.
- `BufferRegistry` (`buffer_registry.dfy`) defines the registry update.
- `DecryptProperties` (`decrypt_properties.dfy`) holds the lemmas about
  `Validate`: which inputs never reach the engine, error precedence, and what
  every request that does reach the engine satisfies.
- `CryptoPluginHal` (`crypto_plugin.dfy`) holds the plugin object. It is a
  class with the registry as a `map` field, updated in place, and a ghost log
  of engine calls. `Decrypt` is imperative and follows the source's
  early-return chain. Its postcondition ties the result and the engine-call
  log to `Validate`, and states that the registry is unchanged. The lookups at
  lines 124 and 146 are modelled as `std::map::operator[]` (`Index`), which
  inserts a null entry for a missing id. "The registry is unchanged" is
  therefore proved from the earlier presence checks; it does not hold by
  construction.
- `Scenarios` (`scenarios.dfy`) works through concrete calls.

The layer is meant to guarantee that every address handed to the engine lies
inside its region. Where the code falls short of that, the model follows the
code:

- The source window is checked with `source.size`, not with the subsample
  total (lines 130-137). A request can therefore reach the engine with more
  subsample bytes than the source window covers (`SourceReadExceedsWindow`).
  The read stays inside the region only when the total is at most
  `source.size` (`EngineReadsWithinSourceWhenCovered`).
- The destination window check at line 152 is a wrapping `uint64_t`
  addition, not a checked one. An offset near 2^64 passes it
  (`DestinationWrapEscapesRegion`). Writes stay inside the region only when
  the addition does not wrap (`EngineWritesWithinDestination`).
- The null-mapping checks come after the subsample accumulation. An invalid
  destination type is reported only after the source has passed its checks.
- Two subsamples of 0xFFFFFFFF clear and 0xFFFFFFFF encrypted bytes do not
  overflow a 64-bit `size_t`. With the 300-byte shared-memory destination of
  `ScenarioLargeSubsamples`, the call is rejected as BAD_VALUE by the later
  check of the total against `dest.size`, not by the overflow check. A
  native-handle destination has no size check: on a secure call the same
  subsamples reach the engine once the source checks pass.

## Model

| member | source | states |
|---|---|---|
| SubSamples.AddOverflow | drm/1.0/default/CryptoPlugin.cpp:111-120 | the overflow flag is set iff the exact sum exceeds SIZE_MAX; the stored `size_t` is the exact sum when the flag is clear, and the sum less 2^64 when it is set |
| SubSamples.AccumulateFrom | drm/1.0/default/CryptoPlugin.cpp:105-121 | (specification function, no contract of its own) the checked fold from a start value; stated by `SubSamples.AccumulateFromIsCheckedSum` |
| SubSamples.Accumulate | drm/1.0/default/CryptoPlugin.cpp:105-121 | (specification function, no contract of its own) the checked fold from 0; stated by `SubSamples.AccumulateIsCheckedSum`, and `ConvertSubSamples` is proved against it |
| SubSamples.AccumulateFromIsCheckedSum | drm/1.0/default/CryptoPlugin.cpp:105-121 | the checked accumulation from any start value succeeds iff start plus the exact subsample total fits in `size_t`, and then yields that total |
| SubSamples.AccumulateFromReportsClearOverflow | drm/1.0/default/CryptoPlugin.cpp:105-121 | the clear-size overflow is reported exactly when the first addition that overflows is some subsample's clear byte count (the bytes before it fit, adding its clear bytes does not); every other overflow is the encrypted one |
| SubSamples.AccumulateIsCheckedSum | drm/1.0/default/CryptoPlugin.cpp:105-121 | `destSize` is computed iff the exact sum of clear plus encrypted bytes is at most SIZE_MAX, and then equals that sum |
| SubSamples.LegacySubSamplesOf | drm/1.0/default/CryptoPlugin.cpp:102-110 | the legacy subsample array has the input's length, order and byte counts |
| SubSamples.ConvertSubSamples | drm/1.0/default/CryptoPlugin.cpp:102-121 | the loop yields the checked accumulation; on success the array holds every subsample converted, in order |
| Validation.LegacyModeOf | drm/1.0/default/CryptoPlugin.cpp:83-97 | the mode switch is total and inverted by `ModeOfLegacy`, with AES_CBC_CTS sent to kMode_AES_WV |
| Validation.LegacyModeInjective | drm/1.0/default/CryptoPlugin.cpp:83-97 | distinct modes reach the engine as distinct legacy modes |
| Validation.SourceOffset | drm/1.0/default/CryptoPlugin.cpp:130-141 | the two checked additions and the size comparison pass iff `source.offset + offset + source.size` is at most the region size (equality accepted); the source address is then `source.offset + offset` |
| Validation.DestinationFits | drm/1.0/default/CryptoPlugin.cpp:152-155 | every destination window inside the region passes; a passing window whose end did not wrap past 2^64 is inside the region; a window whose end wraps passes exactly when its wrapped end (the sum less 2^64) is at most the region size |
| Validation.Int32Of | drm/1.0/default/CryptoPlugin.cpp:185-192 | storing a result into `uint32_t status` and reading it back as a status code gives a value in the 32-bit signed range that is congruent to the result modulo 2^32, and equal to it when it is already in that range |
| Validation.ResultOf | drm/1.0/default/CryptoPlugin.cpp:185-196 | status is OK iff the engine result is non-negative or its low 32 bits are zero; bytes written is the result truncated to `uint32_t`, or 0 for a negative result; any other negative result becomes a legacy status code in the 32-bit signed range and congruent to it modulo 2^32 (the result itself when it fits in 32 bits); the engine's detail message is passed on |
| Validation.LegacyPatternOf | drm/1.0/default/CryptoPlugin.cpp:98-100 | (helper, no contract of its own) the pattern is copied field by field; stated for every engine request by `DecryptProperties.ReadyRequestCarriesInputs` |
| Validation.EngineRequestOf | drm/1.0/default/CryptoPlugin.cpp:179-181 | (helper, no contract of its own) the engine call's arguments; stated by `DecryptProperties.ReadyRequestCarriesInputs`, `ReadySourceInBounds` and `ReadyDestinationChecked` |
| Validation.Validate | drm/1.0/default/CryptoPlugin.cpp:70-178 | (specification function, no contract of its own) the check chain in source order; its properties are the `DecryptProperties` lemmas below, and `CryptoPlugin.Decrypt` is proved against it |
| Validation.Outcome | drm/1.0/default/CryptoPlugin.cpp:179-196 | bytes written are non-zero only when the engine was called, and a status other than OK always comes with 0 bytes |
| BufferRegistry.Bind | drm/1.0/default/CryptoPlugin.cpp:52-60 | the id is always stored, also with a null mapping; any earlier entry is replaced; no other id changes |
| BufferRegistry.BindIdempotent | drm/1.0/default/CryptoPlugin.cpp:58 | binding the same region twice equals binding it once |
| BufferRegistry.BindKeepsOtherIds | drm/1.0/default/CryptoPlugin.cpp:58 | binding one id leaves every other id's entry as it was |
| DecryptProperties.RejectionWritesNothing | drm/1.0/default/CryptoPlugin.cpp:70-178 | every early return reports 0 bytes and BAD_VALUE or CANNOT_HANDLE |
| DecryptProperties.UnboundBufferRejected | drm/1.0/default/CryptoPlugin.cpp:70-81 | an unbound source id, or an unbound shared-memory destination id, gives CANNOT_HANDLE with 0 bytes and no engine call, for all offsets, sizes and subsamples |
| DecryptProperties.OverflowRejectedAsBadValue | drm/1.0/default/CryptoPlugin.cpp:105-121 | with both ids bound, a subsample total beyond SIZE_MAX gives BAD_VALUE with 0 bytes and no engine call |
| DecryptProperties.OverflowPrecedesUnmappedSource | drm/1.0/default/CryptoPlugin.cpp:105-128 | overflow is reported before a null source mapping |
| DecryptProperties.BadSourceRejected | drm/1.0/default/CryptoPlugin.cpp:123-137 | a null source mapping or a source window outside its region gives CANNOT_HANDLE with 0 bytes |
| DecryptProperties.InsecureNativeHandleRejected | drm/1.0/default/CryptoPlugin.cpp:165-170 | a native-handle destination on a non-secure call never reaches the engine, and gives BAD_VALUE once the source checks pass |
| DecryptProperties.SecureNativeHandleReachesEngine | drm/1.0/default/CryptoPlugin.cpp:165-181 | a native-handle destination on a secure call whose source checks pass reaches the engine, with the handle passed unchanged and no destination size check |
| DecryptProperties.UnknownDestinationRejectedLate | drm/1.0/default/CryptoPlugin.cpp:174-178 | any other destination type never reaches the engine; its id is never checked, and it gives BAD_VALUE only after the source checks pass |
| DecryptProperties.SharedDestinationChecks | drm/1.0/default/CryptoPlugin.cpp:144-164 | for a shared-memory destination the checks run in order (null mapping, wrapping window check, subsample total against `dest.size`); if all pass, the destination address is `dest.offset` in its region |
| DecryptProperties.ReadySourceInBounds | drm/1.0/default/CryptoPlugin.cpp:124-141 | every request reaching the engine has a mapped source, a subsample total within `size_t`, and a source window inside the region; the source address is `source.offset + offset` in that region |
| DecryptProperties.ReadyDestinationChecked | drm/1.0/default/CryptoPlugin.cpp:143-178 | every request reaching the engine has a shared-memory destination that passed all its checks, or a native handle passed unchanged on a secure call |
| DecryptProperties.ReadyRequestCarriesInputs | drm/1.0/default/CryptoPlugin.cpp:179-181 | the engine receives the caller's flag, key, IV, translated mode, copied pattern, and the subsamples with the same count, order and values |
| DecryptProperties.EngineWritesWithinDestination | drm/1.0/default/CryptoPlugin.cpp:152-164 | if the destination addition does not wrap, every byte written to a shared-memory destination lies inside its region |
| DecryptProperties.EngineReadsWithinSourceWhenCovered | drm/1.0/default/CryptoPlugin.cpp:130-141 | if the subsample total is at most `source.size`, every byte read from the source lies inside its region |
| DecryptProperties.ValidateReadsOnlyNamedEntries | drm/1.0/default/CryptoPlugin.cpp:70-146 | the outcome depends on the registry only through the source entry and, for a shared-memory destination, the destination entry |
| DecryptProperties.BindElsewhereKeepsValidation | drm/1.0/default/CryptoPlugin.cpp:52-60 | binding an id that a call does not name leaves that call's outcome unchanged |
| CryptoPluginHal.CryptoPlugin.SetSharedBufferBase | drm/1.0/default/CryptoPlugin.cpp:52-60 | the registry becomes `Bind(old registry, bufferId, mapping result)`, null included; the engine is not called |
| CryptoPluginHal.CryptoPlugin.Index | drm/1.0/default/CryptoPlugin.cpp:124 | `operator[]` returns a present entry unchanged, and inserts and returns null for a missing id |
| CryptoPluginHal.CryptoPlugin.CallLegacyDecrypt | drm/1.0/default/CryptoPlugin.cpp:179-181 | the legacy decrypt is applied to the request, and the call is appended to the engine-call log |
| CryptoPluginHal.CryptoPlugin.Decrypt | drm/1.0/default/CryptoPlugin.cpp:62-198 | the registry is unchanged; the result is `Validate`'s rejection, or the mapped engine reply; the engine is called exactly once when `Validate` is ready, never otherwise |
| Scenarios.ScenarioSuccess | drm/1.0/default/CryptoPlugin.cpp:62-198 | a 100+200-byte decrypt inside a 1024-byte buffer accumulates 300, addresses both region bases, and reports OK with 300 bytes |
| Scenarios.ScenarioSourcePastEnd | drm/1.0/default/CryptoPlugin.cpp:130-137 | a source window ending at 1050 in a 1024-byte region gives CANNOT_HANDLE |
| Scenarios.ScenarioLargeSubsamples | drm/1.0/default/CryptoPlugin.cpp:105-161 | 4 * 0xFFFFFFFF bytes do not overflow a 64-bit `size_t`; the call fails the destination-size check with BAD_VALUE |
| Scenarios.DestinationWrapEscapesRegion | drm/1.0/default/CryptoPlugin.cpp:152-164 | a destination at offset 2^64 - 1 with size 1 passes the checks, and the engine is sent an address outside a 16-byte region |
| Scenarios.NegativeResultReadsAsOk | drm/1.0/default/CryptoPlugin.cpp:185-196 | an engine result of -2^32 is stored into the `uint32_t` status as 0 and reported as OK with 0 bytes |
| Scenarios.SourceReadExceedsWindow | drm/1.0/default/CryptoPlugin.cpp:130-141 | with a secure native-handle destination, a 4096-byte subsample total reaches the engine from an empty source window of a 16-byte region |

## Left out

- `requiresSecureDecoderComponent`, `notifyResolution` and `setMediaDrmSession` (lines 36-50) are not modelled. They only forward to the legacy plugin.
- `mapMemory`, `IMemory::getPointer` and `getSize` are foreign memory APIs. `SetSharedBufferBase` takes the result of mapping as a parameter (a region, or `None` for a null result). A region is an identity and a size, with no real addresses.
- The legacy plugin's decrypt is a fixed function of its arguments, given to the constructor. The cryptographic transform and any state the legacy plugin keeps between calls are not modelled.
- Logging (`ALOGE_IF`, `android_errorWriteLog`) is not modelled. Neither are the internals of `toStatus` and `AString`: `FromLegacy(code)` stands for `toStatus(code)`.
- `new[]`/`delete[]` of the legacy subsample array, and the leaks on the early returns at lines 126, 135, 148 and 153, are not modelled. The array is a fresh Dafny array whose contents the engine receives as a sequence.
- An address (`Ptr`) is a region and an unbounded byte offset; `base + offset` is not reduced modulo 2^64, so an address that wraps in the source lies past the region's end in the model instead of before its base. Both are outside the region.
- Native-handle contents are opaque tokens; this layer does not inspect them.
- Concurrency is not modelled; the code has none.
- A `Mode` value outside the four named ones (possible on the wire, and leaving `legacyMode` uninitialised at lines 83-97) is not modelled: `Mode` has exactly four values.
- The key id and IV are passed through unchanged; their bytes are not interpreted.
- `size_t` and `ssize_t` are fixed at 64 bits. A 32-bit build is not modelled.
- The constructor and the legacy plugin pointer come from CryptoPlugin.h, which is not part of this model.
- `FromLegacy(code)` may denote the same HAL status as `BadValue` or `ErrorDrmCannotHandle`, because the internals of `toStatus` are not modelled. Contracts that tell these apart distinguish how a failure arose, not the status value the caller sees.
