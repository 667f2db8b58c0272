/** The decision chain of `decrypt` as a function of the buffer registry and
    the call's arguments: either the one result the caller receives without
    the engine being called, or the one engine request that is issued. The
    checks run in the order of the source, and the first failing check decides
    the result. */
module Validation {
  import opened DrmTypes
  import opened SubSamples

  /** Translation of the HAL mode into the legacy plugin's mode. */
  function LegacyModeOf(mode: Mode): (r: LegacyMode)
    ensures ModeOfLegacy(r) == mode
  {
    match mode
    case Unencrypted => KModeUnencrypted
    case AesCtr => KModeAesCtr
    case AesCbcCts => KModeAesWv
    case AesCbc => KModeAesCbc
  }

  /** Reference inverse of the mode translation: the HAL mode each of the four
      legacy modes stands for. */
  function ModeOfLegacy(legacyMode: LegacyMode): Mode
  {
    match legacyMode
    case KModeUnencrypted => Unencrypted
    case KModeAesCtr => AesCtr
    case KModeAesWv => AesCbcCts
    case KModeAesCbc => AesCbc
  }

  /** The mode translation is injective: distinct HAL modes reach the engine as distinct legacy modes. */
  lemma LegacyModeInjective(a: Mode, b: Mode)
    ensures LegacyModeOf(a) == LegacyModeOf(b) ==> a == b
  {
  }

  /** The pattern is copied field by field. */
  function LegacyPatternOf(pattern: Pattern): LegacyPattern
  {
    LegacyPattern(pattern.encryptBlocks, pattern.skipBlocks)
  }

  /** The source window check: two checked `size_t` additions and a comparison
      with the region's size. It passes exactly when the window
      `source.offset + offset + source.size` lies within the region (end equal
      to the size included); the source address is then `source.offset + offset`
      bytes past the region's base. */
  function SourceOffset(source: SharedBuffer, offset: UInt64, regionSize: UInt64): (r: Option<nat>)
    ensures r.Some? <==> source.offset + offset + source.size <= regionSize
    ensures r.Some? ==> r.value == source.offset + offset
  {
    var (offsetOverflow, start) := AddOverflow(source.offset, offset);
    if offsetOverflow then None
    else
      var (sizeOverflow, totalSize) := AddOverflow(start, source.size);
      if sizeOverflow || totalSize > regionSize then None
      else Some(start)
  }

  /** The destination window check, an unchecked `uint64_t` addition that wraps
      modulo 2^64. Every window that really lies within the region passes, and
      a passing window that did not wrap lies within the region; a window whose
      end wraps past 2^64 passes when its wrapped end is at most the region size. */
  function DestinationFits(dest: SharedBuffer, regionSize: UInt64): (r: bool)
    ensures dest.offset + dest.size <= regionSize ==> r
    ensures r && dest.offset + dest.size < UINT64_MODULUS ==> dest.offset + dest.size <= regionSize
    ensures dest.offset + dest.size >= UINT64_MODULUS ==>
      (r <==> dest.offset + dest.size - UINT64_MODULUS <= regionSize)
  {
    !((dest.offset + dest.size) % UINT64_MODULUS > regionSize)
  }

  /** The value of `(int32_t)(uint32_t) x`: the two's complement reading of the
      low 32 bits. */
  function Int32Of(x: int): (r: int)
    ensures -INT32_MODULUS_HALF <= r < INT32_MODULUS_HALF
    ensures -INT32_MODULUS_HALF <= x < INT32_MODULUS_HALF ==> r == x
    ensures (x - r) % UINT32_MODULUS == 0
  {
    var low := x % UINT32_MODULUS;
    if low >= INT32_MODULUS_HALF then low - UINT32_MODULUS else low
  }

  /** The mapping of the engine's `ssize_t` result onto status and bytes
      written. A non-negative result is success with that many bytes (as a
      `uint32_t`). A negative result is stored into the `uint32_t` status and
      no bytes are reported; its code then becomes the status, so a negative
      result whose low 32 bits are zero reads as `OK`. The engine's detail
      message is passed on. */
  function ResultOf(reply: EngineReply): (r: DecryptResult)
    ensures r.status == Ok <==> reply.result >= 0 || reply.result % UINT32_MODULUS == 0
    ensures 0 <= reply.result < UINT32_MODULUS ==> r.bytesWritten == reply.result
    ensures reply.result >= 0 ==> r.bytesWritten == reply.result % UINT32_MODULUS
    ensures reply.result < 0 ==> r.bytesWritten == 0
    ensures -INT32_MODULUS_HALF <= reply.result < 0 ==> r.status == FromLegacy(reply.result)
    ensures reply.result < 0 && r.status != Ok ==>
      r.status.FromLegacy? && (reply.result - r.status.code) % UINT32_MODULUS == 0
    ensures reply.result < 0 && r.status != Ok ==>
      -INT32_MODULUS_HALF <= r.status.code < INT32_MODULUS_HALF
    ensures r.detailMessage == reply.detailMessage
  {
    if reply.result >= 0 then
      DecryptResult(Ok, reply.result % UINT32_MODULUS, reply.detailMessage)
    else
      var code := Int32Of(reply.result);
      DecryptResult(if code == 0 then Ok else FromLegacy(code), 0, reply.detailMessage)
  }

  /** The arguments of one `decrypt` call (the completion callback aside). */
  datatype DecryptArgs = DecryptArgs(
    secure: bool,
    keyId: Block16,
    iv: Block16,
    mode: Mode,
    pattern: Pattern,
    subSamples: seq<SubSample>,
    source: SharedBuffer,
    offset: UInt64,
    destination: DestinationBuffer)

  /** Either the result delivered without calling the engine, or the single
      engine request issued. */
  datatype Validation = Rejected(result: DecryptResult) | Ready(request: EngineRequest)

  function Reject(status: Status, message: string): Validation
  {
    Rejected(DecryptResult(status, 0, message))
  }

  /** The engine request built from the arguments and the validated addresses. */
  function EngineRequestOf(args: DecryptArgs, srcPtr: Ptr, destPtr: EngineDestination): EngineRequest
  {
    EngineRequest(args.secure, args.keyId, args.iv, LegacyModeOf(args.mode), LegacyPatternOf(args.pattern),
                  srcPtr, LegacySubSamplesOf(args.subSamples), |args.subSamples|, destPtr)
  }

  /** The whole chain of checks of `decrypt`, in source order. */
  function Validate(registry: Registry, args: DecryptArgs): Validation
  {
    var source := args.source;
    var destination := args.destination;
    if source.bufferId !in registry then
      Reject(ErrorDrmCannotHandle, "source decrypt buffer base not set")
    else if destination.bufferType == SHARED_MEMORY && destination.nonsecureMemory.bufferId !in registry then
      Reject(ErrorDrmCannotHandle, "destination decrypt buffer base not set")
    else
      match Accumulate(args.subSamples)
      case Overflow(ClearOverflow) => Reject(BadValue, "subsample clear size overflow")
      case Overflow(EncryptedOverflow) => Reject(BadValue, "subsample encrypted size overflow")
      case Total(destSize) =>
        match registry[source.bufferId]
        case None => Reject(ErrorDrmCannotHandle, "source is a nullptr")
        case Some(sourceBase) =>
          match SourceOffset(source, args.offset, sourceBase.size)
          case None => Reject(ErrorDrmCannotHandle, "invalid buffer size")
          case Some(srcOffset) =>
            var srcPtr := Ptr(sourceBase, srcOffset);
            if destination.bufferType == SHARED_MEMORY then
              var destBuffer := destination.nonsecureMemory;
              match registry[destBuffer.bufferId]
              case None => Reject(ErrorDrmCannotHandle, "destination is a nullptr")
              case Some(destBase) =>
                if !DestinationFits(destBuffer, destBase.size) then
                  Reject(ErrorDrmCannotHandle, "invalid buffer size")
                else if destSize > destBuffer.size then
                  Reject(BadValue, "subsample sum too large")
                else
                  Ready(EngineRequestOf(args, srcPtr, DestMemory(Ptr(destBase, destBuffer.offset))))
            else if destination.bufferType == NATIVE_HANDLE then
              if !args.secure then
                Reject(BadValue, "native handle destination must be secure")
              else
                Ready(EngineRequestOf(args, srcPtr, DestHandle(destination.secureMemory)))
            else
              Reject(BadValue, "invalid destination type")
  }

  /** What the caller receives when the engine behaves as `engine`. Bytes are
      reported only by an engine that was called, and never together with a
      failure status. */
  function Outcome(registry: Registry, args: DecryptArgs, engine: EngineRequest -> EngineReply): (r: DecryptResult)
    ensures r.bytesWritten > 0 ==> Validate(registry, args).Ready?
    ensures r.status != Ok ==> r.bytesWritten == 0
  {
    match Validate(registry, args)
    case Rejected(result) => result
    case Ready(request) => ResultOf(engine(request))
  }
}
