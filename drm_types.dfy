/** Value types of the DRM crypto HAL (version 1.0) and of the legacy crypto
    plugin that the HAL shim forwards to, with the machine integer widths they
    are declared with. */
module DrmTypes {

  const UINT32_MODULUS: int := 0x1_0000_0000
  const INT32_MODULUS_HALF: int := 0x8000_0000
  const UINT64_MODULUS: int := 0x1_0000_0000_0000_0000

  /** 2^64: `size_t` (and `ssize_t`) are 64 bits wide on the targets the shim is built for. */
  const SIZE_T_MODULUS: int := 0x1_0000_0000_0000_0000
  const SIZE_MAX: int := SIZE_T_MODULUS - 1

  type Byte = x: int | 0 <= x < 0x100
  type UInt32 = x: int | 0 <= x < 0x1_0000_0000
  type UInt64 = x: int | 0 <= x < 0x1_0000_0000_0000_0000
  type SizeT = x: int | 0 <= x < SIZE_T_MODULUS
  type SSizeT = x: int | -SIZE_T_MODULUS / 2 <= x < SIZE_T_MODULUS / 2

  /** `hidl_array<uint8_t, 16>`: the key id and the initialisation vector. */
  type Block16 = s: seq<Byte> | |s| == 16
    witness [0, 0, 0, 0, 0, 0, 0, 0, 0, 0, 0, 0, 0, 0, 0, 0]

  datatype Option<+T> = None | Some(value: T)

  // ---------------------------------------------------------------------
  // HAL side (the caller's view)
  // ---------------------------------------------------------------------

  datatype Mode = Unencrypted | AesCtr | AesCbcCts | AesCbc

  datatype Pattern = Pattern(encryptBlocks: UInt32, skipBlocks: UInt32)

  datatype SubSample = SubSample(numBytesOfClearData: UInt32, numBytesOfEncryptedData: UInt32)

  /** A window of a registered shared buffer, named by its buffer id. */
  datatype SharedBuffer = SharedBuffer(bufferId: UInt32, offset: UInt64, size: UInt64)

  /** `BufferType` travels as a raw `uint32_t`; only two values are named. */
  type BufferType = UInt32
  const SHARED_MEMORY: BufferType := 0
  const NATIVE_HANDLE: BufferType := 1

  /** An opaque handle to secure (hardware-protected) memory; never inspected here. */
  datatype NativeHandle = NativeHandle(token: nat)

  /** The HAL's `DestinationBuffer` record: a tag and both possible payloads. */
  datatype DestinationBuffer =
    DestinationBuffer(bufferType: BufferType, nonsecureMemory: SharedBuffer, secureMemory: NativeHandle)

  /** The status reported to the caller. `FromLegacy(code)` stands for the
      conversion of a non-zero legacy `status_t` code; that conversion is not
      modelled, so it may denote the same status as `BadValue` or
      `ErrorDrmCannotHandle`. */
  datatype Status = Ok | BadValue | ErrorDrmCannotHandle | FromLegacy(code: int)

  /** What the completion callback receives: status, bytes written, detail message. */
  datatype DecryptResult = DecryptResult(status: Status, bytesWritten: UInt32, detailMessage: string)

  // ---------------------------------------------------------------------
  // Memory: mapped regions and raw addresses
  // ---------------------------------------------------------------------

  /** A mapped shared-memory region: which memory it is, and its `getSize()`. */
  datatype Region = Region(memory: nat, size: UInt64)

  /** A raw address, as the region it was derived from and a byte offset from that region's base. */
  datatype Ptr = Ptr(region: Region, offset: nat)

  /** `mSharedBufferMap`: buffer id to mapped region, `None` where mapping failed. */
  type Registry = map<UInt32, Option<Region>>

  // ---------------------------------------------------------------------
  // Legacy plugin side (the engine's view)
  // ---------------------------------------------------------------------

  datatype LegacyMode = KModeUnencrypted | KModeAesCtr | KModeAesWv | KModeAesCbc

  datatype LegacyPattern = LegacyPattern(mEncryptBlocks: UInt32, mSkipBlocks: UInt32)

  datatype LegacySubSample = LegacySubSample(mNumBytesOfClearData: UInt32, mNumBytesOfEncryptedData: UInt32)

  /** The destination argument of the legacy decrypt: a plain address or a secure handle. */
  datatype EngineDestination = DestMemory(ptr: Ptr) | DestHandle(handle: NativeHandle)

  /** The arguments of one call to the legacy plugin's decrypt. */
  datatype EngineRequest = EngineRequest(
    secure: bool,
    keyId: Block16,
    iv: Block16,
    mode: LegacyMode,
    pattern: LegacyPattern,
    srcPtr: Ptr,
    subSamples: seq<LegacySubSample>,
    numSubSamples: nat,
    destPtr: EngineDestination)

  /** What the legacy decrypt gives back: bytes written or a negative error, and a detail message. */
  datatype EngineReply = EngineReply(result: SSizeT, detailMessage: string)
}
