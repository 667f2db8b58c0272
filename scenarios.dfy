/** Concrete calls of `decrypt` worked through the decision chain: the
    ordinary success path, a source window past the end of its region,
    subsamples that cannot fit their destination, the two ways in which a
    request that passes every check can still name bytes outside a region, and
    a negative engine result that reads as success. */
module Scenarios {
  import opened DrmTypes
  import opened SubSamples
  import opened Validation
  import opened BufferRegistry
  import CryptoPluginHal

  const ZERO_BLOCK: Block16 := [0, 0, 0, 0, 0, 0, 0, 0, 0, 0, 0, 0, 0, 0, 0, 0]

  /** A 1024-byte region bound as buffer 1. */
  const REGION_1024: Region := Region(7, 1024)
  const REGISTRY_1024: Registry := Bind(map[], 1, Some(REGION_1024))

  function SharedDestination(dest: SharedBuffer): DestinationBuffer
  {
    DestinationBuffer(SHARED_MEMORY, dest, NativeHandle(0))
  }

  /** Decrypting 100 clear and 200 encrypted bytes from the start of buffer 1
      into the start of the same buffer: both addresses are the region's base,
      the engine is asked for 300 bytes, and an engine answer of 300 is
      reported as success with 300 bytes. */
  lemma ScenarioSuccess()
    ensures var args := DecryptArgs(false, ZERO_BLOCK, ZERO_BLOCK, AesCtr, Pattern(0, 0),
                                    [SubSample(100, 200)], SharedBuffer(1, 0, 300), 0,
                                    SharedDestination(SharedBuffer(1, 0, 300)));
            var v := Validate(REGISTRY_1024, args);
            && Accumulate(args.subSamples) == Total(300)
            && v.Ready?
            && v.request.srcPtr == Ptr(REGION_1024, 0)
            && v.request.destPtr == DestMemory(Ptr(REGION_1024, 0))
            && v.request.subSamples == [LegacySubSample(100, 200)]
            && Outcome(REGISTRY_1024, args, (q: EngineRequest) => EngineReply(300, "")) == DecryptResult(Ok, 300, "")
  {
  }

  /** A source window starting at 900 and 150 bytes long ends at 1050, past the
      1024-byte region: CANNOT_HANDLE, and the engine is not called. */
  lemma ScenarioSourcePastEnd()
    ensures var args := DecryptArgs(false, ZERO_BLOCK, ZERO_BLOCK, AesCtr, Pattern(0, 0),
                                    [SubSample(50, 100)], SharedBuffer(1, 0, 150), 900,
                                    SharedDestination(SharedBuffer(1, 0, 150)));
            Validate(REGISTRY_1024, args) == Reject(ErrorDrmCannotHandle, "invalid buffer size")
  {
  }

  /** Two subsamples of 0xFFFFFFFF clear and 0xFFFFFFFF encrypted bytes add up
      to 4 * 0xFFFFFFFF, which fits a 64-bit `size_t`: the accumulation does not
      overflow, and the call is rejected with BAD_VALUE by the later check of
      the total against the destination's 300 bytes. */
  lemma ScenarioLargeSubsamples()
    ensures var args := DecryptArgs(false, ZERO_BLOCK, ZERO_BLOCK, AesCtr, Pattern(0, 0),
                                    [SubSample(0xFFFF_FFFF, 0xFFFF_FFFF), SubSample(0xFFFF_FFFF, 0xFFFF_FFFF)],
                                    SharedBuffer(1, 0, 300), 0, SharedDestination(SharedBuffer(1, 0, 300)));
            && Accumulate(args.subSamples) == Total(4 * 0xFFFF_FFFF)
            && Validate(REGISTRY_1024, args) == Reject(BadValue, "subsample sum too large")
  {
  }

  /** A 16-byte region bound as buffer 1. */
  const REGION_16: Region := Region(8, 16)
  const REGISTRY_16: Registry := Bind(map[], 1, Some(REGION_16))

  /** The destination window check wraps: a destination at offset 2^64 - 1 of
      size 1 passes it (the sum wraps to 0), and the engine is asked to write
      outside the 16-byte region. `Ptr.offset` is not reduced modulo 2^64, so
      the model places that byte 2^64 - 1 bytes past the base; with 64-bit
      address arithmetic it lands one byte before the base. */
  lemma DestinationWrapEscapesRegion()
    ensures var args := DecryptArgs(false, ZERO_BLOCK, ZERO_BLOCK, AesCtr, Pattern(0, 0),
                                    [SubSample(1, 0)], SharedBuffer(1, 0, 1), 0,
                                    SharedDestination(SharedBuffer(1, UINT64_MODULUS - 1, 1)));
            var v := Validate(REGISTRY_16, args);
            && v.Ready?
            && v.request.destPtr == DestMemory(Ptr(REGION_16, UINT64_MODULUS - 1))
            && v.request.destPtr.ptr.offset + Sum(args.subSamples) > REGION_16.size
  {
  }

  /** The source window is checked against `source.size`, not against the
      subsample total: with an empty source window and a secure native-handle
      destination (which has no size check), the engine is asked to read 4096
      bytes from a 16-byte region. */
  lemma SourceReadExceedsWindow()
    ensures var args := DecryptArgs(true, ZERO_BLOCK, ZERO_BLOCK, AesCtr, Pattern(0, 0),
                                    [SubSample(0, 4096)], SharedBuffer(1, 0, 0), 0,
                                    DestinationBuffer(NATIVE_HANDLE, SharedBuffer(1, 0, 0), NativeHandle(3)));
            var v := Validate(REGISTRY_16, args);
            && v.Ready?
            && v.request.srcPtr == Ptr(REGION_16, 0)
            && v.request.srcPtr.offset + Sum(args.subSamples) > REGION_16.size
  {
  }

  /** A negative engine result whose low 32 bits are zero is stored into the
      `uint32_t` status as 0, which is `OK`: the caller sees success with no
      bytes written. */
  lemma NegativeResultReadsAsOk()
    ensures ResultOf(EngineReply(-0x1_0000_0000, "")) == DecryptResult(Ok, 0, "")
  {
  }

  /** A client of the plugin object: binding, then a call on an unbound source
      and a successful call, as the caller sees them. */
  method ClientSession()
  {
    var plugin := new CryptoPluginHal.CryptoPlugin((q: EngineRequest) => EngineReply(300, "done"));
    plugin.SetSharedBufferBase(Some(REGION_1024), 1);
    assert plugin.sharedBufferMap == REGISTRY_1024;

    var r := plugin.Decrypt(false, ZERO_BLOCK, ZERO_BLOCK, AesCtr, Pattern(0, 0), [SubSample(100, 200)],
                            SharedBuffer(2, 0, 300), 0, SharedDestination(SharedBuffer(1, 0, 300)));
    assert r.status == ErrorDrmCannotHandle && plugin.engineCalls == [];

    r := plugin.Decrypt(false, ZERO_BLOCK, ZERO_BLOCK, AesCtr, Pattern(0, 0), [SubSample(100, 200)],
                        SharedBuffer(1, 0, 300), 0, SharedDestination(SharedBuffer(1, 0, 300)));
    assert r == DecryptResult(Ok, 300, "done") && |plugin.engineCalls| == 1;
    assert plugin.sharedBufferMap == REGISTRY_1024;
  }
}
