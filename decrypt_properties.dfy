/** What the decision chain of `decrypt` guarantees: which inputs never reach
    the engine, in what order errors take precedence, and what every request
    that does reach the engine satisfies. */
module DecryptProperties {
  import opened DrmTypes
  import opened SubSamples
  import opened Validation
  import opened BufferRegistry

  /** The source passes every check before destination routing: it is bound to
      a mapped region, the subsamples add up within `size_t`, and the window
      `source.offset + offset + source.size` lies within the region. */
  predicate SourceAccepted(registry: Registry, args: DecryptArgs)
  {
    && args.source.bufferId in registry
    && registry[args.source.bufferId].Some?
    && Sum(args.subSamples) <= SIZE_MAX
    && args.source.offset + args.offset + args.source.size <= registry[args.source.bufferId].value.size
  }

  /** A destination whose buffer id must be bound: a shared-memory one. */
  predicate DestinationIdBound(registry: Registry, args: DecryptArgs)
  {
    args.destination.bufferType == SHARED_MEMORY ==> args.destination.nonsecureMemory.bufferId in registry
  }

  /** A call that is rejected delivers no bytes and a failure status. */
  lemma RejectionWritesNothing(registry: Registry, args: DecryptArgs)
    requires Validate(registry, args).Rejected?
    ensures Validate(registry, args).result.bytesWritten == 0
    ensures Validate(registry, args).result.status in {BadValue, ErrorDrmCannotHandle}
  {
  }

  /** A source id, or a shared-memory destination id, that was never bound is
      rejected with CANNOT_HANDLE and no bytes, for every offset, size and
      subsample list; the engine is not called. */
  lemma UnboundBufferRejected(registry: Registry, args: DecryptArgs)
    requires args.source.bufferId !in registry || !DestinationIdBound(registry, args)
    ensures Validate(registry, args).Rejected?
    ensures Validate(registry, args).result.status == ErrorDrmCannotHandle
    ensures Validate(registry, args).result.bytesWritten == 0
  {
  }

  /** Once both ids are known, subsamples whose total does not fit in `size_t`
      are rejected with BAD_VALUE and no bytes, before any address is formed. */
  lemma OverflowRejectedAsBadValue(registry: Registry, args: DecryptArgs)
    requires args.source.bufferId in registry && DestinationIdBound(registry, args)
    requires Sum(args.subSamples) > SIZE_MAX
    ensures Validate(registry, args).Rejected?
    ensures Validate(registry, args).result.status == BadValue
    ensures Validate(registry, args).result.bytesWritten == 0
  {
    AccumulateIsCheckedSum(args.subSamples);
  }

  /** Error precedence follows the source: an overflowing subsample list is
      reported as BAD_VALUE even when the source's mapping failed. */
  lemma OverflowPrecedesUnmappedSource(registry: Registry, args: DecryptArgs)
    requires args.source.bufferId in registry && registry[args.source.bufferId].None?
    requires DestinationIdBound(registry, args)
    requires Sum(args.subSamples) > SIZE_MAX
    ensures Validate(registry, args).Rejected?
    ensures Validate(registry, args).result.status == BadValue
  {
    AccumulateIsCheckedSum(args.subSamples);
  }

  /** Once the ids are known and the subsamples fit, a source whose mapping
      failed, or whose window leaves its region, is rejected with CANNOT_HANDLE. */
  lemma BadSourceRejected(registry: Registry, args: DecryptArgs)
    requires args.source.bufferId in registry && DestinationIdBound(registry, args)
    requires Sum(args.subSamples) <= SIZE_MAX
    requires !SourceAccepted(registry, args)
    ensures Validate(registry, args).Rejected?
    ensures Validate(registry, args).result.status == ErrorDrmCannotHandle
    ensures Validate(registry, args).result.bytesWritten == 0
  {
    AccumulateIsCheckedSum(args.subSamples);
  }

  /** A native-handle destination on a non-secure call never reaches the
      engine; once the source has passed its checks the result is BAD_VALUE. */
  lemma InsecureNativeHandleRejected(registry: Registry, args: DecryptArgs)
    requires args.destination.bufferType == NATIVE_HANDLE && !args.secure
    ensures Validate(registry, args).Rejected?
    ensures SourceAccepted(registry, args) ==>
      Validate(registry, args) == Reject(BadValue, "native handle destination must be secure")
  {
    AccumulateIsCheckedSum(args.subSamples);
  }

  /** A native-handle destination on a secure call, once the source has passed
      its checks, reaches the engine with the handle passed on unchanged: this
      route has no destination size check. */
  lemma SecureNativeHandleReachesEngine(registry: Registry, args: DecryptArgs)
    requires SourceAccepted(registry, args)
    requires args.destination.bufferType == NATIVE_HANDLE && args.secure
    ensures Validate(registry, args).Ready?
    ensures Validate(registry, args).request.destPtr == DestHandle(args.destination.secureMemory)
  {
    AccumulateIsCheckedSum(args.subSamples);
  }

  /** A destination type that is neither shared memory nor a native handle
      never reaches the engine. Its buffer id is never looked up: it is
      rejected with BAD_VALUE only after the source has passed its checks. */
  lemma UnknownDestinationRejectedLate(registry: Registry, args: DecryptArgs)
    requires args.destination.bufferType != SHARED_MEMORY && args.destination.bufferType != NATIVE_HANDLE
    ensures Validate(registry, args).Rejected?
    ensures SourceAccepted(registry, args) ==>
      Validate(registry, args) == Reject(BadValue, "invalid destination type")
  {
    AccumulateIsCheckedSum(args.subSamples);
  }

  /** For a shared-memory destination past the source checks, the checks run
      in order: unmapped destination, then the (wrapping) window check, then the
      subsample total against `dest.size`; otherwise the engine is called. */
  lemma SharedDestinationChecks(registry: Registry, args: DecryptArgs)
    requires SourceAccepted(registry, args)
    requires args.destination.bufferType == SHARED_MEMORY
    requires args.destination.nonsecureMemory.bufferId in registry
    ensures var dest := args.destination.nonsecureMemory;
            var v := Validate(registry, args);
            if registry[dest.bufferId].None? then
              v == Reject(ErrorDrmCannotHandle, "destination is a nullptr")
            else if (dest.offset + dest.size) % UINT64_MODULUS > registry[dest.bufferId].value.size then
              v == Reject(ErrorDrmCannotHandle, "invalid buffer size")
            else if Sum(args.subSamples) > dest.size then
              v == Reject(BadValue, "subsample sum too large")
            else
              v.Ready? && v.request.destPtr == DestMemory(Ptr(registry[dest.bufferId].value, dest.offset))
  {
    AccumulateIsCheckedSum(args.subSamples);
  }

  /** Every request that reaches the engine reads from the mapped source
      region at `source.offset + offset`, and the window of `source.size` bytes
      from there lies within that region. */
  lemma ReadySourceInBounds(registry: Registry, args: DecryptArgs)
    requires Validate(registry, args).Ready?
    ensures SourceAccepted(registry, args)
    ensures Validate(registry, args).request.srcPtr ==
      Ptr(registry[args.source.bufferId].value, args.source.offset + args.offset)
  {
    AccumulateIsCheckedSum(args.subSamples);
  }

  /** Every request that reaches the engine has a destination of one of the two
      known types: a shared-memory destination is mapped, passed the window
      check, has room for the whole subsample total and is addressed at
      `dest.offset`; a native handle is passed unchanged on a secure call. */
  lemma ReadyDestinationChecked(registry: Registry, args: DecryptArgs)
    requires Validate(registry, args).Ready?
    ensures var dest := args.destination.nonsecureMemory;
            var request := Validate(registry, args).request;
            args.destination.bufferType == SHARED_MEMORY ==>
              && dest.bufferId in registry
              && registry[dest.bufferId].Some?
              && (dest.offset + dest.size) % UINT64_MODULUS <= registry[dest.bufferId].value.size
              && Sum(args.subSamples) <= dest.size
              && request.destPtr == DestMemory(Ptr(registry[dest.bufferId].value, dest.offset))
    ensures args.destination.bufferType == NATIVE_HANDLE ==>
              && args.secure
              && Validate(registry, args).request.destPtr == DestHandle(args.destination.secureMemory)
    ensures args.destination.bufferType == SHARED_MEMORY || args.destination.bufferType == NATIVE_HANDLE
  {
    AccumulateIsCheckedSum(args.subSamples);
  }

  /** Every request that reaches the engine carries the caller's flag, key, IV,
      translated mode and copied pattern, and the subsamples in the same number,
      order and values. */
  lemma ReadyRequestCarriesInputs(registry: Registry, args: DecryptArgs)
    requires Validate(registry, args).Ready?
    ensures var request := Validate(registry, args).request;
            && request.secure == args.secure
            && request.keyId == args.keyId
            && request.iv == args.iv
            && ModeOfLegacy(request.mode) == args.mode
            && request.pattern.mEncryptBlocks == args.pattern.encryptBlocks
            && request.pattern.mSkipBlocks == args.pattern.skipBlocks
            && request.numSubSamples == |args.subSamples| == |request.subSamples|
            && request.subSamples == LegacySubSamplesOf(args.subSamples)
  {
  }

  /** When the destination window check did not wrap, every byte the engine
      writes to a shared-memory destination (the subsample total, starting at
      the destination address) lies within the destination region. */
  lemma EngineWritesWithinDestination(registry: Registry, args: DecryptArgs)
    requires Validate(registry, args).Ready?
    requires args.destination.bufferType == SHARED_MEMORY
    requires args.destination.nonsecureMemory.offset + args.destination.nonsecureMemory.size < UINT64_MODULUS
    ensures var destPtr := Validate(registry, args).request.destPtr;
            destPtr.DestMemory? && destPtr.ptr.offset + Sum(args.subSamples) <= destPtr.ptr.region.size
  {
    ReadyDestinationChecked(registry, args);
  }

  /** When the subsample total does not exceed `source.size`, every byte the
      engine reads (the subsample total, starting at the source address) lies
      within the source region. */
  lemma EngineReadsWithinSourceWhenCovered(registry: Registry, args: DecryptArgs)
    requires Validate(registry, args).Ready?
    requires Sum(args.subSamples) <= args.source.size
    ensures var srcPtr := Validate(registry, args).request.srcPtr;
            srcPtr.offset + Sum(args.subSamples) <= srcPtr.region.size
  {
  }

  /** The outcome depends on the registry only through the entries of the
      source id and, for a shared-memory destination, the destination id. */
  lemma ValidateReadsOnlyNamedEntries(a: Registry, b: Registry, args: DecryptArgs)
    requires AgreeOn(a, b, args.source.bufferId)
    requires args.destination.bufferType == SHARED_MEMORY ==> AgreeOn(a, b, args.destination.nonsecureMemory.bufferId)
    ensures Validate(a, args) == Validate(b, args)
  {
  }

  /** Binding an id that a call does not name leaves that call's outcome as it was. */
  lemma BindElsewhereKeepsValidation(registry: Registry, bufferId: UInt32, mapped: Option<Region>, args: DecryptArgs)
    requires bufferId != args.source.bufferId
    requires args.destination.bufferType == SHARED_MEMORY ==> bufferId != args.destination.nonsecureMemory.bufferId
    ensures Validate(Bind(registry, bufferId, mapped), args) == Validate(registry, args)
  {
  }
}
