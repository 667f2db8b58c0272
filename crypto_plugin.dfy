/** The HAL crypto plugin object: it owns the shared-buffer registry, which
    `SetSharedBufferBase` updates in place, and forwards each validated
    `Decrypt` to the legacy plugin exactly once. */
module CryptoPluginHal {
  import opened DrmTypes
  import opened SubSamples
  import opened Validation
  import opened BufferRegistry

  class CryptoPlugin {
    /** The legacy plugin's decrypt, as a fixed function of its arguments. */
    const legacyDecrypt: EngineRequest -> EngineReply

    /** `mSharedBufferMap`. */
    var sharedBufferMap: Registry

    /** Every request handed to the legacy plugin so far, oldest first. */
    ghost var engineCalls: seq<EngineRequest>

    constructor (legacyDecrypt: EngineRequest -> EngineReply)
      ensures this.legacyDecrypt == legacyDecrypt
      ensures sharedBufferMap == map[] && engineCalls == []
    {
      this.legacyDecrypt := legacyDecrypt;
      sharedBufferMap := map[];
      engineCalls := [];
    }

    /** Records the region that mapping the caller's memory produced (`None` when
        mapping failed) under `bufferId`, replacing any earlier entry. */
    method SetSharedBufferBase(mapped: Option<Region>, bufferId: UInt32)
      modifies this
      ensures sharedBufferMap == Bind(old(sharedBufferMap), bufferId, mapped)
      ensures engineCalls == old(engineCalls)
    {
      sharedBufferMap := sharedBufferMap[bufferId := mapped];
    }

    /** `mSharedBufferMap[bufferId]` (`std::map::operator[]`): the stored entry,
        or, for an id not present, a null entry that is inserted first. */
    method Index(bufferId: UInt32) returns (entry: Option<Region>)
      modifies this
      ensures bufferId in old(sharedBufferMap) ==>
        sharedBufferMap == old(sharedBufferMap) && entry == old(sharedBufferMap)[bufferId]
      ensures bufferId !in old(sharedBufferMap) ==>
        sharedBufferMap == old(sharedBufferMap)[bufferId := None] && entry == None
      ensures engineCalls == old(engineCalls)
    {
      if bufferId !in sharedBufferMap {
        sharedBufferMap := sharedBufferMap[bufferId := None];
      }
      entry := sharedBufferMap[bufferId];
    }

    /** One call into the legacy plugin, recorded in `engineCalls`. */
    method CallLegacyDecrypt(request: EngineRequest) returns (reply: EngineReply)
      modifies this`engineCalls
      ensures reply == legacyDecrypt(request)
      ensures engineCalls == old(engineCalls) + [request]
    {
      reply := legacyDecrypt(request);
      engineCalls := engineCalls + [request];
    }

    /** Validates a decrypt request against the registry and, only when every
        check passes, calls the legacy plugin once. The registry is left as it
        was; the result is the one the decision chain prescribes, and the engine
        is called exactly when that chain ends in a request. */
    method Decrypt(secure: bool, keyId: Block16, iv: Block16, mode: Mode, pattern: Pattern,
                   subSamples: seq<SubSample>, source: SharedBuffer, offset: UInt64,
                   destination: DestinationBuffer)
      returns (r: DecryptResult)
      modifies this
      ensures sharedBufferMap == old(sharedBufferMap)
      ensures var args := DecryptArgs(secure, keyId, iv, mode, pattern, subSamples, source, offset, destination);
              r == Outcome(old(sharedBufferMap), args, legacyDecrypt)
      ensures var args := DecryptArgs(secure, keyId, iv, mode, pattern, subSamples, source, offset, destination);
              match Validate(old(sharedBufferMap), args)
              case Rejected(_) => engineCalls == old(engineCalls)
              case Ready(request) => engineCalls == old(engineCalls) + [request]
    {
      if source.bufferId !in sharedBufferMap {
        return DecryptResult(ErrorDrmCannotHandle, 0, "source decrypt buffer base not set");
      }
      if destination.bufferType == SHARED_MEMORY {
        var dest := destination.nonsecureMemory;
        if dest.bufferId !in sharedBufferMap {
          return DecryptResult(ErrorDrmCannotHandle, 0, "destination decrypt buffer base not set");
        }
      }

      var legacyMode := LegacyModeOf(mode);
      var legacyPattern := LegacyPatternOf(pattern);
      var legacySubSamples, accumulation := ConvertSubSamples(subSamples);
      if accumulation.Overflow? {
        if accumulation.kind == ClearOverflow {
          return DecryptResult(BadValue, 0, "subsample clear size overflow");
        }
        return DecryptResult(BadValue, 0, "subsample encrypted size overflow");
      }
      var destSize := accumulation.destSize;

      var sourceBase := Index(source.bufferId);
      if sourceBase.None? {
        return DecryptResult(ErrorDrmCannotHandle, 0, "source is a nullptr");
      }

      var totalSize := AddOverflow(source.offset, offset);
      var outOfBounds := totalSize.0;
      if !outOfBounds {
        totalSize := AddOverflow(totalSize.1, source.size);
        outOfBounds := totalSize.0 || totalSize.1 > sourceBase.value.size;
      }
      if outOfBounds {
        return DecryptResult(ErrorDrmCannotHandle, 0, "invalid buffer size");
      }
      var srcPtr := Ptr(sourceBase.value, source.offset + offset);

      var destPtr: EngineDestination;
      if destination.bufferType == SHARED_MEMORY {
        var destBuffer := destination.nonsecureMemory;
        var destBase := Index(destBuffer.bufferId);
        if destBase.None? {
          return DecryptResult(ErrorDrmCannotHandle, 0, "destination is a nullptr");
        }
        if (destBuffer.offset + destBuffer.size) % UINT64_MODULUS > destBase.value.size {
          return DecryptResult(ErrorDrmCannotHandle, 0, "invalid buffer size");
        }
        if destSize > destBuffer.size {
          return DecryptResult(BadValue, 0, "subsample sum too large");
        }
        destPtr := DestMemory(Ptr(destBase.value, destination.nonsecureMemory.offset));
      } else if destination.bufferType == NATIVE_HANDLE {
        if !secure {
          return DecryptResult(BadValue, 0, "native handle destination must be secure");
        }
        destPtr := DestHandle(destination.secureMemory);
      } else {
        return DecryptResult(BadValue, 0, "invalid destination type");
      }

      var reply := CallLegacyDecrypt(EngineRequest(secure, keyId, iv, legacyMode, legacyPattern, srcPtr,
                                                   legacySubSamples[..], |subSamples|, destPtr));
      r := ResultOf(reply);
    }
  }
}
