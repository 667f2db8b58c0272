/** The registry of shared buffers, `mSharedBufferMap`: buffer id to the
    region that mapping it produced, or to `None` when the mapping failed. */
module BufferRegistry {
  import opened DrmTypes

  /** Recording a mapping for `bufferId`: the entry is always stored (also when
      mapping failed), replaces any earlier one, and no other id changes. */
  function Bind(registry: Registry, bufferId: UInt32, mapped: Option<Region>): (r: Registry)
    ensures bufferId in r && r[bufferId] == mapped
    ensures r.Keys == registry.Keys + {bufferId}
    ensures forall id :: id in registry && id != bufferId ==> r[id] == registry[id]
  {
    registry[bufferId := mapped]
  }

  /** Two registries hold the same entry (or both none) for `bufferId`. */
  predicate AgreeOn(a: Registry, b: Registry, bufferId: UInt32)
  {
    (bufferId in a <==> bufferId in b) && (bufferId in a ==> a[bufferId] == b[bufferId])
  }

  /** Binding the same region twice leaves the registry as binding it once. */
  lemma BindIdempotent(registry: Registry, bufferId: UInt32, mapped: Option<Region>)
    ensures Bind(Bind(registry, bufferId, mapped), bufferId, mapped) == Bind(registry, bufferId, mapped)
  {
  }

  /** Binding one id leaves every other id's entry as it was. */
  lemma BindKeepsOtherIds(registry: Registry, bufferId: UInt32, mapped: Option<Region>, other: UInt32)
    requires other != bufferId
    ensures AgreeOn(Bind(registry, bufferId, mapped), registry, other)
  {
  }
}
