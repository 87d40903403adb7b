/**
  The process-wide counters of cached request bodies, and the test whether another body may go to disk.
 */
module CacheStats {

  datatype Kind = InMemory | OnDisk

  datatype Stats = Stats(
    diskFiles: int, diskBytes: int, memoryBuffers: int, memoryBytes: int, diskHits: int, memoryHits: int)

  datatype Config = Config(enabled: bool, threshold: int, maximum: int)

  function Opened(s: Stats, kind: Kind, size: int): Stats {
    if kind.OnDisk?
    then s.(diskFiles := s.diskFiles + 1, diskBytes := s.diskBytes + size)
    else s.(memoryBuffers := s.memoryBuffers + 1, memoryBytes := s.memoryBytes + size)
  }

  function AtLeastZero(x: int): int { if x < 0 then 0 else x }

  /** Only the disk counters are kept from going below zero. */
  function Released(s: Stats, kind: Kind, size: int): Stats {
    if kind.OnDisk?
    then s.(diskFiles := AtLeastZero(s.diskFiles - 1), diskBytes := AtLeastZero(s.diskBytes - size))
    else s.(memoryBuffers := s.memoryBuffers - 1, memoryBytes := s.memoryBytes - size)
  }

  /** Whether releasing a body would push a counter below zero. */
  predicate Underflows(s: Stats, kind: Kind, size: int) {
    if kind.OnDisk? then s.diskFiles < 1 || s.diskBytes < size else s.memoryBuffers < 1 || s.memoryBytes < size
  }

  function Hit(s: Stats, kind: Kind): Stats {
    if kind.OnDisk? then s.(diskHits := s.diskHits + 1) else s.(memoryHits := s.memoryHits + 1)
  }

  predicate DiskAvailable(s: Stats, config: Config, size: int) {
    config.enabled && s.diskBytes + size <= config.maximum
  }

  class Counters {
    var diskFiles: int
    var diskBytes: int
    var memoryBuffers: int
    var memoryBytes: int
    var diskHits: int
    var memoryHits: int

    constructor ()
      ensures View() == Stats(0, 0, 0, 0, 0, 0)
    {
      diskFiles, diskBytes, memoryBuffers, memoryBytes, diskHits, memoryHits := 0, 0, 0, 0, 0, 0;
    }

    function View(): Stats
      reads this
    {
      Stats(diskFiles, diskBytes, memoryBuffers, memoryBytes, diskHits, memoryHits)
    }

    method IncrementDiskFiles(size: int)
      modifies this
      ensures View() == Opened(old(View()), OnDisk, size)
    {
      diskFiles := diskFiles + 1;
      diskBytes := diskBytes + size;
    }

    method DecrementDiskFiles(size: int)
      modifies this
      ensures View() == Released(old(View()), OnDisk, size)
    {
      diskFiles := diskFiles - 1;
      if diskFiles < 0 {
        diskFiles := 0;
      }
      diskBytes := diskBytes - size;
      if diskBytes < 0 {
        diskBytes := 0;
      }
    }

    method IncrementMemoryBuffers(size: int)
      modifies this
      ensures View() == Opened(old(View()), InMemory, size)
    {
      memoryBuffers := memoryBuffers + 1;
      memoryBytes := memoryBytes + size;
    }

    method DecrementMemoryBuffers(size: int)
      modifies this
      ensures View() == Released(old(View()), InMemory, size)
    {
      memoryBuffers := memoryBuffers - 1;
      memoryBytes := memoryBytes - size;
    }

    method CountHit(kind: Kind)
      modifies this
      ensures View() == Hit(old(View()), kind)
    {
      if kind.OnDisk? {
        diskHits := diskHits + 1;
      } else {
        memoryHits := memoryHits + 1;
      }
    }
  }
}
