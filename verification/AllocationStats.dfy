/** The global allocation counters, used by one thread at a time. */
module AllocationStats {
  import opened Numbers

  datatype Totals = Totals(
    allocations: nat, deallocations: nat,
    bytesAllocated: nat, bytesDeallocated: nat,
    currentBytes: nat, peakBytes: nat)

  const ZERO := Totals(0, 0, 0, 0, 0, 0)

  function AfterAllocation(t: Totals, size: nat): Totals {
    t.(allocations := t.allocations + 1,
    bytesAllocated := t.bytesAllocated + size,
    currentBytes := t.currentBytes + size,
    peakBytes := Max(t.peakBytes, t.currentBytes + size))
  }

  function AfterDeallocation(t: Totals, size: nat): Totals {
    t.(deallocations := t.deallocations + 1,
    bytesDeallocated := t.bytesDeallocated + size,
    currentBytes := if t.currentBytes >= size then t.currentBytes - size else 0)
  }

  class Stats {
    var totalAllocations: nat
    var totalDeallocations: nat
    var totalBytesAllocated: nat
    var totalBytesDeallocated: nat
    var currentBytes: nat
    var peakBytes: nat

    function Value(): Totals
      reads this
    {
      Totals(totalAllocations, totalDeallocations, totalBytesAllocated, totalBytesDeallocated, currentBytes, peakBytes)
    }

    constructor ()
      ensures Value() == ZERO
    {
      totalAllocations, totalDeallocations := 0, 0;
      totalBytesAllocated, totalBytesDeallocated := 0, 0;
      currentBytes, peakBytes := 0, 0;
    }

    method RecordAllocation(size: nat)
      modifies this
      ensures Value() == AfterAllocation(old(Value()), size)
    {
      totalAllocations := totalAllocations + 1;
      totalBytesAllocated := totalBytesAllocated + size;
      var prev := currentBytes;
      currentBytes := currentBytes + size;
      var current := prev + size;
      peakBytes := Max(peakBytes, current);
    }

    method RecordDeallocation(size: nat)
      modifies this
      ensures Value() == AfterDeallocation(old(Value()), size)
    {
      totalDeallocations := totalDeallocations + 1;
      totalBytesDeallocated := totalBytesDeallocated + size;
      currentBytes := if currentBytes >= size then currentBytes - size else 0;
    }

    method Reset()
      modifies this
      ensures Value() == ZERO
    {
      totalAllocations, totalDeallocations := 0, 0;
      totalBytesAllocated, totalBytesDeallocated := 0, 0;
      currentBytes, peakBytes := 0, 0;
    }
  }
}
