/** The gate in front of key derivation: a counting semaphore with a high-water mark. */
module HashGate {
  import opened Wrappers

  datatype Shed = Cancelled | Unavailable

  /** The case the select of acquireHash takes. */
  datatype Event = SlotTaken | ContextDone | TimerFired

  function Max(a: int, b: int): int {
    if a < b then b else a
  }

  function Highest(floor: int, values: seq<int>): int {
    if values == [] then floor else Max(Highest(floor, values[..|values| - 1]), values[|values| - 1])
  }

  class HashGate {
    /** The number of slots; the gate is disabled when it is not positive. */
    const capacity: int
    var held: nat
    var inFlight: int
    var peak: int

    constructor (capacity: int)
      ensures this.capacity == capacity && held == inFlight == peak == 0
    {
      this.capacity := capacity;
      held, inFlight, peak := 0, 0, 0;
    }

    /** Counts one more derivation and lifts the mark to the new count. Between the i-th load of the mark and
        the compare-and-swap that follows it another goroutine may lift the mark to rivals[i]. */
    method EnterHash(rivals: seq<int>) returns (seen: nat)
      modifies this`inFlight, this`peak
      ensures inFlight == old(inFlight) + 1
      ensures seen <= |rivals| && peak == Max(Highest(old(peak), rivals[..seen]), inFlight)
    {
      inFlight := inFlight + 1;
      var n := inFlight;
      seen := 0;
      while true
        invariant seen <= |rivals| && peak == Highest(old(peak), rivals[..seen]) && inFlight == n == old(inFlight) + 1
        decreases n - peak
      {
        var loaded := peak;
        if n <= loaded {
          break;
        }
        if seen < |rivals| {
          assert rivals[..seen + 1][..seen] == rivals[..seen];
          peak := Max(peak, rivals[seen]);
          seen := seen + 1;
        }
        if peak == loaded {
          peak := n;
          break;
        }
      }
    }

    method ExitHash()
      modifies this`inFlight
      ensures inFlight == old(inFlight) - 1
    {
      inFlight := inFlight - 1;
    }

    /** Takes a slot and counts the derivation, or gives up without a trace. A select can take its send only
        while a slot is free. */
    method AcquireHash(event: Event, rivals: seq<int>) returns (r: Result<(), Shed>)
      requires 0 < capacity && event == SlotTaken ==> held < capacity
      modifies this
      ensures r.Ok? <==> capacity <= 0 || event == SlotTaken
      ensures r.Err? ==> unchanged(this) && (r.error == Cancelled <==> event == ContextDone)
      ensures r.Ok? ==> inFlight == old(inFlight) + 1 && held == old(held) + (if 0 < capacity then 1 else 0)
      ensures r.Ok? ==> exists k :: 0 <= k <= |rivals| && peak == Max(Highest(old(peak), rivals[..k]), inFlight)
    {
      if capacity <= 0 {
        var k := EnterHash(rivals);
        return Ok(());
      }
      match event
      case SlotTaken =>
        held := held + 1;
        var k := EnterHash(rivals);
        r := Ok(());
      case ContextDone =>
        r := Err(Cancelled);
      case TimerFired =>
        r := Err(Unavailable);
    }

    /** What the caller of a successful AcquireHash must do when its derivation is over. */
    method Release()
      requires 0 < capacity ==> 0 < held
      modifies this
      ensures inFlight == old(inFlight) - 1 && held == old(held) - (if 0 < capacity then 1 else 0) && peak == old(peak)
    {
      ExitHash();
      if 0 < capacity {
        held := held - 1;
      }
    }
  }
}
