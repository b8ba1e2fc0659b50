/** What the threads of a node exchange: logged increments, update ranges and update buffers. */
module Messages {
  import opened Int32

  datatype Option<+T> = None | Some(value: T)

  // The ways the two threads abort the process, and the one undefined read (the front of an empty queue).
  datatype Check =
    | RangesNotContiguous
    | OwnUpdatesWithoutRange
    | OwnQueueEmpty
    | BatchWithoutOwnRange
    | BatchNotContained
    | BatchOutOfOrder
    | OwnKeyNotInBuffer

  datatype Result<+T> = Ok(value: T) | Fatal(check: Check)

  // One increment as its origin's propagator logged it.
  datatype Inc = Inc(key: int, delta: Value)

  // Sequence numbers st..end of one origin; st > end means that there is nothing.
  datatype Range = Range(st: int, end: int) {
    predicate Contains(r: Range) {
      st <= r.st && end >= r.end
    }

    predicate Empty() {
      st > end
    }
  }

  // An update buffer: one accumulated delta per key, and the range of sequence numbers it covers per origin.
  datatype Buffer = Buffer(updates: Table, ranges: map<int, Range>)

  function Lo(ranges: map<int, Range>, o: int): int {
    if o in ranges then ranges[o].st else 0
  }

  // One past the last sequence number of origin `o`.
  function Hi(ranges: map<int, Range>, o: int): int {
    if o in ranges then ranges[o].end + 1 else 0
  }

  function Restrict<V>(m: map<int, V>, keys: set<int>): map<int, V> {
    map k | k in m && k in keys :: m[k]
  }
}
