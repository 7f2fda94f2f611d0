/**
  The process-wide reading snapshot (`sensorData` in firmware/aq.py): one
  dictionary, created empty at start-up, that the sensor thread merges
  each update into and that every sink reads.
 */
module Store {
  import opened Values

  class ReadingStore {
    var data: Snapshot

    constructor ()
      ensures data == []
    {
      data := [];
    }

    /** `sensorData.update(partial)`: last-write-wins per key, nothing removed. */
    method Merge(partial: Snapshot)
      modifies this
      ensures data == Update(old(data), partial)
    {
      data := Update(data, partial);
    }
  }
}
