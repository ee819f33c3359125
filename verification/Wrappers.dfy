/** Results that may be absent, and a guard for large definitions. */
module Wrappers {
  datatype Option<+T> = None | Some(value: T)

  /** Always true.  A definition guarded by "forall k :: k == N && Unfold(k) ==> ..." says the same as without the
      guard, but the verifier looks inside it only where Unfold(N) is mentioned. */
  predicate Unfold(k: int) {
    true
  }

  // What the guarded definitions are about.
  const IN_PICKS: int := 0    // picks, and compactions that run on them
  const IN_ENGINE: int := 1    // the invariant of the store in memory
  const IN_STEPS: int := 2    // single steps of runs
  const IN_EDITS: int := 3    // lists of version edits
  const IN_OUTPUTS: int := 4    // what a compaction writes
  const IN_REPLAY: int := 5    // log replay
  const IN_TABLES: int := 6    // tables that stand for what was flushed
  const IN_SYSTEM: int := 7    // the invariant of store and files
  const IN_LOGS: int := 8    // what the logs hold
  const IN_SCANS: int := 9    // scans of the user-facing iterator
  const IN_BYTE_SHIFT: int := 10    // dividing by eight bits
  const IN_XOR: int := 11    // exclusive or
  const IN_SHIFT: int := 12    // dividing by one bit
  const IN_SEAL: int := 13    // stored checksums
  const IN_FRAGMENT: int := 14    // log fragments
  const IN_LOG_FILE: int := 15    // whole log files
  const IN_BEFORE: int := 16    // the place of a log reader
  const IN_GROUP: int := 17    // group commit: the group being written
  const IN_GROUP_LOG: int := 18    // group commit: the log
  const IN_GROUP_SYNC: int := 19    // group commit: syncs
  const IN_GROUP_SNAPSHOT: int := 20    // group commit: snapshots
  const IN_BLOCK: int := 21    // blocks
  const IN_FILTER_BIT: int := 22    // bits of a filter
  const IN_WORD: int := 23    // stored words
  const IN_FILTER: int := 24    // filters
  const IN_BUCKETS: int := 26    // hash buckets
  const IN_LISTS: int := 27    // lists of a cache
  const IN_CACHE: int := 28    // the books of a cache
  const IN_HEADER: int := 29    // headers of write batches
  const IN_LEVELS: int := 30    // levels of a version edit
  const IN_WRITTEN: int := 31    // encoded version edits
  const IN_READING: int := 32    // version edits being decoded
  const IN_ITEM: int := 33    // fields of messages
  const IN_FINISH: int := 34    // the end of a compaction
  const IN_HISTORY: int := 35    // what a write adds
  const IN_CRC_TABLE: int := 36    // tables for checksums
  const IN_ENTRY: int := 37    // a block entry on any bytes
  const IN_NUMBER: int := 38    // variable-length numbers
  const IN_SEARCH: int := 39    // searches in a block
  const IN_EXAMPLE: int := 40    // flushes of the example runs
  const IN_QUIET: int := 41    // files that share no user key
  const IN_CALLERS: int := 42    // steps of the callers of Write
  const IN_MERGE: int := 43    // the merged input of a compaction
  const IN_INSTALL: int := 44    // installing a version
  const IN_CUTS: int := 45    // where the tables of a compaction end
  const IN_ORDER: int := 46    // when cache entries were given up
  const IN_FED: int := 47    // keys that a filter builder has got
  const IN_RESTARTS: int := 48    // where the restart points of a block lie
}
