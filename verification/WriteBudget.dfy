/**
 Writing files and the space in the log together: filewrite() (kernel/file.c) cuts a write into
 operations that stay below what the log has room for (kernel/log.c).
 */
module WriteBudget {
  import opened Params
  import opened Sequences
  import FsFiles
  import FsLog
  import LogSpace

  /**
   However the chunks of any number of writers are interleaved, and with any commits in between:
   a writer that has logged part of a chunk of filewrite() can log any other block of it, within
   its budget and without running into the panic of log_write().
   */
  lemma WritersNeverPanic(t: LogSpace.State, k: nat, chunk: set<nat>, b: nat)
    requires LogSpace.Reachable(FsFiles.CHUNK_LOGS, t) && k < |t.ops|
    requires |chunk| <= FsFiles.CHUNK_LOGS && t.ops[k] <= chunk && b in chunk
    ensures FsFiles.CHUNK_LOGS < MAXOPBLOCKS
    ensures LogSpace.Attempts(FsFiles.CHUNK_LOGS, t, k, b) && !FsLog.TooBig(|t.lh|, LogSpace.NLOG)
  {
    LogSpace.PanicUnreachableIff(FsFiles.CHUNK_LOGS);
    SubsetCard(t.ops[k] + {b}, chunk);
    assert LogSpace.Attempts(FsFiles.CHUNK_LOGS, t, k, b);
  }
}
