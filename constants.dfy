/** Configuration values of the proxy (src/constants.rs). */
module Constants {

  /** Number of entries the in-memory LRU tier holds at most. */
  const MAX_CACHE_SIZE: nat := 20

  /** Largest body, in bytes, that is held in memory or cached at all (100 MiB). */
  const MAX_FILE_SIZE: nat := 100 * 1024 * 1024

  /** Per-attempt timeout; time itself is not modelled, only the timed-out outcome. */
  const TIMEOUT_SECONDS: nat := 30

  /** Directory of the disk tier. */
  const CACHE_DIR: string := "cache"

  /** Extra attempts after the first failed one. */
  const MAX_RETRIES: nat := 3

  /** Pause between two attempts; only the number of pauses is modelled. */
  const RETRY_DELAY_MS: nat := 1000
}
