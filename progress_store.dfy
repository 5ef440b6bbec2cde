/**
 * The JSON progress file of the two CircleCI scripts: a map from composite
 * string keys to the last job number recorded for that key.
 *
 * The file is held in memory as a `present` flag and the map it would
 * decode to; `json.load` / `json.dump` are taken to round-trip the map.
 */
module ProgressStore {
  import opened Text

  type Progress = map<string, int>

  /** `progress.get(key, -1)`: an absent key reads as the sentinel -1. */
  function Lookup(p: Progress, key: string): (v: int)
    ensures key in p ==> v == p[key]
    ensures key !in p ==> v == -1
  {
    if key in p then p[key] else -1
  }

  /** `has_completed`: the stored number, or -1 when absent, is at least `n`. */
  predicate Completed(p: Progress, key: string, n: int) {
    Lookup(p, key) >= n
  }

  /** `any(key.startswith(prefix) for key in progress)` */
  predicate AnyKeyStartsWith(p: Progress, prefix: string) {
    exists k | k in p :: StartsWith(k, prefix)
  }

  /** The key `f"{slug}-{a}-{b}"` both scripts build. */
  function CompositeKey(slug: string, a: string, b: string): (key: string)
    ensures StartsWith(key, slug + "-" + a)
    ensures |key| == |slug| + |a| + |b| + 2
  {
    var key := slug + "-" + a + "-" + b;
    assert key[..|slug + "-" + a|] == slug + "-" + a;
    key
  }

  /** A key is completed for `n` iff it is stored with a value of at least `n`, or absent with `n` at most -1. */
  lemma CompletedIff(p: Progress, key: string, n: int)
    ensures Completed(p, key, n) <==> (key in p && p[key] >= n) || (key !in p && n <= -1)
  {
  }

  /** After recording `n` for `key`, exactly the numbers up to `n` are completed for it, and no other key changes. */
  lemma CompletedAfterRecord(p: Progress, key: string, n: int, m: int, other: string)
    requires other != key
    ensures Completed(p[key := n], key, m) <==> m <= n
    ensures Lookup(p[key := n], other) == Lookup(p, other)
  {
  }

  /** Recording is last-write-wins: a smaller number replaces a larger one. */
  lemma RecordOverwritesLarger()
    ensures var p: Progress := map["org/repo-p1-w1" := 5];
      Lookup(p["org/repo-p1-w1" := 3], "org/repo-p1-w1") == 3 &&
      !Completed(p["org/repo-p1-w1" := 3], "org/repo-p1-w1", 5) &&
      Completed(p, "org/repo-p1-w1", 5)
  {
  }

  /** An empty store (the missing file) completes no non-negative job and has no key with any prefix. */
  lemma EmptyStoreHasNothing(key: string, n: int, prefix: string)
    requires n >= 0
    ensures !Completed(map[], key, n)
    ensures !AnyKeyStartsWith(map[], prefix)
  {
  }

  /** The progress file on disk. */
  class ProgressFile {
    /** `os.path.exists(PROGRESS_FILE)` */
    var present: bool
    /** what `json.load` returns when the file exists */
    var saved: Progress

    constructor (present: bool, saved: Progress)
      ensures this.present == present && this.saved == saved
    {
      this.present := present;
      this.saved := saved;
    }

    /** `read_progress`: the saved map, or `{}` when the file does not exist. */
    function Load(): (p: Progress)
      reads this
      ensures !present ==> p == map[]
      ensures present ==> p == saved
    {
      if present then saved else map[]
    }

    /** `has_completed` on the freshly loaded file. */
    function HasCompleted(key: string, n: int): (r: bool)
      reads this
      ensures r <==> Completed(Load(), key, n)
      ensures !present && n >= 0 ==> !r
    {
      Lookup(Load(), key) >= n
    }

    /**
     * `write_progress`: load, set `key` to `n` (overwriting, never taking a
     * maximum), and write the whole map back, creating the file.
     */
    method Write(key: string, n: int)
      modifies this
      ensures present
      ensures Load() == old(Load())[key := n]
      ensures forall m :: HasCompleted(key, m) <==> m <= n
      ensures forall k :: k != key ==> Lookup(Load(), k) == Lookup(old(Load()), k)
    {
      var progress := Load();
      progress := progress[key := n];
      saved := progress;
      present := true;
    }
  }
}
