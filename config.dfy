/**
 * The static configuration tables: rclone mount profiles and Docker resource
 * limits, each chosen by a profile name with `lite` as the fallback, and the
 * optional truncation of the library list.
 */
module Config {
  import opened Wrappers
  import opened Text

  // ---------------------------------------------------------------------------
  // get_rclone_profile
  // ---------------------------------------------------------------------------

  /** The twelve keys every rclone profile carries. */
  const RcloneKeys: set<string> := {
    "cache_size", "buffer_size", "read_chunk", "transfers", "checkers", "timeout",
    "contimeout", "low_level_retries", "retries", "retries_sleep", "dir_cache", "attr_timeout"
  }

  function RcloneEntry(cacheSize: string, bufferSize: string, readChunk: string, transfers: string,
                       checkers: string, timeout: string, contimeout: string, lowLevelRetries: string,
                       retries: string, retriesSleep: string, dirCache: string): map<string, string> {
    map["cache_size" := cacheSize, "buffer_size" := bufferSize, "read_chunk" := readChunk,
        "transfers" := transfers, "checkers" := checkers, "timeout" := timeout,
        "contimeout" := contimeout, "low_level_retries" := lowLevelRetries, "retries" := retries,
        "retries_sleep" := retriesSleep, "dir_cache" := dirCache, "attr_timeout" := "8760h"]
  }

  /** The four rclone profiles. */
  function RcloneProfiles(): map<string, map<string, string>> {
    map["lite" := RcloneEntry("5G", "64M", "32M", "2", "4", "60m", "300s", "10", "10", "30s", "24h"),
        "standard" := RcloneEntry("10G", "128M", "64M", "4", "8", "120m", "600s", "20", "20", "60s", "72h"),
        "power" := RcloneEntry("20G", "256M", "128M", "16", "32", "60m", "300s", "10", "10", "30s", "24h"),
        "superpower" := RcloneEntry("20G", "512M", "128M", "32", "64", "60m", "300s", "10", "10", "30s", "24h")]
  }

  /**
   * get_rclone_profile: the named profile, or `lite` for an unknown name.
   * Every profile has the same twelve keys and caches attributes for 8760 hours.
   */
  function GetRcloneProfile(profile: string): (p: map<string, string>)
    ensures p.Keys == RcloneKeys
    ensures p["attr_timeout"] == "8760h"
    ensures profile in RcloneProfiles() ==> p == RcloneProfiles()[profile]
    ensures profile !in RcloneProfiles() ==> p == RcloneProfiles()["lite"]
  {
    if profile in RcloneProfiles() then RcloneProfiles()[profile] else RcloneProfiles()["lite"]
  }

  // ---------------------------------------------------------------------------
  // get_docker_limits
  // ---------------------------------------------------------------------------

  const DockerKeys: set<string> := {"memory", "memory_swap", "cpus"}

  /** One entry of the limits table: memory and memory-plus-swap in gigabytes, and the CPU share. */
  datatype DockerSpec = DockerSpec(memoryGb: nat, memorySwapGb: nat, cpus: string)

  /** The four Docker limit entries. */
  function DockerLimits(): map<string, DockerSpec> {
    map["lite" := DockerSpec(4, 6, "2.0"),
        "standard" := DockerSpec(8, 10, "4.0"),
        "power" := DockerSpec(16, 18, "4.0"),
        "superpower" := DockerSpec(32, 34, "4.0")]
  }

  /** The dictionary form of an entry, sizes written `<n>g`. */
  function DockerEntry(spec: DockerSpec): map<string, string> {
    map["memory" := NatToString(spec.memoryGb) + "g",
        "memory_swap" := NatToString(spec.memorySwapGb) + "g",
        "cpus" := spec.cpus]
  }

  /** A Docker size written `<n>g`, in gigabytes. */
  function Gigabytes(s: string): Option<nat> {
    if |s| >= 2 && s[|s| - 1] == 'g' && IsDigits(s[..|s| - 1]) then Some(DigitsValue(s[..|s| - 1])) else None
  }

  /** Reading back a size written as `<n>g` gives `n`. */
  lemma GigabytesOfRendered(n: nat)
    ensures Gigabytes(NatToString(n) + "g") == Some(n)
  {
    var s := NatToString(n) + "g";
    assert s[..|s| - 1] == NatToString(n);
    DigitsValueOfNatToString(n);
  }

  /**
   * get_docker_limits: the named entry, or `lite` for an unknown name. In
   * every entry the memory-plus-swap ceiling is two gigabytes above the memory
   * ceiling.
   */
  function GetDockerLimits(profile: string): (l: map<string, string>)
    ensures l.Keys == DockerKeys
    ensures Gigabytes(l["memory"]).Some?
    ensures Gigabytes(l["memory_swap"]) == Some(Gigabytes(l["memory"]).value + 2)
    ensures profile in DockerLimits() ==> l == DockerEntry(DockerLimits()[profile])
    ensures profile !in DockerLimits() ==> l == DockerEntry(DockerLimits()["lite"])
  {
    var spec := if profile in DockerLimits() then DockerLimits()[profile] else DockerLimits()["lite"];
    GigabytesOfRendered(spec.memoryGb);
    GigabytesOfRendered(spec.memorySwapGb);
    DockerEntry(spec)
  }

  // ---------------------------------------------------------------------------
  // load_libraries
  // ---------------------------------------------------------------------------

  /**
   * load_libraries after the JSON file is read: `libraries[:limit]` when a
   * limit is given, with Python's slice rules (a negative limit drops that
   * many entries from the end), the whole list otherwise.
   */
  function LoadLibraries<T>(libraries: seq<T>, limit: Option<int>): (r: seq<T>)
    ensures r <= libraries
    ensures limit.None? ==> r == libraries
    ensures limit.Some? && 0 <= limit.value ==>
      |r| == if limit.value < |libraries| then limit.value else |libraries|
    ensures limit.Some? && limit.value < 0 ==>
      |r| == if |libraries| + limit.value < 0 then 0 else |libraries| + limit.value
  {
    match limit
    case None => libraries
    case Some(k) =>
      var end := if k < 0 then |libraries| + k else k;
      if end <= 0 then [] else if end >= |libraries| then libraries else libraries[..end]
  }
}
