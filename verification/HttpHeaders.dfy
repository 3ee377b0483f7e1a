// Response headers, by their canonical names.

module HttpHeaders {
  type Headers = map<string, seq<string>>

  /** Marks a response that was answered from a stored record. */
  const REPLAYED := "Idempotent-Replayed"

  /** The first value, or "" when there is none. */
  function Get(h: Headers, name: string): string {
    if name in h && h[name] != [] then h[name][0] else ""
  }

  /** The first value of every header that has one. */
  function FirstValues(h: Headers): map<string, string> {
    map name | name in h && h[name] != [] :: h[name][0]
  }

  /** The headers with each of `values` set as the only value of its name. */
  function SetAll(h: Headers, values: map<string, string>): Headers {
    map name | name in h.Keys + values.Keys :: if name in values then [values[name]] else h[name]
  }

  predicate MarkedReplayed(h: Headers) {
    Get(h, REPLAYED) == "true"
  }
}
