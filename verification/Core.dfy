/** The domain types every port shares, after internal/core/core.go. */
module Core {
  datatype Option<+T> = None | Some(value: T)

  /** A fetched post. Times are nanoseconds on an unbounded line; `createdAt`
      is None where the original holds the zero time. */
  datatype Signal = Signal(
    source: string, id: string, title: string, url: string, permalink: string,
    author: string, body: string, tags: seq<string>, topComments: seq<string>,
    score: int, numComments: int, createdAt: Option<int>, fetchedAt: int,
    prenarrowed: bool)

  datatype Verdict = Verdict(
    bucket: string, scores: map<string, real>, fit: real,
    summary: string, reasoning: string)

  datatype Finding = Finding(beacon: string, signal: Signal, verdict: Verdict)

  /** The `max_age` setting after duration parsing. */
  datatype MaxAge = NoGate | Age(nanos: int) | Malformed

  datatype BeaconConfig = BeaconConfig(
    name: string, keywords: seq<string>, filter: string, maxAge: MaxAge,
    realtime: real, digest: real)
}
