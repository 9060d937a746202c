/** The per-client request counter of server.js (the `requestCount` Map):
    read, increment, write back. Entries are never removed. */
module RateLimit {

  /** `req.connection.remoteAddress`. */
  type ClientId = string

  type Counts = map<ClientId, nat>

  /** `requestCount.get(clientIP) || 0`: a client never seen counts 0. */
  function Count(m: Counts, c: ClientId): nat {
    if c in m then m[c] else 0
  }

  /** `requestCount.set(clientIP, (requestCount.get(clientIP) || 0) + 1)`. */
  function Bump(m: Counts, c: ClientId): (r: Counts)
    ensures Count(r, c) == Count(m, c) + 1
    ensures forall d :: d != c ==> Count(r, d) == Count(m, d)
    ensures r.Keys == m.Keys + {c}
  {
    m[c := Count(m, c) + 1]
  }
}
