/** A run of the server over a sequence of requests, as repeated calls of
    `Server.Handle` produce it (`HandleAll` proves the correspondence), and the rate-limit properties of such
    runs: the counter counts every request, rejected ones included, and a
    client is refused with 429 from its 101st request on, for good. */
module Traces {
  import opened Http
  import opened Handlers
  import opened RateLimit
  import opened Pipeline

  /** The responses to `reqs`, served in order starting from the counters `m`. */
  function Serve(m: Counts, reqs: seq<Request>, p: Parsers): (r: seq<Response>)
    ensures |r| == |reqs|
    decreases |reqs|
  {
    if reqs == [] then []
    else
      var m' := Bump(m, reqs[0].client);
      [Decide(Count(m', reqs[0].client), reqs[0], p)] + Serve(m', reqs[1..], p)
  }

  /** The counters after serving `reqs`. */
  function CountsAfter(m: Counts, reqs: seq<Request>): Counts
    decreases |reqs|
  {
    if reqs == [] then m else CountsAfter(Bump(m, reqs[0].client), reqs[1..])
  }

  /** How many of `reqs` come from client `c`. */
  function Occurrences(reqs: seq<Request>, c: ClientId): nat {
    if reqs == [] then 0
    else (if reqs[0].client == c then 1 else 0) + Occurrences(reqs[1..], c)
  }

  /** Every request is counted, whatever its response, and nothing else is. */
  lemma {:induction false} CountsEveryRequest(m: Counts, reqs: seq<Request>, c: ClientId)
    ensures Count(CountsAfter(m, reqs), c) == Count(m, c) + Occurrences(reqs, c)
    ensures m.Keys <= CountsAfter(m, reqs).Keys
    decreases |reqs|
  {
    if reqs != [] {
      CountsEveryRequest(Bump(m, reqs[0].client), reqs[1..], c);
    }
  }

  lemma {:induction false} OccurrencesPrefix(reqs: seq<Request>, i: nat, j: nat, c: ClientId)
    requires i <= j <= |reqs|
    ensures Occurrences(reqs[..i], c) <= Occurrences(reqs[..j], c)
  {
    if i > 0 {
      assert reqs[..i][1..] == reqs[1..][..i - 1];
      assert reqs[..j][1..] == reqs[1..][..j - 1];
      OccurrencesPrefix(reqs[1..], i - 1, j - 1, c);
    }
  }

  /** The i-th response is what `Decide` gives for the client's count at that
      point: its count before the run plus its requests up to and including
      this one. */
  lemma {:induction false} ServedAt(m: Counts, reqs: seq<Request>, p: Parsers, i: nat)
    requires i < |reqs|
    ensures Serve(m, reqs, p)[i] ==
      Decide(Count(m, reqs[i].client) + Occurrences(reqs[..i + 1], reqs[i].client), reqs[i], p)
    decreases |reqs|
  {
    var c, m' := reqs[i].client, Bump(m, reqs[0].client);
    if i == 0 {
      assert reqs[..1][1..] == [];
      if |reqs| > 1 {
        ServedAt(m', reqs[1..], p, 0);
      } else {
        assert reqs[1..] == [];
      }
    } else {
      ServedAt(m', reqs[1..], p, i - 1);
      assert reqs[..i + 1][1..] == reqs[1..][..i];
    }
  }

  /** From a fresh server, the i-th request is refused with 429 exactly when
      more than 100 of the requests so far, this one included, come from its
      client. */
  lemma RateLimitedIff(reqs: seq<Request>, p: Parsers, i: nat)
    requires i < |reqs|
    ensures Serve(map[], reqs, p)[i].status == 429 <==> Occurrences(reqs[..i + 1], reqs[i].client) > MaxRequests
    ensures Serve(map[], reqs, p)[i].status == 429 ==> Serve(map[], reqs, p)[i] == TooManyRequests
  {
    ServedAt(map[], reqs, p, i);
  }

  /** Once a client is refused with 429, every later request from it is too,
      whatever its method, type or body. */
  lemma StaysLimited(m: Counts, reqs: seq<Request>, p: Parsers, i: nat, j: nat)
    requires i < j < |reqs| && reqs[i].client == reqs[j].client
    requires Serve(m, reqs, p)[i].status == 429
    ensures Serve(m, reqs, p)[j] == TooManyRequests
  {
    var c := reqs[i].client;
    ServedAt(m, reqs, p, i);
    ServedAt(m, reqs, p, j);
    OccurrencesPrefix(reqs, i + 1, j + 1, c);
  }

  /** The counter of one client ignores requests from the others. */
  lemma OthersUnaffected(m: Counts, reqs: seq<Request>, c: ClientId)
    requires forall k :: 0 <= k < |reqs| ==> reqs[k].client != c
    ensures Count(CountsAfter(m, reqs), c) == Count(m, c)
  {
    CountsEveryRequest(m, reqs, c);
    NoOccurrences(reqs, c);
  }

  lemma {:induction false} NoOccurrences(reqs: seq<Request>, c: ClientId)
    requires forall k :: 0 <= k < |reqs| ==> reqs[k].client != c
    ensures Occurrences(reqs, c) == 0
  {
    if reqs != [] {
      assert reqs[0].client != c;
      NoOccurrences(reqs[1..], c);
    }
  }
  /** Serving one run after another is serving their concatenation. */
  lemma {:induction false} CountsAfterAppend(m: Counts, a: seq<Request>, b: seq<Request>)
    ensures CountsAfter(m, a + b) == CountsAfter(CountsAfter(m, a), b)
    decreases |a|
  {
    if a != [] {
      assert (a + b)[1..] == a[1..] + b;
      CountsAfterAppend(Bump(m, a[0].client), a[1..], b);
    } else {
      assert a + b == b;
    }
  }

  lemma {:induction false} ServeAppend(m: Counts, a: seq<Request>, b: seq<Request>, p: Parsers)
    ensures Serve(m, a + b, p) == Serve(m, a, p) + Serve(CountsAfter(m, a), b, p)
    decreases |a|
  {
    if a != [] {
      assert (a + b)[1..] == a[1..] + b;
      ServeAppend(Bump(m, a[0].client), a[1..], b, p);
    } else {
      assert a + b == b;
    }
  }

  /** Serving one more request extends the run by that request's response. */
  lemma ServeOneMore(m: Counts, reqs: seq<Request>, p: Parsers, i: nat)
    requires i < |reqs|
    ensures CountsAfter(m, reqs[..i + 1]) == Bump(CountsAfter(m, reqs[..i]), reqs[i].client)
    ensures Serve(m, reqs[..i + 1], p) == Serve(m, reqs[..i], p) +
      [Decide(Count(Bump(CountsAfter(m, reqs[..i]), reqs[i].client), reqs[i].client), reqs[i], p)]
  {
    assert reqs[..i + 1] == reqs[..i] + [reqs[i]];
    CountsAfterAppend(m, reqs[..i], [reqs[i]]);
    ServeAppend(m, reqs[..i], [reqs[i]], p);
    assert [reqs[i]][1..] == [];
  }

  /** Handing the requests one by one to the same server object yields the
      run `Serve` describes, and leaves the counters `CountsAfter` gives. */
  method HandleAll(s: Server, reqs: seq<Request>) returns (out: seq<Response>)
    modifies s
    ensures s.requestCount == CountsAfter(old(s.requestCount), reqs)
    ensures out == Serve(old(s.requestCount), reqs, s.parsers)
  {
    ghost var m0 := s.requestCount;
    out := [];
    var i := 0;
    while i < |reqs|
      invariant i <= |reqs|
      invariant s.requestCount == CountsAfter(m0, reqs[..i])
      invariant out == Serve(m0, reqs[..i], s.parsers)
    {
      ServeOneMore(m0, reqs, s.parsers, i);
      var res := s.Handle(reqs[i]);
      out := out + [res];
      i := i + 1;
    }
    assert reqs[..i] == reqs;
  }
}
