/**
 * The transport and the retrying fetch. The transport is a script: the
 * outcomes its attempts will have, in order, each attempt taking the next
 * one; once the script is used up every attempt fails. A fetch makes one
 * attempt and, if that fails, waits and makes one more.
 */
module Fetch {
  import opened Html

  /** The cookie jar sent with every request. */
  type Cookies = map<string, string>

  /** One transport attempt: a response arrives (whatever its status), or the transport raises. */
  datatype Attempt = Received(response: Response) | Failed

  /** What the session does that the outside world sees: a request sent, or a wait. */
  datatype Event = Request(url: string, cookies: Cookies) | Wait(seconds: nat)

  /**
   * The exceptions the core lets escape:
   * - UnboundResponse: both attempts of a fetch failed, and `return response`
   *   reads a variable no attempt assigned (an UnboundLocalError);
   * - MissingElement: a page lacks an element or attribute the scraper reads
   *   (an AttributeError or IndexError).
   */
  datatype Error = UnboundResponse | MissingElement

  /** A value returned, or an exception raised. */
  datatype Outcome<+T> = Returned(value: T) | Raised(error: Error)

  /** An operation's outcome, the script left after it, and the events it caused. */
  datatype Run<+T> = Run(result: Outcome<T>, rest: seq<Attempt>, events: seq<Event>)

  /** The wait, in seconds, before the second attempt of a fetch. */
  const RetryCooldown: nat := 5

  /** The outcome of the next attempt and the script after it. */
  function Pop(script: seq<Attempt>): (Attempt, seq<Attempt>) {
    if script == [] then (Failed, []) else (script[0], script[1..])
  }

  /** The outcome the `k`-th attempt from now will have. */
  function AttemptAt(script: seq<Attempt>, k: nat): Attempt {
    if k < |script| then script[k] else Failed
  }

  /** The number of requests among `events`. */
  function CountRequests(events: seq<Event>): nat {
    if events == [] then 0
    else CountRequests(events[..|events| - 1]) + (if events[|events| - 1].Request? then 1 else 0)
  }

  /**
   * `get(path)` on the full `url`: one attempt; when it raises, a cooldown
   * and a second attempt; the first response received is returned; when the
   * second attempt raises too, the call raises UnboundResponse.
   */
  function Get(url: string, cookies: Cookies, script: seq<Attempt>): (r: Run<Response>)
    ensures r.result.Raised? <==> AttemptAt(script, 0).Failed? && AttemptAt(script, 1).Failed?
    ensures r.result.Raised? ==> r.result.error == UnboundResponse
  {
    var (first, afterFirst) := Pop(script);
    if first.Received? then
      Run(Returned(first.response), afterFirst, [Request(url, cookies)])
    else
      var (second, afterSecond) := Pop(afterFirst);
      var events := [Request(url, cookies), Wait(RetryCooldown), Request(url, cookies)];
      if second.Received? then Run(Returned(second.response), afterSecond, events)
      else Run(Raised(UnboundResponse), afterSecond, events)
  }

  /**
   * At most two attempts: a fetch sends one request, or two separated by the
   * cooldown, all to `url` with the session's cookies; it consumes one
   * script entry per request while the script lasts; it raises only when
   * both attempts fail, and only with UnboundResponse.
   */
  lemma GetAttempts(url: string, cookies: Cookies, script: seq<Attempt>)
    ensures var g := Get(url, cookies, script);
      var n := if AttemptAt(script, 0).Received? then 1 else 2;
      && CountRequests(g.events) == n
      && g.events == (if n == 1 then [Request(url, cookies)]
                      else [Request(url, cookies), Wait(RetryCooldown), Request(url, cookies)])
      && g.rest == script[(if n <= |script| then n else |script|)..]
      && (g.result.Raised? <==> AttemptAt(script, 0).Failed? && AttemptAt(script, 1).Failed?)
      && (g.result.Raised? ==> g.result.error == UnboundResponse)
  {
    assert CountRequests([Request(url, cookies)]) == 1 by {
      assert [Request(url, cookies)][..0] == [];
    }
    var three := [Request(url, cookies), Wait(RetryCooldown), Request(url, cookies)];
    assert CountRequests(three) == 2 by {
      assert three[..2][..1] == [Request(url, cookies)];
      assert three[..2] == [Request(url, cookies), Wait(RetryCooldown)];
      assert three[..1] == [Request(url, cookies)];
      assert [Request(url, cookies)][..0] == [];
    }
    if script != [] && script[0].Failed? && |script| >= 2 {
      assert script[1..][1..] == script[2..];
    }
  }

  /**
   * A response that arrives is returned unchanged, whatever its status code:
   * the first attempt's if it arrived, otherwise the second attempt's.
   */
  lemma GetReturnsReceived(url: string, cookies: Cookies, script: seq<Attempt>)
    ensures var g := Get(url, cookies, script);
      && (AttemptAt(script, 0).Received? ==> g.result == Returned(AttemptAt(script, 0).response))
      && (AttemptAt(script, 0).Failed? && AttemptAt(script, 1).Received? ==>
            g.result == Returned(AttemptAt(script, 1).response))
  {
  }

  /** A fetch that returns has used up at least one scripted outcome. */
  lemma GetProgress(url: string, cookies: Cookies, script: seq<Attempt>)
    ensures var g := Get(url, cookies, script);
      |g.rest| <= |script| && (g.result.Returned? ==> |g.rest| < |script|)
  {
  }
}
