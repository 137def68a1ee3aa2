/** `Client::connect`: bounded retries with capped exponential backoff. */
module IpcClient {
  import opened Wrappers

  const RECONNECT_INITIAL_MS := 100
  const RECONNECT_CAP_MS := 5_000
  const RECONNECT_MAX_TRIES := 32

  // The pause after the k-th failed attempt, counting from 0.
  function Pause(k: nat): nat {
    if k < 6 then [100, 200, 400, 800, 1_600, 3_200][k] else RECONNECT_CAP_MS
  }

  function TotalPause(k: nat): nat {
    if k == 0 then 0 else TotalPause(k - 1) + Pause(k - 1)
  }

  // The pauses double until the cap: 6.3 seconds for the first six, 5 more for
  // each one after, 136.3 seconds for a client that gives up.
  lemma {:induction false} TotalPauseIs(k: nat)
    ensures TotalPause(k) == if k <= 6 then [0, 100, 300, 700, 1_500, 3_100, 6_300][k] else 6_300 + 5_000 * (k - 6)
  {
    if k > 0 { TotalPauseIs(k - 1); }
  }

  // `accepts(k)` says whether the socket takes the k-th connection attempt.
  // The result is the first attempt that is taken, if one of 32 is; the time
  // slept is that of exactly the failures before it.
  method Connect(accepts: nat -> bool) returns (attempt: Option<nat>, slept: nat)
    ensures match attempt
      case Some(k) => 1 <= k <= RECONNECT_MAX_TRIES && accepts(k) && (forall j :: 1 <= j < k ==> !accepts(j)) && slept == TotalPause(k - 1)
      case None => (forall j :: 1 <= j <= RECONNECT_MAX_TRIES ==> !accepts(j)) && slept == 136_300
  {
    var delayMs := RECONNECT_INITIAL_MS;
    slept := 0;
    for k := 1 to RECONNECT_MAX_TRIES + 1
      invariant forall j :: 1 <= j < k ==> !accepts(j)
      invariant delayMs == Pause(k - 1) && slept == TotalPause(k - 1)
    {
      if accepts(k) { return Some(k), slept; }
      slept := slept + delayMs;
      delayMs := if delayMs * 2 < RECONNECT_CAP_MS then delayMs * 2 else RECONNECT_CAP_MS;
    }
    TotalPauseIs(RECONNECT_MAX_TRIES);
    attempt := None;
  }
}
