/** Delivering one inbound message over an unreliable transport, with the same MessageSid on every
    attempt. */
module Transport {
  import opened Common
  import opened World
  import opened Numbers

  const RETRIES := 2
  const BACKOFF := 10_000  // milliseconds

  /** What the network does to one attempt. Without an answer in time the request may still be handled,
      before some later attempt or after the last one. */
  datatype Delivery =
    | NoAnswer(handledBefore: Option<nat>)
    | Rejected(status: nat, handled: bool)  // a non-200 answer, before or after the message was handled
    | Answered(refusal: Option<string>)     // handled, or refused for this reason

  /** The ingress: a MessageSid it has seen before starts no second run. */
  class Ingress {
    var seen: set<string>
    var started: seq<string>

    constructor ()
      ensures seen == {} && started == []
    {
      seen, started := {}, [];
    }

    method Receive(sid: string) returns (reason: string)
      modifies this
      ensures seen == old(seen) + {sid}
      ensures started == old(started) + (if sid in old(seen) then [] else [sid])
      ensures reason == (if sid in old(seen) then "dupe" else "started")
    {
      if sid in seen {
        return "dupe";
      }
      seen, started := seen + {sid}, started + [sid];
      reason := "started";
    }
  }

  datatype Reply = Http(status: nat) | Reason(reason: string) | GaveUp

  /** The reason the caller of the ingress goes on with. */
  function ReasonText(r: Reply): string {
    match r
    case Http(status) => "http_" + Decimal(status)
    case Reason(reason) => reason
    case GaveUp => ""
  }

  /** Attempts made: the retry loop stops at the first answer of any kind. */
  function Attempts(network: nat -> Delivery, from: nat): (n: nat)
    requires from <= RETRIES
    ensures from < n <= 1 + RETRIES
    ensures forall k :: from <= k < n - 1 ==> network(k).NoAnswer?
    ensures n <= RETRIES ==> !network(n - 1).NoAnswer?
    decreases RETRIES - from
  {
    if from == RETRIES || !network(from).NoAnswer? then from + 1 else Attempts(network, from + 1)
  }

  /** Some attempt is answered, so that the retry loop does not end by raising. */
  predicate Deliverable(network: nat -> Delivery) {
    exists k :: 0 <= k <= RETRIES && !network(k).NoAnswer?
  }

  /** The request of attempt `k` has been handled by the time attempt `a` is made. */
  predicate HandledBy(network: nat -> Delivery, k: nat, a: nat) {
    k < a &&
    match network(k)
    case NoAnswer(before) => before.Some? && before.value <= a
    case Rejected(_, handled) => handled
    case Answered(refusal) => refusal.None?
  }

  predicate ReachedBy(network: nat -> Delivery, a: nat) {
    exists k :: 0 <= k < a && HandledBy(network, k, a)
  }

  predicate Handled(d: Delivery) {
    match d
    case NoAnswer(before) => before.Some?
    case Rejected(_, handled) => handled
    case Answered(refusal) => refusal.None?
  }

  /** Whether any of the attempts made is ever handled. */
  predicate Reached(network: nat -> Delivery, n: nat) {
    exists k :: 0 <= k < n && Handled(network(k))
  }

  /** The reply of one attempt, for a MessageSid the ingress knew or not. */
  function ReplyTo(d: Delivery, known: bool): Reply {
    match d
    case NoAnswer(_) => GaveUp
    case Rejected(status, _) => Http(status)
    case Answered(refusal) =>
      Reason(if refusal.Some? then refusal.value else if known then "dupe" else "started")
  }

  /** What the caller gets to know: the last attempt's reply, where an earlier one may have got through. */
  function Answer(network: nat -> Delivery, known: bool): Reply {
    var n := Attempts(network, 0);
    ReplyTo(network(n - 1), known || ReachedBy(network, n - 1))
  }

  lemma {:induction false} AttemptsFrom(network: nat -> Delivery, from: nat, a: nat)
    requires from <= a <= RETRIES && forall k :: from <= k < a ==> network(k).NoAnswer?
    ensures Attempts(network, from) == Attempts(network, a)
    decreases a - from
  {
    if from < a {
      AttemptsFrom(network, from + 1, a);
    }
  }

  lemma AnsweredAt(network: nat -> Delivery, a: nat, known: bool)
    requires a <= RETRIES && !network(a).NoAnswer? && forall k :: 0 <= k < a ==> network(k).NoAnswer?
    ensures Attempts(network, 0) == a + 1
    ensures Answer(network, known) == ReplyTo(network(a), known || ReachedBy(network, a))
    ensures Deliverable(network)
  {
    AttemptsFrom(network, 0, a);
  }

  lemma NeverAnswered(network: nat -> Delivery, known: bool)
    requires forall k :: 0 <= k <= RETRIES ==> network(k).NoAnswer?
    ensures Attempts(network, 0) == 1 + RETRIES && Answer(network, known).GaveUp? && !Deliverable(network)
  {
    AttemptsFrom(network, 0, RETRIES);
  }

  /** What the ingress holds when, since a first state, the message was handled or not. */
  ghost predicate Since(
      seen0: set<string>, started0: seq<string>, sid: string, handled: bool, seen: set<string>, started: seq<string>)
  {
    && seen == seen0 + (if handled then {sid} else {})
    && started == started0 + (if handled && sid !in seen0 then [sid] else [])
  }

  lemma SinceMore(
      seen0: set<string>, started0: seq<string>, sid: string, handled: bool, seen1: set<string>, started1: seq<string>,
      again: bool, seen: set<string>, started: seq<string>)
    requires Since(seen0, started0, sid, handled, seen1, started1) && Since(seen1, started1, sid, again, seen, started)
    ensures Since(seen0, started0, sid, handled || again, seen, started)
  {
  }

  /** A request without an answer, handled after all. */
  method Catch(ingress: Ingress, sid: string, handled: bool)
    modifies ingress
    ensures Since(old(ingress.seen), old(ingress.started), sid, handled, ingress.seen, ingress.started)
  {
    if handled {
      var ignored := ingress.Receive(sid);
    }
  }

  lemma ReachedByGrows(network: nat -> Delivery, a: nat)
    ensures ReachedBy(network, a) ==> ReachedBy(network, a + 1)
  {
    if k :| 0 <= k < a && HandledBy(network, k, a) {
      assert HandledBy(network, k, a + 1);
    }
  }

  lemma ReachedByIsReached(network: nat -> Delivery, a: nat)
    ensures ReachedBy(network, a) ==> Reached(network, a)
  {
    if k :| 0 <= k < a && HandledBy(network, k, a) {
      assert Handled(network(k));
    }
  }

  lemma ReachedMore(network: nat -> Delivery, a: nat)
    ensures Reached(network, a) ==> Reached(network, a + 1)
  {
    if k :| 0 <= k < a && Handled(network(k)) {
      assert Handled(network(k));
    }
  }

  lemma SinceRetry(
      seen0: set<string>, started0: seq<string>, sid: string, network: nat -> Delivery, a: nat, seen1: set<string>,
      started1: seq<string>, seen: set<string>, started: seq<string>)
    requires Since(seen0, started0, sid, ReachedBy(network, a), seen1, started1)
    requires Since(seen1, started1, sid, ReachedBy(network, a + 1), seen, started)
    ensures Since(seen0, started0, sid, ReachedBy(network, a + 1), seen, started)
  {
    ReachedByGrows(network, a);
    SinceMore(seen0, started0, sid, ReachedBy(network, a), seen1, started1, ReachedBy(network, a + 1), seen, started);
  }

  lemma SinceEnd(
      seen0: set<string>, started0: seq<string>, sid: string, network: nat -> Delivery, a: nat, n: nat,
      seen1: set<string>, started1: seq<string>, seen: set<string>, started: seq<string>)
    requires n == a || n == a + 1
    requires Since(seen0, started0, sid, ReachedBy(network, a), seen1, started1)
    requires Since(seen1, started1, sid, Reached(network, n), seen, started)
    ensures Since(seen0, started0, sid, Reached(network, n), seen, started)
  {
    ReachedByIsReached(network, a);
    ReachedMore(network, a);
    SinceMore(seen0, started0, sid, ReachedBy(network, a), seen1, started1, Reached(network, n), seen, started);
  }

  /** After an attempt without an answer: before the next one its request, or an earlier one, may be
      handled. */
  method Retry<S>(w: World<S>, ingress: Ingress, sid: string, network: nat -> Delivery, attempts: nat)
    requires 0 < attempts <= 1 + RETRIES
    modifies w, ingress
    ensures w.now >= old(w.now) && w.slept == old(w.slept) + if attempts <= RETRIES then BACKOFF else 0
    ensures Since(old(ingress.seen), old(ingress.started), sid, ReachedBy(network, attempts),
                  ingress.seen, ingress.started)
  {
    if attempts <= RETRIES {
      w.Sleep(BACKOFF);
    }
    Catch(ingress, sid, ReachedBy(network, attempts));
  }

  /** An attempt that is answered. */
  method Receiving(ingress: Ingress, sid: string, d: Delivery) returns (r: Reply)
    requires !d.NoAnswer?
    modifies ingress
    ensures Since(old(ingress.seen), old(ingress.started), sid, Handled(d), ingress.seen, ingress.started)
    ensures r == ReplyTo(d, sid in old(ingress.seen))
  {
    match d
    case Rejected(status, handled) =>
      Catch(ingress, sid, handled);
      r := Http(status);
    case Answered(refusal) =>
      if refusal.Some? {
        return Reason(refusal.value);
      }
      var reason := ingress.Receive(sid);
      r := Reason(reason);
  }

  /** The attempt that is answered; requests still in flight are handled later on. */
  method Finish(ingress: Ingress, sid: string, network: nat -> Delivery, attempts: nat) returns (r: Reply)
    requires attempts > 0 && !network(attempts - 1).NoAnswer?
    modifies ingress
    ensures Since(old(ingress.seen), old(ingress.started), sid, Reached(network, attempts),
                  ingress.seen, ingress.started)
    ensures r == ReplyTo(network(attempts - 1), sid in old(ingress.seen))
  {
    ghost var seen0, started0 := ingress.seen, ingress.started;
    var d := network(attempts - 1);
    r := Receiving(ingress, sid, d);
    ghost var seen1, started1 := ingress.seen, ingress.started;
    Catch(ingress, sid, Reached(network, attempts));
    SinceMore(seen0, started0, sid, Handled(d), seen1, started1, Reached(network, attempts),
              ingress.seen, ingress.started);
    assert Handled(d) ==> Reached(network, attempts);
  }

  /** One attempt: its reply, or none. */
  method Attempt<S>(
      w: World<S>, ingress: Ingress, sid: string, network: nat -> Delivery, a: nat,
      ghost seen0: set<string>, ghost started0: seq<string>)
      returns (r: Option<Reply>)
    requires a <= RETRIES
    requires Since(seen0, started0, sid, ReachedBy(network, a), ingress.seen, ingress.started)
    modifies w, ingress
    ensures w.now >= old(w.now) && (r.None? <==> network(a).NoAnswer?)
    ensures r.None? ==>
              && w.slept == old(w.slept) + (if a < RETRIES then BACKOFF else 0)
              && Since(seen0, started0, sid, ReachedBy(network, a + 1), ingress.seen, ingress.started)
    ensures r.Some? ==>
              && w.slept == old(w.slept) && r.value == ReplyTo(network(a), sid in seen0 || ReachedBy(network, a))
              && Since(seen0, started0, sid, Reached(network, a + 1), ingress.seen, ingress.started)
  {
    ghost var seen1, started1 := ingress.seen, ingress.started;
    w.Elapse();
    if network(a).NoAnswer? {
      Retry(w, ingress, sid, network, a + 1);
      SinceRetry(seen0, started0, sid, network, a, seen1, started1, ingress.seen, ingress.started);
      return None;
    }
    var reply := Finish(ingress, sid, network, a + 1);
    SinceEnd(seen0, started0, sid, network, a, a + 1, seen1, started1, ingress.seen, ingress.started);
    r := Some(reply);
  }

  /** `_post_inbound` under `_post_with_transport_retry`: whatever is lost or late, one message starts
      at most one run, and exactly one if any attempt is handled, counting what is still in flight when
      the caller has its answer; between two attempts the caller waits. */
  method PostInbound<S>(w: World<S>, ingress: Ingress, sid: string, network: nat -> Delivery)
      returns (r: Reply, attempts: nat)
    modifies w, ingress
    ensures w.now >= old(w.now) && w.slept == old(w.slept) + BACKOFF * (attempts - 1)
    ensures attempts == Attempts(network, 0) && r == Answer(network, sid in old(ingress.seen))
    ensures Since(old(ingress.seen), old(ingress.started), sid, Reached(network, attempts),
                  ingress.seen, ingress.started)
    ensures r.GaveUp? <==> !Deliverable(network)
  {
    ghost var seen0, started0 := ingress.seen, ingress.started;
    attempts := 0;
    while attempts < 1 + RETRIES
      invariant 0 <= attempts <= 1 + RETRIES
      invariant forall k :: 0 <= k < attempts ==> network(k).NoAnswer?
      invariant w.now >= old(w.now)
      invariant w.slept == old(w.slept) + BACKOFF * (if attempts <= RETRIES then attempts else RETRIES)
      invariant Since(seen0, started0, sid, ReachedBy(network, attempts), ingress.seen, ingress.started)
    {
      var reply := Attempt(w, ingress, sid, network, attempts, seen0, started0);
      attempts := attempts + 1;
      if reply.Some? {
        AnsweredAt(network, attempts - 1, sid in seen0);
        return reply.value, attempts;
      }
    }
    NeverAnswered(network, sid in seen0);
    ghost var seen1, started1 := ingress.seen, ingress.started;
    Catch(ingress, sid, Reached(network, attempts));
    SinceEnd(seen0, started0, sid, network, attempts, attempts, seen1, started1, ingress.seen, ingress.started);
    r := GaveUp;
  }
}
