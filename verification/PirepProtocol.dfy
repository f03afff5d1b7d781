/** The PIREP workers: many consumers that read new messages only, and a claimer for stale ones. */
module PirepProtocol {
  import opened Wrappers
  import opened RedisStream
  import opened RedisQueue
  import opened PirepUpsert

  const CLAIMER: Consumer := "pirep-worker-claimer"

  /** A message in a worker's hands; `ran` once processPirep has returned for it. */
  datatype Held = Held(id: nat, ran: bool)

  /** `holding` is each worker's local work (the claimer can hold several messages); `ran` and `stored`
      are history: the ids processPirep ran on, and those for which it wrote the row. */
  datatype System = System(stream: Stream<Pirep>, holding: map<Consumer, seq<Held>>, table: Table,
                           ran: set<nat>, stored: set<nat>)

  function Hand(p: System, c: Consumer): seq<Held> {
    if c in p.holding then p.holding[c] else []
  }

  /** Everything that can happen, in any order: a worker reads, processes, acknowledges or crashes; the
      claimer takes over stale messages; a message is appended. Each is one atomic step. */
  datatype Action =
    | Append(payload: Payload<Pirep>)
    | Deliver(c: Consumer, now: int)
    | Claim(ids: seq<nat>, minIdle: int, now: int)
    | Process(c: Consumer, dbOk: bool)
    | Ack(c: Consumer)
    | Crash(c: Consumer)

  function Hold(ids: seq<nat>): (r: seq<Held>)
    ensures |r| == |ids| && forall k | 0 <= k < |r| :: r[k] == Held(ids[k], false)
  {
    seq(|ids|, k requires 0 <= k < |ids| => Held(ids[k], false))
  }

  function ProcessedBy(p: System, c: Consumer, rowOf: Meaning, dbOk: bool): System
    requires Hand(p, c) != [] && Hand(p, c)[0].id < |p.stream.entries| && p.stream.entries[Hand(p, c)[0].id].Encoded?
  {
    var id := Hand(p, c)[0].id;
    var (table, ok) := Processed(p.table, p.stream.entries[id].item, rowOf, dbOk);
    p.(holding := p.holding[c := [Held(id, true)] + Hand(p, c)[1..]], table := table,
       ran := p.ran + {id}, stored := if ok then p.stored + {id} else p.stored)
  }

  /** A step that is not enabled changes nothing. */
  function After(p: System, a: Action, rowOf: Meaning): System {
    match a
    case Append(payload) => p.(stream := Appended(p.stream, payload))
    case Deliver(c, now) =>
      if c == CLAIMER || Hand(p, c) != [] then p
      else
        var (stream, r) := ReadNew(p.stream, c, now);
        p.(stream := stream, holding := if r.Item? then p.holding[c := [Held(r.id, false)]] else p.holding)
    case Claim(ids, minIdle, now) =>
      if Hand(p, CLAIMER) != [] then p
      else
        var claimed := DecodableAmong(p.stream.entries, StaleAmong(p.stream.pending, ids, minIdle, now));
        p.(stream := Claimed(p.stream, ids, CLAIMER, minIdle, now), holding := p.holding[CLAIMER := Hold(claimed)])
    case Process(c, dbOk) =>
      var hand := Hand(p, c);
      if hand == [] || hand[0].ran || hand[0].id >= |p.stream.entries| || p.stream.entries[hand[0].id].Malformed? then p
      else ProcessedBy(p, c, rowOf, dbOk)
    case Ack(c) =>
      var hand := Hand(p, c);
      if hand == [] || !hand[0].ran then p
      else p.(stream := Acknowledged(p.stream, hand[0].id), holding := p.holding[c := hand[1..]])
    case Crash(c) => p.(holding := p.holding - {c})
  }

  function Run(p: System, actions: seq<Action>, rowOf: Meaning): System {
    if actions == [] then p
    else After(Run(p, actions[..|actions| - 1], rowOf), actions[|actions| - 1], rowOf)
  }

  function Start(t: Table, entries: seq<Payload<Pirep>>): System {
    System(Stream(entries, 0, map[], {}), map[], t, {}, {})
  }

  ghost predicate HeldOk(p: System, held: Held) {
    && held.id < p.stream.next <= |p.stream.entries| && p.stream.entries[held.id].Encoded?
    && (held.ran ==> held.id in p.ran)
  }

  ghost predicate HandsOk(p: System) {
    forall c: Consumer, k: nat :: k < |Hand(p, c)| ==> HeldOk(p, Hand(p, c)[k])
  }

  /** In every reachable state: each message is undelivered, pending with one owner, or acknowledged;
      an acknowledged message has been processed at least once, whoever acknowledged it; and workers
      hold delivered, decodable messages only. */
  ghost predicate Inv(p: System) {
    && Conserved(p.stream)
    && p.stream.acked <= p.ran && p.stored <= p.ran
    && (forall id | id in p.ran :: id < p.stream.next && p.stream.entries[id].Encoded?)
    && HandsOk(p)
  }

  /** Hands stay in order when one of them is replaced and nothing it relies on is taken back. */
  lemma HandReplaced(p: System, q: System, c: Consumer)
    requires HandsOk(p) && p.stream.next <= q.stream.next <= |q.stream.entries|
    requires p.stream.entries <= q.stream.entries && p.ran <= q.ran
    requires forall d | d != c :: Hand(q, d) == Hand(p, d)
    requires forall k: nat | k < |Hand(q, c)| :: HeldOk(q, Hand(q, c)[k])
    ensures HandsOk(q)
  {
    forall d: Consumer, k: nat | k < |Hand(q, d)| ensures HeldOk(q, Hand(q, d)[k]) {
      if d != c {
        assert HeldOk(p, Hand(p, d)[k]);
      }
    }
  }

  lemma ClaimKeepsInv(p: System, ids: seq<nat>, minIdle: int, now: int, rowOf: Meaning)
    requires Inv(p)
    ensures Inv(After(p, Claim(ids, minIdle, now), rowOf))
  {
    var q := After(p, Claim(ids, minIdle, now), rowOf);
    if Hand(p, CLAIMER) == [] {
      assert q.stream.pending.Keys == p.stream.pending.Keys;
      var claimed := DecodableAmong(p.stream.entries, StaleAmong(p.stream.pending, ids, minIdle, now));
      forall k: nat | k < |Hand(q, CLAIMER)| ensures HeldOk(q, Hand(q, CLAIMER)[k]) {
        assert claimed[k] in claimed;
      }
      HandReplaced(p, q, CLAIMER);
    }
  }

  /** A claim by the idle claimer takes the named pending messages that were delivered at least `minIdle` ago,
      and it then holds exactly those of them that decode; whoever got a message later than that keeps it. */
  lemma ClaimTakesIff(p: System, ids: seq<nat>, minIdle: int, now: int, rowOf: Meaning)
    requires Hand(p, CLAIMER) == []
    ensures var q := After(p, Claim(ids, minIdle, now), rowOf);
            && q.stream.pending.Keys == p.stream.pending.Keys
            && (forall id | id in p.stream.pending ::
                  q.stream.pending[id] == if id in ids && now - p.stream.pending[id].at >= minIdle
                                          then Delivery(CLAIMER, now) else p.stream.pending[id])
            && (forall c | c != CLAIMER :: Hand(q, c) == Hand(p, c))
    ensures var hand := Hand(After(p, Claim(ids, minIdle, now), rowOf), CLAIMER);
            forall id: nat :: Held(id, false) in hand <==> Takes(p, ids, minIdle, now, id)
  {
    var claimed := DecodableAmong(p.stream.entries, StaleAmong(p.stream.pending, ids, minIdle, now));
    ClaimMovesIff(p.stream, ids, CLAIMER, minIdle, now);
    forall id: nat ensures Held(id, false) in Hold(claimed) <==> id in claimed {
      HeldIff(claimed, id);
    }
  }

  /** The message is named, pending, idle for long enough and decodes. */
  ghost predicate Takes(p: System, ids: seq<nat>, minIdle: int, now: int, id: nat) {
    && id in ids && id in p.stream.pending && now - p.stream.pending[id].at >= minIdle
    && id < |p.stream.entries| && p.stream.entries[id].Encoded?
  }

  lemma HeldIff(ids: seq<nat>, id: nat)
    ensures Held(id, false) in Hold(ids) <==> id in ids
  {
    if id in ids {
      var k :| 0 <= k < |ids| && ids[k] == id;
      assert Hold(ids)[k] == Held(id, false);
    }
  }

  /** A crash loses what the worker had in hand and nothing else: its messages stay pending in its name. */
  lemma CrashLosesHand(p: System, c: Consumer, rowOf: Meaning)
    ensures var q := After(p, Crash(c), rowOf);
            && Hand(q, c) == [] && (forall d | d != c :: Hand(q, d) == Hand(p, d))
            && q.stream == p.stream && q.table == p.table && q.ran == p.ran && q.stored == p.stored
  {}

  /** So a message that a worker was delivered at some time and took down with it is back in hand after a claim
      that names it, `minIdle` or more after that time, and not after an earlier one. */
  lemma CrashedIsReclaimedIff(p: System, c: Consumer, id: nat, ids: seq<nat>, minIdle: int, now: int, rowOf: Meaning)
    requires Inv(p) && Hand(p, CLAIMER) == [] && id in ids
    requires id in p.stream.pending && p.stream.entries[id].Encoded?
    ensures var q := After(After(p, Crash(c), rowOf), Claim(ids, minIdle, now), rowOf);
            Held(id, false) in Hand(q, CLAIMER) <==> now - p.stream.pending[id].at >= minIdle
  {
    CrashLosesHand(p, c, rowOf);
    ClaimTakesIff(After(p, Crash(c), rowOf), ids, minIdle, now, rowOf);
  }

  /** An appended message arrives behind all others and is nobody's yet. */
  lemma AppendArrives(p: System, payload: Payload<Pirep>, rowOf: Meaning)
    requires Inv(p)
    ensures var q, id := After(p, Append(payload), rowOf), |p.stream.entries|;
            && q.stream.entries == p.stream.entries + [payload]
            && id !in q.stream.pending && id !in q.stream.acked && id >= q.stream.next
            && q.stream.pending == p.stream.pending && q.stream.next == p.stream.next
            && q.holding == p.holding && q.table == p.table
  {}

  lemma WorkKeepsInv(p: System, a: Action, rowOf: Meaning)
    requires Inv(p) && (a.Process? || a.Ack? || a.Crash?)
    ensures Inv(After(p, a, rowOf))
  {
    var q := After(p, a, rowOf);
    forall k: nat | k < |Hand(q, a.c)| ensures HeldOk(q, Hand(q, a.c)[k]) {
      assert HeldOk(p, Hand(p, a.c)[if a.Ack? && q != p then k + 1 else k]);
    }
    assert Hand(p, a.c) != [] ==> HeldOk(p, Hand(p, a.c)[0]);
    HandReplaced(p, q, a.c);
  }

  lemma StepKeepsInv(p: System, a: Action, rowOf: Meaning)
    requires Inv(p)
    ensures Inv(After(p, a, rowOf))
  {
    match a
    case Append(_) =>
      var q := After(p, a, rowOf);
      forall k: nat | k < |Hand(q, CLAIMER)| ensures HeldOk(q, Hand(q, CLAIMER)[k]) {
        assert HeldOk(p, Hand(p, CLAIMER)[k]);
      }
      HandReplaced(p, q, CLAIMER);
    case Deliver(c, _) => HandReplaced(p, After(p, a, rowOf), c);
    case Claim(ids, minIdle, now) => ClaimKeepsInv(p, ids, minIdle, now, rowOf);
    case _ => WorkKeepsInv(p, a, rowOf);
  }

  lemma {:induction false} Reachable(t: Table, entries: seq<Payload<Pirep>>, actions: seq<Action>, rowOf: Meaning)
    ensures Inv(Run(Start(t, entries), actions, rowOf))
  {
    if actions != [] {
      var front := actions[..|actions| - 1];
      Reachable(t, entries, front, rowOf);
      StepKeepsInv(Run(Start(t, entries), front, rowOf), actions[|actions| - 1], rowOf);
    }
  }

  /** An entry that does not decode is never acknowledged, in any run. */
  lemma MalformedIsNeverAcknowledged(t: Table, entries: seq<Payload<Pirep>>, actions: seq<Action>, rowOf: Meaning,
                                     id: nat)
    requires var s := Run(Start(t, entries), actions, rowOf).stream; id < |s.entries| && s.entries[id].Malformed?
    ensures id !in Run(Start(t, entries), actions, rowOf).stream.acked
  {
    Reachable(t, entries, actions, rowOf);
  }
}
