/** What at-least-once delivery loses: a message is acknowledged whether or not its row was written. */
module PirepLoss {
  import opened Wrappers
  import opened RedisStream
  import opened RedisQueue
  import opened PirepUpsert
  import opened PirepProtocol
  import opened PirepConfluence

  /** The step writes the row of message `id`. */
  predicate Writes(p: System, a: Action, id: nat, rowOf: Meaning) {
    && a.Process? && a.dbOk && Hand(p, a.c) != [] && Hand(p, a.c)[0] == Held(id, false)
    && RowAt(p.stream.entries, id, rowOf).Some?
  }

  lemma StepStoresIff(p: System, a: Action, id: nat, rowOf: Meaning)
    ensures id in After(p, a, rowOf).stored <==> id in p.stored || Writes(p, a, id, rowOf)
  {}

  /** Some step of the run wrote the message's row. */
  predicate WrittenIn(p: System, actions: seq<Action>, id: nat, rowOf: Meaning) {
    actions != []
    && var front := actions[..|actions| - 1];
       WrittenIn(p, front, id, rowOf) || Writes(Run(p, front, rowOf), actions[|actions| - 1], id, rowOf)
  }

  /** When a message is written, exactly: in every run, if and only if a processing of it met no fault. */
  lemma {:induction false} StoredIffWritten(t: Table, held: seq<Payload<Pirep>>, actions: seq<Action>, id: nat,
                                            rowOf: Meaning)
    ensures id in Run(Start(t, held), actions, rowOf).stored <==> WrittenIn(Start(t, held), actions, id, rowOf)
  {
    if actions != [] {
      var front, last := actions[..|actions| - 1], actions[|actions| - 1];
      StoredIffWritten(t, held, front, id, rowOf);
      StepStoresIff(Run(Start(t, held), front, rowOf), last, id, rowOf);
    }
  }

  /** No worker holds the message. */
  ghost predicate InNoHand(p: System, id: nat) {
    forall c: Consumer, k: nat :: k < |Hand(p, c)| ==> Hand(p, c)[k].id != id
  }

  lemma HandReplacedWithout(p: System, q: System, c: Consumer, id: nat)
    requires InNoHand(p, id) && (forall d | d != c :: Hand(q, d) == Hand(p, d))
    requires forall k: nat | k < |Hand(q, c)| :: Hand(q, c)[k].id != id
    ensures InNoHand(q, id)
  {
    forall d: Consumer, k: nat | k < |Hand(q, d)| ensures Hand(q, d)[k].id != id {
      if d != c {
        assert Hand(p, d)[k].id != id;
      }
    }
  }

  /** Acknowledged, never written, and in nobody's hands. */
  ghost predicate Lost(p: System, id: nat) {
    id in p.stream.acked && id !in p.stored && InNoHand(p, id)
  }

  lemma ClaimKeepsLost(p: System, ids: seq<nat>, minIdle: int, now: int, id: nat, rowOf: Meaning)
    requires Inv(p) && Lost(p, id)
    ensures Lost(After(p, Claim(ids, minIdle, now), rowOf), id)
  {
    var q := After(p, Claim(ids, minIdle, now), rowOf);
    if Hand(p, CLAIMER) == [] {
      var claimed := DecodableAmong(p.stream.entries, StaleAmong(p.stream.pending, ids, minIdle, now));
      forall k: nat | k < |Hand(q, CLAIMER)| ensures Hand(q, CLAIMER)[k].id != id {
        assert claimed[k] in claimed;
      }
      HandReplacedWithout(p, q, CLAIMER, id);
    }
  }

  lemma WorkKeepsLost(p: System, a: Action, id: nat, rowOf: Meaning)
    requires Inv(p) && Lost(p, id) && (a.Process? || a.Ack? || a.Crash?)
    ensures Lost(After(p, a, rowOf), id)
  {
    var q := After(p, a, rowOf);
    StepStoresIff(p, a, id, rowOf);
    assert Hand(p, a.c) != [] ==> Hand(p, a.c)[0].id != id;
    forall k: nat | k < |Hand(q, a.c)| ensures Hand(q, a.c)[k].id != id {
      assert Hand(p, a.c)[if a.Ack? && q != p then k + 1 else k].id != id;
    }
    HandReplacedWithout(p, q, a.c, id);
  }

  lemma StepKeepsLost(p: System, a: Action, id: nat, rowOf: Meaning)
    requires Inv(p) && Lost(p, id)
    ensures Lost(After(p, a, rowOf), id)
  {
    match a
    case Append(_) =>
      forall k: nat | k < |Hand(p, CLAIMER)| ensures Hand(p, CLAIMER)[k].id != id {}
      assert forall c :: Hand(After(p, a, rowOf), c) == Hand(p, c);
      HandReplacedWithout(p, After(p, a, rowOf), CLAIMER, id);
    case Deliver(c, now) => HandReplacedWithout(p, After(p, a, rowOf), c, id);
    case Claim(ids, minIdle, now) => ClaimKeepsLost(p, ids, minIdle, now, id, rowOf);
    case _ => WorkKeepsLost(p, a, id, rowOf);
  }

  /** A lost message is lost for good, whatever is delivered, claimed or appended from then on. */
  lemma {:induction false} LostForever(p: System, actions: seq<Action>, id: nat, rowOf: Meaning)
    requires Inv(p) && Lost(p, id)
    ensures Inv(Run(p, actions, rowOf)) && Lost(Run(p, actions, rowOf), id)
  {
    if actions != [] {
      var front, last := actions[..|actions| - 1], actions[|actions| - 1];
      LostForever(p, front, id, rowOf);
      StepKeepsInv(Run(p, front, rowOf), last, rowOf);
      StepKeepsLost(Run(p, front, rowOf), last, id, rowOf);
    }
  }

  lemma DeliverNext(p: System, c: Consumer, rowOf: Meaning)
    requires Inv(p) && c != CLAIMER && Hand(p, c) == [] && Decodes(p, p.stream.next)
    ensures var q := After(p, Deliver(c, 0), rowOf);
            && Inv(q) && Hand(q, c) == [Held(p.stream.next, false)] && (forall d | d != c :: Hand(q, d) == Hand(p, d))
            && p.stream.next in q.stream.pending && q.stream.entries == p.stream.entries
            && q.table == p.table && q.stored == p.stored
  {
    StepKeepsInv(p, Deliver(c, 0), rowOf);
    DeliverTakes(p, c, rowOf);
  }

  /** One fault is enough, at any time: the next message, taken by an idle worker whose write fails, is lost
      after three steps, and the table is as it was. */
  lemma FaultLosesNext(p: System, c: Consumer, rowOf: Meaning)
    requires Inv(p) && c != CLAIMER && Hand(p, c) == [] && Decodes(p, p.stream.next)
    ensures var q := After(After(After(p, Deliver(c, 0), rowOf), Process(c, false), rowOf), Ack(c), rowOf);
            Lost(q, p.stream.next) && q.table == p.table && q.stream.entries == p.stream.entries
  {
    var m := p.stream.next;
    DeliverNext(p, c, rowOf);
    var p1 := After(p, Deliver(c, 0), rowOf);
    var p2 := After(p1, Process(c, false), rowOf);
    assert Hand(p2, c) == [Held(m, true)] && p2.stream == p1.stream && p2.table == p.table && p2.stored == p.stored;
    AckDrops(p2, c, m, rowOf);
    NextIsInNoHand(p);
    HandReplacedWithout(p, After(p2, Ack(c), rowOf), c, m);
  }

  lemma NextIsInNoHand(p: System)
    requires Inv(p)
    ensures InNoHand(p, p.stream.next) && p.stream.next !in p.stored
  {
    forall d: Consumer, k: nat | k < |Hand(p, d)| ensures Hand(p, d)[k].id != p.stream.next {
      assert HeldOk(p, Hand(p, d)[k]);
    }
  }

  /** So equal keys meaning equal rows is not enough on a schedule with faults: a single message, acknowledged
      and with nothing left to do, whose row is not in the table that one pass makes. */
  lemma FaultBreaksOnePass(t: Table, item: Pirep, rowOf: Meaning)
    requires rowOf(item).Some?
    requires KeyOf(item) in t ==> t[KeyOf(item)].row != rowOf(item).value
    ensures var entries := [Encoded(item)];
            var p := Run(Start(t, entries), [Deliver("a", 0), Process("a", false), Ack("a")], rowOf);
            && SameKeySameRow(entries, rowOf) && p.stream.entries == entries && Finished(p)
            && Lost(p, 0) && p.table == t != OnePass(t, entries, rowOf)
  {
    var entries := [Encoded(item)];
    var p0, acts := Start(t, entries), [Deliver("a", 0), Process("a", false), Ack("a")];
    assert |"a"| < |CLAIMER|;
    Reachable(t, entries, [], rowOf);
    FaultLosesNext(p0, "a", rowOf);
    assert acts[..2][..1] == acts[..1] && acts[..1][..0] == [] && acts[..2] == [acts[0], acts[1]];
    assert Run(p0, acts[..1], rowOf) == After(p0, acts[0], rowOf);
    assert Run(p0, acts[..2], rowOf) == After(After(p0, acts[0], rowOf), acts[1], rowOf);
    OnePassKeepsLast(t, entries, 0, rowOf);
  }
}
