/** What a stream looks like when one consumer reads it, pending entries first, and nobody claims. */
module SingleConsumer {
  import opened Wrappers
  import opened RedisStream
  import opened RedisQueue

  /** At most the last delivered entry is pending, and it belongs to the one consumer. */
  ghost predicate SoleConsumer<T>(s: Stream<T>, c: Consumer) {
    && Conserved(s)
    && (forall id | id in s.pending :: id + 1 == s.next && s.pending[id].owner == c)
  }

  /** The id of the entry the consumer will get next. */
  function Head<T>(s: Stream<T>): nat {
    if s.next > 0 && s.next - 1 in s.pending then s.next - 1 else s.next
  }

  /** The entries not yet acknowledged, oldest first. */
  function Waiting<T>(s: Stream<T>): seq<Payload<T>>
    requires s.next <= |s.entries|
  {
    s.entries[Head(s)..]
  }

  /** Completions follow enqueue order: the acknowledged ids are exactly those before the head, and
      nothing but the head is ever pending. */
  lemma AckedIsPrefix<T>(s: Stream<T>, c: Consumer)
    requires SoleConsumer(s, c)
    ensures forall id: nat :: id in s.acked <==> id < Head(s)
    ensures s.pending.Keys <= {Head(s)}
  {
    forall id: nat ensures id in s.acked <==> id < Head(s) {
      assert id in s.pending || id in s.acked <==> id < s.next;
    }
  }

  lemma {:induction false} FirstOwnedIsHead<T>(s: Stream<T>, c: Consumer, from: nat)
    requires SoleConsumer(s, c) && from <= s.next
    ensures FirstOwned(s, c, from)
         == if from < s.next && s.next - 1 in s.pending then Some((s.next - 1) as nat) else None
    decreases s.next - from
  {
    if from < s.next {
      FirstOwnedIsHead(s, c, from + 1);
    }
  }

  /** A read returns the head (an error when the head does not decode) and moves nothing else. */
  lemma ReadGivesHead<T>(s: Stream<T>, c: Consumer, now: int)
    requires SoleConsumer(s, c)
    ensures var (s', r) := ReadPendingFirst(s, c, now);
            && SoleConsumer(s', c) && s'.entries == s.entries && Head(s') == Head(s) && s'.acked == s.acked
            && r == (if Waiting(s) == [] then Empty else Decode(Waiting(s)[0], Head(s)))
            && (Waiting(s) != [] ==> Head(s) in s'.pending)
            && s.pending.Keys <= s'.pending.Keys
            && (Waiting(s) == [] ==> s' == s)
  {
    FirstOwnedIsHead(s, c, 0);
  }

  lemma AckAdvances<T>(s: Stream<T>, c: Consumer)
    requires SoleConsumer(s, c) && Head(s) in s.pending
    ensures var s' := Acknowledged(s, Head(s));
            SoleConsumer(s', c) && s'.entries == s.entries && Head(s') == Head(s) + 1 && s'.pending == map[]
  {
    var s' := Acknowledged(s, Head(s));
    AckedIsPrefix(s, c);
    assert s'.pending.Keys == {};
  }

  lemma AppendKeepsHead<T>(s: Stream<T>, c: Consumer, more: seq<Payload<T>>)
    requires SoleConsumer(s, c)
    ensures var s' := s.(entries := s.entries + more);
            SoleConsumer(s', c) && Head(s') == Head(s) && Waiting(s') == Waiting(s) + more
  {}
}
