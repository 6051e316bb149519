/** HTTPTransport.Exchange (internal/cloudsync/http.go): matching the
    acknowledgements of a response with the rows sent, and the contiguous
    acknowledged frontier they amount to. */
module SyncTransport {
  import opened Wrappers
  import opened Envelopes
  import opened SyncState
  import opened SyncServer

  const BATCH_LIMIT := 100
  const CURSOR_LIMIT := 8192

  datatype ExchangeResponse = ExchangeResponse(schema: int, acks: seq<Ack>, inbound: seq<Envelope>,
      deliveryCursor: string)

  datatype ExchangeResult = ExchangeResult(acked: nat, inbound: seq<Envelope>)

  /** The rows of one request: the transport sends at most 100. */
  function Batch(pending: seq<Envelope>): seq<Envelope> {
    if |pending| > BATCH_LIMIT then pending[..BATCH_LIMIT] else pending
  }

  /** The row a sequence number stands for; a later row replaces an earlier one. */
  function Expected(sent: seq<Envelope>, n: nat): Option<Envelope>
    decreases |sent|
  {
    if sent == [] then None
    else if sent[|sent| - 1].seqno == n then Some(sent[|sent| - 1])
    else Expected(sent[..|sent| - 1], n)
  }

  predicate Matches(sent: seq<Envelope>, ack: Ack) {
    var row := Expected(sent, ack.seqno);
    && row.Some? && ack.id == row.value.id && ack.key == row.value.key
    && (ack.outcome == Accepted || ack.outcome == Reordered || ack.outcome == Duplicate)
  }

  /** Every acknowledgement names a row that was sent, and no row twice. */
  ghost predicate AllMatch(sent: seq<Envelope>, acks: seq<Ack>) {
    && (forall i | 0 <= i < |acks| :: Matches(sent, acks[i]))
    && (forall i, j | 0 <= i < j < |acks| :: acks[i].seqno != acks[j].seqno)
  }

  ghost function AckedSet(acks: seq<Ack>): set<nat> { set i | 0 <= i < |acks| :: acks[i].seqno }

  /** What is accepted of a response at all. */
  ghost predicate Acceptable(sent: seq<Envelope>, out: ExchangeResponse) {
    && out.schema == 1 && |out.acks| <= |sent| && |out.inbound| <= 100 && |out.deliveryCursor| <= CURSOR_LIMIT
    && AllMatch(sent, out.acks)
  }

  /** The rows sent have different numbers. */
  ghost predicate Numbered(sent: seq<Envelope>) {
    forall i, j | 0 <= i < j < |sent| :: sent[i].seqno != sent[j].seqno
  }

  /** A response is taken as a whole or not at all: it is of version 1, is not too long, and
      each of its acknowledgements is one of a row that was sent, each for another. */
  lemma AcceptableMeans(sent: seq<Envelope>, out: ExchangeResponse)
    requires Numbered(sent)
    ensures Acceptable(sent, out) <==>
      && out.schema == 1 && |out.inbound| <= 100 && |out.deliveryCursor| <= 8192
      && (forall ack | ack in out.acks ::
            ack.outcome in {Accepted, Reordered, Duplicate} && exists row :: row in sent && AckOf(ack, row))
      && (forall i, j | 0 <= i < j < |out.acks| :: out.acks[i].seqno != out.acks[j].seqno)
  {
    forall ack ensures Matches(sent, ack) <==>
        ack.outcome in {Accepted, Reordered, Duplicate} && exists row :: row in sent && AckOf(ack, row) {
      MatchesMeans(sent, ack);
    }
    hide Matches, AckOf;
    if AllMatch(sent, out.acks) { NoMoreThanSent(sent, out.acks); }
    assert forall i | 0 <= i < |out.acks| :: out.acks[i] in out.acks;
  }

  lemma {:induction false} ExpectedMeans(sent: seq<Envelope>, n: nat)
    requires Numbered(sent)
    ensures Expected(sent, n).Some? ==> Expected(sent, n).value in sent && Expected(sent, n).value.seqno == n
    ensures forall row | row in sent && row.seqno == n :: Expected(sent, n) == Some(row)
    decreases |sent|
  {
    if sent != [] {
      var less := sent[..|sent| - 1];
      assert sent == less + [sent[|sent| - 1]];
      assert forall i | 0 <= i < |less| :: less[i] == sent[i];
      ExpectedMeans(less, n);
    }
  }

  lemma MatchesMeans(sent: seq<Envelope>, ack: Ack)
    requires Numbered(sent)
    ensures Matches(sent, ack) <==>
      ack.outcome in {Accepted, Reordered, Duplicate} && exists row :: row in sent && AckOf(ack, row)
  {
    ExpectedMeans(sent, ack.seqno);
    hide Expected;
  }

  lemma NoMoreThanSent(sent: seq<Envelope>, acks: seq<Ack>)
    requires Numbered(sent) && AllMatch(sent, acks)
    ensures |acks| <= |sent|
  {
    var numbers := set i | 0 <= i < |sent| :: sent[i].seqno;
    forall i | 0 <= i < |acks| ensures acks[i].seqno in numbers {
      MatchesMeans(sent, acks[i]);
      hide Matches;
      var row :| row in sent && AckOf(acks[i], row);
      var k :| 0 <= k < |sent| && sent[k] == row;
    }
    hide Matches;
    AsMany(acks, numbers);
    AtMost(sent, numbers);
  }

  /** Different numbers of a set are no more than the set has. */
  lemma {:induction false} AsMany(acks: seq<Ack>, numbers: set<nat>)
    requires forall i | 0 <= i < |acks| :: acks[i].seqno in numbers
    requires forall i, j | 0 <= i < j < |acks| :: acks[i].seqno != acks[j].seqno
    ensures |acks| <= |numbers|
    decreases |acks|
  {
    if acks != [] {
      var n := |acks| - 1;
      assert forall i | 0 <= i < n :: acks[..n][i] == acks[i];
      AsMany(acks[..n], numbers - {acks[n].seqno});
    }
  }

  lemma {:induction false} AtMost(sent: seq<Envelope>, numbers: set<nat>)
    requires numbers == set i | 0 <= i < |sent| :: sent[i].seqno
    ensures |numbers| <= |sent|
    decreases |sent|
  {
    if sent != [] {
      var n := |sent| - 1;
      var less := set i | 0 <= i < n :: sent[..n][i].seqno;
      AtMost(sent[..n], less);
      assert numbers == less + {sent[n].seqno};
    }
  }

  /** `k` is the end of the longest run of acknowledged sequences that starts right
      after `base`. */
  ghost predicate IsFrontier(base: nat, acked: set<nat>, k: nat) {
    && k >= base && k + 1 !in acked
    && forall n | base < n <= k :: n in acked
  }

  lemma FrontierUnique(base: nat, acked: set<nat>, j: nat, k: nat)
    requires IsFrontier(base, acked, j) && IsFrontier(base, acked, k)
    ensures j == k
  {
    assert j < k ==> j + 1 in acked;
    assert k < j ==> k + 1 in acked;
  }

  ghost predicate Ascending(s: seq<nat>) { forall i, j | 0 <= i < j < |s| :: s[i] < s[j] }

  /** sort.Slice over the keys of a map. */
  method SortedNumbers(numbers: set<nat>) returns (r: seq<nat>)
    ensures Ascending(r) && forall n :: n in r <==> n in numbers
  {
    r := [];
    var left := numbers;
    while left != {}
      invariant left <= numbers && Ascending(r)
      invariant forall n :: n in r <==> n in numbers - left
      decreases left
    {
      var n :| n in left;
      left := left - {n};
      r := Insert(r, n);
    }
  }

  method Insert(sorted: seq<nat>, n: nat) returns (r: seq<nat>)
    requires Ascending(sorted) && n !in sorted
    ensures Ascending(r) && forall k :: k in r <==> k == n || k in sorted
  {
    var i := 0;
    while i < |sorted| && sorted[i] < n
      invariant i <= |sorted| && forall k | 0 <= k < i :: sorted[k] < n
    {
      i := i + 1;
    }
    assert sorted == sorted[..i] + sorted[i..];
    r := sorted[..i] + [n] + sorted[i..];
    assert forall k | i <= k < |sorted| :: sorted[k] > n;
  }

  class HTTPTransport {
    var acknowledged: nat
    var deliveryCursor: string

    constructor (acknowledged: nat, deliveryCursor: string)
      ensures this.acknowledged == acknowledged && this.deliveryCursor == deliveryCursor
    {
      this.acknowledged, this.deliveryCursor := acknowledged, deliveryCursor;
    }

    /** The loop that matches acknowledgements with rows. */
    method MatchAcks(sent: seq<Envelope>, acks: seq<Ack>) returns (accepted: Option<set<nat>>)
      ensures accepted == if AllMatch(sent, acks) then Some(AckedSet(acks)) else None
    {
      hide Matches;
      var numbers: set<nat> := {};
      for i := 0 to |acks|
        invariant forall k | 0 <= k < i :: Matches(sent, acks[k]) && acks[k].seqno in numbers
        invariant forall n | n in numbers :: exists k :: 0 <= k < i && acks[k].seqno == n
        invariant forall j, k | 0 <= j < k < i :: acks[j].seqno != acks[k].seqno
      {
        if acks[i].seqno in numbers || !Matches(sent, acks[i]) { return None; }
        numbers := numbers + {acks[i].seqno};
      }
      assert numbers == AckedSet(acks);
      return Some(numbers);
    }

    /** The walk over the sorted sequences. */
    method Contiguous(base: nat, numbers: set<nat>) returns (ack: nat)
      ensures IsFrontier(base, numbers, ack)
    {
      var sequences := SortedNumbers(numbers);
      ack := base;
      var i := 0;
      while i < |sequences| && sequences[i] <= ack + 1
        invariant i <= |sequences| && ack >= base
        invariant forall n | base < n <= ack :: n in numbers
        invariant forall k | 0 <= k < i :: sequences[k] <= ack
      {
        if sequences[i] == ack + 1 { ack := sequences[i]; }
        i := i + 1;
      }
      assert ack + 1 !in sequences;
    }

    /** `out` is the decoded response to the bounded request, None when the request
        failed or the response could not be decoded. One foreign, repeated or
        mismatched acknowledgement rejects all of it; otherwise the result is the
        longest acknowledged run after the prior acknowledgement. */
    method Exchange(pending: seq<Envelope>, out: Option<ExchangeResponse>) returns (result: Option<ExchangeResult>)
      modifies this
      ensures acknowledged == old(acknowledged)
      ensures result.Some? <==> out.Some? && Acceptable(Batch(pending), out.value)
      ensures result.Some? ==>
        && IsFrontier(acknowledged, AckedSet(out.value.acks), result.value.acked)
        && result.value.inbound == out.value.inbound && deliveryCursor == out.value.deliveryCursor
      ensures result.None? ==> deliveryCursor == old(deliveryCursor)
    {
      var sent := Batch(pending);
      if out.None? { return None; }
      var r := out.value;
      if r.schema != 1 || |r.acks| > |sent| || |r.inbound| > 100 || |r.deliveryCursor| > CURSOR_LIMIT { return None; }
      var accepted := MatchAcks(sent, r.acks);
      if accepted.None? { return None; }
      var ack := Contiguous(acknowledged, accepted.value);
      deliveryCursor := r.deliveryCursor;
      return Some(ExchangeResult(ack, r.inbound));
    }
  }
}
