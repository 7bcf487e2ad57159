/** The clock of the signed tree heads: every head later than the one before, and
    never far ahead of the wall clock. */
module TreeHeads {
  import opened Common

  /** The two numbers a head states. */
  datatype Stamp = Stamp(timestamp: nat, size: nat)

  /** One read: the clock, and the size of the tree. */
  datatype Request = Request(now: nat, size: nat)

  /** A head already signed still states everything. */
  predicate StillTrue(last: Option<Stamp>, q: Request) {
    last.Some? && last.value.size == q.size && last.value.timestamp >= q.now
  }

  function Later(last: Option<Stamp>, now: nat): nat {
    if last.Some? && last.value.timestamp + 1 > now then last.value.timestamp + 1 else now
  }

  /** What one read is answered with. */
  function Answer(last: Option<Stamp>, q: Request): Stamp {
    if StillTrue(last, q) then last.value else Stamp(Later(last, q.now), q.size)
  }

  function LastOf<T>(s: seq<T>): Option<T> {
    if s == [] then None else Some(s[|s| - 1])
  }

  /** The answers of one process, from its first read on. */
  function Answers(qs: seq<Request>): (heads: seq<Stamp>)
    ensures |heads| == |qs|
  {
    if qs == [] then [] else
    var before := Answers(qs[..|qs| - 1]);
    before + [Answer(LastOf(before), qs[|qs| - 1])]
  }

  /** How many reads found the tree at another size than the read before. */
  function Growths(qs: seq<Request>): nat {
    if |qs| <= 1 then 0
    else Growths(qs[..|qs| - 1]) + if qs[|qs| - 1].size != qs[|qs| - 2].size then 1 else 0
  }

  function LargestClock(qs: seq<Request>): nat {
    if qs == [] then 0 else
    var before, now := LargestClock(qs[..|qs| - 1]), qs[|qs| - 1].now;
    if before < now then now else before
  }

  lemma {:induction false} AnswersPrefix(qs: seq<Request>, n: nat)
    requires n <= |qs|
    ensures Answers(qs)[..n] == Answers(qs[..n])
    decreases |qs|
  {
    if n == |qs| {
      assert qs[..n] == qs && Answers(qs)[..n] == Answers(qs);
    } else {
      AnswersPrefix(qs[..|qs| - 1], n);
      assert qs[..|qs| - 1][..n] == qs[..n];
      assert Answers(qs)[..n] == Answers(qs[..|qs| - 1])[..n];
    }
  }

  lemma {:induction false} AnswersRise(qs: seq<Request>, i: nat, j: nat)
    requires i < j < |qs|
    ensures Answers(qs)[i] == Answers(qs)[j] || Answers(qs)[i].timestamp < Answers(qs)[j].timestamp
    decreases |qs|
  {
    var before := qs[..|qs| - 1];
    if j < |qs| - 1 {
      AnswersRise(before, i, j);
    } else if i < j - 1 {
      AnswersRise(before, i, j - 1);
    }
  }

  lemma {:induction false} OverrunBound(qs: seq<Request>)
    requires qs != []
    ensures Answers(qs)[|qs| - 1].size == qs[|qs| - 1].size
    ensures qs[|qs| - 1].now <= Answers(qs)[|qs| - 1].timestamp <= LargestClock(qs) + Growths(qs)
  {
    if |qs| > 1 { OverrunBound(qs[..|qs| - 1]); }
  }

  lemma BoundAt(qs: seq<Request>, j: nat)
    requires j < |qs|
    ensures Answers(qs)[j].size == qs[j].size
    ensures qs[j].now <= Answers(qs)[j].timestamp <= LargestClock(qs[..j + 1]) + Growths(qs[..j + 1])
  {
    hide Answers, Growths, LargestClock;
    AnswersPrefix(qs, j + 1);
    OverrunBound(qs[..j + 1]);
    assert Answers(qs)[..j + 1][j] == Answers(qs)[j];
  }

  /** Over any run of one process, whatever its clock does: each new head is later
      than every head before it, a head is served twice only at an unchanged size,
      and its time is past the largest clock reading by no more than the number of
      times the tree was seen to grow since the first head. */
  lemma HeadClock(qs: seq<Request>, i: nat, j: nat)
    requires i < j < |qs|
    ensures var heads := Answers(qs);
            && (heads[i] == heads[j] || heads[i].timestamp < heads[j].timestamp)
            && (heads[i] == heads[j] ==> qs[i].size == qs[j].size)
            && heads[j].size == qs[j].size && heads[j].timestamp >= qs[j].now
            && heads[j].timestamp <= LargestClock(qs[..j + 1]) + Growths(qs[..j + 1])
  {
    hide Answers, Growths, LargestClock;
    AnswersRise(qs, i, j);
    BoundAt(qs, i);
    BoundAt(qs, j);
  }

  /** While the tree only grows, it is seen to grow at most once a message. */
  lemma {:induction false} GrowthsAreMessages(qs: seq<Request>)
    requires qs != [] && forall i, j | 0 <= i < j < |qs| :: qs[i].size <= qs[j].size
    ensures Growths(qs) <= qs[|qs| - 1].size - qs[0].size
  {
    if |qs| > 1 {
      var before := qs[..|qs| - 1];
      GrowthsAreMessages(before);
      assert before[|before| - 1] == qs[|qs| - 2];
    }
  }
}
