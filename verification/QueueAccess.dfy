/** Which queues an access id owns: one side of a NIC port labels every queue
    with an access id and then filters the labels (ssn_ma_port.cc), a ring
    deals the queues out directly (ssn_ma_ring.h). Both must give access id
    `aid` the same contiguous slice, the slices must partition the queues, and
    an accessor must visit its slice in turn. */
module QueueAccess {

  /** An accessor: the queues it owns and the position of the next one. The
      source keeps accessors by value in a vector, so they are values here. */
  datatype Accessor = Accessor(idx: nat, ques: seq<nat>)

  datatype QueueLabel = QueueLabel(que: nat, acc: nat)

  /** How a configuration call ends: normally, with an exception, or with a
      remainder by zero. */
  datatype Outcome = Done | Thrown | DivisionByZero

  /** How a burst ends: on a queue, or with a remainder by zero. */
  datatype BurstOutcome = Queue(qid: nat) | RemainderByZero

  /** The queues that access id `aid` is meant to own. */
  function Slice(nQue: nat, nAcc: nat, aid: nat): seq<nat>
    requires 0 < nAcc
  {
    Span(aid * (nQue / nAcc), nQue / nAcc)
  }

  function Span(first: nat, len: nat): seq<nat> {
    seq(len, i requires 0 <= i => first + i)
  }

  // ---- The slices partition the queues ----

  lemma DivisionIsUnique(per: nat, aid: nat, q: nat)
    requires 0 < per
    ensures aid * per <= q < aid * per + per <==> aid == q / per
  {
    var d := q / per;
    assert q == d * per + q % per;
    if aid < d {
      assert (aid + 1) * per <= d * per by { MulMonotone(aid + 1, d, per); }
      assert (aid + 1) * per == aid * per + per;
    } else if d < aid {
      assert (d + 1) * per <= aid * per by { MulMonotone(d + 1, aid, per); }
      assert (d + 1) * per == d * per + per;
    }
  }

  lemma MulMonotone(a: nat, b: nat, c: nat)
    requires a <= b
    ensures a * c <= b * c
  {
    assert b * c == a * c + (b - a) * c;
  }

  lemma InSlice(nQue: nat, nAcc: nat, aid: nat, q: nat)
    requires 0 < nAcc
    ensures q in Slice(nQue, nAcc, aid)
        <==> aid * (nQue / nAcc) <= q < aid * (nQue / nAcc) + nQue / nAcc
  {
    var first, per := aid * (nQue / nAcc), nQue / nAcc;
    if first <= q < first + per {
      assert Slice(nQue, nAcc, aid)[q - first] == q;
    }
  }

  /** When the counts divide, every queue is owned by exactly one access id,
      and no access id owns a queue that does not exist. */
  lemma SlicesPartition(nQue: nat, nAcc: nat, aid: nat, q: nat)
    requires 0 < nAcc && nQue % nAcc == 0
    requires aid < nAcc
    ensures q in Slice(nQue, nAcc, aid) ==> q < nQue
    ensures q < nQue ==>
      && 0 < nQue / nAcc
      && q / (nQue / nAcc) < nAcc
      && (q in Slice(nQue, nAcc, aid) <==> aid == q / (nQue / nAcc))
  {
    var per := nQue / nAcc;
    assert nQue == nAcc * per;
    InSlice(nQue, nAcc, aid, q);
    if q in Slice(nQue, nAcc, aid) {
      MulMonotone(aid + 1, nAcc, per);
      assert (aid + 1) * per == aid * per + per;
    }
    if q < nQue {
      assert 0 < per;
      DivisionIsUnique(per, aid, q);
      assert q == (q / per) * per + q % per;
      MulMonotone(nAcc, if nAcc <= q / per then q / per else nAcc, per);
    }
  }

  // ---- Label, then filter ----

  /** The queue ids labelled `aid`, in the order of the labels. */
  function Labelled(queues: seq<QueueLabel>, aid: nat): seq<nat> {
    if queues == [] then []
    else
      var last := queues[|queues| - 1];
      Labelled(queues[..|queues| - 1], aid) + if last.acc == aid then [last.que] else []
  }

  function Row(first: nat, len: nat, aid: nat): seq<QueueLabel> {
    seq(len, i requires 0 <= i => QueueLabel(first + i, aid))
  }

  /** The labels of the first `n` access ids, `per` queues each. */
  function Rows(per: nat, n: nat): seq<QueueLabel> {
    if n == 0 then [] else Rows(per, n - 1) + Row((n - 1) * per, per, n - 1)
  }

  lemma {:induction false} LabelledConcat(a: seq<QueueLabel>, b: seq<QueueLabel>, aid: nat)
    ensures Labelled(a + b, aid) == Labelled(a, aid) + Labelled(b, aid)
    decreases |b|
  {
    if b == [] {
      assert a + b == a;
    } else {
      assert (a + b)[..|a + b| - 1] == a + b[..|b| - 1];
      LabelledConcat(a, b[..|b| - 1], aid);
    }
  }

  lemma {:induction false} LabelledRow(first: nat, len: nat, acc: nat, aid: nat)
    ensures Labelled(Row(first, len, acc), aid) == if acc == aid then Span(first, len) else []
  {
    if len != 0 {
      LabelledRow(first, len - 1, acc, aid);
      RowGrows(first, len - 1, acc);
      assert Row(first, len, acc)[..len - 1] == Row(first, len - 1, acc);
      assert Span(first, len) == Span(first, len - 1) + [first + len - 1];
    }
  }

  /** Filtering the labels gives access id `aid` its span and nothing else. */
  lemma {:induction false} LabelledRows(per: nat, n: nat, aid: nat)
    ensures Labelled(Rows(per, n), aid) == if aid < n then Span(aid * per, per) else []
  {
    if n != 0 {
      LabelledRows(per, n - 1, aid);
      LabelledConcat(Rows(per, n - 1), Row((n - 1) * per, per, n - 1), aid);
      LabelledRow((n - 1) * per, per, n - 1, aid);
    }
  }

  lemma RowGrows(first: nat, len: nat, aid: nat)
    ensures Row(first, len + 1, aid) == Row(first, len, aid) + [QueueLabel(first + len, aid)]
  {
  }

  function Resized(accessors: seq<Accessor>, n: nat): (r: seq<Accessor>)
    ensures |r| == n
  {
    if n <= |accessors| then accessors[..n]
    else accessors + seq(n - |accessors|, _ => Accessor(0, []))
  }

  /** One direction of a NIC port. */
  class OneSide {
    var nQueues: nat
    var nAccessor: nat
    var queues: seq<QueueLabel>
    var accessors: seq<Accessor>

    constructor ()
      ensures nQueues == 1 && nAccessor == 1 && queues == [] && |accessors| == 1
    {
      nQueues, nAccessor, queues := 1, 1, [];
      accessors := Resized([], 1);
    }

    method QidsFromAid(aid: nat) returns (vec: seq<nat>)
      ensures vec == Labelled(queues, aid)
    {
      vec := [];
      for i := 0 to |queues|
        invariant vec == Labelled(queues[..i], aid)
      {
        assert queues[..i + 1][..i] == queues[..i];
        if queues[i].acc == aid {
          vec := vec + [queues[i].que];
        }
      }
      assert queues[..|queues|] == queues;
    }

    /** Deals `nQue` queues out to `nAcc` access ids. It throws exactly when
        there is an access id and the counts do not divide; no access ids at
        all is no error. */
    method ConfigureQueueAccessor(nQue: nat, nAcc: nat) returns (r: Outcome)
      modifies this
      ensures r == if nAcc != 0 && nQue % nAcc != 0 then Thrown else Done
      ensures nQueues == nQue && nAccessor == nAcc && |accessors| == nAcc
      ensures r.Done? ==> forall a :: 0 <= a < nAcc ==> accessors[a] == Accessor(0, Slice(nQue, nAcc, a))
    {
      nQueues, nAccessor, queues := nQue, nAcc, [];
      accessors := Resized(accessors, nAcc);
      r := LabelQueues();
      if r == Done {
        FillAccessors();
      }
    }

    method LabelQueues() returns (r: Outcome)
      requires queues == []
      modifies this`queues
      ensures r == if nAccessor != 0 && nQueues % nAccessor != 0 then Thrown else Done
      ensures r.Done? && nAccessor != 0 ==> queues == Rows(nQueues / nAccessor, nAccessor)
      ensures nAccessor == 0 ==> queues == []
    {
      var qid, aid := 0, 0;
      while aid < nAccessor
        invariant 0 <= aid <= nAccessor
        invariant nAccessor != 0 ==> qid == aid * (nQueues / nAccessor)
        invariant nAccessor != 0 ==> queues == Rows(nQueues / nAccessor, aid)
        invariant nAccessor == 0 ==> queues == []
        invariant 0 < aid ==> nQueues % nAccessor == 0
      {
        if nQueues % nAccessor != 0 {
          return Thrown;
        }
        var per := nQueues / nAccessor;
        var before := queues;
        for pivot := 0 to per
          invariant queues == before + Row(qid, pivot, aid)
        {
          RowGrows(qid, pivot, aid);
          queues := queues + [QueueLabel(qid + pivot, aid)];
        }
        assert (aid + 1) * per == aid * per + per;
        qid := qid + per;
        aid := aid + 1;
      }
      return Done;
    }

    method FillAccessors()
      requires |accessors| == nAccessor
      requires nAccessor != 0 ==> queues == Rows(nQueues / nAccessor, nAccessor)
      modifies this`accessors
      ensures |accessors| == nAccessor
      ensures forall a :: 0 <= a < nAccessor ==> accessors[a] == Accessor(0, Slice(nQueues, nAccessor, a))
    {
      for aid := 0 to nAccessor
        invariant |accessors| == nAccessor
        invariant forall a :: 0 <= a < aid ==> accessors[a] == Accessor(0, Slice(nQueues, nAccessor, a))
      {
        var vec := QidsFromAid(aid);
        LabelledRows(nQueues / nAccessor, nAccessor, aid);
        accessors := accessors[aid := Accessor(0, vec)];
      }
    }

    /** The queue of one burst on access id `aid`. An access id that owns no
        queue takes a remainder by zero here. */
    method Burst(aid: nat) returns (r: BurstOutcome)
      requires aid < |accessors| && (Live(accessors[aid]) || accessors[aid].ques == [])
      modifies this`accessors
      ensures r == if Live(old(accessors[aid])) then Queue(Current(old(accessors[aid]))) else RemainderByZero
      ensures accessors == if r.Queue? then old(accessors)[aid := Advanced(old(accessors[aid]))] else old(accessors)
    {
      var ret := accessors[aid].idx;
      var n := |accessors[aid].ques|;
      if n == 0 {
        return RemainderByZero;
      }
      accessors := accessors[aid := accessors[aid].(idx := Wrapped(ret, n))];
      return Queue(accessors[aid].ques[ret]);
    }
  }

  /** When the counts divide, an access id owns no queue exactly when there is none. */
  lemma SliceEmptyIff(nQue: nat, nAcc: nat, aid: nat)
    requires 0 < nAcc && nQue % nAcc == 0
    ensures Slice(nQue, nAcc, aid) == [] <==> nQue == 0
  {
    assert nQue == (nQue / nAcc) * nAcc;
  }

  // ---- Taking turns ----

  predicate Live(a: Accessor) {
    a.idx < |a.ques|
  }

  function Current(a: Accessor): nat
    requires Live(a)
  {
    a.ques[a.idx]
  }

  function Wrapped(i: nat, n: nat): (r: nat)
    requires i < n
    ensures r == if i + 1 < n then i + 1 else 0
  {
    (i + 1) % n
  }

  function Advanced(a: Accessor): (r: Accessor)
    requires Live(a)
    ensures Live(r) && r.ques == a.ques
  {
    Accessor(Wrapped(a.idx, |a.ques|), a.ques)
  }

  function After(a: Accessor, n: nat): (r: Accessor)
    requires Live(a)
    ensures Live(r)
  {
    if n == 0 then a else Advanced(After(a, n - 1))
  }

  /** The queues of `n` bursts in a row. */
  function Turns(a: Accessor, n: nat): (s: seq<nat>)
    requires Live(a)
    ensures |s| == n
  {
    if n == 0 then [] else Turns(a, n - 1) + [Current(After(a, n - 1))]
  }

  lemma {:induction false} AfterAt(a: Accessor, n: nat)
    requires Live(a) && n <= |a.ques|
    ensures After(a, n).ques == a.ques
    ensures After(a, n).idx == if a.idx + n < |a.ques| then a.idx + n else a.idx + n - |a.ques|
  {
    if n != 0 {
      AfterAt(a, n - 1);
    }
  }

  /** The queues in the order in which `a` is about to visit them. */
  function Upcoming(a: Accessor): (s: seq<nat>)
    requires Live(a)
    ensures |s| == |a.ques|
  {
    a.ques[a.idx..] + a.ques[..a.idx]
  }

  lemma {:induction false} TurnsAreUpcoming(a: Accessor, n: nat)
    requires Live(a) && n <= |a.ques|
    ensures Turns(a, n) == Upcoming(a)[..n]
  {
    hide After;
    if n != 0 {
      TurnsAreUpcoming(a, n - 1);
      AfterAt(a, n - 1);
      var round := Upcoming(a);
      assert round[..n] == round[..n - 1] + [round[n - 1]];
    }
  }

  lemma UpcomingIsAll(a: Accessor)
    requires Live(a)
    ensures multiset(Upcoming(a)) == multiset(a.ques)
  {
    assert a.ques == a.ques[..a.idx] + a.ques[a.idx..];
  }

  /** From any position, as many bursts as there are owned queues use each of
      them exactly once and bring the accessor back to where it was. */
  lemma RoundVisitsEachOnce(a: Accessor, n: nat)
    requires Live(a) && n == |a.ques|
    ensures multiset(Turns(a, n)) == multiset(a.ques)
    ensures After(a, n) == a
  {
    assert Turns(a, n) == Upcoming(a) by {
      TurnsAreUpcoming(a, n);
    }
    UpcomingIsAll(a);
    assert After(a, n) == a by {
      AfterAt(a, n);
    }
  }

  // ---- Direct slices ----

  /** The queues of a virtual link between two VNFs. */
  class Ring {
    const nRings: nat
    var enqAccessors: seq<Accessor>
    var deqAccessors: seq<Accessor>

    constructor (n: nat)
      ensures nRings == n && enqAccessors == [] && deqAccessors == []
    {
      nRings, enqAccessors, deqAccessors := n, [], [];
    }

    /** Unlike a NIC side, a ring divides before it looks at the number of
        access ids: none at all is a division by zero. */
    static method Dealt(nQue: nat, accs: seq<Accessor>) returns (r: Outcome, dealt: seq<Accessor>)
      ensures r == if |accs| == 0 then DivisionByZero else if nQue % |accs| != 0 then Thrown else Done
      ensures |dealt| == |accs|
      ensures r.Done? ==> forall a :: 0 <= a < |accs| ==> dealt[a] == Accessor(0, Slice(nQue, |accs|, a))
    {
      dealt := accs;
      if |accs| == 0 {
        return DivisionByZero, dealt;
      }
      if nQue % |accs| != 0 {
        return Thrown, dealt;
      }
      var per := nQue / |accs|;
      var c := 0;
      for a := 0 to |accs|
        invariant |dealt| == |accs| && c == a * per
        invariant forall b :: 0 <= b < a ==> dealt[b] == Accessor(0, Slice(nQue, |accs|, b))
      {
        var vec := [];
        for i := 0 to per
          invariant vec == Span(c, i)
        {
          vec := vec + [i + c];
        }
        dealt := dealt[a := Accessor(0, vec)];
        assert (a + 1) * per == a * per + per;
        c := c + per;
      }
      return Done, dealt;
    }

    method ConfigureDeqAcc(nAcc: nat) returns (r: Outcome)
      modifies this`deqAccessors
      ensures r == if nAcc == 0 then DivisionByZero else if nRings % nAcc != 0 then Thrown else Done
      ensures |deqAccessors| == nAcc
      ensures r.Done? ==> forall a :: 0 <= a < nAcc ==> deqAccessors[a] == Accessor(0, Slice(nRings, nAcc, a))
    {
      deqAccessors := Resized(deqAccessors, nAcc);
      r, deqAccessors := Dealt(nRings, deqAccessors);
    }

    method ConfigureEnqAcc(nAcc: nat) returns (r: Outcome)
      modifies this`enqAccessors
      ensures r == if nAcc == 0 then DivisionByZero else if nRings % nAcc != 0 then Thrown else Done
      ensures |enqAccessors| == nAcc
      ensures r.Done? ==> forall a :: 0 <= a < nAcc ==> enqAccessors[a] == Accessor(0, Slice(nRings, nAcc, a))
    {
      enqAccessors := Resized(enqAccessors, nAcc);
      r, enqAccessors := Dealt(nRings, enqAccessors);
    }
  }
}
