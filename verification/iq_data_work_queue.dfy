/**
 The IQ data work queue, `iq_data_work_queue.c`: an 8-slot ring buffer of raw
 IQ sample records. New records are written at `head`; when the buffer is full
 the oldest record is overwritten (FIFO eviction). The handler takes records
 from `head`, newest first (LIFO processing), until the buffer is empty.

 The spinlock and the Zephyr work items are not modelled: each operation is one
 atomic step, and "submit the processor work" becomes a boolean output.
 */
module IqDataWorkQueue {
  import opened Common

  /** IQ_DATA_WORK_QUEUE_CAPACITY */
  const Capacity: nat := 8

  /** `struct iq_data_work_queue`. `head` indexes the newest record and `tail`
      the slot just before the oldest; whether a processor function and a
      target work queue are set is all the model keeps of those pointers. */
  datatype Queue<T> = Queue(
    buffer: seq<T>,
    head: int,
    tail: int,
    count: int,
    hasProcessor: bool,
    hasTarget: bool)

  /** The ring invariant: indices in range, count bounded, and
      head = tail + count modulo the capacity. */
  ghost predicate Valid<T>(q: Queue<T>) {
    && |q.buffer| == Capacity
    && 0 <= q.head < Capacity
    && 0 <= q.tail < Capacity
    && 0 <= q.count <= Capacity
    && q.head == Slot(q.tail + q.count)
  }

  /** Ring index arithmetic: `i % Capacity` for the indices that arise here. */
  function Slot(i: int): (r: int)
    requires 0 <= i < 2 * Capacity
    ensures 0 <= r < Capacity && r == i % Capacity
  {
    if i < Capacity then i else i - Capacity
  }

  /** The queued records, oldest first. */
  function Contents<T>(q: Queue<T>): (r: seq<T>)
    requires Valid(q)
    ensures |r| == q.count
  {
    seq(q.count, k requires 0 <= k < q.count => q.buffer[Slot(q.tail + 1 + k)])
  }

  /** `iq_data_work_queue_init`: does nothing if any argument is NULL;
      otherwise the queue is emptied and the processor and target are set. */
  function Init<T>(q: Ptr<Queue<T>>, targetPresent: bool, processorPresent: bool): (r: Ptr<Queue<T>>)
    requires q.Ref? ==> |q.value.buffer| == Capacity
    ensures q.Null? || !targetPresent || !processorPresent ==> r == q
    ensures q.Ref? && targetPresent && processorPresent ==>
      && r.Ref? && Valid(r.value)
      && r.value.head == 0 && r.value.tail == 0 && r.value.count == 0
      && Contents(r.value) == []
      && r.value.hasProcessor && r.value.hasTarget
  {
    if q.Null? || !targetPresent || !processorPresent then q
    else Ref(q.value.(head := 0, tail := 0, count := 0, hasProcessor := true, hasTarget := true))
  }

  /** The result of `iq_data_work_queue_submit`: the queue, whether the count
      became 1 ("start processing"), and whether the processor work is then
      submitted to the target work queue. */
  datatype SubmitResult<T> = SubmitResult(queue: Ptr<Queue<T>>, start: bool, scheduled: bool)

  /** `iq_data_work_queue_submit` */
  function Submit<T>(q: Ptr<Queue<T>>, item: Ptr<T>): (r: SubmitResult<T>)
    requires q.Ref? ==> Valid(q.value)
    ensures q.Null? || item.Null? ==> r == SubmitResult(q, false, false)
    ensures q.Ref? && item.Ref? ==> r.queue.Ref? && Valid(r.queue.value)
    ensures q.Ref? && item.Ref? ==>
      var old_, new_ := q.value, r.queue.value;
      && new_.hasProcessor == old_.hasProcessor && new_.hasTarget == old_.hasTarget
      && new_.buffer[new_.head] == item.value
      && new_.head == (old_.head + 1) % Capacity
      && (old_.count < Capacity ==>
            new_.count == old_.count + 1 && new_.tail == old_.tail
            && Contents(new_) == Contents(old_) + [item.value])
      && (old_.count == Capacity ==>
            new_.count == Capacity && new_.tail == (old_.tail + 1) % Capacity
            && Contents(new_) == Contents(old_)[1..] + [item.value])
      && (r.start <==> new_.count == 1)
      && (r.scheduled <==> r.start && old_.hasTarget)
  {
    if q.Null? || item.Null? then SubmitResult(q, false, false)
    else
      var o := q.value;
      var full := o.count == Capacity;
      var tail := if full then (o.tail + 1) % Capacity else o.tail;
      var head := (o.head + 1) % Capacity;
      var count := if full then o.count else o.count + 1;
      var n := o.(buffer := o.buffer[head := item.value], head := head, tail := tail, count := count);
      ContentsAfterSubmit(o, n, item.value);
      SubmitResult(Ref(n), count == 1, count == 1 && o.hasTarget)
  }

  lemma ContentsAfterSubmit<T>(o: Queue<T>, n: Queue<T>, item: T)
    requires Valid(o)
    requires n.head == (o.head + 1) % Capacity
    requires n.buffer == o.buffer[n.head := item]
    requires o.count < Capacity ==> n.count == o.count + 1 && n.tail == o.tail
    requires o.count == Capacity ==> n.count == o.count && n.tail == (o.tail + 1) % Capacity
    ensures Valid(n)
    ensures o.count < Capacity ==> Contents(n) == Contents(o) + [item]
    ensures o.count == Capacity ==> Contents(n) == Contents(o)[1..] + [item]
  {
    assert n.head == Slot(o.head + 1);
    if o.count < Capacity {
      SubmitWithRoom(o, n, item);
    } else {
      SubmitWhenFull(o, n, item);
    }
  }

  /** With a free slot, the new record goes after the others. */
  lemma SubmitWithRoom<T>(o: Queue<T>, n: Queue<T>, item: T)
    requires Valid(o) && o.count < Capacity
    requires n.head == Slot(o.head + 1)
    requires n.buffer == o.buffer[n.head := item]
    requires n.count == o.count + 1 && n.tail == o.tail
    ensures Valid(n) && Contents(n) == Contents(o) + [item]
  {
    var c := Contents(o);
    assert n.head == Slot(n.tail + n.count);
    forall k | 0 <= k < n.count
      ensures Contents(n)[k] == (c + [item])[k]
    {
      if k < o.count {
        assert Slot(o.tail + 1 + k) != n.head;
      }
    }
  }

  /** When full, the oldest record is overwritten by the new one. */
  lemma SubmitWhenFull<T>(o: Queue<T>, n: Queue<T>, item: T)
    requires Valid(o) && o.count == Capacity
    requires n.head == Slot(o.head + 1)
    requires n.buffer == o.buffer[n.head := item]
    requires n.count == o.count && n.tail == (o.tail + 1) % Capacity
    ensures Valid(n) && Contents(n) == Contents(o)[1..] + [item]
  {
    var c := Contents(o);
    assert n.tail == Slot(o.tail + 1);
    assert n.head == Slot(n.tail + n.count);
    forall k | 0 <= k < n.count
      ensures Contents(n)[k] == (c[1..] + [item])[k]
    {
      if k < Capacity - 1 {
        assert Slot(n.tail + 1 + k) == Slot(o.tail + 1 + (k + 1));
        assert Slot(o.tail + 1 + (k + 1)) != n.head;
      }
    }
  }

  /** One extraction step of `iq_data_work_queue_handler`: the record at
      `head` (the newest) is taken and `head` moves back, wrapping from 0 to
      the last slot. */
  function Extract<T>(q: Queue<T>): (r: (Option<T>, Queue<T>))
    requires Valid(q)
    ensures Valid(r.1)
    ensures r.1.hasProcessor == q.hasProcessor && r.1.hasTarget == q.hasTarget
    ensures q.count == 0 ==> r.0.None? && r.1 == q
    ensures q.count > 0 ==>
      && r.0 == Some(Contents(q)[q.count - 1])
      && r.1.count == q.count - 1
      && r.1.head == (if q.head == 0 then Capacity - 1 else q.head - 1)
      && Contents(r.1) == Contents(q)[..q.count - 1]
  {
    if q.count > 0 then
      var n := q.(head := if q.head == 0 then Capacity - 1 else q.head - 1, count := q.count - 1);
      assert Slot(q.tail + 1 + (q.count - 1)) == q.head;
      assert forall k :: 0 <= k < n.count ==> Contents(n)[k] == Contents(q)[k];
      (Some(q.buffer[q.head]), n)
    else
      (None, q)
  }

  /** The most recently submitted record is the next one extracted. */
  lemma SubmitThenExtract<T>(q: Queue<T>, item: T)
    requires Valid(q)
    ensures Extract(Submit(Ref(q), Ref(item)).queue.value).0 == Some(item)
  {
  }

  function Reverse<T>(s: seq<T>): (r: seq<T>)
    ensures |r| == |s|
    ensures forall k :: 0 <= k < |s| ==> r[k] == s[|s| - 1 - k]
  {
    if s == [] then [] else [s[|s| - 1]] + Reverse(s[..|s| - 1])
  }

  /** Taking one more element of the reversal takes the next element from
      the back. */
  lemma ReversePrefixGrows<T>(s: seq<T>, j: nat)
    requires j < |s|
    ensures Reverse(s)[..j + 1] == Reverse(s)[..j] + [s[|s| - 1 - j]]
  {
    var r := Reverse(s);
    var grown := r[..j] + [s[|s| - 1 - j]];
    forall k | 0 <= k < j + 1
      ensures r[..j + 1][k] == grown[k]
    {
      assert r[k] == s[|s| - 1 - k];
    }
  }

  /** `iq_data_work_queue_handler`: extract until the queue is empty, passing
      every extracted record to the processor (when one is set). Returns the
      processed records in processing order, the emptied queue, and whether
      the handler resubmits itself because records arrived meanwhile (which
      cannot happen without concurrency). */
  method Handle<T>(q0: Queue<T>) returns (processed: seq<T>, q: Queue<T>, resubmit: bool)
    requires Valid(q0)
    ensures Valid(q) && q.count == 0
    ensures q.hasProcessor == q0.hasProcessor && q.hasTarget == q0.hasTarget
    ensures processed == (if q0.hasProcessor then Reverse(Contents(q0)) else [])
    ensures !resubmit
  {
    processed := [];
    q := q0;
    while true
      invariant Valid(q)
      invariant q.hasProcessor == q0.hasProcessor && q.hasTarget == q0.hasTarget
      invariant Contents(q) == Contents(q0)[..q.count]
      invariant processed == (if q0.hasProcessor then Reverse(Contents(q0))[..q0.count - q.count] else [])
      decreases q.count
    {
      var r := Extract(q);
      var item, exhausted := r.0, r.1.count == 0;
      ghost var before := q.count;
      q := r.1;
      if item.Some? && q.hasProcessor {
        ReversePrefixGrows(Contents(q0), q0.count - before);
        processed := processed + [item.value];
      }
      if exhausted {
        break;
      }
    }
    resubmit := q.count > 0 && q.hasTarget;
  }
}
