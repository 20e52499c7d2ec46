/**
 * trace_cb of tracer.c, the callback perf_buffer hands every raw record to,
 * and the way a stream of records drains through it.
 */
module Events {

  import opened Wrappers

  /** perf_event_header.type values of linux/perf_event.h. */
  const PERF_RECORD_LOST: int := 2
  const PERF_RECORD_SAMPLE: int := 9

  /** LIBBPF_PERF_EVENT_CONT and LIBBPF_PERF_EVENT_ERROR. */
  datatype PerfEventRet = Cont | Error

  /** What trace_cb returns and whether it called output_on_trace. */
  datatype Dispatch = Dispatch(ret: PerfEventRet, outputCalled: bool)

  /**
   * trace_cb for a record of type recordType; outputRc is what
   * output_on_trace returns for this record's payload if it is called.
   */
  function TraceCb(recordType: int, outputRc: int): (d: Dispatch)
    ensures d.outputCalled <==> recordType == PERF_RECORD_SAMPLE
    ensures recordType == PERF_RECORD_SAMPLE ==> (d.ret == Error <==> outputRc == -1)
    ensures recordType == PERF_RECORD_LOST ==> d.ret == Cont
    ensures recordType != PERF_RECORD_SAMPLE && recordType != PERF_RECORD_LOST ==> d.ret == Error
  {
    if recordType == PERF_RECORD_SAMPLE then
      if outputRc == -1 then Dispatch(Error, true) else Dispatch(Cont, true)
    else if recordType == PERF_RECORD_LOST then Dispatch(Cont, false)
    else Dispatch(Error, false)
  }

  /** A raw record: its type and what output_on_trace answers for it. */
  datatype Record = Record(recordType: int, outputRc: int)

  /** How a run of records drained: calls to the output, and the record that stopped it. */
  datatype Drain = Drain(outputCalls: nat, stoppedAt: Option<nat>)

  /**
   * The records handed to trace_cb one by one. libbpf is not part of this
   * model; it is taken to stop at the first record for which trace_cb does
   * not return LIBBPF_PERF_EVENT_CONT.
   */
  function Consume(recs: seq<Record>): Drain
    decreases |recs|
  {
    if recs == [] then Drain(0, None)
    else
      var d := TraceCb(recs[0].recordType, recs[0].outputRc);
      var calls := if d.outputCalled then 1 else 0;
      if d.ret == Error then Drain(calls, Some(0))
      else
        var rest := Consume(recs[1..]);
        Drain(calls + rest.outputCalls,
              if rest.stoppedAt.Some? then Some(rest.stoppedAt.value + 1) else None)
  }

  /** A record that passes through trace_cb without error. */
  predicate Benign(r: Record)
  {
    (r.recordType == PERF_RECORD_SAMPLE && r.outputRc != -1) || r.recordType == PERF_RECORD_LOST
  }

  /** The number of SAMPLE records in recs. */
  function Samples(recs: seq<Record>): nat
  {
    if recs == [] then 0
    else (if recs[0].recordType == PERF_RECORD_SAMPLE then 1 else 0) + Samples(recs[1..])
  }

  /**
   * A stream of N SAMPLE and M LOST records whose outputs succeed, followed
   * by a record of unknown type: the output is called exactly N times, the
   * LOST records are passed over, and the stream stops with an error at the
   * unknown record without calling the output for it.
   */
  lemma {:induction false} UnknownRecordStopsStream(prefix: seq<Record>, unknown: Record, rest: seq<Record>)
    requires forall k :: 0 <= k < |prefix| ==> Benign(prefix[k])
    requires unknown.recordType != PERF_RECORD_SAMPLE && unknown.recordType != PERF_RECORD_LOST
    ensures Consume(prefix + [unknown] + rest) == Drain(Samples(prefix), Some(|prefix|))
    decreases |prefix|
  {
    if prefix == [] {
      assert [unknown] + rest == prefix + [unknown] + rest;
    } else {
      assert (prefix + [unknown] + rest)[1..] == prefix[1..] + [unknown] + rest;
      UnknownRecordStopsStream(prefix[1..], unknown, rest);
    }
  }

  /** A stream of records that all pass calls the output once per SAMPLE and never stops. */
  lemma {:induction false} BenignStreamDrains(recs: seq<Record>)
    requires forall k :: 0 <= k < |recs| ==> Benign(recs[k])
    ensures Consume(recs) == Drain(Samples(recs), None)
    decreases |recs|
  {
    if recs != [] {
      BenignStreamDrains(recs[1..]);
    }
  }

  /** The output is never called more often than there are SAMPLE records. */
  lemma {:induction false} OutputOnlyForSamples(recs: seq<Record>)
    ensures Consume(recs).outputCalls <= Samples(recs)
    ensures Consume(recs).stoppedAt.Some? ==> Consume(recs).stoppedAt.value < |recs|
    decreases |recs|
  {
    if recs != [] {
      OutputOnlyForSamples(recs[1..]);
    }
  }
}
