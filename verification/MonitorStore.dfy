/**
 The in-memory Store of monitoring records and the Reporter in front of it. A commit of
 an error record passes through a durable sink first; the sink may refuse.

 Main result: whatever the sink answers, the Store is the replay of exactly the candidates
 the sink made durable (`SessionIsReplay`, and `Reporter.Valid` for the objects).
 */
module MonitorStore {
  import opened Bytes
  import opened MonitorData

  type Records = map<Key, StoredRecord>

  datatype UpdateStatus = Inserted | Updated | Unchanged | IgnoredInitialZero | Invalid | DurabilityFailed

  datatype UpdateResult = UpdateResult(status: UpdateStatus, record: Option<StoredRecord>)

  /** The stored value has this number, in whatever state, or this text byte for byte. */
  predicate HasValue(stored: Value, value: Value) {
    || (value.Numeric? && stored.Numeric? && stored.value == value.value)
    || (value.Text? && stored.Text? && |stored.text| == |value.text|
        && forall i :: 0 <= i < |value.text| ==> stored.text[i] == value.text[i])
  }

  /** Numbers compare by value alone, texts whole; different kinds differ. */
  predicate SameValue(incoming: Value, stored: Value): (same: bool)
    ensures same <==> HasValue(stored, incoming)
  {
    match incoming
    case Numeric(value, _) => stored.Numeric? && stored.value == value
    case Text(text) => stored.Text? && stored.text == text
    case Valueless => false
  }

  // ----- what an update means -----

  /** Nothing to do, or a candidate that wants to be committed. */
  datatype Decision = Ignore(result: UpdateResult) | Commit(status: UpdateStatus, candidate: StoredRecord)

  function Decide(records: Records, data: Data, force: bool, at: i64): (d: Decision)
    ensures d.Commit? ==> d.candidate == StoredRecord(data, at) && !data.value.Valueless?
    ensures d.Commit? ==> d.status == if data.key in records then Updated else Inserted
    ensures d.Ignore? <==>
      || data.value.Valueless?
      || (data.key in records && HasValue(records[data.key].data.value, data.value))
      || (data.key !in records && !force && data.value.Numeric? && data.value.value == 0)
    ensures d.Ignore? ==>
      if data.value.Valueless? then d.result == UpdateResult(Invalid, None)
      else if data.key in records then d.result == UpdateResult(Unchanged, Some(records[data.key]))
      else d.result == UpdateResult(IgnoredInitialZero, None)
  {
    if data.value.Valueless? then Ignore(UpdateResult(Invalid, None))
    else if data.key !in records then
      if data.value.Numeric? && data.value.value == 0 && !force then Ignore(UpdateResult(IgnoredInitialZero, None))
      else Commit(Inserted, StoredRecord(data, at))
    else if SameValue(data.value, records[data.key].data.value) then
      Ignore(UpdateResult(Unchanged, Some(records[data.key])))
    else Commit(Updated, StoredRecord(data, at))
  }

  function Applied(records: Records, d: Decision, durable: bool): (next: Records) {
    if d.Commit? && durable then records[d.candidate.data.key := d.candidate] else records
  }

  function Answer(d: Decision, durable: bool): (r: UpdateResult) {
    if d.Ignore? then d.result
    else if durable then UpdateResult(d.status, Some(d.candidate))
    else UpdateResult(DurabilityFailed, None)
  }

  /** A value once in the Store, reported again, commits nothing and asks nobody. */
  lemma RepeatIsSilent(records: Records, data: Data, force: bool, at: i64, later: i64)
    requires !data.value.Valueless?
    ensures var next := Applied(records, Decide(records, data, force, at), true);
      data.key in next ==>
        && SameValue(data.value, next[data.key].data.value)
        && Decide(next, data, force, later) == Ignore(UpdateResult(Unchanged, Some(next[data.key])))
  {
  }

  // ----- sequences of reports -----

  /** One forced report and what the sink would answer to it. */
  datatype Report = Report(data: Data, at: i64, durable: bool)

  function Session(records: Records, reports: seq<Report>): (final: Records)
    decreases |reports|
  {
    if |reports| == 0 then records
    else
      var r := reports[0];
      Session(Applied(records, Decide(records, r.data, true, r.at), r.durable), reports[1..])
  }

  /** The candidates the sink was asked about, with its answers. */
  function Asked(records: Records, reports: seq<Report>): (calls: seq<Call>)
    decreases |reports|
  {
    if |reports| == 0 then []
    else
      var r := reports[0];
      var d := Decide(records, r.data, true, r.at);
      (if d.Commit? then [Call(d.candidate, r.durable)] else [])
      + Asked(Applied(records, d, r.durable), reports[1..])
  }

  datatype Call = Call(record: StoredRecord, durable: bool)

  /** Writing the durable ones, in order, over what was there. */
  function Replay(records: Records, calls: seq<Call>): (final: Records) {
    if |calls| == 0 then records
    else
      var before := Replay(records, calls[..|calls| - 1]);
      var call := calls[|calls| - 1];
      if call.durable then before[call.record.data.key := call.record] else before
  }

  lemma {:induction false} ReplayConcat(records: Records, a: seq<Call>, b: seq<Call>)
    ensures Replay(records, a + b) == Replay(Replay(records, a), b)
    decreases |b|
  {
    if |b| == 0 {
      assert a + b == a;
    } else {
      assert (a + b)[..|a + b| - 1] == a + b[..|b| - 1];
      ReplayConcat(records, a, b[..|b| - 1]);
    }
  }

  lemma ReplayOne(records: Records, call: Call)
    ensures Replay(records, [call]) == if call.durable then records[call.record.data.key := call.record] else records
  {
    assert [call][..0] == [];
    assert Replay(records, []) == records;
  }

  /** The Store after any sequence of reports is the replay of what the sink made durable. */
  lemma {:induction false} SessionIsReplay(records: Records, reports: seq<Report>)
    ensures Session(records, reports) == Replay(records, Asked(records, reports))
    decreases |reports|
  {
    if |reports| > 0 {
      var r := reports[0];
      var d := Decide(records, r.data, true, r.at);
      var next, rest := Applied(records, d, r.durable), reports[1..];
      SessionIsReplay(next, rest);
      if d.Commit? {
        ReplayConcat(records, [Call(d.candidate, r.durable)], Asked(next, rest));
        ReplayOne(records, Call(d.candidate, r.durable));
      } else {
        assert [] + Asked(next, rest) == Asked(next, rest);
      }
    }
  }

  /** A key holds its last durable candidate, or what it held at first if there was none. */
  lemma {:induction false} ReplayHoldsTheLast(records: Records, calls: seq<Call>, k: Key)
    ensures var final := Replay(records, calls);
      if exists i :: 0 <= i < |calls| && calls[i].durable && calls[i].record.data.key == k
      then exists i :: 0 <= i < |calls| && calls[i].durable && calls[i].record.data.key == k
             && k in final && final[k] == calls[i].record
             && forall j :: i < j < |calls| && calls[j].durable ==> calls[j].record.data.key != k
      else (k in final <==> k in records) && (k in final ==> final[k] == records[k])
  {
    if |calls| > 0 {
      var last, front := calls[|calls| - 1], calls[..|calls| - 1];
      ReplayHoldsTheLast(records, front, k);
      if !last.durable || last.record.data.key != k {
        assert forall i :: 0 <= i < |front| ==> front[i] == calls[i];
      }
    }
  }

  // ----- the objects -----

  /** Where candidates are made durable before they become visible; the outbox of the alarm channel. */
  class Sink {
    ghost var calls: seq<Call>

    constructor ()
      ensures calls == []
    {
      calls := [];
    }

    /** An exception counts as a refusal. */
    method Prepare(candidate: StoredRecord) returns (durable: bool)
      modifies this
      ensures calls == old(calls) + [Call(candidate, durable)]
    {
      durable := *;
      calls := calls + [Call(candidate, durable)];
    }
  }

  class Store {
    var records: Records

    constructor ()
      ensures records == map[]
    {
      records := map[];
    }

    /** `sink` is absent for plain updates. A new node is inserted before the sink is asked and erased on refusal. */
    method Update(data: Data, force: bool, at: i64, sink: Sink?) returns (r: UpdateResult)
      modifies this, sink
      ensures var d := Decide(old(records), data, force, at);
        && (sink == null ==> records == Applied(old(records), d, true) && r == Answer(d, true))
        && (sink != null && d.Ignore? ==> sink.calls == old(sink.calls) && records == old(records) && r == d.result)
        && (sink != null && d.Commit? ==>
              exists durable :: sink.calls == old(sink.calls) + [Call(d.candidate, durable)]
                && records == Applied(old(records), d, durable) && r == Answer(d, durable))
    {
      if data.value.Valueless? {
        return UpdateResult(Invalid, None);
      }
      var candidate, durable := StoredRecord(data, at), true;
      if data.key !in records {
        if data.value.Numeric? && data.value.value == 0 && !force {
          return UpdateResult(IgnoredInitialZero, None);
        }
        ghost var before := records;
        records := records[data.key := candidate];
        if sink != null {
          durable := sink.Prepare(candidate);
        }
        if !durable {
          records := records - {data.key};
          assert records == before;
          return UpdateResult(DurabilityFailed, None);
        }
        return UpdateResult(Inserted, Some(candidate));
      }
      if SameValue(data.value, records[data.key].data.value) {
        return UpdateResult(Unchanged, Some(records[data.key]));
      }
      if sink != null {
        durable := sink.Prepare(candidate);
      }
      if !durable {
        return UpdateResult(DurabilityFailed, None);
      }
      records := records[data.key := candidate];
      return UpdateResult(Updated, Some(candidate));
    }
  }

  datatype ErrorInfo = ErrorInfo(level: u32, description: seq<byte>)

  /** A registered error fixes the level and, unless empty, the description. */
  function Enriched(known: (u32, u32) -> Option<ErrorInfo>, key: Key, description: seq<byte>, value: Value): (d: Data)
    ensures d.key.mid == key.mid && d.key.fid == key.fid && d.key.eid == key.eid && d.value == value
    ensures known(key.mid, key.eid).None? ==> d.key == key && d.description == description
    ensures known(key.mid, key.eid).Some? ==>
      var info := known(key.mid, key.eid).value;
      && d.key.level == info.level
      && d.description == (if |info.description| > 0 then info.description else description)
  {
    match known(key.mid, key.eid)
    case None => Data(key, description, value)
    case Some(info) =>
      Data(key.(level := info.level), if info.description == [] then description else info.description, value)
  }

  const ERROR_STATE: u32 := 2

  /** A Store whose every commit goes through one sink. */
  class Reporter {
    const store: Store
    const sink: Sink
    const known: (u32, u32) -> Option<ErrorInfo>

    ghost predicate Valid()
      reads this, store, sink
    {
      store.records == Replay(map[], sink.calls)
    }

    constructor (known: (u32, u32) -> Option<ErrorInfo>)
      ensures Valid() && fresh(store) && fresh(sink)
    {
      var s := new Store();
      var k := new Sink();
      this.store, this.sink, this.known := s, k, known;
    }

    /** A failed report leaves every key as it was; an unchanged value asks nobody. */
    method ReportError(key: Key, value: u32, description: seq<byte>, at: i64) returns (r: UpdateResult)
      requires Valid()
      modifies store, sink
      ensures Valid()
      ensures r.status in {Unchanged, DurabilityFailed} ==> store.records == old(store.records)
      ensures r.status == Unchanged ==> sink.calls == old(sink.calls)
      ensures r.status in {Inserted, Updated, DurabilityFailed} ==>
        && |sink.calls| == |old(sink.calls)| + 1 && sink.calls[..|old(sink.calls)|] == old(sink.calls)
        && var data := Enriched(known, key, description, Numeric(value, 2));
           sink.calls[|old(sink.calls)|].record == StoredRecord(data, at)
      ensures r.status in {Inserted, Updated} ==>
        r.record == Some(sink.calls[|old(sink.calls)|].record) && sink.calls[|old(sink.calls)|].durable
      ensures r.status in {Inserted, Updated, Unchanged, DurabilityFailed}
    {
      var data := Enriched(known, key, description, Numeric(value, ERROR_STATE));
      r := store.Update(data, true, at, sink);
      if sink.calls != old(sink.calls) {
        ReplayConcat(map[], old(sink.calls), [sink.calls[|old(sink.calls)|]]);
        ReplayOne(old(store.records), sink.calls[|old(sink.calls)|]);
      }
    }
  }
}
