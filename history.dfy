/** GetHistoryForCar: the change log of one key, drained from the history
    iterator and rendered as a JSON array, one object per entry. */
module History {
  import opened Results
  import opened Ledger
  import opened JsonText

  /** One call of the iterator's Next: an entry, or the error it returned. */
  datatype IterStep = Entry(m: KeyModification) | Failure(message: string)

  /** The iterator over a key's log when every Next succeeds. */
  function Iterate(log: seq<KeyModification>): (steps: seq<IterStep>)
    ensures |steps| == |log|
    ensures forall i :: 0 <= i < |log| ==> steps[i] == Entry(log[i])
  {
    if log == [] then [] else [Entry(log[0])] + Iterate(log[1..])
  }

  /** One entry as the buffer receives it: the transaction id, the value,
      the timestamp and the delete marker, in that order. The timestamp text
      comes from formatTime, which stands for Go's time formatting. */
  function EntryJson(m: KeyModification, formatTime: (int, int) -> string): string {
    EntryHead(m) + EntryValue(m) + EntryTime(m, formatTime) + EntryTail(m)
  }

  function EntryHead(m: KeyModification): string {
    "{\"TxId\":" + "\"" + m.txId + "\"" + ", \"Value\":"
  }

  function EntryValue(m: KeyModification): string {
    if m.isDelete then "null" else m.value
  }

  function EntryTime(m: KeyModification, formatTime: (int, int) -> string): string {
    ", \"Timestamp\":" + "\"" + formatTime(m.seconds, m.nanos) + "\""
  }

  function EntryTail(m: KeyModification): string {
    ", \"IsDelete\":" + "\"" + (if m.isDelete then "true" else "false") + "\"" + "}"
  }

  /** The entries, comma separated, in log order. */
  function Join(ms: seq<KeyModification>, formatTime: (int, int) -> string): string {
    if |ms| == 0 then ""
    else if |ms| == 1 then EntryJson(ms[0], formatTime)
    else EntryJson(ms[0], formatTime) + "," + Join(ms[1..], formatTime)
  }

  function HistoryJson(ms: seq<KeyModification>, formatTime: (int, int) -> string): string {
    "[" + Join(ms, formatTime) + "]"
  }

  /** The message of the first failing Next, if any. */
  function FirstFailure(steps: seq<IterStep>): Option<string> {
    if steps == [] then None
    else if steps[0].Failure? then Some(steps[0].message)
    else FirstFailure(steps[1..])
  }

  /** The entries the iterator yields, in order. */
  function Entries(steps: seq<IterStep>): seq<KeyModification> {
    if steps == [] then []
    else (if steps[0].Entry? then [steps[0].m] else []) + Entries(steps[1..])
  }

  /** What GetHistoryForCar answers for an iterator (or for the error from
      opening it): the first error met, or the whole array. */
  function HistoryForCar(history: Result<seq<IterStep>, string>, formatTime: (int, int) -> string): Result<string, string> {
    match history
    case Err(e) => Err(e)
    case Ok(steps) =>
      match FirstFailure(steps)
      case Some(e) => Err(e)
      case None => Ok(HistoryJson(Entries(steps), formatTime))
  }

  lemma {:induction false} FirstFailureAppend(a: seq<IterStep>, b: seq<IterStep>)
    ensures FirstFailure(a + b) == if FirstFailure(a).Some? then FirstFailure(a) else FirstFailure(b)
  {
    if a != [] {
      assert (a + b)[1..] == a[1..] + b;
      FirstFailureAppend(a[1..], b);
    } else {
      assert a + b == b;
    }
  }

  lemma {:induction false} EntriesAppend(a: seq<IterStep>, b: seq<IterStep>)
    ensures Entries(a + b) == Entries(a) + Entries(b)
  {
    if a == [] {
      assert a + b == b;
    } else {
      assert (a + b)[1..] == a[1..] + b;
      EntriesAppend(a[1..], b);
      var h := if a[0].Entry? then [a[0].m] else [];
      assert h + (Entries(a[1..]) + Entries(b)) == (h + Entries(a[1..])) + Entries(b);
    }
  }

  /** Appending an entry to the array adds a separator unless it is the first. */
  lemma {:induction false} JoinAppend(ms: seq<KeyModification>, m: KeyModification, formatTime: (int, int) -> string)
    ensures Join(ms + [m], formatTime) == if ms == [] then EntryJson(m, formatTime) else Join(ms, formatTime) + "," + EntryJson(m, formatTime)
  {
    if |ms| == 1 {
      assert (ms + [m])[1..] == [m];
    } else if |ms| > 1 {
      var longer := ms + [m];
      assert longer[0] == ms[0] && longer[1..] == ms[1..] + [m];
      JoinAppend(ms[1..], m, formatTime);
      var e, j, x := EntryJson(ms[0], formatTime), Join(ms[1..], formatTime), EntryJson(m, formatTime);
      assert Join(longer, formatTime) == e + "," + (j + "," + x);
      assert Join(ms, formatTime) == e + "," + j;
      Assoc(e + ",", j + ",", x);
      Assoc(e + ",", j, ",");
    }
  }

  /** The buffer after one more entry: a comma first unless it is the first. */
  lemma AppendEntry(done: seq<KeyModification>, m: KeyModification, formatTime: (int, int) -> string)
    ensures (if done == [] then "[" else "[" + Join(done, formatTime) + ",") + EntryJson(m, formatTime)
         == "[" + Join(done + [m], formatTime)
  {
    JoinAppend(done, m, formatTime);
    var j, e := Join(done, formatTime), EntryJson(m, formatTime);
    if done == [] {
      assert "[" + e == "[" + Join(done + [m], formatTime);
    } else {
      assert "[" + j + "," + e == "[" + (j + "," + e);
    }
  }

  /** The prefix of the iterator up to a failing step yields that failure. */
  lemma FailureAt(steps: seq<IterStep>, i: nat)
    requires i < |steps| && steps[i].Failure? && FirstFailure(steps[..i]) == None
    ensures FirstFailure(steps) == Some(steps[i].message)
  {
    assert steps == steps[..i] + steps[i..];
    FirstFailureAppend(steps[..i], steps[i..]);
  }

  /** One more successful step of the iterator. */
  lemma EntryStep(steps: seq<IterStep>, i: nat)
    requires i < |steps| && steps[i].Entry? && FirstFailure(steps[..i]) == None
    ensures FirstFailure(steps[..i + 1]) == None
    ensures Entries(steps[..i + 1]) == Entries(steps[..i]) + [steps[i].m]
  {
    assert steps[..i + 1] == steps[..i] + [steps[i]];
    FirstFailureAppend(steps[..i], [steps[i]]);
    EntriesAppend(steps[..i], [steps[i]]);
    assert Entries([steps[i]]) == [steps[i].m] + Entries([]);
  }

  /** Writes one entry to the buffer piece by piece, as the loop body does.
      The ghost variable written holds what this call has appended so far;
      each group of writes ends with one of the four parts of EntryJson. */
  method WriteEntry(buffer: string, m: KeyModification, formatTime: (int, int) -> string) returns (buffer': string)
    ensures buffer' == buffer + EntryJson(m, formatTime)
  {
    buffer' := buffer + "{\"TxId\":";
    ghost var written := "{\"TxId\":";
    Assoc(buffer, written, "\"");
    buffer', written := buffer' + "\"", written + "\"";
    Assoc(buffer, written, m.txId);
    buffer', written := buffer' + m.txId, written + m.txId;
    Assoc(buffer, written, "\"");
    buffer', written := buffer' + "\"", written + "\"";
    Assoc(buffer, written, ", \"Value\":");
    buffer', written := buffer' + ", \"Value\":", written + ", \"Value\":";
    assert written == EntryHead(m);
    ghost var head := buffer';

    if m.isDelete {
      buffer' := buffer' + "null";
    } else {
      buffer' := buffer' + m.value;
    }
    assert buffer' == head + EntryValue(m);
    ghost var value := buffer';

    buffer' := buffer' + ", \"Timestamp\":";
    written := ", \"Timestamp\":";
    Assoc(value, written, "\"");
    buffer', written := buffer' + "\"", written + "\"";
    Assoc(value, written, formatTime(m.seconds, m.nanos));
    buffer', written := buffer' + formatTime(m.seconds, m.nanos), written + formatTime(m.seconds, m.nanos);
    Assoc(value, written, "\"");
    buffer', written := buffer' + "\"", written + "\"";
    assert written == EntryTime(m, formatTime);
    ghost var time := buffer';

    var flag := if m.isDelete then "true" else "false";
    buffer' := buffer' + ", \"IsDelete\":";
    written := ", \"IsDelete\":";
    Assoc(time, written, "\"");
    buffer', written := buffer' + "\"", written + "\"";
    Assoc(time, written, flag);
    buffer', written := buffer' + flag, written + flag;
    Assoc(time, written, "\"");
    buffer', written := buffer' + "\"", written + "\"";
    Assoc(time, written, "}");
    buffer', written := buffer' + "}", written + "}";
    assert written == EntryTail(m);

    EntryJsonAssoc(buffer, EntryHead(m), EntryValue(m), EntryTime(m, formatTime), EntryTail(m));
  }

  /** Regroups the buffer and the four pieces; called so that the solver
      sees this one grouping instead of searching for it. */
  lemma EntryJsonAssoc(b: string, h: string, v: string, t: string, l: string)
    ensures b + h + v + t + l == b + (h + v + t + l)
  {
  }

  /** GetHistoryForCar: drains the iterator into a buffer, writing a comma
      before every entry but the first, and returns the array, or the first
      error with nothing else. */
  method GetHistoryForCar(history: Result<seq<IterStep>, string>, formatTime: (int, int) -> string)
    returns (r: Result<string, string>)
    ensures r == HistoryForCar(history, formatTime)
  {
    if history.Err? {
      return Err(history.error);
    }
    var steps := history.value;
    var buffer := "[";
    var alreadyWritten := false;
    var i := 0;
    while i < |steps|
      invariant 0 <= i <= |steps|
      invariant FirstFailure(steps[..i]) == None
      invariant buffer == "[" + Join(Entries(steps[..i]), formatTime)
      invariant alreadyWritten <==> Entries(steps[..i]) != []
    {
      var step := steps[i];
      if step.Failure? {
        FailureAt(steps, i);
        return Err(step.message);
      }
      ghost var done := Entries(steps[..i]);
      if alreadyWritten {
        buffer := buffer + ",";
      }
      buffer := WriteEntry(buffer, step.m, formatTime);
      assert buffer == "[" + Join(done + [step.m], formatTime) by {
        AppendEntry(done, step.m, formatTime);
      }
      EntryStep(steps, i);
      alreadyWritten := true;
      i := i + 1;
    }
    assert steps[..i] == steps;
    buffer := buffer + "]";
    return Ok(buffer);
  }

  // ---- properties of the rendering ----

  /** A key with no history renders as the empty array. */
  lemma EmptyHistory(formatTime: (int, int) -> string)
    ensures HistoryForCar(Ok([]), formatTime) == Ok("[]")
  {
    assert Join(Entries([]), formatTime) == "";
    assert "[" + "" + "]" == "[]";
  }

  /** The shape of one object: the transaction id first, then the value
      (the literal null for a delete, whatever was stored), and it closes with
      IsDelete as the quoted string "true" or "false". */
  lemma EntryShape(m: KeyModification, formatTime: (int, int) -> string)
    ensures EntryHead(m) == "{\"TxId\":\"" + m.txId + "\", \"Value\":"
    ensures EntryValue(m) == if m.isDelete then "null" else m.value
    ensures EntryTail(m) == if m.isDelete then ", \"IsDelete\":\"true\"}" else ", \"IsDelete\":\"false\"}"
    ensures var e := EntryJson(m, formatTime);
            && |EntryHead(m)| + |EntryValue(m)| + |EntryTail(m)| <= |e|
            && e[..|EntryHead(m)|] == EntryHead(m)
            && e[|EntryHead(m)|..|EntryHead(m)| + |EntryValue(m)|] == EntryValue(m)
            && e[|e| - |EntryTail(m)|..] == EntryTail(m)
  {
    var t := m.txId;
    assert EntryHead(m) == "{\"TxId\":\"" + t + "\", \"Value\":" by {
      assert "{\"TxId\":" + "\"" == "{\"TxId\":\"";
      assert "\"" + ", \"Value\":" == "\", \"Value\":";
      Assoc4("{\"TxId\":\"", t, "\"", ", \"Value\":");
    }
    Slices(EntryHead(m), EntryValue(m), EntryTime(m, formatTime), EntryTail(m));
  }

  lemma Assoc4(a: string, b: string, c: string, d: string)
    ensures a + b + c + d == a + b + (c + d)
  {
  }

  lemma Slices(a: string, b: string, c: string, d: string)
    ensures var e := a + b + c + d;
            && e[..|a|] == a
            && e[|a|..|a| + |b|] == b
            && e[|e| - |d|..] == d
  {
    var e := a + b + c + d;
    assert e == a + (b + (c + d));
    assert e[..|a|] == a;
    assert e[|a|..] == b + (c + d);
    assert e[|e| - |d|..] == d;
  }

  /** A delete entry does not show the value it carries. */
  lemma DeleteHidesValue(m: KeyModification, value: string, formatTime: (int, int) -> string)
    requires m.isDelete
    ensures EntryJson(m, formatTime) == EntryJson(m.(value := value), formatTime)
  {
  }

  /** The rendering fails exactly when some Next fails, and then it returns
      that step's error; the first failure wins. */
  lemma {:induction false} HistoryFailsIff(steps: seq<IterStep>, formatTime: (int, int) -> string)
    ensures HistoryForCar(Ok(steps), formatTime).Err? <==> exists i :: 0 <= i < |steps| && steps[i].Failure?
    ensures HistoryForCar(Ok(steps), formatTime).Err? ==> HistoryForCar(Ok(steps), formatTime) == Err(FirstFailure(steps).value)
  {
    FailureExists(steps);
  }

  lemma {:induction false} FailureExists(steps: seq<IterStep>)
    ensures FirstFailure(steps).Some? <==> exists i :: 0 <= i < |steps| && steps[i].Failure?
  {
    if steps != [] {
      FailureExists(steps[1..]);
      if FirstFailure(steps[1..]).Some? {
        var j :| 0 <= j < |steps[1..]| && steps[1..][j].Failure?;
        assert steps[j + 1].Failure?;
      }
      if !steps[0].Failure? && FirstFailure(steps[1..]).None? {
        forall i | 0 <= i < |steps| ensures !steps[i].Failure? {
          if i > 0 { assert steps[i] == steps[1..][i - 1]; }
        }
      }
    }
  }

  /** Without failures, the array holds one object per step, in iteration order. */
  lemma {:induction false} EntriesInOrder(steps: seq<IterStep>)
    requires FirstFailure(steps).None?
    ensures |Entries(steps)| == |steps|
    ensures forall i :: 0 <= i < |steps| ==> steps[i] == Entry(Entries(steps)[i])
  {
    if steps != [] {
      EntriesInOrder(steps[1..]);
      assert Entries(steps) == [steps[0].m] + Entries(steps[1..]);
      forall i | 0 <= i < |steps| ensures steps[i] == Entry(Entries(steps)[i]) {
        if i > 0 { assert steps[i] == steps[1..][i - 1]; }
      }
    }
  }

  /** The history of a key held in the ledger renders as the array of its
      log entries, in the order the iterator yields them. */
  lemma LedgerHistory(w: World, key: string, formatTime: (int, int) -> string)
    ensures HistoryForCar(Ok(Iterate(HistoryOf(w, key))), formatTime) == Ok(HistoryJson(HistoryOf(w, key), formatTime))
  {
    var log := HistoryOf(w, key);
    var steps := Iterate(log);
    FailureExists(steps);
    EntriesInOrder(steps);
    assert Entries(steps) == log;
  }

  /** A committed write adds exactly one object, after the existing ones. */
  lemma PutAppendsToHistory(w: World, tx: Tx, key: string, value: string, formatTime: (int, int) -> string)
    ensures HistoryJson(HistoryOf(Put(w, tx, key, value), key), formatTime)
         == "[" + (if HistoryOf(w, key) == [] then "" else Join(HistoryOf(w, key), formatTime) + ",")
            + EntryJson(Written(tx, value), formatTime) + "]"
  {
    ArrayAppend(HistoryOf(w, key), Written(tx, value), formatTime);
  }

  lemma ArrayAppend(h: seq<KeyModification>, m: KeyModification, formatTime: (int, int) -> string)
    ensures HistoryJson(h + [m], formatTime)
         == "[" + (if h == [] then "" else Join(h, formatTime) + ",") + EntryJson(m, formatTime) + "]"
  {
    JoinAppend(h, m, formatTime);
    var e, x := EntryJson(m, formatTime), Join(h + [m], formatTime);
    assert HistoryJson(h + [m], formatTime) == "[" + x + "]";
    if h == [] {
      assert "[" + "" == "[";
    } else {
      var p := Join(h, formatTime) + ",";
      assert x == p + e;
      Assoc("[", p, e);
    }
  }
}
