/** A channel page of the viewer: the logs it keeps, the rows it shows, and the register table. */
module ChannelPage {
  import opened Wire

  datatype LogData = LogData(priority: Byte, tag: Bytes, message: Bytes, sec: UInt32, ms: UInt32)

  datatype RegisterRow = RegisterRow(name: Bytes, content: Bytes)

  /** What can happen to a page.  A new filter level and its handler are one step. */
  datatype PageEvent =
    | Appended(log: LogData)
    | LevelChosen(level: Byte)
    | Updated(name: Bytes, content: Bytes)
    | Cleared

  // ---------------------------------------------------------------- the page recomputed from its history

  function StoredLogs(h: seq<PageEvent>): seq<LogData>
    decreases |h|
  {
    if h == [] then []
    else
      var logs := StoredLogs(h[..|h|-1]);
      match h[|h|-1]
      case Appended(log) => logs + [log]
      case Cleared => []
      case _ => logs
  }

  function LevelOf(h: seq<PageEvent>): Byte
    decreases |h|
  {
    if h == [] then 0 else if h[|h|-1].LevelChosen? then h[|h|-1].level else LevelOf(h[..|h|-1])
  }

  function Filtered(logs: seq<LogData>, level: Byte): seq<LogData>
    decreases |logs|
  {
    if logs == [] then []
    else
      var last := logs[|logs|-1];
      Filtered(logs[..|logs|-1], level) + if last.priority >= level then [last] else []
  }

  /** What a register was last set to since the last clear. */
  function Latest(h: seq<PageEvent>, name: Bytes): Option<Bytes>
    decreases |h|
  {
    if h == [] then None
    else
      match h[|h|-1]
      case Updated(n, content) => if n == name then Some(content) else Latest(h[..|h|-1], name)
      case Cleared => None
      case _ => Latest(h[..|h|-1], name)
  }

  /** The registers in the order of their first update since the last clear. */
  function FirstSeen(h: seq<PageEvent>): seq<Bytes>
    decreases |h|
  {
    if h == [] then []
    else
      var names := FirstSeen(h[..|h|-1]);
      match h[|h|-1]
      case Updated(name, _) => if name in names then names else names + [name]
      case Cleared => []
      case _ => names
  }

  // ---------------------------------------------------------------- what the recomputation means

  /** Each register that has a value is listed once, and no other is. */
  lemma {:induction false} SeenAreLatest(h: seq<PageEvent>)
    ensures forall i, j :: 0 <= i < j < |FirstSeen(h)| ==> FirstSeen(h)[i] != FirstSeen(h)[j]
    ensures forall name :: name in FirstSeen(h) <==> Latest(h, name).Some?
    decreases |h|
  {
    if h != [] {
      SeenAreLatest(h[..|h|-1]);
    }
  }

  /** Where the logs are that pass the filter. */
  function PassingAt(logs: seq<LogData>, level: Byte): (at: seq<nat>)
    ensures forall k :: 0 <= k < |at| ==> at[k] < |logs|
    decreases |logs|
  {
    if logs == [] then []
    else
      var n := |logs| - 1;
      PassingAt(logs[..n], level) + if logs[n].priority >= level then [n] else []
  }

  lemma {:induction false} PassingExactly(logs: seq<LogData>, level: Byte)
    ensures var at := PassingAt(logs, level);
            && (forall k, l :: 0 <= k < l < |at| ==> at[k] < at[l])
            && (forall i :: 0 <= i < |logs| ==> (i in at <==> logs[i].priority >= level))
    decreases |logs|
  {
    if logs != [] {
      var n := |logs| - 1;
      PassingExactly(logs[..n], level);
      var at, last := PassingAt(logs[..n], level), if logs[n].priority >= level then [n] else [];
      assert PassingAt(logs, level) == at + last;
      assert forall i :: 0 <= i < n ==> (i in at + last <==> i in at) && logs[..n][i] == logs[i];
    }
  }

  /** The rows are exactly the logs that pass the filter, in order. */
  lemma {:induction false} FilteredExactly(logs: seq<LogData>, level: Byte)
    ensures var at, rows := PassingAt(logs, level), Filtered(logs, level);
            && |rows| == |at|
            && (forall k :: 0 <= k < |rows| ==> rows[k] == logs[at[k]])
    decreases |logs|
  {
    if logs != [] {
      var n := |logs| - 1;
      FilteredExactly(logs[..n], level);
      assert forall i :: 0 <= i < n ==> logs[..n][i] == logs[i];
    }
  }

  lemma FilteredNext(logs: seq<LogData>, i: nat, level: Byte)
    requires i < |logs|
    ensures Filtered(logs[..i+1], level) ==
              if logs[i].priority >= level then Filtered(logs[..i], level) + [logs[i]] else Filtered(logs[..i], level)
  {
    assert logs[..i+1][..i] == logs[..i];
  }

  lemma UpdateSeen(h: seq<PageEvent>, name: Bytes, content: Bytes)
    ensures var t := h + [Updated(name, content)];
            && FirstSeen(t) == (if name in FirstSeen(h) then FirstSeen(h) else FirstSeen(h) + [name])
            && Latest(t, name) == Some(content)
            && (forall n :: n != name ==> Latest(t, n) == Latest(h, n))
            && StoredLogs(t) == StoredLogs(h) && LevelOf(t) == LevelOf(h)
  {
    assert (h + [Updated(name, content)])[..|h|] == h;
  }

  lemma LevelStays(h: seq<PageEvent>, level: Byte)
    ensures var t := h + [LevelChosen(level)];
            && LevelOf(t) == level && StoredLogs(t) == StoredLogs(h)
            && FirstSeen(t) == FirstSeen(h) && forall name :: Latest(t, name) == Latest(h, name)
  {
    assert (h + [LevelChosen(level)])[..|h|] == h;
  }

  lemma AppendStays(h: seq<PageEvent>, log: LogData)
    ensures var t := h + [Appended(log)];
            && LevelOf(t) == LevelOf(h) && StoredLogs(t) == StoredLogs(h) + [log]
            && FirstSeen(t) == FirstSeen(h) && forall name :: Latest(t, name) == Latest(h, name)
  {
    assert (h + [Appended(log)])[..|h|] == h;
  }

  // ---------------------------------------------------------------- the page

  /** `logData` and `registerData` are the page's own; `level` is the selection of the priority box;
      `logRows` and `regRows` are the items of the two list controls. */
  class DlvChannelPage {
    var logData: seq<LogData>
    var registerData: map<Bytes, nat>
    var level: Byte
    var logRows: seq<LogData>
    var regRows: seq<RegisterRow>
    ghost var history: seq<PageEvent>

    /** The register table is a bijection between the names and the rows, in order of first update. */
    ghost predicate Indexed()
      reads this
    {
      && |regRows| == |FirstSeen(history)|
      && (forall k :: 0 <= k < |regRows| ==>
            && regRows[k].name == FirstSeen(history)[k]
            && regRows[k].name in registerData && registerData[regRows[k].name] == k
            && Latest(history, regRows[k].name) == Some(regRows[k].content))
      && (forall name :: name in registerData ==>
            registerData[name] < |regRows| && regRows[registerData[name]].name == name)
    }

    ghost predicate Valid()
      reads this
    {
      && level == LevelOf(history)
      && logData == StoredLogs(history)
      && logRows == Filtered(logData, level)
      && Indexed()
    }

    constructor ()
      ensures Valid() && history == []
      ensures logData == [] && registerData == map[] && level == 0 && logRows == [] && regRows == []
    {
      logData, registerData, level, logRows, regRows := [], map[], 0, [], [];
      history := [];
    }

    method RenderLog(log: LogData)
      modifies this`logRows
      ensures logRows == old(logRows) + [log]
    {
      var pos := |logRows|;
      logRows := logRows[..pos] + [log] + logRows[pos..];
    }

    /** Shows all over again what passes the filter. */
    method RenderStored()
      requires logRows == []
      modifies this`logRows
      ensures logRows == Filtered(logData, level)
    {
      var i := 0;
      while i < |logData|
        invariant 0 <= i <= |logData|
        invariant logRows == Filtered(logData[..i], level)
      {
        FilteredNext(logData, i, level);
        if logData[i].priority >= level {
          RenderLog(logData[i]);
        }
        i := i + 1;
      }
      assert logData[..|logData|] == logData;
    }

    method OnAppenLog(log: LogData)
      requires Valid()
      modifies this
      ensures Valid() && history == old(history) + [Appended(log)]
      ensures logData == old(logData) + [log] && level == old(level)
      ensures logRows == if log.priority >= level then old(logRows) + [log] else old(logRows)
      ensures regRows == old(regRows) && registerData == old(registerData)
    {
      hide Latest, FirstSeen, StoredLogs, LevelOf, Filtered;
      logData := logData + [log];
      FilteredNext(logData, |logData| - 1, level);
      assert logData[..|logData|-1] == old(logData) && logData[..|logData|] == logData;
      if log.priority >= level {
        RenderLog(log);
      }
      AppendStays(history, log);
      history := history + [Appended(log)];
    }

    /** The row of a register gets its content; a new one is inserted first. */
    method PutRow(pos: nat, name: Bytes, content: Bytes, inserted: bool)
      requires if inserted then pos == |regRows| else pos < |regRows| && regRows[pos].name == name
      modifies this`regRows
      ensures regRows == if inserted then old(regRows) + [RegisterRow(name, content)]
                         else old(regRows)[pos := RegisterRow(name, content)]
    {
      if inserted {
        regRows := regRows[..pos] + [RegisterRow(name, [])] + regRows[pos..];
      }
      regRows := regRows[pos := regRows[pos].(content := content)];
    }

    method OnUpdateRegister(name: Bytes, content: Bytes)
      requires Valid()
      modifies this
      ensures Valid() && history == old(history) + [Updated(name, content)]
      ensures logData == old(logData) && logRows == old(logRows) && level == old(level)
      ensures regRows == if name in old(registerData)
                         then old(regRows)[old(registerData)[name] := RegisterRow(name, content)]
                         else old(regRows) + [RegisterRow(name, content)]
    {
      hide Latest, FirstSeen, StoredLogs, LevelOf, Filtered;
      var inserted := name !in registerData;
      if inserted {
        registerData := registerData[name := |regRows|];
      }
      var pos := registerData[name];
      UpdateSeen(history, name, content);
      PutRow(pos, name, content, inserted);
      history := history + [Updated(name, content)];
    }

    method ResetLogContent(deleteRaw: bool)
      modifies this`logRows, this`logData
      ensures logRows == [] && logData == if deleteRaw then [] else old(logData)
    {
      logRows := [];
      if deleteRaw {
        logData := [];
      }
    }

    method ResetRegisterContent()
      modifies this`regRows, this`registerData
      ensures regRows == [] && registerData == map[]
    {
      regRows := [];
      registerData := map[];
    }

    method OnLogClear()
      requires Valid()
      modifies this
      ensures Valid() && history == old(history) + [Cleared]
      ensures logData == [] && logRows == [] && regRows == [] && registerData == map[] && level == old(level)
    {
      ResetLogContent(true);
      ResetRegisterContent();
      history := history + [Cleared];
      assert history[..|history|-1] == old(history);
    }

    /** The selection of the box has become `chosen`. */
    method OnPriorityFilterChanged(chosen: Byte)
      requires Valid()
      modifies this
      ensures Valid() && history == old(history) + [LevelChosen(chosen)]
      ensures level == chosen && logData == old(logData)
      ensures regRows == old(regRows) && registerData == old(registerData)
    {
      hide Latest, FirstSeen, StoredLogs, LevelOf, Filtered;
      level := chosen;
      ResetLogContent(false);
      RenderStored();
      LevelStays(history, chosen);
      history := history + [LevelChosen(chosen)];
    }
  }
}
