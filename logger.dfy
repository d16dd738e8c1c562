/** The in-app log: a bounded list of entries, newest last, kept to the last 500, plus the
    listeners told after each successful save or clear. Writing to storage is an input here: `saveOk` and
    `removeOk` say whether the storage call succeeded, and a listener is told only then. */
module Logging {
  import opened Wrappers
  import opened Seqs

  /** The most entries the log keeps; older ones are dropped first. */
  const MaxLogs: int := 500

  /** How many entries `GetRecentLogs` returns when the caller names no count. */
  const DefaultRecentCount: int := 50

  datatype LogLevel = DEBUG | INFO | WARN | ERROR

  /** One log entry. `data` and `error` are the rendered texts of the optional arguments. */
  datatype LogEntry = LogEntry(
    timestamp: string,
    level: LogLevel,
    category: string,
    message: string,
    data: Option<string>,
    error: Option<string>)

  /** An optional argument of a logging call. A falsy value (missing, null, 0, "", false)
      is recorded as absent; any other value is recorded as its rendered text. */
  datatype Arg = Falsy | Truthy(rendered: string)

  /** What storage holds when the log is loaded: nothing (or an empty string), text that
      does not parse, or a parsed list of entries. */
  datatype Stored = Missing | Corrupt | Parsed(entries: seq<LogEntry>)

  /** A listener, by identity; subscribing the same listener twice lists it twice. */
  type ListenerId = nat

  /** One call of a listener with its own copy of the entries. */
  datatype Notice = Notice(listener: ListenerId, logs: seq<LogEntry>)

  function Min(a: int, b: int): int { if a <= b then a else b }

  /** `s.slice(start)` in JavaScript: a negative start counts back from the end of the list,
      and a start beyond either end is clamped to it. The result is always a suffix. */
  function SliceFrom<T>(s: seq<T>, start: int): (r: seq<T>)
    ensures |r| <= |s| && r == s[|s| - |r|..]
    ensures start < 0 ==> |r| == Min(-start, |s|)
    ensures start >= 0 ==> |r| == |s| - Min(start, |s|)
  {
    if start < 0 then
      (if |s| + start < 0 then s else s[|s| + start..])
    else
      (if start <= |s| then s[start..] else [])
  }

  /** The log after trimming: the newest `MaxLogs` entries, in their order. */
  function KeepNewest(s: seq<LogEntry>): (r: seq<LogEntry>)
    ensures |r| == Min(|s|, MaxLogs)
    ensures r == s[|s| - |r|..]
  {
    if |s| > MaxLogs then SliceFrom(s, -MaxLogs) else s
  }

  /** The entries `GetRecentLogs(count)` returns: `slice(-count)` on the log. */
  function Recent(logs: seq<LogEntry>, count: int): (r: seq<LogEntry>)
    ensures |r| <= |logs| && r == logs[|logs| - |r|..]
  {
    SliceFrom(logs, -count)
  }

  /** What each count asks for: a positive count gives the newest `count` entries (all of them
      when there are fewer); a count of zero gives the whole log, since `-0` is a start of 0;
      a negative count drops the first `-count` entries. */
  lemma RecentCounts(logs: seq<LogEntry>, count: int)
    ensures count > 0 ==> Recent(logs, count) == logs[|logs| - Min(count, |logs|)..]
    ensures count == 0 ==> Recent(logs, count) == logs
    ensures count < 0 ==> Recent(logs, count) == logs[Min(-count, |logs|)..]
  {
  }

  /** A log below the bound keeps everything; trimming twice is trimming once. */
  lemma KeepNewestBelowBound(s: seq<LogEntry>)
    ensures |s| <= MaxLogs ==> KeepNewest(s) == s
    ensures KeepNewest(KeepNewest(s)) == KeepNewest(s)
  {
  }

  /** Appending to a log below the bound keeps every entry; appending to a full log drops
      exactly the oldest. Either way the new entry is last. */
  lemma AppendToBounded(s: seq<LogEntry>, e: LogEntry)
    requires |s| <= MaxLogs
    ensures |s| < MaxLogs ==> KeepNewest(s + [e]) == s + [e]
    ensures |s| == MaxLogs ==> KeepNewest(s + [e]) == s[1..] + [e]
    ensures KeepNewest(s + [e])[|KeepNewest(s + [e])| - 1] == e
  {
    if |s| == MaxLogs {
      assert (s + [e])[1..] == s[1..] + [e];
    }
  }

  /** The test `GetErrorLogs` filters by: an entry is an error entry when its level is ERROR,
      and entries at the three other levels never are. */
  function IsError(e: LogEntry): (r: bool)
    ensures r <==> e.level == ERROR
    ensures e.level in {DEBUG, INFO, WARN} ==> !r
  {
    match e.level
    case ERROR => true
    case DEBUG | INFO | WARN => false
  }

  /** The entries `GetErrorLogs` returns: the error entries, in log order. */
  function ErrorEntries(logs: seq<LogEntry>): (r: seq<LogEntry>)
    ensures |r| <= |logs|
    ensures forall e :: e in r <==> e in logs && e.level == ERROR
  {
    Filter(logs, IsError)
  }

  /** Each error entry occurs among the error logs as often as in the log. */
  lemma ErrorEntriesCounted(logs: seq<LogEntry>, e: LogEntry)
    ensures multiset(ErrorEntries(logs))[e] == if e.level == ERROR then multiset(logs)[e] else 0
  {
    FilterMultiplicity(logs, IsError, e);
  }

  /** The entry a logging call records. */
  function Rendered(a: Arg): (r: Option<string>)
    ensures r.None? <==> a.Falsy?
  {
    match a
    case Falsy => None
    case Truthy(text) => Some(text)
  }

  function MakeEntry(stamp: string, level: LogLevel, category: string, message: string, data: Arg, error: Arg): (e: LogEntry)
    ensures e.timestamp == stamp && e.level == level && e.category == category && e.message == message
    ensures e.data.None? <==> data.Falsy?
    ensures e.error.None? <==> error.Falsy?
    ensures data.Truthy? ==> e.data == Some(data.rendered)
    ensures error.Truthy? ==> e.error == Some(error.rendered)
  {
    LogEntry(stamp, level, category, message, Rendered(data), Rendered(error))
  }

  /** Every listener in `listeners` is called once, in subscription order, with `snapshot`. */
  predicate Announces(notices: seq<Notice>, listeners: seq<ListenerId>, snapshot: seq<LogEntry>)
  {
    |notices| == |listeners| &&
    forall i :: 0 <= i < |listeners| ==> notices[i] == Notice(listeners[i], snapshot)
  }

  /** Calls each listener in turn with its own copy of `snapshot`. */
  method Notify(listeners: seq<ListenerId>, snapshot: seq<LogEntry>) returns (notices: seq<Notice>)
    ensures Announces(notices, listeners, snapshot)
  {
    notices := [];
    for i := 0 to |listeners|
      invariant |notices| == i
      invariant forall j :: 0 <= j < i ==> notices[j] == Notice(listeners[j], snapshot)
    {
      notices := notices + [Notice(listeners[i], snapshot)];
    }
  }

  /** `s.indexOf(x)`: the first position holding `x`, or -1. */
  function IndexOf<T(==)>(s: seq<T>, x: T): (i: int)
    ensures -1 <= i < |s|
    ensures i == -1 <==> x !in s
    ensures 0 <= i ==> s[i] == x && x !in s[..i]
  {
    if s == [] then -1
    else if s[0] == x then 0
    else
      var j := IndexOf(s[1..], x);
      if j == -1 then -1 else j + 1
  }

  /** The listener list after an unsubscribe: the first occurrence of `l` is removed, if any. */
  function RemoveFirst(s: seq<ListenerId>, l: ListenerId): (r: seq<ListenerId>)
    ensures multiset(r) == multiset(s) - multiset{l}
    ensures l !in s ==> r == s
    ensures l in s ==>
      exists i :: 0 <= i < |s| && s[i] == l && l !in s[..i] && r == s[..i] + s[i + 1..]
  {
    var i := IndexOf(s, l);
    if i > -1 then
      assert s == s[..i] + [s[i]] + s[i + 1..];
      s[..i] + s[i + 1..]
    else s
  }

  /** Subscribing a new listener and calling the unsubscribe it got back restores the list.
      When the listener was already subscribed, the same call removes its EARLIER entry, so
      it stays subscribed once. */
  lemma SubscribeThenUnsubscribe(s: seq<ListenerId>, l: ListenerId)
    ensures l !in s ==> RemoveFirst(s + [l], l) == s
    ensures l in s ==> RemoveFirst(s + [l], l) == RemoveFirst(s, l) + [l]
    ensures l in s ==> l in RemoveFirst(s + [l], l)
  {
    var i := IndexOf(s + [l], l);
    if l in s {
      assert i == IndexOf(s, l) by {
        IndexOfPrefix(s, [l], l);
      }
      assert (s + [l])[..i] == s[..i];
      assert (s + [l])[i + 1..] == s[i + 1..] + [l];
      assert RemoveFirst(s + [l], l) == s[..i] + (s[i + 1..] + [l]);
      assert l in multiset(RemoveFirst(s + [l], l));
    } else {
      assert i == |s|;
      assert (s + [l])[..i] == s;
    }
  }

  /** A listener found in `s` is found at the same place in any extension of `s`. */
  lemma {:induction false} IndexOfPrefix<T>(s: seq<T>, t: seq<T>, x: T)
    requires x in s
    ensures IndexOf(s + t, x) == IndexOf(s, x)
  {
    if s[0] != x {
      assert (s + t)[1..] == s[1..] + t;
      IndexOfPrefix(s[1..], t, x);
    }
  }

  /** Calling an unsubscribe a second time, for a listener subscribed once, changes nothing. */
  lemma UnsubscribeTwice(s: seq<ListenerId>, l: ListenerId)
    requires multiset(s)[l] <= 1
    ensures RemoveFirst(RemoveFirst(s, l), l) == RemoveFirst(s, l)
  {
    assert l !in multiset(RemoveFirst(s, l));
  }

  /** The log service. `logs` holds at most `MaxLogs` entries, oldest first. */
  class Logger {
    var logs: seq<LogEntry>
    var listeners: seq<ListenerId>

    ghost predicate Valid()
      reads this
    {
      |logs| <= MaxLogs
    }

    /** A fresh logger is empty; its saved entries arrive later through `LoadLogs`. */
    constructor ()
      ensures Valid()
      ensures logs == [] && listeners == []
    {
      logs := [];
      listeners := [];
    }

    /** Replaces the log with the saved entries, trimmed to the newest `MaxLogs`. Nothing
        saved, or saved text that does not parse, leaves the log as it is. No listener is
        told. */
    method LoadLogs(stored: Stored)
      requires Valid()
      modifies this
      ensures Valid()
      ensures stored.Parsed? ==> logs == KeepNewest(stored.entries)
      ensures !stored.Parsed? ==> logs == old(logs)
      ensures listeners == old(listeners)
    {
      match stored
      case Missing =>
      case Corrupt =>
      case Parsed(entries) =>
        logs := entries;
        if |logs| > MaxLogs {
          logs := SliceFrom(logs, -MaxLogs);
        }
    }

    /** Records one entry stamped `stamp`, drops the oldest entry if the log is over the bound,
        and saves; once the save succeeds every listener is told the new log. */
    method AddLog(stamp: string, level: LogLevel, category: string, message: string,
                  data: Arg, error: Arg, saveOk: bool)
      returns (notices: seq<Notice>)
      requires Valid()
      modifies this
      ensures Valid()
      ensures logs == KeepNewest(old(logs) + [MakeEntry(stamp, level, category, message, data, error)])
      ensures listeners == old(listeners)
      ensures saveOk ==> Announces(notices, listeners, logs)
      ensures !saveOk ==> notices == []
    {
      var entry := MakeEntry(stamp, level, category, message, data, error);
      logs := logs + [entry];
      if |logs| > MaxLogs {
        logs := SliceFrom(logs, -MaxLogs);
      }
      notices := [];
      if saveOk {
        notices := Notify(listeners, logs);
      }
    }

    method Debug(stamp: string, category: string, message: string, data: Arg, saveOk: bool)
      returns (notices: seq<Notice>)
      requires Valid()
      modifies this
      ensures Valid()
      ensures logs == KeepNewest(old(logs) + [LogEntry(stamp, DEBUG, category, message, Rendered(data), None)])
      ensures listeners == old(listeners)
      ensures saveOk ==> Announces(notices, listeners, logs)
      ensures !saveOk ==> notices == []
    {
      notices := AddLog(stamp, DEBUG, category, message, data, Falsy, saveOk);
    }

    method Info(stamp: string, category: string, message: string, data: Arg, saveOk: bool)
      returns (notices: seq<Notice>)
      requires Valid()
      modifies this
      ensures Valid()
      ensures logs == KeepNewest(old(logs) + [LogEntry(stamp, INFO, category, message, Rendered(data), None)])
      ensures listeners == old(listeners)
      ensures saveOk ==> Announces(notices, listeners, logs)
      ensures !saveOk ==> notices == []
    {
      notices := AddLog(stamp, INFO, category, message, data, Falsy, saveOk);
    }

    method Warn(stamp: string, category: string, message: string, data: Arg, saveOk: bool)
      returns (notices: seq<Notice>)
      requires Valid()
      modifies this
      ensures Valid()
      ensures logs == KeepNewest(old(logs) + [LogEntry(stamp, WARN, category, message, Rendered(data), None)])
      ensures listeners == old(listeners)
      ensures saveOk ==> Announces(notices, listeners, logs)
      ensures !saveOk ==> notices == []
    {
      notices := AddLog(stamp, WARN, category, message, data, Falsy, saveOk);
    }

    /** Note the argument order: the third argument is the error, the fourth the data. */
    method Error(stamp: string, category: string, message: string, error: Arg, data: Arg, saveOk: bool)
      returns (notices: seq<Notice>)
      requires Valid()
      modifies this
      ensures Valid()
      ensures logs == KeepNewest(old(logs) + [LogEntry(stamp, ERROR, category, message, Rendered(data), Rendered(error))])
      ensures listeners == old(listeners)
      ensures saveOk ==> Announces(notices, listeners, logs)
      ensures !saveOk ==> notices == []
    {
      notices := AddLog(stamp, ERROR, category, message, data, error, saveOk);
    }

    /** A copy of the whole log, oldest first. */
    function GetLogs(): (r: seq<LogEntry>)
      reads this
      requires Valid()
      ensures |r| <= MaxLogs
    {
      logs
    }

    /** The error entries, in log order, each as often as it is logged. */
    function GetErrorLogs(): (r: seq<LogEntry>)
      reads this
      ensures r == ErrorEntries(logs)
      ensures forall e :: e in r <==> e in logs && e.level == ERROR
      ensures forall e :: multiset(r)[e] == if e.level == ERROR then multiset(logs)[e] else 0
    {
      forall e {
        ErrorEntriesCounted(logs, e);
      }
      ErrorEntries(logs)
    }

    function GetRecentLogs(count: int := DefaultRecentCount): (r: seq<LogEntry>)
      reads this
      ensures count > 0 ==> r == logs[|logs| - Min(count, |logs|)..]
      ensures count == 0 ==> r == logs
      ensures count < 0 ==> r == logs[Min(-count, |logs|)..]
    {
      RecentCounts(logs, count);
      Recent(logs, count)
    }

    /** Empties the log and removes the saved copy; once the removal succeeds every listener
        is told the log is empty. */
    method ClearLogs(removeOk: bool) returns (notices: seq<Notice>)
      requires Valid()
      modifies this
      ensures Valid()
      ensures logs == []
      ensures listeners == old(listeners)
      ensures removeOk ==> Announces(notices, listeners, [])
      ensures !removeOk ==> notices == []
    {
      logs := [];
      notices := [];
      if removeOk {
        notices := Notify(listeners, []);
      }
    }

    /** Adds `l` at the end of the listener list, even if it is already there. */
    method Subscribe(l: ListenerId)
      requires Valid()
      modifies this
      ensures Valid()
      ensures listeners == old(listeners) + [l]
      ensures logs == old(logs)
    {
      listeners := listeners + [l];
    }

    /** The unsubscribe function `subscribe` hands back: removes the first occurrence of `l`,
        if there is one. */
    method Unsubscribe(l: ListenerId)
      requires Valid()
      modifies this
      ensures Valid()
      ensures listeners == RemoveFirst(old(listeners), l)
      ensures logs == old(logs)
    {
      var index := IndexOf(listeners, l);
      if index > -1 {
        listeners := listeners[..index] + listeners[index + 1..];
      }
    }
  }
}
