/** The activity recorder of rbac-backend/src/services/activityService.js: a
    newest-first list of log entries in activity_logs.json, capped at 100. */
module ActivityService {
  import opened Common

  /** How many entries the log keeps (`logs.splice(100)`). */
  const MaxLogs: nat := 100

  /** A value in an entry's free-form `details` object. */
  datatype Value = Text(text: string) | Count(n: int) | Names(names: seq<string>)

  type Details = map<string, Value>

  datatype LogEntry = LogEntry(
    id: string,
    userId: string,
    userName: string,
    action: string,
    details: Details,
    timestamp: string)

  /** The generated parts of a new entry: `Date.now()` + random suffix, and the ISO time. */
  datatype Stamp = Stamp(id: string, timestamp: string)

  /** The log after `unshift(entry)` and `splice(100)`. */
  function Pushed(entry: LogEntry, logs: seq<LogEntry>): (r: seq<LogEntry>)
    ensures |r| == Min(|logs| + 1, MaxLogs)
    ensures r[0] == entry
    ensures r[1..] == logs[..|r| - 1]
  {
    var grown := [entry] + logs;
    if |grown| > MaxLogs then grown[..MaxLogs] else grown
  }

  /** The first `MaxLogs` entries of `logs`. */
  function Newest(logs: seq<LogEntry>): (r: seq<LogEntry>)
    ensures |r| == Min(|logs|, MaxLogs)
  {
    if |logs| > MaxLogs then logs[..MaxLogs] else logs
  }

  /** Records `entries` one after another, oldest first. */
  function PushAll(logs: seq<LogEntry>, entries: seq<LogEntry>): seq<LogEntry>
    decreases |entries|
  {
    if entries == [] then logs else PushAll(Pushed(entries[0], logs), entries[1..])
  }

  function Reversed(s: seq<LogEntry>): (r: seq<LogEntry>)
    ensures |r| == |s|
    ensures forall i :: 0 <= i < |s| ==> r[i] == s[|s| - 1 - i]
  {
    if s == [] then [] else Reversed(s[1..]) + [s[0]]
  }

  /** Pushing onto a truncated log is the same as pushing onto the whole one. */
  lemma PushedNewest(entry: LogEntry, logs: seq<LogEntry>)
    ensures Pushed(entry, logs) == Newest([entry] + logs)
    ensures Pushed(entry, Newest(logs)) == Pushed(entry, logs)
  {
  }

  /** Any run of insertions leaves exactly the most recent `MaxLogs` entries,
      newest first, followed by what survives of the old log. */
  lemma {:induction false} PushAllKeepsNewest(logs: seq<LogEntry>, entries: seq<LogEntry>)
    requires |logs| <= MaxLogs
    ensures PushAll(logs, entries) == Newest(Reversed(entries) + logs)
    decreases |entries|
  {
    if entries == [] {
      assert Reversed(entries) + logs == logs;
    } else {
      var e := entries[0];
      PushAllKeepsNewest(Pushed(e, logs), entries[1..]);
      assert Reversed(entries) == Reversed(entries[1..]) + [e];
      var rest := Reversed(entries[1..]);
      PushedNewest(e, logs);
      assert Newest(rest + Pushed(e, logs)) == Newest(rest + ([e] + logs)) by {
        NewestOfAppend(rest, [e] + logs);
      }
      assert rest + ([e] + logs) == Reversed(entries) + logs;
    }
  }

  /** Recording 101 entries into an empty log keeps the last 100, newest first. */
  lemma HundredAndOneEntries(entries: seq<LogEntry>)
    requires |entries| == MaxLogs + 1
    ensures PushAll([], entries) == Reversed(entries[1..])
  {
    PushAllKeepsNewest([], entries);
    var r := Reversed(entries);
    assert r + [] == r;
    assert r[..MaxLogs] == Reversed(entries[1..]);
  }

  /** Truncating the tail before taking the newest entries changes nothing. */
  lemma NewestOfAppend(front: seq<LogEntry>, back: seq<LogEntry>)
    ensures Newest(front + Newest(back)) == Newest(front + back)
  {
    var a := front + Newest(back);
    var b := front + back;
    var n := Min(|b|, MaxLogs);
    assert |Newest(a)| == n;
    forall i | 0 <= i < n ensures Newest(a)[i] == Newest(b)[i] {
      if i < |front| {
      } else {
        assert a[i] == Newest(back)[i - |front|];
      }
    }
  }

  /** The named filter of getLogsByUser. */
  function ByUser(userId: string): LogEntry -> bool {
    (e: LogEntry) => e.userId == userId
  }

  /** getLogsByUser: the entries recorded for `userId`, newest first, none dropped. */
  function LogsOfUser(logs: seq<LogEntry>, userId: string): (r: seq<LogEntry>)
    ensures forall e: LogEntry :: e in r <==> e in logs && e.userId == userId
    ensures forall e: LogEntry :: e.userId == userId ==> multiset(r)[e] == multiset(logs)[e]
    ensures IsSubsequence(r, logs)
  {
    Filter(logs, ByUser(userId))
  }

  /** activity_logs.json as the service sees it. */
  class ActivityLog {
    /** The parsed file, or None when it is missing or cannot be parsed. */
    var file: Option<seq<LogEntry>>
    /** Whether writing the file succeeds. */
    var writable: bool

    constructor (file: Option<seq<LogEntry>>, writable: bool)
      ensures this.file == file && this.writable == writable
    {
      this.file := file;
      this.writable := writable;
    }

    /** getAllLogs: an unreadable file reads as the empty list. */
    function AllLogs(): (logs: seq<LogEntry>)
      reads this
      ensures file.None? ==> logs == []
      ensures file.Some? ==> logs == file.value
    {
      file.GetOr([])
    }

    /** getLogsByUser: the stored entries of `userId`, none from anyone else;
        an unreadable file has none. */
    function LogsByUser(userId: string): (logs: seq<LogEntry>)
      reads this
      ensures file.None? ==> logs == []
      ensures forall e: LogEntry :: e in logs <==> e in AllLogs() && e.userId == userId
      ensures forall e: LogEntry :: e.userId == userId ==> multiset(logs)[e] == multiset(AllLogs())[e]
    {
      LogsOfUser(AllLogs(), userId)
    }

    /** addLog: puts the new entry at the head of the loaded list, cuts the list
        to 100 and writes it back. A failed write is caught and answered with
        `null` (None here), and the file is left as it was. An unreadable file
        was loaded as [], so a successful write replaces it by the new entry. */
    method AddLog(userId: string, userName: string, action: string, details: Option<Details>,
                  stamp: Stamp) returns (r: Option<LogEntry>)
      modifies this`file
      ensures r.Some? <==> writable
      ensures r.Some? ==>
        r.value == LogEntry(stamp.id, userId, userName, action, details.GetOr(map[]), stamp.timestamp)
      ensures file == Logged(old(file), writable,
                             LogEntry(stamp.id, userId, userName, action, details.GetOr(map[]), stamp.timestamp))
    {
      var logs := AllLogs();
      var entry := LogEntry(stamp.id, userId, userName, action,
                            if details.Some? then details.value else map[], stamp.timestamp);
      logs := [entry] + logs;
      if |logs| > MaxLogs {
        logs := logs[..MaxLogs];
      }
      if !writable {
        return None;
      }
      file := Some(logs);
      r := Some(entry);
    }
  }

  /** The file after one addLog of `entry`: unchanged when the write fails. */
  function Logged(file: Option<seq<LogEntry>>, writable: bool, entry: LogEntry): (r: Option<seq<LogEntry>>)
    ensures !writable ==> r == file
    ensures writable ==> r.Some? && |r.value| == Min(|file.GetOr([])| + 1, MaxLogs)
    ensures writable ==> r.Some? && r.value[0] == entry && r.value[1..] == file.GetOr([])[..|r.value| - 1]
  {
    if writable then Some(Pushed(entry, file.GetOr([]))) else file
  }
}
