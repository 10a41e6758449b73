/**
 * The process-wide diagnostic log: timestamped messages, of which only the
 * most recent `Capacity` are kept, and of which `GET /logs` shows the last
 * `RecentWindow`.
 */
module RingLog {

  /** How many entries the log keeps (`logs.slice(-50)`). */
  const Capacity: nat := 50

  /** How many entries `GET /logs` returns (`logs.slice(-20)`). */
  const RecentWindow: nat := 20

  datatype LogEntry = LogEntry(timestamp: string, message: string)

  function Min(a: nat, b: nat): nat {
    if a <= b then a else b
  }

  /**
   * The last `k` elements of `s`, or all of `s` when it is shorter: what
   * `s.slice(-k)` gives for positive `k`. It is a suffix of `s` of length
   * min(k, |s|), so it keeps the order of `s`.
   */
  function Last<T>(s: seq<T>, k: nat): (r: seq<T>)
    ensures |r| == Min(k, |s|)
    ensures r == s[|s| - |r|..]
  {
    if |s| <= k then s else s[|s| - k..]
  }

  /** The log after one `addLog`: the entry appended, then all but the last `Capacity` dropped. */
  function Appended(log: seq<LogEntry>, e: LogEntry): seq<LogEntry> {
    Last(log + [e], Capacity)
  }

  /** The log after a series of `addLog` calls, one per entry, in order. */
  function AppendedAll(log: seq<LogEntry>, es: seq<LogEntry>): seq<LogEntry>
    decreases |es|
  {
    if es == [] then log else AppendedAll(Appended(log, es[0]), es[1..])
  }

  class Log {
    var entries: seq<LogEntry>

    ghost predicate Valid()
      reads this
    {
      |entries| <= Capacity
    }

    /** The empty log the process starts with (`let logs = []`). */
    constructor ()
      ensures Valid() && entries == []
    {
      entries := [];
    }

    /** `addLog(message)` with the clock reading passed in as `timestamp`. */
    method Add(timestamp: string, message: string)
      requires Valid()
      modifies this
      ensures Valid()
      ensures entries == Appended(old(entries), LogEntry(timestamp, message))
    {
      entries := entries + [LogEntry(timestamp, message)];
      if |entries| > Capacity {
        entries := entries[|entries| - Capacity..];
      }
    }

    /**
     * The last `k` entries, oldest first, or all of them when there are
     * fewer; the log itself is left alone. `GET /logs` asks for `RecentWindow`.
     */
    method Recent(k: nat) returns (r: seq<LogEntry>)
      ensures |r| == Min(k, |entries|)
      ensures forall i :: 0 <= i < |r| ==> r[i] == entries[|entries| - |r| + i]
    {
      r := Last(entries, k);
    }
  }

  /**
   * One `addLog` on a log within capacity keeps it within capacity, puts the
   * new entry last and evicts at most the single oldest entry: below
   * capacity nothing is dropped, at capacity exactly the first entry goes.
   */
  lemma AppendedEvictsOldest(log: seq<LogEntry>, e: LogEntry)
    requires |log| <= Capacity
    ensures |Appended(log, e)| <= Capacity
    ensures Appended(log, e)[|Appended(log, e)| - 1] == e
    ensures |log| < Capacity ==> Appended(log, e) == log + [e]
    ensures |log| == Capacity ==> Appended(log, e) == log[1..] + [e]
  {
    if |log| == Capacity {
      assert (log + [e])[1..] == log[1..] + [e];
    }
  }

  /** A suffix of a suffix is a suffix: the last `j` of the last `k` are the last `j` when j <= k. */
  lemma LastOfLast<T>(s: seq<T>, k: nat, j: nat)
    requires j <= k
    ensures Last(Last(s, k), j) == Last(s, j)
  {
    var t := Last(s, k);
    var r := Last(t, j);
    assert |r| == Min(j, |s|);
    forall i | 0 <= i < |r| ensures r[i] == Last(s, j)[i] {
      assert r[i] == t[|t| - |r| + i];
      assert t[|t| - |r| + i] == s[|s| - |r| + i];
    }
  }

  /** Trimming to the last `k` before appending more and trimming again loses nothing. */
  lemma LastOfAppend<T>(u: seq<T>, w: seq<T>, k: nat)
    ensures Last(Last(u, k) + w, k) == Last(u + w, k)
  {
    var t := Last(u, k) + w;
    var r := Last(t, k);
    var want := Last(u + w, k);
    assert |r| == |want|;
    forall i | 0 <= i < |r| ensures r[i] == want[i] {
      var j := |t| - |r| + i;
      if j < |Last(u, k)| {
        assert t[j] == u[|u| - |Last(u, k)| + j];
      } else {
        assert t[j] == w[j - |Last(u, k)|];
      }
    }
  }

  /**
   * Any series of `addLog` calls on a log within capacity leaves exactly the
   * last `Capacity` entries of everything logged, in the order they were
   * logged: only the oldest entries are ever evicted.
   */
  lemma {:induction false} AppendedAllIsLast(log: seq<LogEntry>, es: seq<LogEntry>)
    requires |log| <= Capacity
    ensures AppendedAll(log, es) == Last(log + es, Capacity)
    decreases |es|
  {
    if es == [] {
      assert log + es == log;
    } else {
      var next := Appended(log, es[0]);
      AppendedAllIsLast(next, es[1..]);
      assert log + es == (log + [es[0]]) + es[1..];
      LastOfAppend(log + [es[0]], es[1..], Capacity);
    }
  }

  /**
   * After any series of `addLog` calls, `GET /logs` shows the last
   * `RecentWindow` entries of everything logged, in the order they were logged.
   */
  lemma RecentAfterAppends(log: seq<LogEntry>, es: seq<LogEntry>)
    requires |log| <= Capacity
    ensures Last(AppendedAll(log, es), RecentWindow) == Last(log + es, RecentWindow)
  {
    AppendedAllIsLast(log, es);
    LastOfLast(log + es, Capacity, RecentWindow);
  }
}
