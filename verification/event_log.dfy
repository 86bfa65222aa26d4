/**
 * `log(msg)`: each event becomes one line `[<timestamp>] <msg>`, appended to
 * the in-memory list `LOG_LINES` (the console's recent-events view, cut back
 * to its last 2000 lines) and to the file `logs/server_log.txt`.
 */
module Logging {

  const MaxLogLines: nat := 2000

  /** `s[-n:]`, taken only when `s` is longer than `n`. */
  function KeepLast(s: seq<string>, n: nat): (r: seq<string>)
    ensures |r| == if |s| <= n then |s| else n
    ensures r == s[|s| - |r|..]
  {
    if |s| > n then s[|s| - n..] else s
  }

  /** One log line: the bracketed timestamp, a space, then the message. */
  function Line(ts: string, msg: string): (r: string)
    ensures |r| == |ts| + |msg| + 3
    ensures r[0] == '[' && r[1..|ts| + 1] == ts && r[|ts| + 1..|ts| + 3] == "] "
    ensures r[|ts| + 3..] == msg
  {
    "[" + ts + "] " + msg
  }

  /** Cutting a list that keeps at least `n` lines back to `n` is cutting the whole list back to `n`. */
  lemma KeepLastSuffix(x: seq<string>, i: nat, n: nat)
    requires i + n <= |x|
    ensures KeepLast(x[i..], n) == KeepLast(x, n)
  {
    if |x[i..]| > n {
      assert x[i..][|x| - i - n..] == x[|x| - n..];
    } else {
      assert x[i..] == x[|x| - n..];
    }
  }

  /** Cutting back before appending more loses nothing the final cut would keep. */
  lemma KeepLastAbsorbs(s: seq<string>, t: seq<string>, n: nat)
    ensures KeepLast(KeepLast(s, n) + t, n) == KeepLast(s + t, n)
  {
    if |s| > n {
      assert s[|s| - n..] + t == (s + t)[|s| - n..];
      KeepLastSuffix(s + t, |s| - n, n);
    }
  }

  /** The list after logging `lines` one at a time, starting from `buf`. */
  function Feed(buf: seq<string>, lines: seq<string>): seq<string>
    decreases |lines|
  {
    if lines == [] then buf else Feed(KeepLast(buf + [lines[0]], MaxLogLines), lines[1..])
  }

  /**
   * Starting from a list within the bound, the list always holds exactly the
   * last 2000 lines ever logged, newest last.
   */
  lemma {:induction false} FeedKeepsNewest(buf: seq<string>, lines: seq<string>)
    requires |buf| <= MaxLogLines
    ensures Feed(buf, lines) == KeepLast(buf + lines, MaxLogLines)
    decreases |lines|
  {
    if lines != [] {
      var next := KeepLast(buf + [lines[0]], MaxLogLines);
      FeedKeepsNewest(next, lines[1..]);
      KeepLastAbsorbs(buf + [lines[0]], lines[1..], MaxLogLines);
      assert buf + [lines[0]] + lines[1..] == buf + lines;
    }
  }

  class EventLog {
    /** LOG_LINES */
    var lines: seq<string>
    /** The lines written to the log file. */
    var file: seq<string>

    /** At start-up the list is empty; the log file, opened for appending, keeps what earlier runs wrote. */
    constructor (existing: seq<string>)
      ensures lines == [] && file == existing
    {
      lines, file := [], existing;
    }

    /** log(msg), with the clock reading `ts` injected. */
    method Log(ts: string, msg: string)
      modifies this
      ensures lines == KeepLast(old(lines) + [Line(ts, msg)], MaxLogLines)
      ensures |lines| <= MaxLogLines && lines[|lines| - 1] == Line(ts, msg)
      ensures file == old(file) + [Line(ts, msg)]
    {
      var line := Line(ts, msg);
      lines := lines + [line];
      if |lines| > MaxLogLines {
        lines := lines[|lines| - MaxLogLines..];
      }
      file := file + [line];
    }
  }
}
