/** The tumbling one-minute window both limiters of server_common/tcpserver.cpp use. */
module Windows {
  import opened Basics

  /** `amount` granted at time `at` in the window that started at `start`. */
  datatype Grant = Grant(at: int, start: int, amount: nat)

  /** The grants of a run, the latest outermost. */
  datatype History = Beginning | After(before: History, last: Grant)

  /** Everything granted in the window that started at `start`. */
  function WindowSum(h: History, start: int): nat {
    match h
    case Beginning => 0
    case After(before, g) => WindowSum(before, start) + if g.start == start then g.amount else 0
  }

  /** Everything granted in the minute that begins at `from`, both ends included. */
  function MinuteSum(h: History, from: int): nat {
    match h
    case Beginning => 0
    case After(before, g) => MinuteSum(before, from) + if from <= g.at <= from + MINUTE then g.amount else 0
  }

  /** A window may follow the history if it is the latest one or starts a minute later. */
  predicate MayFollow(h: History, start: int) {
    h.After? ==> start == h.last.start || start >= h.last.start + MINUTE
  }

  /** Windows of one minute: each grant falls inside its window, a new window starts at
      least a minute after the one before, and no window grants more than the limit. */
  predicate Tumbling(h: History, limit: nat) {
    h.Beginning? ||
    (var g := h.last;
     && Tumbling(h.before, limit)
     && g.start <= g.at < g.start + MINUTE
     && (h.before.After? ==> h.before.last.at <= g.at)
     && MayFollow(h.before, g.start)
     && WindowSum(h, g.start) <= limit)
  }

  /** No window later than the last one has granted anything yet. */
  lemma {:induction false} NothingAhead(h: History, limit: nat, start: int)
    requires Tumbling(h, limit)
    requires h.After? ==> h.last.start < start
    ensures WindowSum(h, start) == 0
  {
    if h.After? {
      NothingAhead(h.before, limit, start);
    }
  }

  lemma {:induction false} MinuteSplit(h: History, limit: nat, from: int)
    requires Tumbling(h, limit) && h.After?
    ensures var s := h.last.start;
            && (s <= from - MINUTE ==> MinuteSum(h, from) == 0)
            && (s <= from ==> MinuteSum(h, from) <= WindowSum(h, s))
            && (s <= from + MINUTE ==> MinuteSum(h, from) <= limit + WindowSum(h, s))
            && MinuteSum(h, from) <= 2 * limit
  {
    if h.before.After? {
      MinuteSplit(h.before, limit, from);
      if h.before.last.start < h.last.start {
        NothingAhead(h.before, limit, h.last.start);
      }
    }
  }

  /** The shared window theorem: a minute overlaps at most two windows, so whatever
      minute is chosen, at most twice the limit is granted in it. */
  lemma AnyMinuteAtMostTwice(h: History, limit: nat, from: int)
    requires Tumbling(h, limit)
    ensures MinuteSum(h, from) <= 2 * limit
  {
    if h.After? {
      MinuteSplit(h, limit, from);
    }
  }
}
