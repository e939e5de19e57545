/** server_common/tcpserver.cpp, `consumeUploadBudget`: one upload budget for the whole
    workspace, refilled by a tumbling window. */
module UploadBudget {
  import opened Basics
  import opened Windows

  const UPLOAD_LIMIT: nat := 1024 * 1024 * 1024

  datatype Budget = Budget(startedAt: int, used: nat)

  function Rolled(b: Budget, now: int): Budget {
    if now - b.startedAt >= MINUTE then Budget(now, 0) else b
  }

  predicate Fits(b: Budget, now: int, bytes: nat) {
    bytes <= UPLOAD_LIMIT - Rolled(b, now).used
  }

  function Charge(b: Budget, now: int, bytes: nat): Budget {
    var r := Rolled(b, now);
    if Fits(b, now, bytes) then r.(used := r.used + bytes) else r
  }

  class UploadLimiter {
    var uploadedBytesInWindow: nat
    var uploadWindowStartedAt: int

    ghost function View(): Budget
      reads this
    {
      Budget(uploadWindowStartedAt, uploadedBytesInWindow)
    }

    constructor (now: int)
      ensures View() == Budget(now, 0)
    {
      uploadedBytesInWindow, uploadWindowStartedAt := 0, now;
    }

    /** A window a minute old is over and the whole limit is free again. The unsigned
        subtraction never wraps: the counter stays within the limit. */
    method ConsumeUploadBudget(now: int, bytes: nat) returns (ok: bool)
      requires uploadedBytesInWindow <= UPLOAD_LIMIT
      modifies this
      ensures uploadedBytesInWindow <= UPLOAD_LIMIT
      ensures View() == Charge(old(View()), now, bytes)
      ensures ok == Fits(old(View()), now, bytes)
      ensures ok <==> (if now >= old(uploadWindowStartedAt) + MINUTE then bytes else old(uploadedBytesInWindow) + bytes)
                      <= UPLOAD_LIMIT
      ensures uploadedBytesInWindow
              == (if now >= old(uploadWindowStartedAt) + MINUTE then 0 else old(uploadedBytesInWindow))
                 + (if ok then bytes else 0)
      ensures uploadWindowStartedAt
              == if now >= old(uploadWindowStartedAt) + MINUTE then now else old(uploadWindowStartedAt)
    {
      if now - uploadWindowStartedAt >= MINUTE {
        uploadWindowStartedAt := now;
        uploadedBytesInWindow := 0;
      }
      var room: nat := UPLOAD_LIMIT - uploadedBytesInWindow;
      if bytes > room {
        return false;
      }
      uploadedBytesInWindow := uploadedBytesInWindow + bytes;
      ok := true;
    }
  }

  /** One call of `consumeUploadBudget`, in the order the lock was taken. */
  datatype Request = Request(now: int, bytes: nat)

  datatype Usage = Usage(budget: Budget, grants: History)

  function Serve(u: Usage, q: Request): Usage {
    var b := Charge(u.budget, q.now, q.bytes);
    Usage(b, if Fits(u.budget, q.now, q.bytes) then After(u.grants, Grant(q.now, b.startedAt, q.bytes)) else u.grants)
  }

  function RunRequests(opened_: int, requests: seq<Request>): Usage {
    if requests == [] then Usage(Budget(opened_, 0), Beginning)
    else Serve(RunRequests(opened_, requests[..|requests| - 1]), requests[|requests| - 1])
  }

  /** The clock never runs backwards in lock order and the window opens first. */
  predicate ClockOk(opened_: int, requests: seq<Request>) {
    && (forall i | 0 <= i < |requests| :: opened_ <= requests[i].now)
    && (forall i, j | 0 <= i < j < |requests| :: requests[i].now <= requests[j].now)
  }

  /** What holds of the limiter and its grants once the clock has reached `now`. */
  predicate Sound(u: Usage, now: int) {
    && Tumbling(u.grants, UPLOAD_LIMIT)
    && u.budget.used == WindowSum(u.grants, u.budget.startedAt)
    && u.budget.used <= UPLOAD_LIMIT
    && u.budget.startedAt <= now
    && (u.grants.After? ==> u.grants.last.at <= now)
    && MayFollow(u.grants, u.budget.startedAt)
  }

  lemma ServeKeepsSound(u: Usage, now: int, q: Request)
    requires Sound(u, now) && now <= q.now
    ensures Sound(Serve(u, q), q.now)
  {
    var b := Rolled(u.budget, q.now);
    if b.startedAt != u.budget.startedAt {
      NothingAhead(u.grants, UPLOAD_LIMIT, b.startedAt);
    }
  }

  lemma {:induction false} RunsAreSound(opened_: int, requests: seq<Request>)
    requires ClockOk(opened_, requests)
    ensures Sound(RunRequests(opened_, requests), if requests == [] then opened_ else requests[|requests| - 1].now)
  {
    if requests != [] {
      var init := requests[..|requests| - 1];
      RunsAreSound(opened_, init);
      ServeKeepsSound(RunRequests(opened_, init), if init == [] then opened_ else init[|init| - 1].now,
                      requests[|requests| - 1]);
    }
  }

  /** Over every sequence of requests: no window is charged more than the limit, windows
      are at least a minute apart, and no minute is charged more than twice the limit. */
  lemma UploadBounded(opened_: int, requests: seq<Request>, from: int)
    requires ClockOk(opened_, requests)
    ensures Tumbling(RunRequests(opened_, requests).grants, UPLOAD_LIMIT)
    ensures MinuteSum(RunRequests(opened_, requests).grants, from) <= 2 * UPLOAD_LIMIT
    ensures RunRequests(opened_, requests).budget.used <= UPLOAD_LIMIT
  {
    RunsAreSound(opened_, requests);
    AnyMinuteAtMostTwice(RunRequests(opened_, requests).grants, UPLOAD_LIMIT, from);
  }

  /** When the window opened that is open after these requests: a request a minute after
      the last window opened opens the next. */
  function WindowAt(opened_: int, requests: seq<Request>): int {
    if requests == [] then opened_
    else
      var before, now := WindowAt(opened_, requests[..|requests| - 1]), requests[|requests| - 1].now;
      if now >= before + MINUTE then now else before
  }

  lemma {:induction false} BudgetWindow(opened_: int, requests: seq<Request>)
    ensures RunRequests(opened_, requests).budget.startedAt == WindowAt(opened_, requests)
  {
    if requests != [] {
      BudgetWindow(opened_, requests[..|requests| - 1]);
    }
  }

  lemma ClockPrefix(opened_: int, requests: seq<Request>, q: Request)
    requires ClockOk(opened_, requests + [q])
    ensures ClockOk(opened_, requests) && forall i | 0 <= i < |requests| :: opened_ <= requests[i].now <= q.now
    ensures opened_ <= q.now
  {
    var all := requests + [q];
    assert all[|requests|] == q;
    forall i | 0 <= i < |requests| ensures opened_ <= requests[i].now <= q.now {
      assert all[i] == requests[i];
    }
    forall i, j | 0 <= i < j < |requests| ensures requests[i].now <= requests[j].now {
      assert all[i] == requests[i] && all[j] == requests[j];
    }
  }

  lemma ServeNext(opened_: int, requests: seq<Request>, q: Request)
    ensures RunRequests(opened_, requests + [q]) == Serve(RunRequests(opened_, requests), q)
    ensures WindowAt(opened_, requests + [q])
         == if q.now >= WindowAt(opened_, requests) + MINUTE then q.now else WindowAt(opened_, requests)
  {
    hide Serve;
    var all := requests + [q];
    assert all[..|all| - 1] == requests && all[|all| - 1] == q;
  }

  /** Exactly when a request is granted, after any others: when what was granted in the
      window it falls into and its own bytes are together within the limit. So once a
      minute has passed since the window opened, anything up to the limit is granted. */
  lemma GrantedExactly(opened_: int, requests: seq<Request>, q: Request)
    requires ClockOk(opened_, requests + [q])
    ensures var (before, after) := (RunRequests(opened_, requests).grants, RunRequests(opened_, requests + [q]).grants);
            var window := WindowAt(opened_, requests + [q]);
            after == if WindowSum(before, window) + q.bytes <= UPLOAD_LIMIT
                     then After(before, Grant(q.now, window, q.bytes)) else before
    ensures q.now >= WindowAt(opened_, requests) + MINUTE ==>
              WindowSum(RunRequests(opened_, requests).grants, WindowAt(opened_, requests + [q])) == 0
  {
    ClockPrefix(opened_, requests, q);
    RunsAreSound(opened_, requests);
    BudgetWindow(opened_, requests);
    ServeNext(opened_, requests, q);
    var u := RunRequests(opened_, requests);
    hide RunRequests, WindowAt, ClockOk;
    if q.now >= u.budget.startedAt + MINUTE {
      NothingAhead(u.grants, UPLOAD_LIMIT, q.now);
    }
  }

  /** The factor two is attained, whenever the window opened: a full window charged in its
      last tick and the next one in its first. */
  lemma TwiceIsAttained(u: Usage, q: Request, r: Request)
    requires u.budget.used == 0 && u.grants == Beginning
    requires q.now == u.budget.startedAt + MINUTE - 1 && q.bytes == UPLOAD_LIMIT
    requires r.now == q.now + 1 && r.bytes == UPLOAD_LIMIT
    ensures MinuteSum(Serve(Serve(u, q), r).grants, q.now) == 2 * UPLOAD_LIMIT
  {
    var h := After(u.grants, Grant(q.now, u.budget.startedAt, q.bytes));
    assert Serve(u, q).grants == h;
    assert MinuteSum(h, q.now) == UPLOAD_LIMIT;
    assert Serve(Serve(u, q), r).grants == After(h, Grant(r.now, r.now, r.bytes));
  }
}
