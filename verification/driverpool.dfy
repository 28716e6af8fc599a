/**
 * The NetTruyen crawler's pool of browser drivers.
 *
 * Idle drivers wait in a first-in first-out queue. A request takes the oldest
 * idle driver; when none is idle it creates one if fewer than `max` exist, and
 * otherwise blocks until some worker returns a driver. Closing the pool quits
 * every driver it ever created and empties it. The lock and the blocking wait
 * are modelled as outcomes of a single step: `Waits` says the caller would
 * block with the pool unchanged.
 */
module DriverPool {
  import opened Base

  /** A browser driver, known by its identity. */
  type Driver = nat

  datatype Pool = Pool(idle: seq<Driver>, all: seq<Driver>, active: int, max: int)

  /** A fresh pool allowing `max` drivers. */
  function Empty(max: int): (p: Pool)
    ensures Valid(p) && p.max == max
    ensures p.idle == [] && p.all == []
  {
    Pool([], [], 0, max)
  }

  /**
   * What every reachable pool satisfies: the counter counts the created drivers,
   * never more than the limit, and every idle driver is one the pool created.
   */
  predicate Valid(p: Pool) {
    p.active == |p.all| &&
    p.active <= MaxInt(0, p.max) &&
    forall i | 0 <= i < |p.idle| :: p.idle[i] in p.all
  }

  datatype Got = Reused(d: Driver) | Created(d: Driver) | Waits | SetupFailed

  /**
   * One request for a driver. `setup` is what the setup function would do if
   * called: a new driver, or `None` when it raises, which leaves the pool as it was.
   */
  function GetDriver(p: Pool, setup: Option<Driver>): (r: (Pool, Got))
    ensures |p.idle| > 0 <==> r.1.Reused?
    ensures r.1.Reused? ==> r.1.d == p.idle[0] && r.0 == p.(idle := p.idle[1..])
    ensures r.1.Created? <==> |p.idle| == 0 && p.active < p.max && setup.Some?
    ensures r.1.Created? ==> r.1.d == setup.value && r.0.active == p.active + 1 &&
                             r.0.all == p.all + [r.1.d] && r.0.idle == p.idle && r.0.max == p.max
    ensures r.1.Waits? <==> |p.idle| == 0 && p.active >= p.max
    ensures r.1.Waits? || r.1.SetupFailed? ==> r.0 == p
  {
    if |p.idle| > 0 then
      (p.(idle := p.idle[1..]), Reused(p.idle[0]))
    else if p.active < p.max then
      match setup
      case Some(d) => (p.(active := p.active + 1, all := p.all + [d]), Created(d))
      case None => (p, SetupFailed)
    else
      (p, Waits)
  }

  /** Handing a driver back; `None` (Python's falsy driver) is ignored. */
  function ReturnDriver(p: Pool, d: Option<Driver>): (r: Pool)
    ensures d.None? ==> r == p
    ensures d.Some? ==> r.idle == p.idle + [d.value]
    ensures r.all == p.all && r.active == p.active && r.max == p.max
  {
    match d
    case None => p
    case Some(x) => p.(idle := p.idle + [x])
  }

  /** Closing the pool: the drivers quit, in creation order, and the emptied pool. */
  function CloseAll(p: Pool): (r: (Pool, seq<Driver>))
    ensures r.1 == p.all
    ensures r.0 == Empty(p.max)
  {
    (Pool([], [], 0, p.max), p.all)
  }

  /** A request keeps the pool valid, and a created driver never exceeds the limit. */
  lemma GetKeepsValid(p: Pool, setup: Option<Driver>)
    requires Valid(p)
    ensures Valid(GetDriver(p, setup).0)
    ensures GetDriver(p, setup).1.Created? ==> |GetDriver(p, setup).0.all| <= p.max
  {
    var r := GetDriver(p, setup);
    if r.1.Reused? {
      assert forall i | 0 <= i < |r.0.idle| :: r.0.idle[i] == p.idle[i + 1];
    }
  }

  /** Returning a driver the pool created keeps it valid. */
  lemma ReturnKeepsValid(p: Pool, d: Option<Driver>)
    requires Valid(p)
    requires d.Some? ==> d.value in p.all
    ensures Valid(ReturnDriver(p, d))
  {
    var r := ReturnDriver(p, d);
    if d.Some? {
      assert forall i | 0 <= i < |r.idle| :: (i < |p.idle| && r.idle[i] == p.idle[i]) || r.idle[i] == d.value;
    }
  }

  /** A driver handed back to a pool with no idle drivers is the next one handed out. */
  lemma ReturnThenGet(p: Pool, d: Driver, setup: Option<Driver>)
    requires p.idle == []
    ensures GetDriver(ReturnDriver(p, Some(d)), setup) == (p, Reused(d))
  {
    assert ReturnDriver(p, Some(d)).idle[1..] == [];
  }

  /** Returned drivers come back out in the order they were returned. */
  lemma FirstReturnedFirstReused(p: Pool, a: Driver, b: Driver, s1: Option<Driver>, s2: Option<Driver>)
    requires p.idle == []
    ensures var q := ReturnDriver(ReturnDriver(p, Some(a)), Some(b));
            var g1 := GetDriver(q, s1);
            var g2 := GetDriver(g1.0, s2);
            g1.1 == Reused(a) && g2.1 == Reused(b) && g2.0 == p
  {
    var q := ReturnDriver(ReturnDriver(p, Some(a)), Some(b));
    assert q.idle == [a, b];
    assert q.idle[1..] == [b];
    assert q.idle[1..][1..] == [];
  }

  /** After closing, the pool is valid and creates drivers again from scratch. */
  lemma CloseThenCreate(p: Pool, d: Driver)
    requires p.max > 0
    ensures var c := CloseAll(p).0;
            Valid(c) && GetDriver(c, Some(d)) == (Pool([], [d], 1, p.max), Created(d))
  {
    assert [] + [d] == [d];
  }

  datatype Op = Get(setup: Option<Driver>) | Return(d: Option<Driver>) | Close

  /** The pool after a sequence of operations, with the drivers quit along the way. */
  function Run(p: Pool, ops: seq<Op>): (r: (Pool, seq<Driver>))
    decreases |ops|
  {
    if |ops| == 0 then (p, [])
    else
      var step :=
        match ops[0]
        case Get(s) => (GetDriver(p, s).0, [])
        case Return(d) => (ReturnDriver(p, d), [])
        case Close => CloseAll(p);
      var rest := Run(step.0, ops[1..]);
      (rest.0, step.1 + rest.1)
  }

  /**
   * Whether every driver returned in `ops`, starting from `p`, is one the pool
   * created (the crawler only returns drivers it obtained from the pool).
   */
  predicate ReturnsOwn(p: Pool, ops: seq<Op>)
    decreases |ops|
  {
    |ops| == 0 ||
    match ops[0]
    case Get(s) => ReturnsOwn(GetDriver(p, s).0, ops[1..])
    case Return(d) => (d.Some? ==> d.value in p.all) && ReturnsOwn(ReturnDriver(p, d), ops[1..])
    case Close => ReturnsOwn(CloseAll(p).0, ops[1..])
  }

  /**
   * Along any run that returns only its own drivers the pool stays valid: no
   * more than `max` drivers are ever alive at once.
   */
  lemma {:induction false} RunKeepsValid(p: Pool, ops: seq<Op>)
    requires Valid(p)
    requires ReturnsOwn(p, ops)
    ensures Valid(Run(p, ops).0)
    ensures |Run(p, ops).0.all| <= MaxInt(0, p.max)
    decreases |ops|
  {
    if |ops| > 0 {
      match ops[0]
      case Get(s) =>
        GetKeepsValid(p, s);
        RunKeepsValid(GetDriver(p, s).0, ops[1..]);
      case Return(d) =>
        ReturnKeepsValid(p, d);
        RunKeepsValid(ReturnDriver(p, d), ops[1..]);
      case Close =>
        RunKeepsValid(CloseAll(p).0, ops[1..]);
    }
  }

  /** Closing at the end of a run quits exactly the drivers created since the last close. */
  lemma {:induction false} CloseQuitsEveryCreated(p: Pool, ops: seq<Op>)
    ensures Run(p, ops + [Close]).0 == Empty(p.max)
    ensures Run(p, ops + [Close]).1 == Run(p, ops).1 + Run(p, ops).0.all
    decreases |ops|
  {
    if |ops| == 0 {
      assert ops + [Close] == [Close];
    } else {
      assert (ops + [Close])[1..] == ops[1..] + [Close];
      var step :=
        match ops[0]
        case Get(s) => (GetDriver(p, s).0, [])
        case Return(d) => (ReturnDriver(p, d), [])
        case Close => CloseAll(p);
      CloseQuitsEveryCreated(step.0, ops[1..]);
      MaxPreserved(p, ops[0]);
    }
  }

  lemma MaxPreserved(p: Pool, op: Op)
    ensures (match op
             case Get(s) => GetDriver(p, s).0
             case Return(d) => ReturnDriver(p, d)
             case Close => CloseAll(p).0).max == p.max
  {
  }
}
