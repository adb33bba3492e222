/** The DuckDB connection pool under every interleaving of its callers' steps. */
module Pool {

  type Worker = nat
  type Conn = nat

  /** `idle` is the channel; `held` and `closing` tell who has which connection; `next` numbers new connections. */
  datatype State = State(idle: seq<Conn>, created: int, deciding: set<Worker>, waiting: set<Worker>,
                         held: map<Worker, Conn>, closing: map<Worker, Conn>, next: nat)

  /** One atomic step of one worker. */
  datatype Event =
    | TryGet(w: Worker)                // Get: take from the channel if it has one
    | Decide(w: Worker, opens: bool)   // Get, under the lock: open a connection if the limit allows
    | Receive(w: Worker)               // Get: take from the channel while waiting
    | Timeout(w: Worker)
    | TryPut(w: Worker)                // Put: send to the channel if it has room, else close
    | Decrement(w: Worker)             // Put, under the lock: one connection fewer

  predicate IsReady(s: State, w: Worker) {
    w !in s.deciding && w !in s.waiting && w !in s.held && w !in s.closing
  }

  function Take(s: State, w: Worker): State
    requires s.idle != []
  {
    s.(idle := s.idle[1..], held := s.held[w := s.idle[0]])
  }

  /** A step that is not enabled changes nothing. */
  function Step(max: nat, s: State, e: Event): State {
    match e
    case TryGet(w) =>
      if !IsReady(s, w) then s
      else if s.idle != [] then Take(s, w)
      else s.(deciding := s.deciding + {w})
    case Decide(w, opens) =>
      if w !in s.deciding then s
      else
        var t := s.(deciding := s.deciding - {w});
        if s.created >= max then t.(waiting := t.waiting + {w})
        else if opens then t.(created := s.created + 1, held := s.held[w := s.next], next := s.next + 1)
        else t
    case Receive(w) =>
      if w !in s.waiting || s.idle == [] then s
      else Take(s.(waiting := s.waiting - {w}), w)
    case Timeout(w) =>
      s.(waiting := s.waiting - {w})
    case TryPut(w) =>
      if w !in s.held then s
      else
        var t := s.(held := s.held - {w});
        if |s.idle| < max then t.(idle := s.idle + [s.held[w]])
        else t.(closing := s.closing[w := s.held[w]])
    case Decrement(w) =>
      if w !in s.closing then s
      else s.(closing := s.closing - {w}, created := s.created - 1)
  }

  function Run(max: nat, s: State, es: seq<Event>): State {
    if es == [] then s else Step(max, Run(max, s, es[..|es| - 1]), es[|es| - 1])
  }

  /** A new pool holds one connection. */
  const START := State([0], 1, {}, {}, map[], map[], 1)

  ghost predicate Distinct(s: seq<Conn>) {
    forall i, j | 0 <= i < j < |s| :: s[i] != s[j]
  }

  ghost predicate OneHolder(held: map<Worker, Conn>) {
    forall v, w | v in held && w in held && v != w :: held[v] != held[w]
  }

  ghost predicate Apart(idle: seq<Conn>, held: map<Worker, Conn>) {
    forall w <- held :: held[w] !in idle
  }

  /** A worker is in one phase at a time. */
  ghost predicate Phased(s: State) {
    && s.deciding !! s.waiting
    && (forall w <- s.held :: w !in s.deciding && w !in s.waiting)
  }

  ghost predicate Inv(max: nat, s: State) {
    && s.created == |s.idle| + |s.held| <= max
    && s.closing == map[]
    && Distinct(s.idle) && OneHolder(s.held) && Apart(s.idle, s.held)
    && (forall c <- s.idle :: c < s.next) && (forall w <- s.held :: s.held[w] < s.next)
    && s.created == s.next
    && Phased(s)
  }

  lemma TakeKeeps(max: nat, s: State, w: Worker)
    requires Inv(max, s) && s.idle != [] && w !in s.held && w !in s.deciding && w !in s.waiting
    ensures Inv(max, Take(s, w))
  {
    var t := Take(s, w);
    assert s.idle == [s.idle[0]] + s.idle[1..] && s.idle[0] in s.idle;
    assert forall c <- s.idle[1..] :: c in s.idle && c != s.idle[0];
  }

  lemma PutKeeps(max: nat, s: State, w: Worker)
    requires Inv(max, s) && w in s.held
    ensures |s.idle| < max && Inv(max, Step(max, s, TryPut(w)))
  {
    assert |s.held - {w}| == |s.held| - 1;
    var t := s.(held := s.held - {w}, idle := s.idle + [s.held[w]]);
    assert |s.idle| < max;
    assert Distinct(t.idle);
    assert Apart(t.idle, t.held);
  }

  lemma DecideKeeps(max: nat, s: State, w: Worker, opens: bool)
    requires Inv(max, s)
    ensures Inv(max, Step(max, s, Decide(w, opens)))
  {
    if w in s.deciding && s.created < max && opens {
      assert forall v <- s.held :: s.held[v] != s.next;
      assert s.next !in s.idle;
    }
  }

  lemma StepKeeps(max: nat, s: State, e: Event)
    requires Inv(max, s)
    ensures Inv(max, Step(max, s, e))
  {
    match e
    case TryGet(w) => if IsReady(s, w) && s.idle != [] { TakeKeeps(max, s, w); }
    case Decide(w, opens) => DecideKeeps(max, s, w, opens);
    case Receive(w) =>
      if w in s.waiting && s.idle != [] { TakeKeeps(max, s.(waiting := s.waiting - {w}), w); }
    case Timeout(_) =>
    case TryPut(w) => if w in s.held { PutKeeps(max, s, w); }
    case Decrement(_) =>
  }

  lemma {:induction false} RunKeeps(max: nat, es: seq<Event>)
    requires max >= 1
    ensures Inv(max, Run(max, START, es))
  {
    hide Inv, Step;
    if es == [] {
      StartKeeps(max);
    } else {
      RunKeeps(max, es[..|es| - 1]);
      StepKeeps(max, Run(max, START, es[..|es| - 1]), es[|es| - 1]);
    }
  }

  lemma StartKeeps(max: nat)
    requires max >= 1
    ensures Inv(max, START)
  {
  }

  /**
   * In every interleaving: the count of created connections is idle plus checked out and within the limit; no
   * connection has two holders or is idle while held; and whoever puts one back finds room, so none is ever closed.
   */
  lemma PoolIsSafe(max: nat, es: seq<Event>)
    requires max >= 1
    ensures var s := Run(max, START, es);
            && s.created == |s.idle| + |s.held| <= max
            && (forall v, w | v in s.held && w in s.held && v != w :: s.held[v] != s.held[w])
            && (forall w <- s.held :: s.held[w] !in s.idle)
            && (forall w <- s.held :: |s.idle| < max)
            && s.closing == map[]
  {
    RunKeeps(max, es);
    var s := Run(max, START, es);
    forall w | w in s.held ensures |s.idle| < max {
      PutKeeps(max, s, w);
    }
  }

  /**
   * Whoever asks is served, in every interleaving: by the connection that has been idle longest; if none is idle and
   * the limit allows, by a new one; and otherwise by the next one that any holder puts back.
   */
  lemma GetIsServed(max: nat, es: seq<Event>, w: Worker)
    requires max >= 1 && IsReady(Run(max, START, es), w)
    ensures var s := Run(max, START, es);
            && (s.idle != [] ==>
                  var t := Step(max, s, TryGet(w));
                  t.held == s.held[w := s.idle[0]] && t.idle == s.idle[1..] && t.created == s.created)
            && (s.idle == [] && |s.held| < max ==>
                  var t := Step(max, Step(max, s, TryGet(w)), Decide(w, true));
                  w in t.held && t.held == s.held[w := t.held[w]] && t.held[w] !in s.held.Values
                  && t.created == s.created + 1)
            && (s.idle == [] && |s.held| >= max ==>
                  && s.held != map[]
                  && forall v <- s.held, opens: bool ::
                       var t := Step(max, Step(max, s, TryGet(w)), Decide(w, opens));
                       Step(max, Step(max, t, TryPut(v)), Receive(w)).held == (s.held - {v})[w := s.held[v]])
  {
    RunKeeps(max, es);
    var s := Run(max, START, es);
    hide Run;
    if s.idle == [] && |s.held| >= max {
      forall v, opens: bool | v in s.held
        ensures var t := Step(max, Step(max, s, TryGet(w)), Decide(w, opens));
                Step(max, Step(max, t, TryPut(v)), Receive(w)).held == (s.held - {v})[w := s.held[v]]
      {
        ServedByPut(max, s, w, v, opens);
      }
    }
  }

  lemma ServedByPut(max: nat, s: State, w: Worker, v: Worker, opens: bool)
    requires Inv(max, s) && IsReady(s, w) && s.idle == [] && |s.held| >= max >= 1 && v in s.held
    ensures var t := Step(max, Step(max, s, TryGet(w)), Decide(w, opens));
            Step(max, Step(max, t, TryPut(v)), Receive(w)).held == (s.held - {v})[w := s.held[v]]
  {
    var t := s.(waiting := s.waiting + {w});
    assert Step(max, Step(max, s, TryGet(w)), Decide(w, opens)) == t by {
      assert s.deciding + {w} - {w} == s.deciding;
    }
    var u := Step(max, t, TryPut(v));
    assert u.idle == [s.held[v]] && u.held == s.held - {v} && w in u.waiting;
  }

  // The pool object, step by step

  class DuckDBPool {
    const maxConns: nat
    var connections: seq<Conn>
    var created: int
    ghost var deciding: set<Worker>
    ghost var waiting: set<Worker>
    ghost var held: map<Worker, Conn>
    ghost var closing: map<Worker, Conn>
    ghost var next: nat

    ghost function View(): State
      reads this
    {
      State(connections, created, deciding, waiting, held, closing, next)
    }

    constructor (maxConns: nat)
      requires maxConns >= 1
      ensures this.maxConns == maxConns && View() == START
    {
      this.maxConns := maxConns;
      connections, created, deciding, waiting, held, closing, next := [0], 1, {}, {}, map[], map[], 1;
    }

    /** The non-blocking receive at the start of `Get`. */
    method TryReceive(w: Worker) returns (conn: Conn, got: bool)
      requires IsReady(View(), w)
      modifies this
      ensures View() == Step(maxConns, old(View()), TryGet(w))
      ensures got == (old(connections) != []) && (got ==> held == old(held)[w := conn])
    {
      conn, got := 0, false;
      if |connections| > 0 {
        conn, got := connections[0], true;
        connections := connections[1..];
        held := held[w := conn];
      } else {
        deciding := deciding + {w};
      }
    }

    /** The locked section of `Get`; `conn` is the connection the driver returned, if it did. */
    method OpenIfAllowed(w: Worker, opens: bool, conn: Conn) returns (got: bool, wait: bool)
      requires w in deciding && (opens ==> conn == next)
      modifies this
      ensures View() == Step(maxConns, old(View()), Decide(w, opens))
      ensures wait == (old(created) >= maxConns) && got == (!wait && opens)
    {
      deciding := deciding - {w};
      got, wait := false, false;
      if created < maxConns {
        if opens {
          created := created + 1;
          held := held[w := conn];
          next := next + 1;
          got := true;
        }
      } else {
        waiting := waiting + {w};
        wait := true;
      }
    }

    /** The wait at the end of `Get`: a connection arrives, or the timer fires. */
    method ReceiveOrTimeout(w: Worker, timer: bool) returns (conn: Conn, got: bool)
      requires w in waiting && (!timer ==> connections != [])
      modifies this
      ensures View() == Step(maxConns, old(View()), if timer then Timeout(w) else Receive(w))
      ensures got == !timer && (got ==> held == old(held)[w := conn])
    {
      waiting := waiting - {w};
      conn, got := 0, false;
      if !timer {
        conn, got := connections[0], true;
        connections := connections[1..];
        held := held[w := conn];
      }
    }

    /** The non-blocking send of `Put`, by the holder; `closes` tells that the channel was full. */
    method TrySend(w: Worker, conn: Conn) returns (closes: bool)
      requires w in held && held[w] == conn
      modifies this
      ensures View() == Step(maxConns, old(View()), TryPut(w))
      ensures old(Inv(maxConns, View())) ==> !closes && connections == old(connections) + [conn]
    {
      closes := |connections| >= maxConns;
      held := held - {w};
      if closes {
        closing := closing[w := conn];
      } else {
        connections := connections + [conn];
      }
      if old(Inv(maxConns, View())) { PutKeeps(maxConns, old(View()), w); }
    }

    /** The locked section of `Put`, after a connection has been closed. */
    method CountDown(w: Worker)
      requires w in closing
      modifies this
      ensures View() == Step(maxConns, old(View()), Decrement(w))
    {
      closing := closing - {w};
      created := created - 1;
    }
  }
}
