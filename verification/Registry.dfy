/** The service registry: the state machine of cluster nodes and the event log that retraces it. */
module Registry {
  import opened Prelude

  datatype NodeState = Unknown | Online | Suspicious | Offline | Decommissioning | Tombstone

  datatype Kind = Joined | WentOffline | TurnedSuspicious | Recovered | Decommissioned | Recommissioned | Removed

  datatype NodeEvent = NodeEvent(kind: Kind, prev: NodeState, next: NodeState)

  const SUSPICIOUS_THRESHOLD := 30
  const OFFLINE_THRESHOLD := 60
  const MAX_EVENTS := 100

  // One node

  /** A node as the registry sees it: its state if it is registered, and its event list, oldest first. */
  datatype Node = Node(state: Option<NodeState>, log: seq<NodeEvent>)

  /** What one registry call means for one node; `age` is the time since its last heartbeat. */
  datatype Act = Seen(age: int) | Missing | Decommission | Recommission | Remove | Untouched

  /** The state a refresh gives a node that is still registered. */
  function Refreshed(prev: NodeState, age: int): NodeState {
    if prev == Decommissioning || prev == Tombstone then prev
    else if age >= OFFLINE_THRESHOLD then Offline
    else if age >= SUSPICIOUS_THRESHOLD then Suspicious
    else Online
  }

  function KindFor(next: NodeState): Kind {
    if next == Offline then WentOffline else if next == Suspicious then TurnedSuspicious else Recovered
  }

  /** The events a refresh records for a node: none, or one. */
  function News(prev: Option<NodeState>, seen: Option<int>): seq<NodeEvent> {
    match (prev, seen)
    case (None, Some(_)) => [NodeEvent(Joined, Unknown, Online)]
    case (None, None) => []
    case (Some(p), Some(age)) =>
      if Refreshed(p, age) == p || (p == Unknown && Refreshed(p, age) == Online) then []
      else [NodeEvent(KindFor(Refreshed(p, age)), p, Refreshed(p, age))]
    case (Some(p), None) =>
      if p == Tombstone then [] else [NodeEvent(WentOffline, p, Offline)]
  }

  function After(prev: Option<NodeState>, seen: Option<int>): Option<NodeState> {
    match (prev, seen)
    case (_, None) => None
    case (None, Some(_)) => Some(Online)
    case (Some(p), Some(age)) => Some(Refreshed(p, age))
  }

  predicate Live(s: Option<NodeState>) {
    s == Some(Online) || s == Some(Suspicious)
  }

  predicate Parked(s: Option<NodeState>) {
    s == Some(Offline) || s == Some(Decommissioning)
  }

  function NodeStep(n: Node, a: Act): Node {
    match a
    case Seen(age) => Node(After(n.state, Some(age)), n.log + News(n.state, Some(age)))
    case Missing => Node(None, n.log + News(n.state, None))
    case Decommission =>
      if Live(n.state) then
        Node(Some(Decommissioning), n.log + [NodeEvent(Decommissioned, n.state.value, Decommissioning)])
      else n
    case Recommission =>
      if Parked(n.state) then Node(Some(Online), n.log + [NodeEvent(Recommissioned, n.state.value, Online)]) else n
    case Remove =>
      if Parked(n.state) then Node(None, n.log + [NodeEvent(Removed, n.state.value, Tombstone)]) else n
    case Untouched => n
  }

  function NodeRun(n: Node, acts: seq<Act>): Node
    decreases |acts|
  {
    if acts == [] then n else NodeRun(NodeStep(n, acts[0]), acts[1..])
  }

  const ABSENT := Node(None, [])

  // The log retraces the state

  /** Folds events: joining starts afresh, and every other event must start where the one before it ended. */
  function Fold(log: seq<NodeEvent>): Option<NodeState> {
    if log == [] then None
    else
      var e := log[|log| - 1];
      if e.kind == Joined then Some(e.next)
      else if Fold(log[..|log| - 1]) == Some(e.prev) then Some(e.next)
      else None
  }

  /** An event's kind says where it leads and where it may start. */
  predicate Labelled(e: NodeEvent) {
    match e.kind
    case Joined => e.prev == Unknown && e.next == Online
    case WentOffline => e.prev != Unknown && e.next == Offline
    case TurnedSuspicious => (e.prev == Online || e.prev == Offline) && e.next == Suspicious
    case Recovered => (e.prev == Suspicious || e.prev == Offline) && e.next == Online
    case Decommissioned => Live(Some(e.prev)) && e.next == Decommissioning
    case Recommissioned => Parked(Some(e.prev)) && e.next == Online
    case Removed => Parked(Some(e.prev)) && e.next == Tombstone
  }

  /** Every event but a joining one starts where the event before it ended. */
  ghost predicate Chained(log: seq<NodeEvent>) {
    forall i | 0 < i < |log| :: log[i].kind == Joined || log[i].prev == log[i - 1].next
  }

  ghost predicate NodeInv(n: Node) {
    && (n.state.Some? ==> (Live(n.state) || Parked(n.state)) && Fold(n.log) == n.state)
    && (n.log != [] ==> Fold(n.log).Some?)
    && Chained(n.log)
    && (forall e <- n.log :: Labelled(e))
  }

  lemma FoldNext(log: seq<NodeEvent>, e: NodeEvent)
    ensures Fold(log + [e]) == if e.kind == Joined || Fold(log) == Some(e.prev) then Some(e.next) else None
  {
    assert (log + [e])[..|log|] == log;
  }

  /** One more event, which starts where the log ended or joins, and ends in the new state unless the node is gone. */
  lemma Recorded(n: Node, e: NodeEvent, state: Option<NodeState>)
    requires NodeInv(n) && (e.kind == Joined || n.state == Some(e.prev))
    requires state == None || (state == Some(e.next) && (Live(state) || Parked(state)))
    requires Labelled(e)
    ensures NodeInv(Node(state, n.log + [e]))
  {
    FoldNext(n.log, e);
    if n.log != [] { FoldEnds(n.log); }
    hide Fold;
    assert forall i | 0 < i < |n.log| :: (n.log + [e])[i] == n.log[i];
  }

  lemma FoldEnds(log: seq<NodeEvent>)
    requires Fold(log).Some?
    ensures log != [] && Fold(log).value == log[|log| - 1].next
  {
  }

  lemma StepKeeps(n: Node, a: Act)
    requires NodeInv(n)
    ensures NodeInv(NodeStep(n, a))
  {
    hide Chained;
    var t := NodeStep(n, a);
    assert n.log + [] == n.log;
    if t.log != n.log {
      var e := t.log[|t.log| - 1];
      assert t.log == n.log + [e];
      hide Fold;
      Recorded(n, e, t.state);
    }
  }

  /** A step records exactly one event if it changes the node's state, from the old state to the new, and else none. */
  lemma EventsAreChanges(n: Node, a: Act)
    requires NodeInv(n)
    ensures var t := NodeStep(n, a);
            if t.state == n.state then t.log == n.log
            else
              && |t.log| == |n.log| + 1 && t.log[..|n.log|] == n.log
              && var e := t.log[|n.log|];
                 && e.prev == (if n.state.Some? then n.state.value else Unknown)
                 && (t.state.Some? ==> e.next == t.state.value)
                 && (t.state.None? ==> e.next == if a.Remove? then Tombstone else Offline)
  {
    hide Fold, Chained, Labelled;
    assert n.log + [] == n.log;
  }

  /**
   * In every run: a registered node is online, suspicious, offline or decommissioning; folding its events
   * since it last joined gives that state; and each event is rightly labelled, so that none removes it straight
   * from online or suspicious.
   */
  lemma {:induction false} LogRetracesState(n: Node, acts: seq<Act>)
    requires NodeInv(n)
    ensures NodeInv(NodeRun(n, acts))
    decreases |acts|
  {
    hide NodeInv, NodeStep;
    if acts != [] {
      StepKeeps(n, acts[0]);
      LogRetracesState(NodeStep(n, acts[0]), acts[1..]);
    }
  }

  /** The events kept: the last hundred. */
  function Recent(log: seq<NodeEvent>): seq<NodeEvent> {
    if |log| <= MAX_EVENTS then log else log[|log| - MAX_EVENTS..]
  }

  /** That is, all of up to a hundred events, and of more the newest hundred in their order. */
  lemma RecentMeans(log: seq<NodeEvent>)
    ensures var n := if |log| < 100 then |log| else 100;
            |Recent(log)| == n && forall i | 0 <= i < n :: Recent(log)[i] == log[|log| - n + i]
  {
  }

  lemma RecentNext(log: seq<NodeEvent>, e: NodeEvent)
    ensures Recent(Recent(log) + [e]) == Recent(log + [e])
  {
  }

  /**
   * What trimming leaves, in every run of a node: a registered node's newest kept event ends in its state, and each
   * kept event but a joining one starts where the kept event before it ended.
   */
  lemma RecentEventsEndInState(acts: seq<Act>)
    ensures var n := NodeRun(ABSENT, acts);
            var kept := Recent(n.log);
            && Chained(kept) && (forall e <- kept :: Labelled(e))
            && (n.state.Some? ==> kept != [] && Some(kept[|kept| - 1].next) == n.state)
  {
    assert NodeInv(ABSENT);
    LogRetracesState(ABSENT, acts);
    var n := NodeRun(ABSENT, acts);
    if n.state.Some? { FoldEnds(n.log); }
    hide Fold, NodeRun, Labelled;
  }

  // Decommissioned nodes

  /** Whether the acts bring a decommissioned node back: recommissioning it, or, once it is gone, a new heartbeat. */
  predicate Revived(acts: seq<Act>, gone: bool) {
    if acts == [] then false
    else if gone then acts[0].Seen? || Revived(acts[1..], true)
    else acts[0].Recommission? || Revived(acts[1..], acts[0].Missing? || acts[0].Remove?)
  }

  ghost predicate EverLive(n: Node, acts: seq<Act>) {
    exists k | 0 <= k <= |acts| :: Live(NodeRun(n, acts[..k]).state)
  }

  lemma EverLiveNext(n: Node, acts: seq<Act>)
    requires acts != []
    ensures EverLive(n, acts) <==> Live(n.state) || EverLive(NodeStep(n, acts[0]), acts[1..])
  {
    hide NodeStep;
    var m := NodeStep(n, acts[0]);
    forall k | 0 < k <= |acts| ensures NodeRun(n, acts[..k]) == NodeRun(m, acts[1..][..k - 1]) {
      assert acts[..k][1..] == acts[1..][..k - 1] && acts[..k][0] == acts[0];
    }
    if EverLive(m, acts[1..]) {
      var k :| 0 <= k <= |acts| - 1 && Live(NodeRun(m, acts[1..][..k]).state);
      assert Live(NodeRun(n, acts[..k + 1]).state);
    }
    assert acts[..0] == [];
    assert Live(n.state) ==> Live(NodeRun(n, acts[..0]).state);
    if EverLive(n, acts) && !Live(n.state) {
      var k :| 0 <= k <= |acts| && Live(NodeRun(n, acts[..k]).state);
      assert k > 0;
      assert Live(NodeRun(m, acts[1..][..k - 1]).state);
    }
  }

  /**
   * A decommissioned node stays unhealthy through any number of refreshes and calls: at some point of a run it
   * is healthy again exactly if it was recommissioned, or was gone and then seen again.
   */
  lemma {:induction false} HealthyAgainIff(n: Node, acts: seq<Act>, gone: bool)
    requires n.state == if gone then None else Some(Decommissioning)
    ensures EverLive(n, acts) <==> Revived(acts, gone)
    decreases |acts|
  {
    if acts == [] {
      assert acts[..0] == [];
    } else {
      EverLiveNext(n, acts);
      hide EverLive;
      var m := NodeStep(n, acts[0]);
      if (gone && acts[0].Seen?) || (!gone && acts[0].Recommission?) {
        LiveNow(m, acts[1..]);
      } else {
        HealthyAgainIff(m, acts[1..], gone || acts[0].Missing? || acts[0].Remove?);
      }
    }
  }

  lemma LiveNow(n: Node, acts: seq<Act>)
    requires Live(n.state)
    ensures EverLive(n, acts)
  {
    assert acts[..0] == [];
    assert Live(NodeRun(n, acts[..0]).state);
  }

  // The registry object

  function LogAt(log: map<string, seq<NodeEvent>>, id: string): seq<NodeEvent> {
    if id in log then log[id] else []
  }

  function StateAt(services: map<string, NodeState>, id: string): Option<NodeState> {
    if id in services then Some(services[id]) else None
  }

  function AgeAt(found: map<string, int>, now: int, id: string): Option<int> {
    if id in found then Some(now - found[id]) else None
  }

  /** The events waiting to be recorded for one node. */
  function For(pending: seq<(string, NodeEvent)>, id: string): seq<NodeEvent> {
    if pending == [] then []
    else
      For(pending[..|pending| - 1], id)
      + (if pending[|pending| - 1].0 == id then [pending[|pending| - 1].1] else [])
  }

  lemma ForNext(pending: seq<(string, NodeEvent)>, p: (string, NodeEvent), id: string)
    ensures For(pending + [p], id) == For(pending, id) + (if p.0 == id then [p.1] else [])
  {
    assert (pending + [p])[..|pending|] == pending;
  }

  class ServiceRegistry {
    const nodeID: string
    const redisEnabled: bool
    var services: map<string, NodeState>
    var events: map<string, seq<NodeEvent>>
    ghost var log: map<string, seq<NodeEvent>>

    /** The stored events are the recent part of the whole history. */
    ghost predicate Valid()
      reads this
    {
      forall id :: LogAt(events, id) == Recent(LogAt(log, id))
    }

    ghost function NodeAt(id: string): Node
      reads this
    {
      Node(StateAt(services, id), LogAt(log, id))
    }

    predicate IsNodeHealthy(id: string)
      reads this
    {
      if redisEnabled then Live(StateAt(services, id)) else id == nodeID
    }

    constructor (nodeID: string, redisEnabled: bool)
      ensures this.nodeID == nodeID && this.redisEnabled == redisEnabled && Valid() && forall id :: NodeAt(id) == ABSENT
    {
      this.nodeID, this.redisEnabled, services, events, log := nodeID, redisEnabled, map[], map[], map[];
    }

    method Record(id: string, e: NodeEvent)
      requires Valid()
      modifies this`events, this`log
      ensures Valid()
      ensures forall other :: LogAt(log, other) == LogAt(old(log), other) + (if other == id then [e] else [])
    {
      hide Recent;
      assert LogAt(events, id) == Recent(LogAt(log, id));
      RecentNext(LogAt(log, id), e);
      ghost var before := log;
      events := events[id := Recent(LogAt(events, id) + [e])];
      log := log[id := LogAt(log, id) + [e]];
      assert LogAt(log, id) == LogAt(before, id) + [e];
      assert forall other | other != id :: LogAt(events, other) == Recent(LogAt(log, other)) by {
        assert forall other | other != id :: LogAt(log, other) == LogAt(before, other);
      }
    }

    method RecordAll(pending: seq<(string, NodeEvent)>)
      requires Valid()
      modifies this`events, this`log
      ensures Valid()
      ensures forall id :: LogAt(log, id) == LogAt(old(log), id) + For(pending, id)
    {
      hide LogAt, For, Recent;
      ForNothing();
      for i := 0 to |pending|
        invariant Valid()
        invariant forall id :: LogAt(log, id) == LogAt(old(log), id) + For(pending[..i], id)
      {
        assert pending[..i + 1] == pending[..i] + [pending[i]];
        ghost var before := log;
        Record(pending[i].0, pending[i].1);
        forall id: string ensures LogAt(log, id) == LogAt(old(log), id) + For(pending[..i + 1], id) {
          ForNext(pending[..i], pending[i], id);
          assert LogAt(log, id) == LogAt(before, id) + (if id == pending[i].0 then [pending[i].1] else []);
        }
      }
      assert pending[..|pending|] == pending;
    }

    /** A refresh: every registered node is seen or missing. An unreachable directory changes nothing. */
    method UpdateServiceList(found: Option<map<string, int>>, now: int) returns (ok: bool)
      requires Valid()
      modifies this
      ensures Valid()
      ensures ok == found.Some?
      ensures !ok ==> forall id :: NodeAt(id) == old(NodeAt(id))
      ensures ok ==> forall id :: NodeAt(id) ==
                       NodeStep(old(NodeAt(id)), if id in found.value then Seen(now - found.value[id]) else Missing)
      ensures ok ==> services.Keys == found.value.Keys
      ensures ok ==> forall id <- found.value | id in old(services) && old(services)[id] != Decommissioning
                                               && old(services)[id] != Tombstone ::
                       && (services[id] == Online <==> now - found.value[id] < 30)
                       && (services[id] == Offline <==> now - found.value[id] >= 60)
                       && (services[id] == Suspicious <==> 30 <= now - found.value[id] < 60)
      ensures ok ==> forall id <- found.value | id !in old(services) :: services[id] == Online
      ensures ok ==> forall id <- found.value | id in old(services) ::
                       old(services)[id] == Decommissioning || old(services)[id] == Tombstone ==>
                         services[id] == old(services)[id]
    {
      hide News, After, For, LogAt, StateAt, AgeAt, NodeStep, CheckedAt;
      if found.None? {
        return false;
      }
      var seen, prev := found.value, services;
      var next, pending := CheckSeen(prev, seen, now);
      var more := CheckMissing(prev, seen);
      services := next;
      RecordAll(pending + more);
      forall id: string
        ensures NodeAt(id) == NodeStep(old(NodeAt(id)), if id in seen then Seen(now - seen[id]) else Missing)
      {
        ForConcat(pending, more, id);
        assert CheckedAt(prev, seen, now, {}, next, pending, id);
        RefreshedNode(prev, next, old(log), seen, now, id, pending, For(more, id));
      }
      RefreshedStates(prev, next, seen, now, pending);
      ok := true;
    }

    /** The loop over the nodes found. */
    method CheckSeen(prev: map<string, NodeState>, seen: map<string, int>, now: int)
        returns (next: map<string, NodeState>, pending: seq<(string, NodeEvent)>)
      ensures Checked(prev, seen, now, {}, next, pending)
    {
      next, pending := map[], [];
      ForNothing();
      var todo := seen.Keys;
      assert Checked(prev, seen, now, todo, next, pending);
      hide For, News, After, StateAt, AgeAt;
      while todo != {}
        invariant todo <= seen.Keys && Checked(prev, seen, now, todo, next, pending)
        decreases |todo|
      {
        hide Checked;
        var id :| id in todo;
        var state, e := CheckNode(if id in prev then Some(prev[id]) else None, now - seen[id]);
        CheckedNext(prev, seen, now, todo, next, pending, id, state, e);
        todo := todo - {id};
        next := next[id := state];
        if e.Some? {
          pending := pending + [(id, e.value)];
        }
      }
    }

    /** The decision for one node found: its new state and the event to record, if any. */
    static method CheckNode(prev: Option<NodeState>, age: int) returns (state: NodeState, e: Option<NodeEvent>)
      ensures Some(state) == After(prev, Some(age))
      ensures News(prev, Some(age)) == if e.Some? then [e.value] else []
    {
      if prev.None? {
        return Online, Some(NodeEvent(Joined, Unknown, Online));
      }
      var p := prev.value;
      e := None;
      if p == Decommissioning || p == Tombstone {
        state := p;
      } else if age >= OFFLINE_THRESHOLD {
        state := Offline;
        if p != Offline { e := Some(NodeEvent(WentOffline, p, Offline)); }
      } else if age >= SUSPICIOUS_THRESHOLD {
        state := Suspicious;
        if p != Suspicious { e := Some(NodeEvent(TurnedSuspicious, p, Suspicious)); }
      } else {
        state := Online;
        if p == Suspicious || p == Offline { e := Some(NodeEvent(Recovered, p, Online)); }
      }
    }

    /** The loop over the nodes known before. */
    method CheckMissing(prev: map<string, NodeState>, seen: map<string, int>)
        returns (pending: seq<(string, NodeEvent)>)
      ensures forall id :: For(pending, id) == if id in seen then [] else News(StateAt(prev, id), None)
    {
      hide For;
      pending := [];
      ForNothing();
      var todo := prev.Keys;
      while todo != {}
        invariant todo <= prev.Keys
        invariant forall id ::
                    For(pending, id) == if id in seen || id in todo then [] else News(StateAt(prev, id), None)
        decreases |todo|
      {
        var id :| id in todo;
        todo := todo - {id};
        ghost var before := pending;
        if id !in seen && prev[id] != Tombstone {
          var e := NodeEvent(WentOffline, prev[id], Offline);
          pending := pending + [(id, e)];
          forall other: string ensures For(pending, other) == For(before, other) + (if other == id then [e] else []) {
            ForNext(before, (id, e), other);
          }
        }
      }
    }

    method DecommissionNode(id: string) returns (ok: bool)
      requires Valid()
      modifies this
      ensures Valid()
      ensures ok == (id in old(services) && (old(services)[id] == Online || old(services)[id] == Suspicious))
      ensures forall other ::
                NodeAt(other) == NodeStep(old(NodeAt(other)), if other == id then Decommission else Untouched)
      ensures services == if ok then old(services)[id := Decommissioning] else old(services)
      ensures ok && redisEnabled ==> !IsNodeHealthy(id)
    {
      if id !in services || (services[id] != Online && services[id] != Suspicious) {
        return false;
      }
      var prev := services[id];
      services := services[id := Decommissioning];
      Record(id, NodeEvent(Decommissioned, prev, Decommissioning));
      ok := true;
    }

    method RecommissionNode(id: string) returns (ok: bool)
      requires Valid()
      modifies this
      ensures Valid()
      ensures ok == (id in old(services) && (old(services)[id] == Offline || old(services)[id] == Decommissioning))
      ensures forall other ::
                NodeAt(other) == NodeStep(old(NodeAt(other)), if other == id then Recommission else Untouched)
      ensures services == if ok then old(services)[id := Online] else old(services)
      ensures ok && redisEnabled ==> IsNodeHealthy(id)
    {
      if id !in services || (services[id] != Decommissioning && services[id] != Offline) {
        return false;
      }
      var prev := services[id];
      services := services[id := Online];
      Record(id, NodeEvent(Recommissioned, prev, Online));
      ok := true;
    }

    method RemoveNode(id: string) returns (ok: bool)
      requires Valid()
      modifies this
      ensures Valid()
      ensures ok == (id in old(services) && (old(services)[id] == Offline || old(services)[id] == Decommissioning))
      ensures forall other :: NodeAt(other) == NodeStep(old(NodeAt(other)), if other == id then Remove else Untouched)
      ensures services == if ok then old(services) - {id} else old(services)
      ensures ok && redisEnabled ==> !IsNodeHealthy(id)
    {
      if id !in services || (services[id] != Offline && services[id] != Decommissioning) {
        return false;
      }
      var prev := services[id];
      services := services - {id};
      Record(id, NodeEvent(Removed, prev, Tombstone));
      ok := true;
    }
  }

  lemma ForNothing()
    ensures forall id :: For([], id) == []
  {
  }

  ghost predicate CheckedAt(prev: map<string, NodeState>, seen: map<string, int>, now: int, todo: set<string>,
                            next: map<string, NodeState>, pending: seq<(string, NodeEvent)>, id: string) {
    if id in seen && id !in todo
    then && StateAt(next, id) == After(StateAt(prev, id), AgeAt(seen, now, id))
         && For(pending, id) == News(StateAt(prev, id), AgeAt(seen, now, id))
    else StateAt(next, id) == None && For(pending, id) == []
  }

  /** The loop over the nodes found, with those in `todo` still to come. */
  ghost predicate Checked(prev: map<string, NodeState>, seen: map<string, int>, now: int, todo: set<string>,
                          next: map<string, NodeState>, pending: seq<(string, NodeEvent)>) {
    forall id :: CheckedAt(prev, seen, now, todo, next, pending, id)
  }

  lemma CheckedNext(prev: map<string, NodeState>, seen: map<string, int>, now: int, todo: set<string>,
                    next: map<string, NodeState>, pending: seq<(string, NodeEvent)>, id: string, state: NodeState,
                    e: Option<NodeEvent>)
    requires Checked(prev, seen, now, todo, next, pending) && id in todo && id in seen
    requires Some(state) == After(StateAt(prev, id), Some(now - seen[id]))
    requires News(StateAt(prev, id), Some(now - seen[id])) == if e.Some? then [e.value] else []
    ensures Checked(prev, seen, now, todo - {id}, next[id := state],
                    if e.Some? then pending + [(id, e.value)] else pending)
  {
    var more := if e.Some? then pending + [(id, e.value)] else pending;
    var rest, next' := todo - {id}, next[id := state];
    forall other: string ensures CheckedAt(prev, seen, now, rest, next', more, other) {
      assert CheckedAt(prev, seen, now, todo, next, pending, other);
      if e.Some? { ForNext(pending, (id, e.value), other); }
      hide For, News, After;
    }
  }

  /** Both loops together record the news of a node. */
  lemma RefreshedNode(prev: map<string, NodeState>, next: map<string, NodeState>, log: map<string, seq<NodeEvent>>,
                      seen: map<string, int>, now: int, id: string, pending: seq<(string, NodeEvent)>,
                      second: seq<NodeEvent>)
    requires CheckedAt(prev, seen, now, {}, next, pending, id)
    requires second == if id in seen then [] else News(StateAt(prev, id), None)
    ensures Node(StateAt(next, id), LogAt(log, id) + (For(pending, id) + second)) ==
            NodeStep(Node(StateAt(prev, id), LogAt(log, id)), if id in seen then Seen(now - seen[id]) else Missing)
  {
    hide News, LogAt, For;
    assert For(pending, id) + [] == For(pending, id) && [] + second == second;
  }

  /** The states a refresh leaves, by heartbeat age. */
  lemma RefreshedStates(prev: map<string, NodeState>, next: map<string, NodeState>, seen: map<string, int>, now: int,
                        pending: seq<(string, NodeEvent)>)
    requires Checked(prev, seen, now, {}, next, pending)
    ensures next.Keys == seen.Keys
    ensures forall id <- seen | id in prev && prev[id] != Decommissioning && prev[id] != Tombstone ::
              && (next[id] == Online <==> now - seen[id] < 30)
              && (next[id] == Offline <==> now - seen[id] >= 60)
              && (next[id] == Suspicious <==> 30 <= now - seen[id] < 60)
    ensures forall id <- seen | id !in prev :: next[id] == Online
    ensures forall id <- seen | id in prev ::
              prev[id] == Decommissioning || prev[id] == Tombstone ==> next[id] == prev[id]
  {
    hide News, For;
    forall id ensures id in next <==> id in seen { assert CheckedAt(prev, seen, now, {}, next, pending, id); }
    forall id | id in seen ensures Some(next[id]) == After(StateAt(prev, id), Some(now - seen[id])) {
      assert CheckedAt(prev, seen, now, {}, next, pending, id);
    }
  }

  lemma {:induction false} ForConcat(a: seq<(string, NodeEvent)>, b: seq<(string, NodeEvent)>, id: string)
    ensures For(a + b, id) == For(a, id) + For(b, id)
  {
    if b == [] {
      assert a + b == a;
    } else {
      var k := |b| - 1;
      assert a + b == (a + b[..k]) + [b[k]];
      ForConcat(a, b[..k], id);
      ForNext(a + b[..k], b[k], id);
    }
  }
}
