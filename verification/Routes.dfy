/** Token routing of Q-Block exchanges on a connection. An exchange owns the token it was opened
    with and every alias it has drawn since; all tokens, and the message IDs kept for
    notifications, are charged to one counter of the process. */
module Routes {
  import opened Base

  type Token = seq<byte>
  type RouteId = nat

  const MAX_RETAINED: int := 262144
  const MAX_ROUTES: int := 128
  const MAX_ALIASES: int := 131072
  const MAX_MIDS: int := 4096
  const EXCHANGE_LIFETIME: int := 247_000_000_000

  datatype Error = Canceled | EmptyToken | ActiveToken | Capacity

  datatype Mid = Mid(token: Token, expires: int)

  /** A response as far as remembering it matters. */
  datatype Notification = Notification(mid: int, token: Token, observe: bool, qBlock2: bool, success: bool, ack: bool)

  class Process {
    var retained: int

    constructor ()
      ensures retained == 0
    {
      retained := 0;
    }

    method Reserve() returns (ok: bool)
      modifies this
      ensures ok <==> old(retained) < MAX_RETAINED
      ensures retained == old(retained) + if ok then 1 else 0
    {
      ok := retained < MAX_RETAINED;
      if ok {
        retained := retained + 1;
      }
    }
  }

  /** What a connection holds. */
  datatype View = View(routes: map<Token, RouteId>, tokens: map<RouteId, set<Token>>, home: map<RouteId, Token>,
                       active: int, mids: map<int, Mid>, closed: bool)
  {
    /** Open routes own disjoint token sets, and the routing table is their union; each still has
        the token it was opened with. */
    ghost predicate Partition() {
      && (forall t, r :: r in tokens && t in tokens[r] ==> t in routes && routes[t] == r)
      && (forall t :: t in routes ==> routes[t] in tokens && t in tokens[routes[t]] && t != [])
      && (forall r :: r in tokens ==> r in home && home[r] in tokens[r])
    }

    ghost predicate Valid() {
      && Partition()
      && active == |tokens| <= MAX_ROUTES
      && (forall r :: r in tokens ==> |tokens[r]| <= MAX_ALIASES)
      && |mids| <= MAX_MIDS
    }

    /** Charged to the process: every routed token and every remembered message ID. */
    ghost function Held(): int {
      |routes| + |mids|
    }

    ghost function WithRoute(r: RouteId, token: Token): View {
      this.(routes := routes[token := r], tokens := tokens[r := {token}], home := home[r := token], active := active + 1)
    }

    ghost function WithAlias(r: RouteId, token: Token): View
      requires r in tokens
    {
      this.(routes := routes[token := r], tokens := tokens[r := tokens[r] + {token}])
    }

    ghost function WithoutRoute(r: RouteId): View {
      if r in tokens then this.(routes := routes - tokens[r], tokens := tokens - {r}, active := active - 1) else this
    }

    ghost function WithoutAliases(r: RouteId): View {
      if r in tokens && r in home
      then this.(routes := routes - (tokens[r] - {home[r]}), tokens := tokens[r := {home[r]}]) else this
    }

    lemma RouteKeeps(r: RouteId, token: Token)
      requires Valid() && token != [] && token !in routes && r !in tokens && active < MAX_ROUTES
      ensures WithRoute(r, token).Valid() && WithRoute(r, token).Held() == Held() + 1
    {
      hide Partition;
      RouteSplits(r, token);
      SizeAfter(routes, token, r);
      SizeAfter(tokens, r, {token});
    }

    lemma RouteSplits(r: RouteId, token: Token)
      requires Partition() && token != [] && token !in routes && r !in tokens
      ensures WithRoute(r, token).Partition()
    {
    }

    lemma AliasKeeps(r: RouteId, token: Token)
      requires Valid() && token != [] && token !in routes && r in tokens && |tokens[r]| < MAX_ALIASES
      ensures WithAlias(r, token).Valid() && WithAlias(r, token).Held() == Held() + 1
    {
      SizeAfter(routes, token, r);
      SizeAfter(tokens, r, tokens[r] + {token});
    }

    lemma CloseSplits(r: RouteId)
      requires Partition() && r in tokens
      ensures WithoutRoute(r).Partition() && tokens[r] <= routes.Keys
    {
      var v := WithoutRoute(r);
      forall t, s | s in v.tokens && t in v.tokens[s]
        ensures t in v.routes && v.routes[t] == s
      {
        assert t in routes && routes[t] == s;
      }
    }

    lemma CloseKeeps(r: RouteId)
      requires Valid() && r in tokens
      ensures WithoutRoute(r).Valid() && WithoutRoute(r).Held() == Held() - |tokens[r]|
    {
      hide Partition;
      CloseSplits(r);
      SizeWithout(routes, tokens[r]);
      SizeWithout(tokens, {r});
    }

    lemma RetireSplits(r: RouteId)
      requires Partition() && r in tokens
      ensures r in home && WithoutAliases(r).Partition() && tokens[r] - {home[r]} <= routes.Keys
    {
      var v := WithoutAliases(r);
      forall t, s | s in v.tokens && t in v.tokens[s]
        ensures t in v.routes && v.routes[t] == s
      {
        assert t in tokens[s] && t in routes && routes[t] == s;
      }
      forall t | t in v.routes
        ensures v.routes[t] in v.tokens && t in v.tokens[v.routes[t]] && t != []
      {
        assert t in routes && t in tokens[routes[t]];
      }
    }

    lemma RetireKeeps(r: RouteId)
      requires Valid() && r in tokens && r in home
      ensures WithoutAliases(r).Valid() && WithoutAliases(r).Held() == Held() - |tokens[r] - {home[r]}|
    {
      hide Partition;
      RetireSplits(r);
      SizeWithout(routes, tokens[r] - {home[r]});
      SizeAfter(tokens, r, {home[r]});
    }

    /** A later view of the same connection: a route it knew is closed for good or has kept its
        tokens. */
    ghost predicate Continues(later: View, r: RouteId) {
      r in home ==> r in later.home && later.home[r] == home[r]
                    && (r in later.tokens ==> r in tokens && tokens[r] <= later.tokens[r])
    }

    /** No step but the retiring of its aliases takes a token from a route that stays open. */
    lemma StepsContinue(r: RouteId, token: Token)
      requires Partition()
      ensures r !in home ==> forall q :: Continues(WithRoute(r, token), q)
      ensures r in tokens ==> forall q :: Continues(WithAlias(r, token), q)
      ensures forall q :: Continues(WithoutRoute(r), q)
      ensures forall q :: q != r ==> Continues(WithoutAliases(r), q)
    {
    }

    lemma SameContinue(later: View)
      requires later.home == home && (later.tokens == tokens || later.tokens == map[])
      ensures forall q :: Continues(later, q)
    {
    }

    /** Message IDs and routes do not touch each other. */
    lemma MidsKeep(m: map<int, Mid>, c: bool)
      requires Valid()
      ensures |mids| <= MAX_MIDS
      ensures |m| <= MAX_MIDS ==> this.(mids := m, closed := c).Valid()
      ensures this.(mids := m, closed := c).Held() == Held() + |m| - |mids|
    {
    }

    /** A token is routed exactly to the open route that owns it. */
    lemma Owner(token: Token, id: RouteId)
      requires Valid()
      ensures (token in routes && routes[token] == id) <==> (id in tokens && token in tokens[id])
    {
    }
  }

  class Connection {
    const process: Process
    var routes: map<Token, RouteId>
    var tokens: map<RouteId, set<Token>>   // of every open route
    var home: map<RouteId, Token>          // the token each exchange was opened with
    var active: int
    var mids: map<int, Mid>
    var closed: bool
    var nextRoute: RouteId

    function V(): View
      reads this
    {
      View(routes, tokens, home, active, mids, closed)
    }

    ghost predicate Valid()
      reads this
    {
      V().Valid() && forall r :: r in home ==> r < nextRoute
    }

    /** Whatever is taken or given back is counted. */
    twostate predicate Balanced()
      reads this, process
    {
      process.retained - V().Held() == old(process.retained) - old(V()).Held()
    }

    constructor (process: Process)
      ensures Valid() && this.process == process && V() == View(map[], map[], map[], 0, map[], false)
    {
      this.process := process;
      routes, tokens, home, active, mids, closed, nextRoute := map[], map[], map[], 0, map[], false, 0;
    }

    /** Opens an exchange under a token of its own. */
    method Open(ctxDone: bool, token: Token) returns (r: Result<RouteId, Error>)
      requires Valid() && process.retained <= MAX_RETAINED
      modifies this, process
      ensures Valid() && Balanced() && process.retained <= MAX_RETAINED
      ensures r.Ok? <==> !ctxDone && !old(closed) && token != [] && token !in old(routes)
                         && old(active) < MAX_ROUTES && old(process.retained) < MAX_RETAINED
      ensures r.Ok? ==> r.value !in old(home) && V() == old(V()).WithRoute(r.value, token)
      ensures r.Err? ==> V() == old(V())
    {
      hide View.Valid, View.Held, View.Partition, View.Continues;
      if ctxDone {
        return Err(Canceled);
      }
      if |token| == 0 {
        return Err(EmptyToken);
      }
      if closed {
        return Err(Canceled);
      }
      if token in routes || active >= MAX_ROUTES {
        return Err(ActiveToken);
      }
      var ok := process.Reserve();
      if !ok {
        return Err(Capacity);
      }
      OpenIsHome(nextRoute);
      V().RouteKeeps(nextRoute, token);
      routes, tokens, home := routes[token := nextRoute], tokens[nextRoute := {token}], home[nextRoute := token];
      active, nextRoute := active + 1, nextRoute + 1;
      return Ok(nextRoute - 1);
    }

    lemma Parted()
      requires Valid()
      ensures V().Partition()
    {
    }

    lemma OpenIsHome(r: RouteId)
      requires Valid() && r !in home
      ensures r !in tokens
    {
    }

    /** Draws an alias: never a token that is routed already. */
    method NewToken(r: RouteId, ctxDone: bool, token: Token) returns (err: Option<Error>)
      requires Valid() && process.retained <= MAX_RETAINED
      modifies this, process
      ensures Valid() && Balanced() && process.retained <= MAX_RETAINED
      ensures err.None? <==> token != [] && r in old(tokens) && !old(closed) && !ctxDone && token !in old(routes)
                             && |old(tokens)[r]| < MAX_ALIASES && old(process.retained) < MAX_RETAINED
      ensures err.None? ==> V() == old(V()).WithAlias(r, token)
      ensures err.Some? ==> V() == old(V())
    {
      hide View.Valid, View.Held;
      if |token| == 0 {
        return Some(EmptyToken);
      }
      if r !in tokens || closed || ctxDone {
        return Some(Canceled);
      }
      if token in routes {
        return Some(ActiveToken);
      }
      if |tokens[r]| >= MAX_ALIASES {
        return Some(Capacity);
      }
      var ok := process.Reserve();
      if !ok {
        return Some(Capacity);
      }
      V().AliasKeeps(r, token);
      routes, tokens := routes[token := r], tokens[r := tokens[r] + {token}];
      return None;
    }

    /** The one route a response with this token belongs to, if any. */
    function RouteOf(token: Token): (r: Option<RouteId>)
      requires Valid()
      reads this
      ensures forall id :: r == Some(id) <==> id in tokens && token in tokens[id]
    {
      if token in routes then Some(routes[token]) else None
    }

    /** Closes an exchange: all its tokens stop routing, and it counts no longer. */
    method CloseRoute(r: RouteId)
      requires Valid()
      modifies this, process
      ensures Valid() && Balanced() && process.retained <= old(process.retained)
      ensures V() == old(V()).WithoutRoute(r)
    {
      hide View.Valid, View.Held;
      if r !in tokens {
        return;
      }
      V().CloseKeeps(r);
      var own := tokens[r];
      RemoveTokens(own);
      process.retained := process.retained - |own|;
      tokens := tokens - {r};
      active := active - 1;
    }

    /** The loop over a route's tokens. */
    method RemoveTokens(own: set<Token>)
      modifies this`routes
      ensures routes == old(routes) - own
    {
      var rest := own;
      while rest != {}
        invariant rest <= own && routes == old(routes) - (own - rest)
        decreases |rest|
      {
        var t :| t in rest;
        routes := routes - {t};
        rest := rest - {t};
        assert own - rest == (own - (rest + {t})) + {t};
      }
      assert own - rest == own;
    }

    /** Gives up every alias; only the token the exchange was opened with stays. */
    method RetireAliases(r: RouteId)
      requires Valid()
      modifies this, process
      ensures Valid() && Balanced() && process.retained <= old(process.retained)
      ensures V() == old(V()).WithoutAliases(r)
    {
      hide View.Valid, View.Held;
      if r !in tokens {
        return;
      }
      HomeOf(r);
      V().RetireKeeps(r);
      var aliases := tokens[r] - {home[r]};
      RemoveTokens(aliases);
      process.retained := process.retained - |aliases|;
      tokens := tokens[r := {home[r]}];
    }

    lemma HomeOf(r: RouteId)
      requires Valid() && r in tokens
      ensures r in home && home[r] in tokens[r]
    {
    }

    /** Forgets the message IDs that meet a condition, and no others. */
    method Purge(doomed: Mid -> bool)
      requires Valid()
      modifies this`mids, process
      ensures Valid() && Balanced() && process.retained <= old(process.retained)
      ensures V() == old(V()).(mids := map m | m in old(mids) && !doomed(old(mids)[m]) :: old(mids)[m])
    {
      hide View.Valid, View.Held, Spared;
      ghost var before := V();
      before.MidsKeep(mids, closed);
      SparedNothing(mids, doomed);
      var rest := mids.Keys;
      while rest != {}
        invariant rest <= mids.Keys && |mids| <= |old(mids)|
        invariant Spared(old(mids), mids, rest, doomed)
        invariant process.retained - |mids| == old(process.retained) - |old(mids)|
        decreases |rest|
      {
        NonEmptyInt(rest);
        var m :| m in rest;
        SparedNext(old(mids), mids, rest, doomed, m);
        if doomed(mids[m]) {
          SizeWithout(mids, {m});
          mids := mids - {m};
          process.retained := process.retained - 1;
        }
        rest := rest - {m};
      }
      before.MidsKeep(mids, closed);
      SparedAll(old(mids), mids, doomed);
    }

    method Release(mid: int)
      requires Valid() && mid in mids
      modifies this`mids, process
      ensures Valid() && Balanced() && process.retained == old(process.retained) - 1
      ensures V() == old(V()).(mids := old(mids) - {mid})
    {
      hide View.Valid, View.Held;
      V().MidsKeep(mids - {mid}, closed);
      SizeWithout(mids, {mid});
      mids := mids - {mid};
      process.retained := process.retained - 1;
    }

    method Keep(mid: int, entry: Mid) returns (err: Option<Error>)
      requires Valid() && mid !in mids && |mids| < MAX_MIDS && process.retained <= MAX_RETAINED
      modifies this`mids, process
      ensures Valid() && Balanced() && process.retained <= MAX_RETAINED
      ensures err.None? <==> old(process.retained) < MAX_RETAINED
      ensures V() == if err.None? then old(V()).(mids := old(mids)[mid := entry]) else old(V())
    {
      hide View.Valid, View.Held;
      var ok := process.Reserve();
      if !ok {
        return Some(Capacity);
      }
      SizeAfter(mids, mid, entry);
      V().MidsKeep(mids[mid := entry], closed);
      mids := mids[mid := entry];
      return None;
    }

    /** Remembers the message ID of a notification so that a reset can be matched to it. A reused
        ID replaces what it meant before; expired IDs make room. */
    method Remember(n: Notification, now: int) returns (err: Option<Error>)
      requires Valid() && process.retained <= MAX_RETAINED
      modifies this, process
      ensures Valid() && Balanced() && process.retained <= MAX_RETAINED
      ensures V() == old(V()).(mids := mids) && (old(closed) ==> mids == old(mids) && err.Some?)
      ensures forall m :: m in mids && m != n.mid ==> m in old(mids) && mids[m] == old(mids)[m]
      ensures forall m :: m in old(mids) && m !in mids && m != n.mid ==> old(mids)[m].expires <= now
      ensures !old(closed) ==> (n.mid in mids <==> err.None? && n.observe && n.qBlock2 && n.success && !n.ack)
      ensures n.mid in mids && !old(closed) ==> mids[n.mid] == Mid(n.token, now + EXCHANGE_LIFETIME)
    {
      hide View.Valid, View.Held;
      if closed {
        return Some(Canceled);
      }
      if n.mid in mids {
        Release(n.mid);
      }
      if !n.observe || !n.qBlock2 || !n.success || n.ack {
        return None;
      }
      if |mids| >= MAX_MIDS {
        Purge((m: Mid) => m.expires <= now);
      }
      if |mids| >= MAX_MIDS {
        return Some(Capacity);
      }
      err := Keep(n.mid, Mid(n.token, now + EXCHANGE_LIFETIME));
    }

    /** An acknowledgement or reset uses up the ID; a timely reset ends the observation and
        forgets all its other IDs. */
    method Acknowledge(mid: int, reset: bool, now: int) returns (canceled: Option<Token>)
      requires Valid()
      modifies this, process
      ensures Valid() && Balanced() && process.retained <= old(process.retained)
      ensures V() == old(V()).(mids := mids) && mid !in mids
      ensures canceled == if reset && mid in old(mids) && old(mids)[mid].expires > now then Some(old(mids)[mid].token) else None
      ensures forall m :: m in mids <==> m in old(mids) && m != mid && Some(old(mids)[m].token) != canceled
      ensures forall m :: m in mids ==> mids[m] == old(mids)[m]
    {
      hide View.Valid, View.Held;
      if mid !in mids {
        return None;
      }
      var entry := mids[mid];
      Release(mid);
      if reset && entry.expires > now {
        Purge((m: Mid) => m.token == entry.token);
        return Some(entry.token);
      }
      return None;
    }

    /** Closing the connection: nothing is routed, remembered or counted any more. */
    method CloseAll()
      requires Valid()
      modifies this, process
      ensures Valid() && Balanced() && process.retained <= old(process.retained) && closed
      ensures routes == map[] && tokens == map[] && mids == map[] && active == 0 && V().Held() == 0 && home == old(home)
    {
      hide View.Held, View.Valid;
      V().MidsKeep(mids, true);
      closed := true;
      DropMids();
      var open := routes.Values;
      EveryRouteIsFound();
      while open != {}
        invariant Valid() && Balanced() && process.retained <= old(process.retained) && closed && mids == map[]
        invariant tokens.Keys <= open && home == old(home)
        decreases |open|
      {
        var r :| r in open;
        CloseRoute(r);
        open := open - {r};
      }
      NothingLeft();
    }

    method DropMids()
      requires Valid()
      modifies this`mids, process
      ensures Valid() && Balanced() && V() == old(V()).(mids := map[]) && process.retained <= old(process.retained)
    {
      hide View.Held, View.Valid;
      V().MidsKeep(map[], closed);
      process.retained := process.retained - |mids|;
      mids := map[];
    }

    lemma EveryRouteIsFound()
      requires Valid()
      ensures tokens.Keys <= routes.Values
    {
      forall r | r in tokens
        ensures r in routes.Values
      {
        HomeOf(r);
        assert home[r] in routes.Keys;
      }
    }

    lemma NothingLeft()
      requires Valid() && tokens.Keys <= {} && mids == map[]
      ensures routes == map[] && tokens == map[] && active == 0 && V().Held() == 0
    {
      assert tokens == map[];
      assert forall t :: t !in routes;
    }
  }

  /** What a purge has left of the message IDs when those in `rest` are still to be looked at. */
  ghost predicate Spared(before: map<int, Mid>, after: map<int, Mid>, rest: set<int>, doomed: Mid -> bool) {
    && (forall m :: m in after <==> m in before && (m in rest || !doomed(before[m])))
    && forall m :: m in after ==> after[m] == before[m]
  }

  lemma SparedNothing(mids: map<int, Mid>, doomed: Mid -> bool)
    ensures Spared(mids, mids, mids.Keys, doomed)
  {
  }

  lemma SparedNext(before: map<int, Mid>, after: map<int, Mid>, rest: set<int>, doomed: Mid -> bool, m: int)
    requires Spared(before, after, rest, doomed) && m in rest && m in after
    ensures Spared(before, if doomed(after[m]) then after - {m} else after, rest - {m}, doomed)
  {
  }

  lemma SparedAll(before: map<int, Mid>, after: map<int, Mid>, doomed: Mid -> bool)
    requires Spared(before, after, {}, doomed)
    ensures after == map m | m in before && !doomed(before[m]) :: before[m]
  {
    var spared := map m | m in before && !doomed(before[m]) :: before[m];
    assert forall m :: m in after <==> m in spared;
    assert forall m :: m in after ==> after[m] == spared[m];
  }

  // ---------------------------------------------------------------- whole runs

  /** What may happen to one of the connections of the process. */
  datatype Op =
    | OpenIt(ctxDone: bool, token: Token)
    | Alias(r: RouteId, ctxDone: bool, token: Token)
    | CloseIt(r: RouteId)
    | Retire(r: RouteId)
    | RememberIt(n: Notification, now: int)
    | Forget(token: Token)
    | Ack(mid: int, reset: bool, now: int)
    | Shut

  ghost function TotalHeld(views: seq<View>): int {
    if views == [] then 0 else TotalHeld(views[..|views| - 1]) + views[|views| - 1].Held()
  }

  lemma {:induction false} TotalHeldAfter(views: seq<View>, i: nat, v: View)
    requires i < |views|
    ensures TotalHeld(views[i := v]) == TotalHeld(views) - views[i].Held() + v.Held()
  {
    var last := |views| - 1;
    if i < last {
      TotalHeldAfter(views[..last], i, v);
      assert views[i := v][..last] == views[..last][i := v];
    } else {
      assert views[i := v][..last] == views[..last];
    }
  }

  method Happen(c: Connection, op: Op)
    requires c.Valid() && c.process.retained <= MAX_RETAINED
    modifies c, c.process
    ensures c.Valid() && c.Balanced() && c.process.retained <= MAX_RETAINED
    ensures op.Shut? ==> c.V().closed && c.V().Held() == 0
    ensures forall r :: op != Retire(r) ==> old(c.V()).Continues(c.V(), r)
    ensures old(c.V()).closed ==> c.V().closed && (old(c.V()).Held() == 0 ==> c.V().Held() == 0)
  {
    hide View.Valid, View.WithRoute, View.WithAlias, View.Continues;
    ghost var v := c.V();
    c.Parted();
    v.SameContinue(v);
    match op {
      case OpenIt(ctxDone, token) =>
        var route := c.Open(ctxDone, token);
        if route.Ok? {
          v.StepsContinue(route.value, token);
        }
      case Alias(r, ctxDone, token) =>
        v.StepsContinue(r, token);
        var _ := c.NewToken(r, ctxDone, token);
      case CloseIt(r) =>
        v.StepsContinue(r, []);
        c.CloseRoute(r);
      case Retire(r) =>
        v.StepsContinue(r, []);
        c.RetireAliases(r);
      case RememberIt(n, now) => var _ := c.Remember(n, now);
      case Forget(token) => c.Purge((m: Mid) => m.token == token);
      case Ack(mid, reset, now) => var _ := c.Acknowledge(mid, reset, now);
      case Shut => c.CloseAll();
    }
    if op.RememberIt? || op.Forget? || op.Ack? || op.Shut? {
      v.SameContinue(c.V());
    }
  }

  const NO_ROUTES := View(map[], map[], map[], 0, map[], false)

  method Connections(process: Process, n: nat) returns (conns: seq<Connection>)
    ensures |conns| == n
    ensures forall k :: 0 <= k < n ==> fresh(conns[k]) && conns[k].process == process && conns[k].Valid()
    ensures forall k :: 0 <= k < n ==> conns[k].V() == NO_ROUTES
    ensures forall j, k :: 0 <= j < k < n ==> conns[j] != conns[k]
  {
    hide View.Valid;
    conns := [];
    for i := 0 to n
      invariant |conns| == i
      invariant forall k :: 0 <= k < i ==> fresh(conns[k]) && conns[k].process == process && conns[k].Valid()
      invariant forall k :: 0 <= k < i ==> conns[k].V() == NO_ROUTES
      invariant forall j, k :: 0 <= j < k < i ==> conns[j] != conns[k]
    {
      var c := new Connection(process);
      conns := conns + [c];
    }
  }

  lemma {:induction false} NothingHeld(n: nat)
    ensures TotalHeld(seq(n, _ => NO_ROUTES)) == 0
  {
    if n > 0 {
      NothingHeld(n - 1);
      var views := seq(n, _ => NO_ROUTES);
      assert views[..n - 1] == seq(n - 1, _ => NO_ROUTES);
      EmptyHolds(NO_ROUTES);
    }
  }

  /** Every run of any number of connections: open routes own disjoint tokens, the counters are the
      true counts and keep their limits, and a connection once closed holds nothing. */
  method Run(n: nat, ops: seq<(nat, Op)>) returns (views: seq<View>, retained: int)
    requires forall k :: 0 <= k < |ops| ==> ops[k].0 < n
    ensures |views| == n && forall i :: 0 <= i < n ==> views[i].Valid()
    ensures retained == TotalHeld(views) <= MAX_RETAINED
    ensures forall k :: 0 <= k < |ops| && ops[k].1.Shut? ==> views[ops[k].0].Held() == 0
  {
    hide View.Valid, View.Held, Connection.V;
    var process := new Process();
    var conns := Connections(process, n);
    views := seq(n, _ => NO_ROUTES);
    NothingHeld(n);
    for i := 0 to |ops|
      invariant |views| == n && fresh(process) && forall k :: 0 <= k < |conns| ==> fresh(conns[k])
      invariant Together(process, conns, views)
      invariant forall k :: 0 <= k < i && ops[k].1.Shut? ==> views[ops[k].0].closed && views[ops[k].0].Held() == 0
    {
      views := Affect(process, conns, views, ops[i].0, ops[i].1);
    }
    return views, process.retained;
  }

  /** Connections of one process, with what each of them holds. */
  ghost predicate Together(process: Process, conns: seq<Connection>, views: seq<View>)
    reads process, conns
  {
    && |conns| == |views| && process.retained == TotalHeld(views) <= MAX_RETAINED
    && (forall k :: 0 <= k < |conns| ==> conns[k].process == process && conns[k].Valid() && conns[k].V() == views[k])
    && (forall k :: 0 <= k < |views| ==> views[k].Valid())
    && (forall j, k :: 0 <= j < k < |conns| ==> conns[j] != conns[k])
  }

  /** Something happens to one of them. */
  method Affect(process: Process, conns: seq<Connection>, views: seq<View>, i: nat, op: Op) returns (after: seq<View>)
    requires Together(process, conns, views) && i < |conns|
    modifies process, conns[i]
    ensures Together(process, conns, after) && |after| == |views|
    ensures forall k :: 0 <= k < |views| && k != i ==> after[k] == views[k]
    ensures op.Shut? || (views[i].closed && views[i].Held() == 0) ==> after[i].closed && after[i].Held() == 0
  {
    hide View.Valid, View.Held, TotalHeld, View.Continues;
    var c := conns[i];
    Happen(c, op);
    TotalHeldAfter(views, i, c.V());
    after := views[i := c.V()];
  }

  lemma EmptyHolds(v: View)
    requires v.routes == map[] && v.mids == map[]
    ensures v.Held() == 0
  {
  }

  lemma SizeAfter<K, V>(m: map<K, V>, k: K, v: V)
    ensures |m[k := v]| == |m| + if k in m then 0 else 1
  {
    assert m[k := v].Keys == m.Keys + {k};
  }

  lemma SizeWithout<K, V>(m: map<K, V>, ks: set<K>)
    requires ks <= m.Keys
    ensures |m - ks| == |m| - |ks|
  {
    assert (m - ks).Keys == m.Keys - ks;
  }
}
