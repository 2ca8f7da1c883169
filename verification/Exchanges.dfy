/** A body exchange on a connection: the first request carries the token the exchange was opened
    with, every later one a token drawn for it, while the other exchanges of the connection come
    and go. */
module Exchanges {
  import opened Base
  import opened Routes

  datatype SendError = NoRandom | Refused(cause: Error) | Unbound | Transport

  /** What the world does around one request: what others do on the connection before the token is
      drawn and before the request is sent, the token the generator yields, and the transport. */
  datatype Turn = Turn(before: seq<Op>, ctxDone: bool, draw: Option<Token>, between: seq<Op>, works: bool)

  /** The tokens of the requests so far. Each was routed nowhere on the connection when it was
      bound to the exchange; every earlier one still was. So no two are the same. */
  ghost predicate Drawn(own: Token, tokens: seq<Token>, routed: seq<set<Token>>) {
    && |tokens| == |routed|
    && (forall i :: 0 <= i < |tokens| ==> tokens[i] !in routed[i] && tokens[i] != [])
    && (forall i, j :: 0 <= i < j < |tokens| ==> tokens[i] in routed[j])
    && (forall i :: 0 <= i < |tokens| ==> (tokens[i] == own <==> i == 0))
  }

  /** What others do on the connection. Aliases are retired by the owner of a route only, and never
      while a body is under way. */
  method Others(c: Connection, ops: seq<Op>, route: RouteId)
    requires c.Valid() && c.process.retained <= MAX_RETAINED
    modifies c, c.process
    ensures c.Valid() && c.process.retained <= MAX_RETAINED && old(c.V()).Continues(c.V(), route)
  {
    hide View.Valid, View.Held;
    for i := 0 to |ops|
      invariant c.Valid() && c.process.retained <= MAX_RETAINED && old(c.V()).Continues(c.V(), route)
    {
      if ops[i] != Retire(route) {
        Happen(c, ops[i]);
      }
    }
  }

  class Exchange {
    const conn: Connection
    const route: RouteId
    const own: Token
    const atFirst: set<Token>       // routed when the exchange was opened
    var sentRequests: int
    var tokens: seq<Token>
    var routed: seq<set<Token>>

    ghost predicate Valid()
      reads this, conn, conn.process
    {
      && conn.Valid() && conn.process.retained <= MAX_RETAINED && sentRequests == |tokens|
      && own !in atFirst && own != [] && Drawn(own, tokens, routed) && (tokens != [] ==> routed[0] == atFirst)
      && Bound(conn.V())
    }

    /** While the route is open, all tokens used so far lead to it. */
    ghost predicate Bound(v: View)
      reads this
    {
      && route in v.home
      && (route in v.tokens ==> own in v.tokens[route] && forall i :: 0 <= i < |tokens| ==> tokens[i] in v.tokens[route])
    }

    constructor (conn: Connection, route: RouteId, own: Token, atFirst: set<Token>)
      requires conn.Valid() && conn.process.retained <= MAX_RETAINED && own != [] && own !in atFirst
      requires route in conn.tokens && route in conn.home && own in conn.tokens[route]
      ensures Valid() && this.conn == conn && this.route == route && this.own == own && tokens == []
    {
      this.conn, this.route, this.own, this.atFirst := conn, route, own, atFirst;
      sentRequests, tokens, routed := 0, [], [];
    }

    /** One more token: the exchange's own at first, then one that nobody had. */
    lemma DrawnNext(token: Token, seen: set<Token>)
      requires own !in atFirst && own != [] && Drawn(own, tokens, routed) && (tokens != [] ==> routed[0] == atFirst)
      requires if tokens == [] then token == own && seen == atFirst
               else token !in seen && token != [] && forall i :: 0 <= i < |tokens| ==> tokens[i] in seen
      ensures Drawn(own, tokens + [token], routed + [seen])
    {
      if tokens != [] {
        assert tokens[0] == own;
      }
    }

    lemma ValidDraws()
      requires Valid()
      ensures Drawn(own, tokens, routed)
    {
    }

    lemma AllRouted()
      requires conn.Valid() && Bound(conn.V())
      ensures route in conn.tokens ==> forall i :: 0 <= i < |tokens| ==> tokens[i] in conn.routes
    {
    }

    lemma BoundLater(v: View, later: View)
      requires Bound(v) && v.Continues(later, route)
      ensures Bound(later)
    {
    }

    /** Sends one request: with the exchange's own token the first time, a new one ever after. It is
        let through only if its token leads to this exchange when that is looked up; the write
        itself comes after the look-up. */
    method Request(turn: Turn) returns (err: Option<SendError>)
      requires Valid()
      modifies this, conn, conn.process
      ensures Valid()
      ensures old(tokens) <= tokens && old(|tokens|) <= |tokens| <= old(|tokens|) + 1
      ensures err.None? ==> |tokens| == old(|tokens|) + 1
      ensures err.None? ==> route in conn.tokens && tokens[|tokens| - 1] in conn.tokens[route]
    {
      hide View.Valid, View.Held, View.Continues, Drawn;
      ghost var v := conn.V();
      Others(conn, turn.before, route);
      BoundLater(v, conn.V());
      var token, seen := own, atFirst;
      if sentRequests > 0 {
        if turn.draw.None? {
          return Some(NoRandom);
        }
        AllRouted();
        seen := conn.routes.Keys;
        var refused := conn.NewToken(route, turn.ctxDone, turn.draw.value);
        if refused.Some? {
          return Some(Refused(refused.value));
        }
        token := turn.draw.value;
      }
      DrawnNext(token, seen);
      sentRequests, tokens, routed := sentRequests + 1, tokens + [token], routed + [seen];
      v := conn.V();
      Others(conn, turn.between, route);
      BoundLater(v, conn.V());
      if !(token in conn.routes && conn.routes[token] == route) {
        return Some(Unbound);
      }
      conn.V().Owner(token, route);
      if !turn.works {
        return Some(Transport);
      }
      return None;
    }
  }

  /** The connection as earlier exchanges have left it, and an exchange opened on it. */
  method OpenExchange(history: seq<Op>, ctxDone: bool, token: Token) returns (r: Option<Exchange>)
    ensures r.Some? ==> fresh(r.value) && fresh(r.value.conn) && fresh(r.value.conn.process)
    ensures r.Some? ==> r.value.Valid() && r.value.own == token && r.value.tokens == []
  {
    hide View.Valid, View.Held;
    var process := new Process();
    var conn := new Connection(process);
    for i := 0 to |history|
      invariant fresh(conn) && fresh(process) && conn.process == process
      invariant conn.Valid() && process.retained <= MAX_RETAINED
    {
      Happen(conn, history[i]);
    }
    var atFirst := conn.routes.Keys;
    var route := conn.Open(ctxDone, token);
    if route.Err? {
      return None;
    }
    var exchange := new Exchange(conn, route.value, token, atFirst);
    return Some(exchange);
  }

  /** Any requests of any exchange, one after the other, whatever else happens on the connection: the
      first carries the exchange's own token, every later one a token that was routed nowhere when it
      was drawn, and no two the same. */
  method Converse(history: seq<Op>, ctxDone: bool, token: Token, turns: seq<Turn>)
    returns (tokens: seq<Token>, routed: seq<set<Token>>, outcomes: seq<Option<SendError>>)
    ensures Drawn(token, tokens, routed) && |tokens| <= |turns|
    ensures outcomes == [] || |outcomes| == |turns|
    ensures (forall i :: 0 <= i < |outcomes| ==> outcomes[i].None?) ==> |tokens| == |outcomes|
  {
    hide Exchange.Valid, Drawn;
    NoneDrawn(token);
    var exchange := OpenExchange(history, ctxDone, token);
    if exchange.None? {
      return [], [], [];
    }
    outcomes := [];
    for i := 0 to |turns|
      invariant fresh(exchange.value) && fresh(exchange.value.conn) && fresh(exchange.value.conn.process)
      invariant exchange.value.Valid() && exchange.value.own == token
      invariant |outcomes| == i && |exchange.value.tokens| <= i
      invariant (forall k :: 0 <= k < i ==> outcomes[k].None?) ==> |exchange.value.tokens| == i
    {
      var err := exchange.value.Request(turns[i]);
      assert (forall k :: 0 <= k < i + 1 ==> (outcomes + [err])[k].None?) ==>
             err.None? && forall k :: 0 <= k < i ==> outcomes[k].None? by {
        assert (outcomes + [err])[i] == err;
        assert forall k :: 0 <= k < i ==> (outcomes + [err])[k] == outcomes[k];
      }
      outcomes := outcomes + [err];
    }
    exchange.value.ValidDraws();
    return exchange.value.tokens, exchange.value.routed, outcomes;
  }

  lemma NoneDrawn(token: Token)
    ensures Drawn(token, [], [])
  {
  }
}
