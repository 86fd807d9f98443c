/** How a client connects, follows redirects, reconnects and names itself to zippers (core/client.go). */
module Client {
  import opened Common

  const UINT_LIMIT := 0x1_0000_0000_0000_0000

  // ---------------------------------------------------------------- decimal numerals and handshake IDs

  function Digit(d: nat): (c: char)
    requires d < 10
  {
    ['0', '1', '2', '3', '4', '5', '6', '7', '8', '9'][d]
  }

  /** fmt's %d of an unsigned number. */
  function Decimal(n: nat): (s: string)
    ensures s != [] && '-' !in s
    ensures n < 10 <==> |s| == 1
  {
    if n < 10 then [Digit(n)] else Decimal(n / 10) + [Digit(n % 10)]
  }

  lemma {:induction false} DecimalIsInjective(a: nat, b: nat)
    requires Decimal(a) == Decimal(b)
    ensures a == b
  {
    var s := Decimal(a);
    if a < 10 || b < 10 {
      assert s == [Digit(a)] && s == [Digit(b)];
    } else {
      var x, y := Decimal(a / 10), Decimal(b / 10);
      assert s == x + [Digit(a % 10)] && s == y + [Digit(b % 10)];
      assert s[..|s| - 1] == x && s[..|s| - 1] == y && s[|s| - 1] == Digit(a % 10) && s[|s| - 1] == Digit(b % 10);
      DecimalIsInjective(a / 10, b / 10);
    }
  }

  function DigitValue(c: char): (v: int) {
    c as int - '0' as int
  }

  /** The number that a sequence of digits denotes. */
  function Denoted(s: string): (n: int) {
    if s == [] then 0 else 10 * Denoted(s[..|s| - 1]) + DigitValue(s[|s| - 1])
  }

  /** The numeral consists of digits, denotes the number, and has no leading zero. */
  lemma {:induction false} DecimalDenotes(n: nat)
    ensures forall c :: c in Decimal(n) ==> '0' <= c <= '9'
    ensures Denoted(Decimal(n)) == n
    ensures n > 0 ==> Decimal(n)[0] != '0'
  {
    var s := Decimal(n);
    if n < 10 {
      assert s == [Digit(n)] && s[..0] == [];
      assert Denoted(s[..0]) == 0;
    } else {
      DecimalDenotes(n / 10);
      assert s[..|s| - 1] == Decimal(n / 10) && s[|s| - 1] == Digit(n % 10);
    }
  }

  /** The ID a client sends in its handshake. */
  function HandshakeId(base: string, counter: nat): (id: string) {
    base + "-" + Decimal(counter)
  }

  /**
   The last dash is the one before the counter, whatever dashes the base has: an ID names its client and its number.
   */
  lemma HandshakeIdIsInjective(base1: string, n1: nat, base2: string, n2: nat)
    requires HandshakeId(base1, n1) == HandshakeId(base2, n2)
    ensures base1 == base2 && n1 == n2
  {
    var id := HandshakeId(base1, n1);
    if |base1| < |base2| {
      NoDashAfter(base1, n1, |base2|);
    } else if |base2| < |base1| {
      NoDashAfter(base2, n2, |base1|);
    }
    assert id[..|base1|] == base1 && id[..|base1|] == base2;
    assert id[|base1| + 1..] == Decimal(n1) && id[|base1| + 1..] == Decimal(n2);
    DecimalIsInjective(n1, n2);
  }

  lemma NoDashAfter(base: string, n: nat, k: nat)
    requires |base| < k < |HandshakeId(base, n)|
    ensures HandshakeId(base, n)[k] != '-'
  {
    assert HandshakeId(base, n)[k] == Decimal(n)[k - |base| - 1];
  }

  // ---------------------------------------------------------------- what the outside world does

  /**
   How one attempt ends: the dial fails; something goes wrong after it (the function definition, the write, the read);
   or the zipper answers with an acknowledgement, a rejection, a redirect or a frame that has no place here.
   */
  datatype Outcome =
    | DialFailed
    | Broken
    | Acked
    | RejectedByZipper
    | RedirectedTo(endpoint: string)
    | Unexpected

  /** How serving a connection ends: it was closed, or it was lost in another way. */
  datatype Served = Closed | Lost

  /** The world's part in one attempt; `cancelled` when the client's context is done as the result is handled. */
  datatype Turn = Turn(outcome: Outcome, cancelled: bool, served: Served)

  datatype ConnectError = Rejected | ConnectTo(endpoint: string) | OtherError

  /** What a zipper or the network sees of one attempt; the ID exists only once the dial has succeeded. */
  datatype Attempt = Attempt(addr: string, id: Option<string>)

  // ---------------------------------------------------------------- reference description of a run

  /** Who connects, from which state, in which world. */
  datatype World = World(base: string, reconnect: bool, addr: string, counter: nat, turns: seq<Turn>)

  /** The endpoint of the latest redirect before attempt `n`, or the initial address. */
  function Latest(w: World, n: nat): (a: string)
    requires n <= |w.turns|
  {
    if n == 0 then w.addr
    else if w.turns[n - 1].outcome.RedirectedTo? then w.turns[n - 1].outcome.endpoint
    else Latest(w, n - 1)
  }

  /** The number of IDs handed out before attempt `n`. */
  function Draws(w: World, n: nat): (d: nat)
    requires n <= |w.turns|
    ensures d <= n
  {
    if n == 0 then 0 else Draws(w, n - 1) + if w.turns[n - 1].outcome.DialFailed? then 0 else 1
  }

  predicate ConnectedBefore(w: World, n: nat)
    requires n <= |w.turns|
  {
    n > 0 && (w.turns[n - 1].outcome.Acked? || ConnectedBefore(w, n - 1))
  }

  /**
   When another attempt follows attempt `i`: never after a rejection or an unexpected reply; after an acknowledgement
   once the connection is lost; after a redirect unless cancelled; after any other failure unless cancelled, and only
   with the reconnect option or if the client has been connected before.
   */
  predicate GoesOn(w: World, i: nat)
    requires i < |w.turns|
  {
    var t := w.turns[i];
    match t.outcome
    case RejectedByZipper => false
    case Unexpected => false
    case Acked => t.served.Lost?
    case RedirectedTo(_) => !t.cancelled
    case _ => !t.cancelled && (w.reconnect || ConnectedBefore(w, i))
  }

  predicate WentOn(w: World, n: nat)
    requires n <= |w.turns|
  {
    n == 0 || (GoesOn(w, n - 1) && WentOn(w, n - 1))
  }

  /** The number in the ID of attempt `i`. */
  function Number(w: World, i: nat): (c: nat)
    requires i <= |w.turns|
  {
    (w.counter + Draws(w, i)) % UINT_LIMIT
  }

  /** What attempt `i` looks like from outside. */
  function AttemptAt(w: World, i: nat): (a: Attempt)
    requires i < |w.turns|
  {
    Attempt(Latest(w, i), if w.turns[i].outcome.DialFailed? then None else Some(HandshakeId(w.base, Number(w, i))))
  }

  /** The first `n` attempts. */
  function Seen(w: World, n: nat): (s: seq<Attempt>)
    requires n <= |w.turns|
    ensures |s| == n
  {
    if n == 0 then [] else Seen(w, n - 1) + [AttemptAt(w, n - 1)]
  }

  lemma {:induction false} SeenAt(w: World, n: nat, i: nat)
    requires i < n <= |w.turns|
    ensures Seen(w, n)[i] == AttemptAt(w, i)
  {
    if i < n - 1 {
      SeenAt(w, n - 1, i);
    }
  }

  /**
   A run of `attempts` in a world: they are the first ones described above; each but the last let the run go on; and
   if the world had more in store, the last did not.
   */
  ghost predicate IsRun(w: World, attempts: seq<Attempt>) {
    var n := |attempts|;
    && n <= |w.turns| && attempts == Seen(w, n)
    && (n > 0 ==> WentOn(w, n - 1))
    && (n < |w.turns| ==> n > 0 && !GoesOn(w, n - 1))
  }

  // ---------------------------------------------------------------- the client

  class Client {
    const clientID: string
    const reconnect: bool
    var zipperAddr: string
    var reconnCounter: nat
    ghost var attempts: seq<Attempt>

    constructor (base: string, addr: string, reconnect: bool)
      ensures zipperAddr == addr && clientID == base && this.reconnect == reconnect
      ensures reconnCounter == 0 && attempts == []
    {
      clientID, zipperAddr, this.reconnect, reconnCounter, attempts := base, addr, reconnect, 0, [];
    }

    /** connect: the counter moves only when the dial succeeded, and wraps at the width of uint. */
    method TryConnect(o: Outcome) returns (err: Option<ConnectError>)
      requires reconnCounter < UINT_LIMIT
      modifies this`reconnCounter, this`attempts
      ensures reconnCounter == if o.DialFailed? then old(reconnCounter) else Successor(old(reconnCounter))
      ensures
        var id := if o.DialFailed? then None else Some(clientID + "-" + Decimal(old(reconnCounter)));
        attempts == old(attempts) + [Attempt(zipperAddr, id)]
      ensures err.None? <==> o.Acked?
      ensures err == Some(Rejected) <==> o.RejectedByZipper? || o.Unexpected?
      ensures err.Some? && err.value.ConnectTo? <==> o.RedirectedTo?
      ensures o.RedirectedTo? ==> err == Some(ConnectTo(o.endpoint))
    {
      if o.DialFailed? {
        attempts := attempts + [Attempt(zipperAddr, None)];
        return Some(OtherError);
      }
      var id := HandshakeId(clientID, reconnCounter);
      reconnCounter := Successor(reconnCounter);
      attempts := attempts + [Attempt(zipperAddr, Some(id))];
      match o {
        case Acked => err := None;
        case RejectedByZipper => err := Some(Rejected);
        case RedirectedTo(endpoint) => err := Some(ConnectTo(endpoint));
        case Unexpected => err := Some(Rejected);
        case Broken => err := Some(OtherError);
      }
    }

    /** handleConnectResult, its decisions in order. */
    method HandleConnectResult(err: Option<ConnectError>, alwaysReconnect: bool, cancelled: bool)
      returns (again: bool, failure: Option<ConnectError>)
      modifies this`zipperAddr
      ensures again <==> !cancelled && err.Some? && (err.value.ConnectTo? || (err.value.OtherError? && alwaysReconnect))
      ensures failure == if again then None else err
      ensures zipperAddr == if again && err.value.ConnectTo? then err.value.endpoint else old(zipperAddr)
    {
      if cancelled {
        return false, err;
      }
      if err.None? {
        return false, None;
      }
      if err.value.Rejected? {
        return false, err;
      }
      if err.value.ConnectTo? {
        zipperAddr := err.value.endpoint;
        return true, None;
      }
      if alwaysReconnect {
        return true, None;
      }
      return false, err;
    }

    /** After `n` attempts in world `w`. */
    ghost predicate After(w: World, n: nat)
      reads this
    {
      && w.base == clientID && w.reconnect == reconnect
      && n <= |w.turns| && attempts == Seen(w, n)
      && reconnCounter == Number(w, n)
    }

    /** About to make attempt `n`. */
    ghost predicate Ready(w: World, n: nat)
      reads this
    {
      After(w, n) && zipperAddr == Latest(w, n) && WentOn(w, n)
    }

    /** One attempt and the handling of its result, as both loops do it. */
    method TakeTurn(ghost w: World, ghost n: nat, t: Turn, alwaysReconnect: bool)
        returns (again: bool, failure: Option<ConnectError>)
      requires n < |w.turns| && t == w.turns[n] && Ready(w, n)
      requires alwaysReconnect <==> reconnect || ConnectedBefore(w, n)
      modifies this
      ensures After(w, n + 1) && WentOn(w, n)
      ensures again ==> Ready(w, n + 1) && !t.outcome.Acked?
      ensures failure.None? <==> again || t.outcome.Acked?
      ensures failure.Some? || (!again && t.served.Closed?) ==> !GoesOn(w, n)
      ensures !again && failure.None? ==> zipperAddr == Latest(w, n + 1)
      ensures failure.None? && t.served.Lost? ==> Ready(w, n + 1)
    {
      Increment(w.counter + Draws(w, n));
      var err := TryConnect(t.outcome);
      again, failure := HandleConnectResult(err, alwaysReconnect, t.cancelled);
    }

    /**
     Connect: the loop up to the first connection, whose serving is then left to the background, or to the first
     failure.
     */
    method Connect(ghost w: World, turns: seq<Turn>) returns (n: nat, connected: bool, failure: Option<ConnectError>)
      requires turns == w.turns && Ready(w, 0)
      modifies this
      ensures After(w, n) && (n > 0 ==> WentOn(w, n - 1))
      ensures n > 0 ==> !ConnectedBefore(w, n - 1)
      ensures connected ==> n > 0 && turns[n - 1].outcome.Acked? && zipperAddr == Latest(w, n)
      ensures failure.Some? ==> n > 0 && !turns[n - 1].outcome.Acked? && !GoesOn(w, n - 1)
      ensures !connected && failure.None? ==> n == |turns| && WentOn(w, n)
      ensures connected ==> failure.None?
    {
      connected, failure := false, None;
      n := 0;
      while n < |turns|
        invariant n <= |turns| && Ready(w, n) && !ConnectedBefore(w, n) && !connected && failure.None?
      {
        var again;
        again, failure := TakeTurn(w, n, turns[n], reconnect);
        n := n + 1;
        if failure.Some? {
          return;
        }
        if !again {
          connected := true;
          return;
        }
      }
    }

    /** runBackground, entered with the connection of attempt `start - 1`: every failure but a final one is retried. */
    method RunBackground(ghost w: World, turns: seq<Turn>, start: nat) returns (n: nat)
      requires turns == w.turns && 0 < start <= |turns| && turns[start - 1].outcome.Acked?
      requires After(w, start) && zipperAddr == Latest(w, start) && WentOn(w, start - 1)
      modifies this
      ensures After(w, n) && 0 < n && WentOn(w, n - 1) && ConnectedBefore(w, n)
      ensures n < |turns| ==> !GoesOn(w, n - 1)
    {
      n := start;
      if turns[n - 1].served.Closed? {
        return;
      }
      while n < |turns|
        invariant start <= n <= |turns| && Ready(w, n) && ConnectedBefore(w, n)
      {
        var again, failure := TakeTurn(w, n, turns[n], true);
        n := n + 1;
        if failure.Some? {
          return;
        }
        if !again && turns[n - 1].served.Closed? {
          return;
        }
      }
    }

    /** A whole run from one call of Connect, and what the world sees of it. */
    method ConnectAndServe(turns: seq<Turn>) returns (ghost w: World, failure: Option<ConnectError>)
      requires reconnCounter < UINT_LIMIT && attempts == []
      modifies this
      ensures w == World(clientID, reconnect, old(zipperAddr), old(reconnCounter), turns)
      ensures IsRun(w, attempts)
      ensures failure.Some? <==> attempts != [] && !ConnectedBefore(w, |attempts|) && !GoesOn(w, |attempts| - 1)
    {
      w := World(clientID, reconnect, zipperAddr, reconnCounter, turns);
      var n, connected;
      n, connected, failure := Connect(w, turns);
      if connected {
        var _ := RunBackground(w, turns, n);
      }
    }
  }

  /** c.reconnCounter++ on a 64-bit uint. */
  function Successor(n: nat): (m: nat)
    requires n < UINT_LIMIT
    ensures m < UINT_LIMIT
  {
    if n + 1 == UINT_LIMIT then 0 else n + 1
  }

  lemma Increment(n: nat)
    ensures n % UINT_LIMIT < UINT_LIMIT && Successor(n % UINT_LIMIT) == (n + 1) % UINT_LIMIT
  {
  }

  // ---------------------------------------------------------------- what every run keeps

  /**
   No attempt follows a rejection or an unexpected reply, and none a redirect or failure handled after cancellation.
   */
  lemma {:induction false} FinalTurnsAreLast(w: World, attempts: seq<Attempt>, i: nat)
    requires IsRun(w, attempts) && i + 1 < |attempts|
    ensures !w.turns[i].outcome.RejectedByZipper? && !w.turns[i].outcome.Unexpected?
    ensures w.turns[i].cancelled ==> w.turns[i].outcome.Acked?
  {
    WentOnAt(w, |attempts| - 1, i);
  }

  /**
   Without the reconnect option, until it is first connected a client repeats only after a redirect, and goes there.
   */
  lemma {:induction false} OnlyRedirectsRepeat(w: World, attempts: seq<Attempt>, i: nat)
    requires IsRun(w, attempts) && i + 1 < |attempts| && !w.reconnect && !ConnectedBefore(w, i + 1)
    ensures w.turns[i].outcome == RedirectedTo(attempts[i + 1].addr)
  {
    SeenAt(w, |attempts|, i + 1);
    WentOnAt(w, |attempts| - 1, i);
  }

  /** Between redirects the address stands still. */
  lemma {:induction false} AddressStands(w: World, attempts: seq<Attempt>, i: nat, j: nat)
    requires IsRun(w, attempts) && i <= j < |attempts|
    requires forall k :: i <= k < j ==> !w.turns[k].outcome.RedirectedTo?
    ensures attempts[j].addr == attempts[i].addr
  {
    SeenAt(w, |attempts|, i);
    SeenAt(w, |attempts|, j);
    LatestStands(w, i, j);
  }

  lemma {:induction false} LatestStands(w: World, i: nat, j: nat)
    requires i <= j <= |w.turns|
    requires forall k :: i <= k < j ==> !w.turns[k].outcome.RedirectedTo?
    ensures Latest(w, j) == Latest(w, i)
  {
    if i < j {
      LatestStands(w, i, j - 1);
    }
  }

  lemma {:induction false} WentOnAt(w: World, n: nat, i: nat)
    requires i < n <= |w.turns| && WentOn(w, n)
    ensures GoesOn(w, i)
  {
    if i < n - 1 {
      WentOnAt(w, n - 1, i);
    }
  }

  lemma {:induction false} DrawsGrow(w: World, i: nat, j: nat)
    requires i < j <= |w.turns| && !w.turns[i].outcome.DialFailed?
    ensures Draws(w, i) < Draws(w, j) <= Draws(w, i) + (j - i)
  {
    if i + 1 < j {
      DrawsGrow(w, i, j - 1);
    }
  }

  /** Within one client an ID comes back exactly when the number of IDs drawn in between is a multiple of 2^64. */
  lemma IdRepeatsWhenCounterWraps(w: World, attempts: seq<Attempt>, i: nat, j: nat)
    requires IsRun(w, attempts) && i < j < |attempts| && attempts[i].id.Some? && attempts[j].id.Some?
    ensures attempts[i].id == attempts[j].id <==> (Draws(w, j) - Draws(w, i)) % UINT_LIMIT == 0
  {
    var a, b := w.counter + Draws(w, i), w.counter + Draws(w, j);
    SeenAt(w, |attempts|, i);
    SeenAt(w, |attempts|, j);
    DrawsGrow(w, i, j);
    SameRemainder(a, b);
    if attempts[i].id == attempts[j].id {
      HandshakeIdIsInjective(w.base, Number(w, i), w.base, Number(w, j));
    }
  }

  lemma SameRemainder(a: nat, b: nat)
    requires a <= b
    ensures a % UINT_LIMIT == b % UINT_LIMIT <==> (b - a) % UINT_LIMIT == 0
  {
  }

  /** What one client did in its world. */
  datatype Run = Run(world: World, attempts: seq<Attempt>)

  /**
   The handshake IDs of any number of clients with different bases are pairwise distinct, over all their attempts, as
   long as no client makes more than 2^64 of them.
   */
  lemma HandshakeIdsAreDistinct(runs: seq<Run>, p: nat, i: nat, q: nat, j: nat)
    requires forall k :: 0 <= k < |runs| ==> IsRun(runs[k].world, runs[k].attempts) && |runs[k].attempts| <= UINT_LIMIT
    requires forall k, l :: 0 <= k < l < |runs| ==> runs[k].world.base != runs[l].world.base
    requires p < |runs| && q < |runs| && i < |runs[p].attempts| && j < |runs[q].attempts| && (p, i) != (q, j)
    requires runs[p].attempts[i].id.Some? && runs[q].attempts[j].id.Some?
    ensures runs[p].attempts[i].id != runs[q].attempts[j].id
  {
    var w, v := runs[p].world, runs[q].world;
    if p == q {
      IdsWithinAreDistinct(w, runs[p].attempts, if i < j then i else j, if i < j then j else i);
    } else if runs[p].attempts[i].id == runs[q].attempts[j].id {
      SeenAt(w, |runs[p].attempts|, i);
      SeenAt(v, |runs[q].attempts|, j);
      HandshakeIdIsInjective(w.base, Number(w, i), v.base, Number(v, j));
    }
  }

  lemma IdsWithinAreDistinct(w: World, attempts: seq<Attempt>, i: nat, j: nat)
    requires IsRun(w, attempts) && |attempts| <= UINT_LIMIT && i < j < |attempts|
    requires attempts[i].id.Some? && attempts[j].id.Some?
    ensures attempts[i].id != attempts[j].id
  {
    IdRepeatsWhenCounterWraps(w, attempts, i, j);
    SeenAt(w, |attempts|, i);
    DrawsGrow(w, i, j);
  }
}
