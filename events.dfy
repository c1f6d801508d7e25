/**
 * The cancellable packet event and the event bus it is posted on.
 *
 * An event carries the pipeline context, the connection's profile and player
 * as they were when it was built, and the packet; only its `cancelled` flag
 * changes afterwards. Observers registered on the bus run in order; each one
 * sees the event and either leaves the flag alone or sets it.
 */
module Events {
  import opened Wrappers
  import opened Packets

  /** Which of the two concrete event classes: a packet read from, or written to, the connection. */
  datatype Kind = Inbound | Outbound

  /** A `ChannelHandlerContext`: the handler's place in one connection's pipeline. */
  datatype Context = Context(address: nat)

  /** An online `Player` of the server. */
  datatype PlayerRef = PlayerRef(address: nat)

  /** What an observer sees of an event: its payload and its current flag. */
  datatype EventView = EventView(kind: Kind, ctx: Context, profile: Value, player: Option<PlayerRef>, packet: Packet, cancelled: bool)

  /**
   * A listener on the bus: `Some(b)` when, seeing the event, it calls
   * `setCancelled(b)` (the last call when it makes several), `None` when it
   * makes no such call. A listener that throws is logged and skipped by the
   * bus, but a call it made before throwing stands: it is `Some` of the last
   * value it set, and `None` only when it set nothing.
   */
  type Observer = EventView -> Option<bool>

  /** Some observer, seeing the event with one flag or the other, sets the flag to `b`. */
  predicate SomeObserverSets(observers: seq<Observer>, view: EventView, b: bool) {
    exists i, c :: 0 <= i < |observers| && observers[i](view.(cancelled := c)) == Some(b)
  }

  /**
   * The flag after running `observers` in order over an event that looks like
   * `view`: the flag it had, or a value some observer set.
   */
  function Dispatch(observers: seq<Observer>, view: EventView): (r: bool)
    ensures r == view.cancelled || SomeObserverSets(observers, view, r)
    decreases |observers|
  {
    if observers == [] then view.cancelled
    else
      var flag := match observers[0](view) case Some(b) => b case None => view.cancelled;
      Dispatch(observers[1..], view.(cancelled := flag))
  }

  /** Running two groups of observers one after the other is running the second on what the first left. */
  lemma {:induction false} DispatchAppend(a: seq<Observer>, b: seq<Observer>, view: EventView)
    ensures Dispatch(a + b, view) == Dispatch(b, view.(cancelled := Dispatch(a, view)))
  {
    if a == [] {
      assert a + b == b;
    } else {
      assert (a + b)[1..] == a[1..] + b;
      var flag := match a[0](view) case Some(b) => b case None => view.cancelled;
      DispatchAppend(a[1..], b, view.(cancelled := flag));
    }
  }

  /** Observers that never touch the flag leave it as it was; a new event stays not cancelled. */
  lemma {:induction false} NoWritersKeepFlag(observers: seq<Observer>, view: EventView)
    requires forall i, v :: 0 <= i < |observers| ==> observers[i](v).None?
    ensures Dispatch(observers, view) == view.cancelled
  {
    if observers != [] {
      NoWritersKeepFlag(observers[1..], view);
    }
  }

  /**
   * The last write wins: when observer `k` always sets the flag to `b` and no
   * later observer touches it, the event ends with `b` whatever came before;
   * in particular a cancelled event can be un-cancelled.
   */
  lemma LastWriterWins(observers: seq<Observer>, view: EventView, k: nat, b: bool)
    requires k < |observers|
    requires forall v :: observers[k](v) == Some(b)
    requires forall i, v :: k < i < |observers| ==> observers[i](v).None?
    ensures Dispatch(observers, view) == b
  {
    var before := observers[..k];
    var after := observers[k + 1..];
    assert observers == before + ([observers[k]] + after);
    DispatchAppend(before, [observers[k]] + after, view);
    var mid := view.(cancelled := Dispatch(before, view));
    assert ([observers[k]] + after)[1..] == after;
    NoWritersKeepFlag(after, mid.(cancelled := b));
  }

  /** The event: final payload fields and the mutable `cancelled` flag. */
  class PacketEvent {
    const kind: Kind
    const ctx: Context
    const profile: Value
    const player: Option<PlayerRef>
    const packet: Packet
    var cancelled: bool

    /** A new event holds its arguments, null profile and player included, and is not cancelled. */
    constructor (kind: Kind, ctx: Context, profile: Value, player: Option<PlayerRef>, packet: Packet)
      ensures this.kind == kind && this.ctx == ctx && this.profile == profile
      ensures this.player == player && this.packet == packet
      ensures !cancelled
    {
      this.kind := kind;
      this.ctx := ctx;
      this.profile := profile;
      this.player := player;
      this.packet := packet;
      cancelled := false;
    }

    /** What an observer sees of this event now. */
    function View(): (v: EventView)
      reads this
      ensures v.cancelled == cancelled && v.packet == packet
    {
      EventView(kind, ctx, profile, player, packet, cancelled)
    }

    /** `isCancelled`. */
    function IsCancelled(): (b: bool)
      reads this
      ensures b == View().cancelled
    {
      cancelled
    }

    /** `setCancelled`: the flag becomes `b`, whatever it was; the payload cannot change. */
    method SetCancelled(b: bool)
      modifies this
      ensures IsCancelled() == b
      ensures View() == old(View()).(cancelled := b)
    {
      cancelled := b;
    }
  }
}
