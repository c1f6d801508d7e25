/**
 * The per-connection interceptor that every packet read from or written to a
 * player's connection passes through.
 *
 * It remembers the connection's game profile, taken from the LOGIN "Success"
 * and "Start" packets, and the online player it belongs to, looked up once a
 * profile is known. Each classified packet first updates that state, then is
 * posted as a cancellable event; it travels on down the pipeline unless an
 * observer left the event cancelled. Unclassified messages always travel on.
 */
module Interceptor {
  import opened Wrappers
  import opened JavaStrings
  import opened Reflection
  import opened Packets
  import PacketStage
  import PacketDirection
  import opened Events

  /** `com.mojang.authlib.GameProfile`, the type of the profile field of the LOGIN packets. */
  const GameProfileType := JType("com.mojang.authlib.GameProfile", "GameProfile")

  /**
   * `Bukkit.getPlayer(profile.getId())` for a non-null profile: the online
   * player, or None when there is none or the call throws.
   */
  type Lookup = Value -> Option<PlayerRef>

  /** The interceptor's two mutable fields. */
  datatype Session = Session(profile: Value, player: Option<PlayerRef>)

  /** A `ChannelPromise` passed along with a write. */
  datatype Promise = Promise(address: nat)

  /** A message handed on to the next handler: by `fireChannelRead`, or by `write` with its promise. */
  datatype Delivery = Read(ctx: Context, msg: Handle) | Written(ctx: Context, msg: Handle, promise: Promise)

  /** The clientbound LOGIN packet named "Success" ignoring case. */
  predicate IsLoginSuccess(p: Packet) {
    p.direction == Some(PacketDirection.Clientbound) && p.stage == PacketStage.Login && EqualsIgnoreCase("Success", p.name)
  }

  /** The serverbound LOGIN packet named "Start" ignoring case. */
  predicate IsLoginStart(p: Packet) {
    p.direction == Some(PacketDirection.Serverbound) && p.stage == PacketStage.Login && EqualsIgnoreCase("Start", p.name)
  }

  /**
   * `equalsIgnoreCase` is not ASCII-only: the long 'ſ' upper-cases to 'S', so
   * a serverbound LOGIN packet named "ſtart" is read as "Start".
   */
  lemma LongSReadsAsStart(p: Packet)
    requires p.direction == Some(PacketDirection.Serverbound) && p.stage == PacketStage.Login
    requires p.name == "\U{017F}tart"
    ensures IsLoginStart(p)
    ensures p.name != "Start"
  {
    assert CharEqualsIgnoreCase('S', '\U{017F}');
  }

  /** A packet the profile is read from. */
  predicate CarriesProfile(p: Packet) {
    IsLoginSuccess(p) || IsLoginStart(p)
  }

  /** `getFieldValueOfType(GameProfile.class, 0)` on the packet. */
  function ProfileField(p: Packet): (r: Result<Value, AccessError>)
    reads p.handle
    requires p.handle.Valid()
    ensures r.Err? <==> Matching(p.handle.cls, OfType(GameProfileType)) == []
  {
    GetFieldValueOfType(p, GameProfileType, 0)
  }

  /** The player lookup at the end of `handlePacket`: only while no player is known and a profile is. */
  function ResolvePlayer(s: Session, lookup: Lookup): Session {
    if s.player.None? && s.profile != Null then s.(player := lookup(s.profile)) else s
  }

  /**
   * `handlePacket` as a state transition. A failing profile read throws,
   * the exception is swallowed, and nothing else of the method runs.
   * Only the "Success" and "Start" login packets change the profile; a known
   * player is never replaced, and an unknown one becomes only what the lookup
   * returns for the profile then known.
   */
  function Transition(s: Session, p: Packet, lookup: Lookup): (r: Session)
    reads p.handle
    requires p.handle.Valid()
    ensures !CarriesProfile(p) ==> r.profile == s.profile
    ensures s.player.Some? ==> r.player == s.player
    ensures r.player != s.player ==> s.player.None? && r.profile != Null && r.player == lookup(r.profile)
  {
    if CarriesProfile(p) then
      match ProfileField(p)
      case Err(_) => s
      case Ok(v) => ResolvePlayer(s.(profile := v), lookup)
    else ResolvePlayer(s, lookup)
  }

  /**
   * A "Success" or "Start" login packet overwrites the profile with its
   * first GameProfile-typed field, whatever the profile was, and when no
   * player is known yet that same packet triggers the lookup for the new
   * profile; when the packet has no such field, nothing changes and no lookup
   * is made.
   */
  lemma LoginPacketSetsProfile(s: Session, p: Packet, lookup: Lookup)
    requires p.handle.Valid()
    requires CarriesProfile(p)
    ensures ProfileField(p).Ok? ==> Transition(s, p, lookup).profile == ProfileField(p).value
    ensures ProfileField(p).Ok? && s.player.None? && ProfileField(p).value != Null ==>
      Transition(s, p, lookup).player == lookup(ProfileField(p).value)
    ensures ProfileField(p).Err? ==> Transition(s, p, lookup) == s
  {
  }

  /** A packet of the modern naming scheme has stage UNKNOWN and so never changes the profile. */
  lemma ModernPacketKeepsProfile(s: Session, h: Handle, d: string, x: string, lookup: Lookup)
    requires h.Valid()
    requires StartsWith(h.cls.packageName, "net.minecraft")
    requires ModernShape(h.cls.simpleName, d, x)
    ensures FromHandle(h).Some?
    ensures Transition(s, FromHandle(h).value, lookup).profile == s.profile
  {
    ClassifiesModern(h, d, x);
  }

  /**
   * While no player is known but a profile is, every packet that is not a
   * login packet retries the lookup.
   */
  lemma LookupRetried(s: Session, p: Packet, lookup: Lookup)
    requires p.handle.Valid()
    requires !CarriesProfile(p)
    requires s.player.None? && s.profile != Null
    ensures Transition(s, p, lookup) == Session(s.profile, lookup(s.profile))
  {
  }

  /** One classified packet together with what the player lookup answers while it is handled. */
  datatype Step = Step(packet: Packet, lookup: Lookup)

  /** The handles a run of steps reads. */
  function Handles(steps: seq<Step>): set<Handle> {
    set i | 0 <= i < |steps| :: steps[i].packet.handle
  }

  ghost predicate AllValid(steps: seq<Step>)
    reads Handles(steps)
  {
    forall i :: 0 <= i < |steps| ==> steps[i].packet.handle in Handles(steps) && steps[i].packet.handle.Valid()
  }

  /** The state after handling the packets of `steps` in order. */
  function Run(s: Session, steps: seq<Step>): Session
    reads Handles(steps)
    requires AllValid(steps)
    decreases |steps|
  {
    if steps == [] then s
    else
      assert steps[0].packet.handle in Handles(steps);
      HandlesTail(steps);
      Run(Transition(s, steps[0].packet, steps[0].lookup), steps[1..])
  }

  lemma HandlesTail(steps: seq<Step>)
    requires steps != []
    ensures Handles(steps[1..]) <= Handles(steps)
    ensures AllValid(steps) ==> AllValid(steps[1..])
  {
    forall h | h in Handles(steps[1..]) ensures h in Handles(steps) {
      var i :| 0 <= i < |steps[1..]| && steps[1..][i].packet.handle == h;
      assert steps[i + 1].packet.handle == h;
    }
  }

  /** Over any run, a known player stays the same. */
  lemma {:induction false} PlayerStable(s: Session, steps: seq<Step>)
    requires AllValid(steps)
    requires s.player.Some?
    ensures Run(s, steps).player == s.player
    decreases |steps|
  {
    if steps != [] {
      HandlesTail(steps);
      PlayerStable(Transition(s, steps[0].packet, steps[0].lookup), steps[1..]);
    }
  }

  /** Over a run without a "Success" or "Start" login packet, the profile stays the same. */
  lemma {:induction false} ProfileOnlyFromLogin(s: Session, steps: seq<Step>)
    requires AllValid(steps)
    requires forall i :: 0 <= i < |steps| ==> !CarriesProfile(steps[i].packet)
    ensures Run(s, steps).profile == s.profile
    decreases |steps|
  {
    if steps != [] {
      HandlesTail(steps);
      var t := Transition(s, steps[0].packet, steps[0].lookup);
      assert forall i :: 0 <= i < |steps[1..]| ==> steps[1..][i] == steps[i + 1];
      ProfileOnlyFromLogin(t, steps[1..]);
    }
  }

  /**
   * With a profile known and no player yet, a failed lookup is retried on
   * every following packet: the player becomes what the first lookup that
   * answers returns, and stays so to the end of the run.
   */
  lemma {:induction false} PlayerFoundLater(s: Session, steps: seq<Step>, k: nat, who: PlayerRef)
    requires AllValid(steps)
    requires s.player.None? && s.profile != Null
    requires k < |steps|
    requires forall i :: 0 <= i < |steps| ==> !CarriesProfile(steps[i].packet)
    requires forall i :: 0 <= i < k ==> steps[i].lookup(s.profile).None?
    requires steps[k].lookup(s.profile) == Some(who)
    ensures Run(s, steps).player == Some(who)
    decreases |steps|
  {
    HandlesTail(steps);
    LookupRetried(s, steps[0].packet, steps[0].lookup);
    var t := Transition(s, steps[0].packet, steps[0].lookup);
    assert forall i :: 0 <= i < |steps[1..]| ==> steps[1..][i] == steps[i + 1];
    if k == 0 {
      PlayerStable(t, steps[1..]);
    } else {
      PlayerFoundLater(t, steps[1..], k - 1, who);
    }
  }

  /**
   * A connection whose first packet is the serverbound LOGIN "Start" packet
   * carrying a profile, and whose lookup for that profile answers: the packet
   * takes the session from no player to the profile and the player found, and
   * the player stays so to the end of the run, whatever later lookups answer;
   * the profile stays so too unless a later login packet carries another.
   */
  lemma LoginStartResolvesPlayer(s: Session, steps: seq<Step>, who: PlayerRef)
    requires AllValid(steps)
    requires steps != [] && IsLoginStart(steps[0].packet)
    requires s.player.None?
    requires ProfileField(steps[0].packet).Ok? && ProfileField(steps[0].packet).value != Null
    requires steps[0].lookup(ProfileField(steps[0].packet).value) == Some(who)
    ensures Transition(s, steps[0].packet, steps[0].lookup) == Session(ProfileField(steps[0].packet).value, Some(who))
    ensures Run(s, steps).player == Some(who)
    ensures (forall i :: 1 <= i < |steps| ==> !CarriesProfile(steps[i].packet)) ==>
      Run(s, steps).profile == ProfileField(steps[0].packet).value
  {
    var t := Transition(s, steps[0].packet, steps[0].lookup);
    LoginPacketSetsProfile(s, steps[0].packet, steps[0].lookup);
    HandlesTail(steps);
    PlayerStable(t, steps[1..]);
    if forall i :: 1 <= i < |steps| ==> !CarriesProfile(steps[i].packet) {
      assert forall i :: 0 <= i < |steps[1..]| ==> steps[1..][i] == steps[i + 1];
      ProfileOnlyFromLogin(t, steps[1..]);
    }
  }

  /** What `channelRead` or `write` does with one message: the new state, and whether the message travels on. */
  datatype Outcome = Outcome(session: Session, forward: bool)

  /**
   * The message is classified; a packet updates the state, then an event built
   * from the updated state and a clear flag is dispatched, and the message
   * travels on only when the flag ends up clear.
   */
  function Intercept(kind: Kind, s: Session, ctx: Context, msg: Handle, lookup: Lookup, observers: seq<Observer>): (o: Outcome)
    reads msg
    requires msg.Valid()
    ensures FromHandle(msg).None? ==> o == Outcome(s, true)
    ensures s.player.Some? ==> o.session.player == s.player
    ensures !o.forward ==> FromHandle(msg).Some?
    ensures !o.forward ==> SomeObserverSets(observers, EventView(kind, ctx, o.session.profile, o.session.player, FromHandle(msg).value, false), true)
  {
    match FromHandle(msg)
    case None => Outcome(s, true)
    case Some(p) =>
      var t := Transition(s, p, lookup);
      Outcome(t, !Dispatch(observers, EventView(kind, ctx, t.profile, t.player, p, false)))
  }

  /** A message that is not a packet is handed on untouched and the state does not change. */
  lemma UnclassifiedForwarded(kind: Kind, s: Session, ctx: Context, msg: Handle, lookup: Lookup, observers: seq<Observer>)
    requires msg.Valid()
    requires !StartsWith(msg.cls.packageName, "net.minecraft")
    ensures Intercept(kind, s, ctx, msg, lookup, observers) == Outcome(s, true)
  {
  }

  /** With no observer that touches the flag, every message travels on. */
  lemma SilentObserversForward(kind: Kind, s: Session, ctx: Context, msg: Handle, lookup: Lookup, observers: seq<Observer>)
    requires msg.Valid()
    requires forall i, v :: 0 <= i < |observers| ==> observers[i](v).None?
    ensures Intercept(kind, s, ctx, msg, lookup, observers).forward
  {
    match FromHandle(msg) {
      case None =>
      case Some(p) =>
        var t := Transition(s, p, lookup);
        NoWritersKeepFlag(observers, EventView(kind, ctx, t.profile, t.player, p, false));
    }
  }

  /**
   * A packet is dropped when the last observer to set the flag cancels it,
   * whatever earlier observers did; the state still changes.
   */
  lemma LastCancelDrops(kind: Kind, s: Session, ctx: Context, msg: Handle, lookup: Lookup, observers: seq<Observer>, k: nat)
    requires msg.Valid()
    requires FromHandle(msg).Some?
    requires k < |observers|
    requires forall v :: observers[k](v) == Some(true)
    requires forall i, v :: k < i < |observers| ==> observers[i](v).None?
    ensures var o := Intercept(kind, s, ctx, msg, lookup, observers);
      !o.forward && o.session == Transition(s, FromHandle(msg).value, lookup)
  {
    var p := FromHandle(msg).value;
    var t := Transition(s, p, lookup);
    LastWriterWins(observers, EventView(kind, ctx, t.profile, t.player, p, false), k, true);
  }

  /** The handler installed in a connection's pipeline. */
  class PacketInterceptor {
    var profile: Value
    var player: Option<PlayerRef>
    /** The messages handed on to the next handler, oldest first. */
    ghost var forwarded: seq<Delivery>

    function State(): Session
      reads this
    {
      Session(profile, player)
    }

    /** A new interceptor knows neither profile nor player and has handed nothing on. */
    constructor ()
      ensures State() == Session(Null, None) && forwarded == []
    {
      profile := Null;
      player := None;
      forwarded := [];
    }

    /** `handlePacket`: updates the profile and player from one classified packet. */
    method HandlePacket(packet: Packet, lookup: Lookup)
      requires packet.handle.Valid()
      modifies this
      ensures State() == Transition(old(State()), packet, lookup)
      ensures forwarded == old(forwarded)
    {
      if packet.direction == Some(PacketDirection.Clientbound) {
        if packet.stage == PacketStage.Login && EqualsIgnoreCase("Success", packet.name) {
          var v := GetFieldValueOfType(packet, GameProfileType, 0);
          if v.Err? {
            return;
          }
          profile := v.value;
        }
      }
      if packet.direction == Some(PacketDirection.Serverbound) {
        if packet.stage == PacketStage.Login && EqualsIgnoreCase("Start", packet.name) {
          var v := GetFieldValueOfType(packet, GameProfileType, 0);
          if v.Err? {
            return;
          }
          profile := v.value;
        }
      }
      if player.None? && profile != Null {
        player := lookup(profile);
      }
    }

    /** `callEvent`: runs the observers in order over the event and returns its final flag. */
    static method CallEvent(event: PacketEvent, observers: seq<Observer>) returns (cancelled: bool)
      modifies event
      ensures cancelled == event.IsCancelled() == Dispatch(observers, old(event.View()))
      ensures event.View() == old(event.View()).(cancelled := cancelled)
    {
      var i := 0;
      while i < |observers|
        invariant 0 <= i <= |observers|
        invariant Dispatch(observers[i..], event.View()) == Dispatch(observers, old(event.View()))
        invariant event.View() == old(event.View()).(cancelled := event.cancelled)
      {
        assert observers[i..][1..] == observers[i + 1..];
        match observers[i](event.View()) {
          case Some(b) => event.SetCancelled(b);
          case None =>
        }
        i := i + 1;
      }
      cancelled := event.IsCancelled();
    }

    /** `channelRead`: an inbound message, handed on with `fireChannelRead` unless its event ends cancelled. */
    method ChannelRead(ctx: Context, msg: Handle, lookup: Lookup, observers: seq<Observer>)
      requires msg.Valid()
      modifies this
      ensures var o := Intercept(Inbound, old(State()), ctx, msg, lookup, observers);
        State() == o.session && forwarded == old(forwarded) + (if o.forward then [Read(ctx, msg)] else [])
    {
      var packet := FromHandle(msg);
      if packet.Some? {
        HandlePacket(packet.value, lookup);
        var event := new PacketEvent(Inbound, ctx, profile, player, packet.value);
        var cancelled := CallEvent(event, observers);
        if cancelled {
          return;
        }
      }
      forwarded := forwarded + [Read(ctx, msg)];
    }

    /** `write`: an outbound message, handed on with its promise unless its event ends cancelled. */
    method Write(ctx: Context, msg: Handle, promise: Promise, lookup: Lookup, observers: seq<Observer>)
      requires msg.Valid()
      modifies this
      ensures var o := Intercept(Outbound, old(State()), ctx, msg, lookup, observers);
        State() == o.session && forwarded == old(forwarded) + (if o.forward then [Written(ctx, msg, promise)] else [])
    {
      var packet := FromHandle(msg);
      if packet.Some? {
        HandlePacket(packet.value, lookup);
        var event := new PacketEvent(Outbound, ctx, profile, player, packet.value);
        var cancelled := CallEvent(event, observers);
        if cancelled {
          return;
        }
      }
      forwarded := forwarded + [Written(ctx, msg, promise)];
    }
  }
}
