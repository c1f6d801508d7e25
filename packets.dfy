/**
 * The packet wrapper: classifying an original packet object by its runtime
 * class name under the modern and the legacy Spigot naming schemes, and reading
 * or writing its instance fields by position, among all of them or among those
 * of one exact type.
 */
module Packets {
  import opened Wrappers
  import opened JavaStrings
  import PacketStage
  import PacketDirection
  import opened Reflection

  /** The value held by a field: null or a reference to some object. */
  datatype Value = Null | Ref(address: nat)

  /** What the field accessors throw. */
  datatype AccessError = IndexOutOfBounds | IllegalArgument

  /** Every instance field of the hierarchy has a value in `store`. */
  predicate Covers(c: JClass, store: map<Field, Value>) {
    forall f :: f in Matching(c, AnyType) ==> f in store
  }

  /** The original packet object: its runtime class and the current values of its instance fields. */
  class Handle {
    const cls: JClass
    var store: map<Field, Value>

    ghost predicate Valid()
      reads this
    {
      Covers(cls, store)
    }

    constructor (cls: JClass, store: map<Field, Value>)
      requires Covers(cls, store)
      ensures this.cls == cls && this.store == store && Valid()
    {
      this.cls := cls;
      this.store := store;
    }
  }

  /** The wrapper: the handle with the stage, direction and short name read off its class name. */
  datatype Packet = Packet(handle: Handle, stage: PacketStage.Stage, direction: Option<PacketDirection.Direction>, name: string)

  // ---------------------------------------------------------------------------
  // Classification by class name
  // ---------------------------------------------------------------------------

  /** The capture groups of `(Clientbound|Serverbound)(.+)Packet`. */
  datatype ModernGroups = ModernGroups(direction: string, name: string)

  /** The capture groups of `Packet(Handshaking|Login|Play|Status)(In|Out)(.+)`. */
  datatype LegacyGroups = LegacyGroups(stage: string, direction: string, name: string)

  /** The first alternative that matched, as a regular-expression engine tries them in order. */
  function Or<T>(a: Option<T>, b: Option<T>): Option<T> {
    if a.Some? then a else b
  }

  /** `(.+)Packet` against the whole of `rest`, group 1 already fixed to `token`. */
  function ModernAfter(rest: string, token: string): Option<ModernGroups> {
    if |rest| > 6 && EndsWith(rest, "Packet") && AllDot(rest[..|rest| - 6])
    then Some(ModernGroups(token, rest[..|rest| - 6]))
    else None
  }

  /** One alternative of group 1 of the modern pattern, then the rest of the pattern. */
  function ModernWith(s: string, token: string): Option<ModernGroups> {
    if StartsWith(s, token) then ModernAfter(s[|token|..], token) else None
  }

  /**
   * `PACKET_PATTERN.matcher(s).matches()` and its groups: group 1 is one of
   * the direction words, group 2 a non-empty run of `.`, and the name ends in
   * "Packet".
   */
  function MatchModern(s: string): (r: Option<ModernGroups>)
    ensures r.Some? ==> (r.value.direction == "Clientbound" || r.value.direction == "Serverbound")
    ensures r.Some? ==> StartsWith(s, r.value.direction) && EndsWith(s, "Packet")
    ensures r.Some? ==> |r.value.name| > 0 && AllDot(r.value.name)
  {
    Or(ModernWith(s, "Clientbound"), ModernWith(s, "Serverbound"))
  }

  /** Group 2 fixed to `dir`, then `(.+)` to the end of the name. */
  function LegacyDirection(rest: string, stage: string, dir: string): (r: Option<LegacyGroups>)
    ensures r.Some? ==> r.value.stage == stage && r.value.direction == dir && StartsWith(rest, dir)
    ensures r.Some? ==> |r.value.name| > 0 && AllDot(r.value.name)
  {
    if StartsWith(rest, dir) && |rest| > |dir| && AllDot(rest[|dir|..])
    then Some(LegacyGroups(stage, dir, rest[|dir|..]))
    else None
  }

  /** Group 1 fixed to `stage`, then the alternatives of group 2 in order. */
  function LegacyStage(rest: string, stage: string): (r: Option<LegacyGroups>)
    ensures r.Some? ==> r.value.stage == stage && StartsWith(rest, stage)
    ensures r.Some? ==> r.value.direction == "In" || r.value.direction == "Out"
    ensures r.Some? ==> |r.value.name| > 0 && AllDot(r.value.name)
  {
    if StartsWith(rest, stage)
    then Or(LegacyDirection(rest[|stage|..], stage, "In"), LegacyDirection(rest[|stage|..], stage, "Out"))
    else None
  }

  /**
   * `LEGACY_PACKET_PATTERN.matcher(s).matches()` and its groups: the name
   * starts with "Packet", group 1 is one of the stage words, group 2 one of
   * the direction words and group 3 a non-empty run of `.`.
   */
  function MatchLegacy(s: string): (r: Option<LegacyGroups>)
    ensures r.Some? ==> StartsWith(s, "Packet")
    ensures r.Some? ==> r.value.stage in {"Handshaking", "Login", "Play", "Status"}
    ensures r.Some? ==> r.value.direction == "In" || r.value.direction == "Out"
    ensures r.Some? ==> |r.value.name| > 0 && AllDot(r.value.name)
  {
    if StartsWith(s, "Packet") then
      var rest := s[6..];
      Or(LegacyStage(rest, "Handshaking"),
        Or(LegacyStage(rest, "Login"),
          Or(LegacyStage(rest, "Play"), LegacyStage(rest, "Status"))))
    else None
  }

  /** `s` is `d` + `x` + "Packet" with `d` a modern direction word and `x` a non-empty run of `.`. */
  predicate ModernShape(s: string, d: string, x: string) {
    (d == "Clientbound" || d == "Serverbound") && |x| > 0 && AllDot(x) && s == d + x + "Packet"
  }

  /** `s` is "Packet" + `st` + `dt` + `x` with legacy stage and direction words and `x` a non-empty run of `.`. */
  predicate LegacyShape(s: string, st: string, dt: string, x: string) {
    && (st == "Handshaking" || st == "Login" || st == "Play" || st == "Status")
    && (dt == "In" || dt == "Out")
    && |x| > 0 && AllDot(x)
    && s == "Packet" + st + dt + x
  }

  lemma StartsWithSplit(s: string, p: string)
    requires StartsWith(s, p)
    ensures s == p + s[|p|..]
  {
  }

  lemma StartsWithConcat(p: string, q: string)
    ensures StartsWith(p + q, p) && (p + q)[|p|..] == q
  {
  }

  /** What the modern matcher reports is a decomposition of the name of the modern shape. */
  lemma MatchModernSound(s: string)
    requires MatchModern(s).Some?
    ensures ModernShape(s, MatchModern(s).value.direction, MatchModern(s).value.name)
  {
    var token := if ModernWith(s, "Clientbound").Some? then "Clientbound" else "Serverbound";
    assert MatchModern(s) == ModernWith(s, token);
    StartsWithSplit(s, token);
    var rest := s[|token|..];
    var x := rest[..|rest| - 6];
    assert rest == x + "Packet";
    assert s == token + (x + "Packet");
  }

  /** Every decomposition of the modern shape is the one the modern matcher reports. */
  lemma MatchModernComplete(s: string, d: string, x: string)
    requires ModernShape(s, d, x)
    ensures MatchModern(s) == Some(ModernGroups(d, x))
  {
    assert s == d + (x + "Packet");
    StartsWithConcat(d, x + "Packet");
    StartsWithConcat(x, "Packet");
    assert (x + "Packet")[..|x + "Packet"| - 6] == x;
    if d == "Serverbound" {
      assert s[0] == 'S';
      assert !StartsWith(s, "Clientbound");
    }
  }

  /** The modern pattern matches with groups `d`, `x` exactly when the name is `d` + `x` + "Packet" of the modern shape. */
  lemma MatchModernIff(s: string, d: string, x: string)
    ensures MatchModern(s) == Some(ModernGroups(d, x)) <==> ModernShape(s, d, x)
  {
    if MatchModern(s) == Some(ModernGroups(d, x)) {
      MatchModernSound(s);
    }
    if ModernShape(s, d, x) {
      MatchModernComplete(s, d, x);
    }
  }

  /** What the direction step reports splits its input into the direction word and a non-empty run of `.`. */
  lemma LegacyDirectionSound(rest: string, stage: string, dir: string)
    requires LegacyDirection(rest, stage, dir).Some?
    ensures var g := LegacyDirection(rest, stage, dir).value;
      g.stage == stage && g.direction == dir && |g.name| > 0 && AllDot(g.name) && rest == dir + g.name
  {
    StartsWithSplit(rest, dir);
  }

  /** What the stage step reports splits its input into the stage word, a direction word and a non-empty run of `.`. */
  lemma LegacyStageSound(rest: string, stage: string)
    requires LegacyStage(rest, stage).Some?
    ensures var g := LegacyStage(rest, stage).value;
      && g.stage == stage && (g.direction == "In" || g.direction == "Out")
      && |g.name| > 0 && AllDot(g.name) && rest == stage + (g.direction + g.name)
  {
    StartsWithSplit(rest, stage);
    var r := rest[|stage|..];
    var dir := if LegacyDirection(r, stage, "In").Some? then "In" else "Out";
    assert LegacyStage(rest, stage) == LegacyDirection(r, stage, dir);
    LegacyDirectionSound(r, stage, dir);
  }

  /** What the legacy matcher reports after "Packet" and a given stage word is a decomposition of the legacy shape. */
  lemma LegacyStageSoundAfterPrefix(s: string, st: string)
    requires StartsWith(s, "Packet")
    requires st == "Handshaking" || st == "Login" || st == "Play" || st == "Status"
    requires LegacyStage(s[6..], st).Some?
    ensures var g := LegacyStage(s[6..], st).value; LegacyShape(s, g.stage, g.direction, g.name)
  {
    StartsWithSplit(s, "Packet");
    LegacyStageSound(s[6..], st);
    var g := LegacyStage(s[6..], st).value;
    assert s == "Packet" + (st + (g.direction + g.name));
  }

  /** What the legacy matcher reports is a decomposition of the name of the legacy shape. */
  lemma MatchLegacySound(s: string)
    requires MatchLegacy(s).Some?
    ensures var g := MatchLegacy(s).value; LegacyShape(s, g.stage, g.direction, g.name)
  {
    var rest := s[6..];
    if LegacyStage(rest, "Handshaking").Some? {
      LegacyStageSoundAfterPrefix(s, "Handshaking");
    } else if LegacyStage(rest, "Login").Some? {
      LegacyStageSoundAfterPrefix(s, "Login");
    } else if LegacyStage(rest, "Play").Some? {
      LegacyStageSoundAfterPrefix(s, "Play");
    } else {
      LegacyStageSoundAfterPrefix(s, "Status");
    }
  }

  /** The direction words of the legacy pattern start with different letters: only `dt` can match. */
  lemma LegacyStageComplete(st: string, dt: string, x: string)
    requires dt == "In" || dt == "Out"
    requires |x| > 0 && AllDot(x)
    ensures LegacyStage(st + (dt + x), st) == Some(LegacyGroups(st, dt, x))
  {
    StartsWithConcat(st, dt + x);
    StartsWithConcat(dt, x);
    if dt == "Out" {
      assert (dt + x)[0] == 'O';
      assert !StartsWith(dt + x, "In");
    }
  }

  /** The stage words of the legacy pattern start with different letters: only `st` can match. */
  lemma LegacyStageOthersFail(rest: string, st: string, other: string)
    requires |rest| > 0 && StartsWith(rest, st)
    requires other == "Handshaking" || other == "Login" || other == "Play" || other == "Status"
    requires st == "Handshaking" || st == "Login" || st == "Play" || st == "Status"
    requires other != st
    ensures LegacyStage(rest, other).None?
  {
    assert rest[0] == st[0];
    assert other[0] != st[0];
  }

  /** Every decomposition of the legacy shape is the one the legacy matcher reports. */
  lemma MatchLegacyComplete(s: string, st: string, dt: string, x: string)
    requires LegacyShape(s, st, dt, x)
    ensures MatchLegacy(s) == Some(LegacyGroups(st, dt, x))
  {
    var rest := st + (dt + x);
    assert s == "Packet" + rest;
    StartsWithConcat("Packet", rest);
    LegacyStageComplete(st, dt, x);
    if st != "Handshaking" { LegacyStageOthersFail(rest, st, "Handshaking"); }
    if st != "Login" { LegacyStageOthersFail(rest, st, "Login"); }
    if st != "Play" { LegacyStageOthersFail(rest, st, "Play"); }
  }

  /**
   * The legacy pattern matches with groups `st`, `dt`, `x` exactly when the
   * name is "Packet" + `st` + `dt` + `x` of the legacy shape.
   */
  lemma MatchLegacyIff(s: string, st: string, dt: string, x: string)
    ensures MatchLegacy(s) == Some(LegacyGroups(st, dt, x)) <==> LegacyShape(s, st, dt, x)
  {
    if MatchLegacy(s) == Some(LegacyGroups(st, dt, x)) {
      MatchLegacySound(s);
    }
    if LegacyShape(s, st, dt, x) {
      MatchLegacyComplete(s, st, dt, x);
    }
  }

  /**
   * A name has at most one decomposition: modern names start with a direction
   * word and legacy names with "Packet", and within each pattern the words of
   * an alternation start with different letters.
   */
  lemma DecompositionUnique(s: string)
    ensures forall d, x, st, dt, y :: !(ModernShape(s, d, x) && LegacyShape(s, st, dt, y))
    ensures forall d, x, d', x' :: ModernShape(s, d, x) && ModernShape(s, d', x') ==> d == d' && x == x'
    ensures forall st, dt, x, st', dt', x' :: LegacyShape(s, st, dt, x) && LegacyShape(s, st', dt', x') ==>
      st == st' && dt == dt' && x == x'
  {
    forall d, x, st, dt, y | ModernShape(s, d, x) ensures !LegacyShape(s, st, dt, y) {
      assert s[0] == d[0];
    }
    forall d, x, d', x' | ModernShape(s, d, x) && ModernShape(s, d', x') ensures d == d' && x == x' {
      MatchModernComplete(s, d, x);
      MatchModernComplete(s, d', x');
    }
    forall st, dt, x, st', dt', x' | LegacyShape(s, st, dt, x) && LegacyShape(s, st', dt', x')
      ensures st == st' && dt == dt' && x == x'
    {
      MatchLegacyComplete(s, st, dt, x);
      MatchLegacyComplete(s, st', dt', x');
    }
  }

  /** `Packet.fromHandle`: only classes of a `net.minecraft` package; the modern pattern first, then the legacy one. */
  function FromHandle(handle: Handle): (r: Option<Packet>)
    ensures r.Some? ==> r.value.handle == handle
  {
    var c := handle.cls;
    if !StartsWith(c.packageName, "net.minecraft") then None
    else
      match MatchModern(c.simpleName)
      case Some(m) =>
        Some(Packet(handle, PacketStage.Unknown, PacketDirection.GetBySpigotName(m.direction), m.name))
      case None =>
        match MatchLegacy(c.simpleName)
        case Some(g) =>
          Some(Packet(handle, PacketStage.GetBySpigotName(g.stage), PacketDirection.GetBySpigotName(g.direction), g.name))
        case None => None
  }

  /** A `net.minecraft` class named `d` + `x` + "Packet" is a packet of unknown stage, direction `d`, name `x`. */
  lemma ClassifiesModern(h: Handle, d: string, x: string)
    requires StartsWith(h.cls.packageName, "net.minecraft")
    requires ModernShape(h.cls.simpleName, d, x)
    ensures FromHandle(h) == Some(Packet(h, PacketStage.Unknown,
      Some(if d == "Clientbound" then PacketDirection.Clientbound else PacketDirection.Serverbound), x))
  {
    MatchModernComplete(h.cls.simpleName, d, x);
  }

  /**
   * A `net.minecraft` class named "Packet" + `st` + `dt` + `x` is a packet of
   * the stage and direction those words stand for, name `x`.
   */
  lemma ClassifiesLegacy(h: Handle, st: string, dt: string, x: string)
    requires StartsWith(h.cls.packageName, "net.minecraft")
    requires LegacyShape(h.cls.simpleName, st, dt, x)
    ensures FromHandle(h) == Some(Packet(h, PacketStage.GetBySpigotName(st),
      Some(if dt == "Out" then PacketDirection.Clientbound else PacketDirection.Serverbound), x))
    ensures FromHandle(h).value.stage != PacketStage.Unknown
  {
    var s := h.cls.simpleName;
    DecompositionUnique(s);
    if m :| MatchModern(s) == Some(m) {
      MatchModernSound(s);
      assert false;
    }
    MatchLegacyComplete(s, st, dt, x);
  }

  /**
   * The result is null exactly for a class outside the `net.minecraft`
   * packages or a name of neither shape.
   */
  lemma UnclassifiedIffNoShape(h: Handle)
    ensures FromHandle(h).None? <==>
      || !StartsWith(h.cls.packageName, "net.minecraft")
      || (&& (forall d, x :: !ModernShape(h.cls.simpleName, d, x))
          && (forall st, dt, x :: !LegacyShape(h.cls.simpleName, st, dt, x)))
  {
    var s := h.cls.simpleName;
    forall d, x | ModernShape(s, d, x) ensures MatchModern(s).Some? {
      MatchModernComplete(s, d, x);
    }
    forall st, dt, x | LegacyShape(s, st, dt, x) ensures MatchLegacy(s).Some? {
      MatchLegacyComplete(s, st, dt, x);
    }
    if MatchModern(s).Some? {
      MatchModernSound(s);
    }
    if MatchLegacy(s).Some? {
      MatchLegacySound(s);
    }
  }

  /** Every packet has a direction, because each captured direction word is a key of the direction table, and a non-empty name. */
  lemma ClassifiedHasDirectionAndName(h: Handle)
    requires FromHandle(h).Some?
    ensures FromHandle(h).value.direction.Some?
    ensures |FromHandle(h).value.name| > 0
  {
    var s := h.cls.simpleName;
    if MatchModern(s).Some? {
      MatchModernSound(s);
    } else {
      MatchLegacySound(s);
    }
  }

  lemma LoginStartShape()
    ensures LegacyShape("PacketLoginInStart", "Login", "In", "Start")
  {
    assert AllDot("Start");
    assert "PacketLoginInStart" == "Packet" + "Login" + "In" + "Start";
  }

  /** `PacketLoginInStart` is a serverbound LOGIN packet named "Start". */
  lemma LoginStartExample(h: Handle)
    requires h.cls.simpleName == "PacketLoginInStart"
    requires h.cls.packageName == "net.minecraft.server.v1_8_R3"
    ensures FromHandle(h) == Some(Packet(h, PacketStage.Login, Some(PacketDirection.Serverbound), "Start"))
  {
    LoginStartShape();
    ClassifiesLegacy(h, "Login", "In", "Start");
  }

  lemma LoginFinishedShape()
    ensures ModernShape("ClientboundLoginFinishedPacket", "Clientbound", "LoginFinished")
  {
    assert AllDot("LoginFinished");
    assert "ClientboundLoginFinishedPacket" == "Clientbound" + "LoginFinished" + "Packet";
  }

  /** `ClientboundLoginFinishedPacket` is a clientbound packet of unknown stage named "LoginFinished". */
  lemma LoginFinishedExample(h: Handle)
    requires h.cls.simpleName == "ClientboundLoginFinishedPacket"
    requires h.cls.packageName == "net.minecraft.network.protocol.login"
    ensures FromHandle(h) == Some(Packet(h, PacketStage.Unknown, Some(PacketDirection.Clientbound), "LoginFinished"))
  {
    LoginFinishedShape();
    ClassifiesModern(h, "Clientbound", "LoginFinished");
  }

  /** A legacy name starts with 'P' and has at least 13 characters. */
  lemma LegacyShapeBounds(s: string, st: string, dt: string, x: string)
    ensures LegacyShape(s, st, dt, x) ==> s[0] == 'P' && |s| >= 13
  {
    if LegacyShape(s, st, dt, x) {
      assert s == "Packet" + (st + dt + x);
    }
  }

  /**
   * Both patterns need a non-empty name: a modern name has at least 18
   * characters and a legacy one at least 13, so `ClientboundPacket` (17) and
   * `PacketPlayIn` (12) are not packets.
   */
  lemma EmptyNameExamples(h: Handle)
    requires h.cls.simpleName == "ClientboundPacket" || h.cls.simpleName == "PacketPlayIn"
    ensures FromHandle(h).None?
  {
    var s := h.cls.simpleName;
    forall d: string, x: string ensures !ModernShape(s, d, x) {
    }
    assert s[0] != 'P' || |s| < 13;
    forall st: string, dt: string, x: string ensures !LegacyShape(s, st, dt, x) {
      LegacyShapeBounds(s, st, dt, x);
    }
    UnclassifiedIffNoShape(h);
  }

  // ---------------------------------------------------------------------------
  // Field access
  // ---------------------------------------------------------------------------

  /**
   * `getFields`: every non-static field of the handle's class hierarchy and
   * nothing else, derived-class fields first, each class's in declaration
   * order, none twice.
   */
  function GetFields(p: Packet): (r: seq<Field>)
    ensures forall f :: f in r <==> f in AllFields(p.handle.cls) && !f.decl.isStatic
    ensures Ordered(r)
    ensures forall i, j :: 0 <= i < |r| && 0 <= j < |r| && i != j ==> r[i] != r[j]
  {
    InstanceFields(p.handle.cls);
    MatchingOrdered(p.handle.cls, AnyType);
    Matching(p.handle.cls, AnyType)
  }

  lemma InstanceFields(c: JClass)
    ensures forall f :: f in Matching(c, AnyType) <==> f in AllFields(c) && !f.decl.isStatic
  {
    forall f ensures f in Matching(c, AnyType) <==> f in AllFields(c) && !f.decl.isStatic {
      MatchingSoundAndComplete(c, AnyType, f);
    }
  }

  /** The `position`-th field the selector wants, or IndexOutOfBounds. */
  function FieldAt(c: JClass, sel: Selector, position: int): (r: Result<Field, AccessError>)
    ensures r.Ok? <==> 0 <= position < |Matching(c, sel)|
    ensures r.Err? ==> r.error == IndexOutOfBounds
    ensures r.Ok? ==> r.value == Matching(c, sel)[position] && r.value in AllFields(c) && Selects(sel, r.value.decl)
  {
    var fs := Matching(c, sel);
    if 0 <= position < |fs| then
      MatchingSoundAndComplete(c, sel, fs[position]);
      Ok(fs[position])
    else Err(IndexOutOfBounds)
  }

  /** `getField`: the `position`-th instance field, or IndexOutOfBounds. */
  function GetField(p: Packet, position: int): (r: Result<Field, AccessError>)
    ensures r.Ok? <==> 0 <= position < |GetFields(p)|
    ensures r.Err? ==> r.error == IndexOutOfBounds
    ensures r.Ok? ==> r.value == GetFields(p)[position] && !r.value.decl.isStatic
  {
    FieldAt(p.handle.cls, AnyType, position)
  }

  /** The value of the `position`-th field the selector wants, read from `store`. */
  function ValueAt(c: JClass, store: map<Field, Value>, sel: Selector, position: int): (r: Result<Value, AccessError>)
    requires Covers(c, store)
    ensures r.Ok? <==> 0 <= position < |Matching(c, sel)|
    ensures r.Err? ==> r.error == IndexOutOfBounds
  {
    match FieldAt(c, sel, position)
    case Err(e) => Err(e)
    case Ok(f) =>
      SelectedAreInstanceFields(c, sel, f);
      Ok(store[f])
  }

  /** `getFieldValue`: the value of the `position`-th instance field, or IndexOutOfBounds. */
  function GetFieldValue(p: Packet, position: int): (r: Result<Value, AccessError>)
    reads p.handle
    requires p.handle.Valid()
    ensures r.Ok? <==> 0 <= position < |GetFields(p)|
    ensures r.Err? ==> r.error == IndexOutOfBounds
  {
    ValueAt(p.handle.cls, p.handle.store, AnyType, position)
  }

  /** `getFieldValueOfType`: the value of the `position`-th instance field declared exactly of type `t`. */
  function GetFieldValueOfType(p: Packet, t: JType, position: int): (r: Result<Value, AccessError>)
    reads p.handle
    requires p.handle.Valid()
    ensures r.Ok? <==> 0 <= position < |Matching(p.handle.cls, OfType(t))|
    ensures r.Err? ==> r.error == IndexOutOfBounds
  {
    ValueAt(p.handle.cls, p.handle.store, OfType(t), position)
  }

  /**
   * The typed accessors index only the instance fields declared exactly of
   * type `t`, in the order `getFields` lists them.
   */
  lemma OfTypeIndexesExactType(c: JClass, t: JType, k: int)
    requires FieldAt(c, OfType(t), k).Ok?
    ensures var f := FieldAt(c, OfType(t), k).value;
      f.decl.declaredType == t && f in Matching(c, AnyType)
  {
    SelectedAreInstanceFields(c, OfType(t), FieldAt(c, OfType(t), k).value);
  }

  /**
   * Writing field `f` (the `position`-th the selector wants) and reading back:
   * that position now holds `v`, every other position of the same search and
   * every position of any other search that is not `f` reads as before.
   */
  lemma {:induction false} SetThenGet(c: JClass, store: map<Field, Value>, sel: Selector, position: int, v: Value)
    requires Covers(c, store)
    requires FieldAt(c, sel, position).Ok?
    ensures var f := FieldAt(c, sel, position).value;
      && Covers(c, store[f := v])
      && ValueAt(c, store[f := v], sel, position) == Ok(v)
      && (forall j :: j != position ==> ValueAt(c, store[f := v], sel, j) == ValueAt(c, store, sel, j))
      && (forall sel', j :: FieldAt(c, sel', j) != Ok(f) ==> ValueAt(c, store[f := v], sel', j) == ValueAt(c, store, sel', j))
  {
    var f := FieldAt(c, sel, position).value;
    MatchingOrdered(c, sel);
    forall j | j != position ensures ValueAt(c, store[f := v], sel, j) == ValueAt(c, store, sel, j) {
      if 0 <= j < |Matching(c, sel)| {
        assert Matching(c, sel)[j] != f;
      }
    }
  }

  /**
   * `setFieldValue`: writes `value` into the `position`-th instance field.
   * Throws IndexOutOfBounds for a position outside the fields, and
   * IllegalArgument when `value` cannot be assigned to the field's type.
   */
  method SetFieldValue(p: Packet, position: int, value: Value, assignable: (Value, JType) -> bool)
    returns (r: Result<(), AccessError>)
    requires p.handle.Valid()
    modifies p.handle
    ensures p.handle.Valid()
    ensures r.Err? && r.error == IndexOutOfBounds <==> !(0 <= position < |GetFields(p)|)
    ensures r.Err? && r.error == IllegalArgument <==>
      0 <= position < |GetFields(p)| && !assignable(value, GetFields(p)[position].decl.declaredType)
    ensures p.handle.store ==
      if r.Ok? then old(p.handle.store)[GetFields(p)[position] := value] else old(p.handle.store)
    ensures r.Ok? ==> GetFieldValue(p, position) == Ok(value)
    ensures forall j :: j != position ==> GetFieldValue(p, j) == old(GetFieldValue(p, j))
  {
    var field := GetField(p, position);
    if field.Err? {
      return Err(field.error);
    }
    var f := field.value;
    if !assignable(value, f.decl.declaredType) {
      return Err(IllegalArgument);
    }
    SetThenGet(p.handle.cls, p.handle.store, AnyType, position, value);
    p.handle.store := p.handle.store[f := value];
    r := Ok(());
  }

  /**
   * `setFieldValueOfType`: writes `value` into the `position`-th instance field
   * declared exactly of type `t`, with the same failures as `setFieldValue`.
   */
  method SetFieldValueOfType(p: Packet, t: JType, position: int, value: Value, assignable: (Value, JType) -> bool)
    returns (r: Result<(), AccessError>)
    requires p.handle.Valid()
    modifies p.handle
    ensures p.handle.Valid()
    ensures r.Err? && r.error == IndexOutOfBounds <==> !(0 <= position < |Matching(p.handle.cls, OfType(t))|)
    ensures r.Err? && r.error == IllegalArgument <==>
      0 <= position < |Matching(p.handle.cls, OfType(t))| && !assignable(value, t)
    ensures p.handle.store ==
      if r.Ok? then old(p.handle.store)[Matching(p.handle.cls, OfType(t))[position] := value] else old(p.handle.store)
    ensures r.Ok? ==> GetFieldValueOfType(p, t, position) == Ok(value)
    ensures forall j :: j != position ==> GetFieldValueOfType(p, t, j) == old(GetFieldValueOfType(p, t, j))
  {
    var fields := FindFields(p.handle.cls, OfType(t));
    if !(0 <= position < |fields|) {
      return Err(IndexOutOfBounds);
    }
    var f := fields[position];
    assert FieldAt(p.handle.cls, OfType(t), position) == Ok(f);
    if !assignable(value, f.decl.declaredType) {
      return Err(IllegalArgument);
    }
    SetThenGet(p.handle.cls, p.handle.store, OfType(t), position, value);
    p.handle.store := p.handle.store[f := value];
    r := Ok(());
  }
}
