# PacketListener core, modelled in Dafny

PacketListener is a Bukkit/Spigot library that puts a handler into every
player connection's Netty pipeline. Each message read from or written to the
connection is classified as a Minecraft packet from the simple name and
package of its runtime class. Recognised packets are published as cancellable
events, and plugins can read and rewrite the packet's fields by position or by
declared type. A packet whose event ends cancelled is dropped. The handler also
remembers the connection's game profile, taken from the LOGIN "Success" and
"Start" packets, and the online player that profile belongs to.

The model has one module per part of the core:

- `PacketStage` (`packet_stage.dfy`): the stage enum and its legacy-name
  table. `getBySpigotName` falls back to UNKNOWN.
- `PacketDirection` (`packet_direction.dfy`): the direction enum and its table
  of modern and legacy tokens. The modern key is built from the constant's
  name as the static initialiser builds it, with the locale's lower-casing a
  parameter; the lookup the rest of the model uses is the one whose table is
  built in the root locale (see Findings). `getBySpigotName` has no default
  (None stands for null).
- `Reflection` (`reflection.dfy`): the field search over a class hierarchy.
  A class is a value holding its own declared fields in reflection order and
  its superclass. `findFields` is a method with a loop and a recursive call on
  the superclass, proved equal to a filter over the whole hierarchy.
  `findField` is a recursive function proved to return that list's head.
- `Packets` (`packets.dfy`): the packet wrapper. `fromHandle` is modelled with
  the two regular expressions replaced by prefix/suffix predicates that try the
  alternatives in the engine's order. The getters are functions over the
  wrapped object's field store. The two setters are methods that update the
  store in place.
- `Events` (`events.dfy`): the event class with final payload fields and a
  mutable `cancelled` flag, and the event bus as a sequence of observers run
  in order.
- `Interceptor` (`interceptor.dfy`): the pipeline handler as a class with the
  mutable `profile` and `player` fields, a ghost log of the messages it hands
  on, and methods for `handlePacket`, `callEvent`, `channelRead` and `write`.
  Each method is proved against a pure transition function. Lemmas about that
  function cover single packets and whole runs.
- `JavaStrings` and `Wrappers`: the `String` operations the code uses and the
  Option/Result types.

Foreign calls are parameters. `Bukkit.getPlayer(profile.getId())` is a
`Lookup` from a profile to an optional player; None stands for both "no such
player" and "the call threw". Each registered listener is an `Observer`: it
sees the event and either sets its flag or leaves it alone. Whether
`Field.set` accepts a value for a field's declared type is an `assignable`
predicate passed to the setters.

Where the annotations and the code disagree, the model follows the code.
`PacketStage.getBySpigotName` is annotated `@Nullable`, but it uses
`getOrDefault` and never returns null.

## Model

| member | source | states |
|---|---|---|
| `PacketStage.GetBySpigotName` | src/main/java/cc/meteormc/packetlistener/objects/PacketStage.java:55-57 | "Handshaking", "Login", "Play" and "Status" map to HANDSHAKE, LOGIN, PLAY and QUERY, each if and only if; every other string, "" included, maps to UNKNOWN, never null |
| `PacketStage.TableHasOneEntryPerStage` | src/main/java/cc/meteormc/packetlistener/objects/PacketStage.java:45-49 | the table filled from all five constants has exactly the five spigot names as keys, none overwritten, each stage stored under its own name |
| `PacketStage.SpigotNameRoundTrip` | src/main/java/cc/meteormc/packetlistener/objects/PacketStage.java:19-40 | every stage is found again from its own spigot name |
| `PacketStage.LookupIsCaseSensitive` | src/main/java/cc/meteormc/packetlistener/objects/PacketStage.java:55-56 | "login", "LOGIN" and "" give UNKNOWN |
| `PacketDirection.ModernNameOfClientbound` | src/main/java/cc/meteormc/packetlistener/objects/PacketDirection.java:29-30 | the first character of CLIENTBOUND followed by the rest lower-cased is "Clientbound" |
| `PacketDirection.ModernNameOfServerbound` | src/main/java/cc/meteormc/packetlistener/objects/PacketDirection.java:29-30 | the same construction on SERVERBOUND gives "Serverbound" |
| `PacketDirection.TurkishLocaleDropsClientbound` | src/main/java/cc/meteormc/packetlistener/objects/PacketDirection.java:27-41 | when the default locale lower-cases 'I' to the dotless 'ı' (Turkish, Azerbaijani), the modern key of CLIENTBOUND holds 'ı' and "Clientbound" is not found, while "Out" still is |
| `PacketDirection.GetBySpigotName` | src/main/java/cc/meteormc/packetlistener/objects/PacketDirection.java:39-41 | with the table built in the root locale: CLIENTBOUND exactly for "Clientbound" and "Out", SERVERBOUND exactly for "Serverbound" and "In", null (None) for every other string |
| `PacketDirection.TableHasFourEntries` | src/main/java/cc/meteormc/packetlistener/objects/PacketDirection.java:27-32 | the table has exactly the four keys, so no entry overwrites another |
| `PacketDirection.TokenRoundTrip` | src/main/java/cc/meteormc/packetlistener/objects/PacketDirection.java:18-32 | both the modern and the legacy token of each direction lead back to it |
| `PacketDirection.LookupIsCaseSensitive` | src/main/java/cc/meteormc/packetlistener/objects/PacketDirection.java:39-41 | "out", "CLIENTBOUND" and "" give null |
| `Reflection.First` | src/main/java/cc/meteormc/packetlistener/helper/Reflection.java:78-83 | the scan of one class's declared fields returns the first wanted field of that class, and nothing exactly when the class has none |
| `Reflection.FindField` | src/main/java/cc/meteormc/packetlistener/helper/Reflection.java:77-89 | `findField` returns null exactly when `findFields` returns an empty list, and otherwise that list's first element |
| `Reflection.FindFields` | src/main/java/cc/meteormc/packetlistener/helper/Reflection.java:99-111 | the result is exactly the wanted non-static fields of the whole hierarchy, in hierarchy-walk order |
| `Reflection.MatchingUnfolds` | src/main/java/cc/meteormc/packetlistener/helper/Reflection.java:99-111 | the search for a class is the class's own wanted fields in declaration order, followed by the search for its superclass; empty when nothing in the chain matches |
| `Reflection.MatchingSoundAndComplete` | src/main/java/cc/meteormc/packetlistener/helper/Reflection.java:54-67 | a field is returned if and only if it belongs to the hierarchy, is not static and has the wanted type; no static field is ever returned |
| `Reflection.ExactTypeOnly` | src/main/java/cc/meteormc/packetlistener/helper/Reflection.java:103 | the `Class` overloads return a hierarchy field if and only if it is non-static and declared exactly of the given type; a subtype does not match |
| `Reflection.TypeNameIgnoresCase` | src/main/java/cc/meteormc/packetlistener/helper/Reflection.java:29-67 | type names equal ignoring case find the same fields in the same order and the same first field |
| `Reflection.MatchingOrdered` | src/main/java/cc/meteormc/packetlistener/helper/Reflection.java:108-110 | derived-class fields come before inherited ones, each class's in declaration order, and no field is returned twice |
| `Reflection.SelectedAreInstanceFields` | src/main/java/cc/meteormc/packetlistener/helper/Reflection.java:102 | every field a type search returns is one of the hierarchy's instance fields |
| `Packets.MatchModern` | src/main/java/cc/meteormc/packetlistener/objects/Packet.java:26 | a match reports group 1 as "Clientbound" or "Serverbound", a prefix of the name, and group 2 as a non-empty run of characters `.` matches, in a name ending in "Packet" |
| `Packets.MatchLegacy` | src/main/java/cc/meteormc/packetlistener/objects/Packet.java:27 | a match is of a name starting with "Packet" and reports one of the four stage words, "In" or "Out", and a non-empty run of characters `.` matches |
| `Packets.LegacyStage` | src/main/java/cc/meteormc/packetlistener/objects/Packet.java:27 | after a stage word, group 2 is "In" or "Out" and group 3 a non-empty run of characters `.` matches |
| `Packets.LegacyDirection` | src/main/java/cc/meteormc/packetlistener/objects/Packet.java:27 | after a direction word, group 3 is a non-empty run of characters `.` matches |
| `Packets.MatchModernIff` | src/main/java/cc/meteormc/packetlistener/objects/Packet.java:26 | the modern pattern matches with groups d, x exactly when the name is d + x + "Packet", with d "Clientbound" or "Serverbound" and x a non-empty run of characters `.` matches |
| `Packets.MatchLegacyIff` | src/main/java/cc/meteormc/packetlistener/objects/Packet.java:27 | the legacy pattern matches with groups S, D, X exactly when the name is "Packet" + S + D + X, with S one of the four stage words, D "In" or "Out" and X non-empty |
| `Packets.DecompositionUnique` | src/main/java/cc/meteormc/packetlistener/objects/Packet.java:26-27 | no name has both shapes, and within each shape the decomposition is unique |
| `Packets.FromHandle` | src/main/java/cc/meteormc/packetlistener/objects/Packet.java:50-82 | a non-null result wraps the given object |
| `Packets.ClassifiesModern` | src/main/java/cc/meteormc/packetlistener/objects/Packet.java:54-65 | a `net.minecraft` class named d + x + "Packet" gives stage UNKNOWN, the direction d names, and name x |
| `Packets.ClassifiesLegacy` | src/main/java/cc/meteormc/packetlistener/objects/Packet.java:67-78 | a `net.minecraft` class named "Packet" + S + D + X gives the stage lookup(S), never UNKNOWN, the direction D names ("Out" clientbound, "In" serverbound), and name X |
| `Packets.UnclassifiedIffNoShape` | src/main/java/cc/meteormc/packetlistener/objects/Packet.java:54-81 | the result is null if and only if the package does not start with `net.minecraft` or the name has neither shape |
| `Packets.ClassifiedHasDirectionAndName` | src/main/java/cc/meteormc/packetlistener/objects/Packet.java:57-75 | every packet has a non-null direction and a non-empty name |
| `Packets.LoginStartExample` | src/main/java/cc/meteormc/packetlistener/objects/Packet.java:67-78 | `PacketLoginInStart` is LOGIN, SERVERBOUND, "Start" |
| `Packets.LoginFinishedExample` | src/main/java/cc/meteormc/packetlistener/objects/Packet.java:55-65 | `ClientboundLoginFinishedPacket` is UNKNOWN, CLIENTBOUND, "LoginFinished" |
| `Packets.EmptyNameExamples` | src/main/java/cc/meteormc/packetlistener/objects/Packet.java:26-27 | `ClientboundPacket` and `PacketPlayIn`, whose name group would be empty, are not packets |
| `Packets.GetFields` | src/main/java/cc/meteormc/packetlistener/objects/Packet.java:135-141 | `getFields` holds a field if and only if it is a non-static field of the whole hierarchy; derived-class fields come first, each class's in declaration order, none twice |
| `Packets.FieldAt` | src/main/java/cc/meteormc/packetlistener/objects/Packet.java:229 | indexing a search result gives its element for a position in range, and IndexOutOfBounds otherwise |
| `Packets.GetField` | src/main/java/cc/meteormc/packetlistener/objects/Packet.java:151-153 | the position-th field of `getFields` exactly when the position is in range; every failure is IndexOutOfBounds |
| `Packets.ValueAt` | src/main/java/cc/meteormc/packetlistener/objects/Packet.java:175 | reading a field by position fails exactly for positions out of range, always with IndexOutOfBounds |
| `Packets.GetFieldValue` | src/main/java/cc/meteormc/packetlistener/objects/Packet.java:172-179 | a value exactly for positions in range of `getFields`, IndexOutOfBounds otherwise |
| `Packets.GetFieldValueOfType` | src/main/java/cc/meteormc/packetlistener/objects/Packet.java:226-233 | a value exactly for positions in range of the fields of exactly that type, IndexOutOfBounds otherwise |
| `Packets.OfTypeIndexesExactType` | src/main/java/cc/meteormc/packetlistener/objects/Packet.java:229 | the typed accessors index only instance fields declared exactly of the given type |
| `Packets.SetThenGet` | src/main/java/cc/meteormc/packetlistener/objects/Packet.java:198-204 | after a write, that position reads the new value; every other position of the same search, and every position of any search that is not the written field, reads as before |
| `Packets.SetFieldValue` | src/main/java/cc/meteormc/packetlistener/objects/Packet.java:198-204 | IndexOutOfBounds exactly for positions out of range, IllegalArgument exactly for a value the field's type refuses; otherwise only that field changes, and reading it back gives the value while every other position reads as before |
| `Packets.SetFieldValueOfType` | src/main/java/cc/meteormc/packetlistener/objects/Packet.java:255-261 | the same for positions among the fields of exactly the given type, found with `findFields` |
| `Events.Dispatch` | src/main/java/cc/meteormc/packetlistener/internal/PacketInterceptor.java:126 | the flag the bus leaves is the one the event had, or a value some listener set |
| `Events.DispatchAppend` | src/main/java/cc/meteormc/packetlistener/internal/PacketInterceptor.java:126 | running two groups of listeners one after the other is running the second on the flag the first left |
| `Events.NoWritersKeepFlag` | src/main/java/cc/meteormc/packetlistener/event/PacketEvent.java:23 | listeners that never set the flag leave it as it was, so a new event stays not cancelled |
| `Events.LastWriterWins` | src/main/java/cc/meteormc/packetlistener/event/PacketEvent.java:96-99 | the last listener to set the flag decides it whatever earlier ones set, so an event can be un-cancelled |
| `Events.PacketEvent.constructor` | src/main/java/cc/meteormc/packetlistener/event/PacketEvent.java:33-38 | a new event holds its arguments, a null profile and player included, and is not cancelled |
| `Events.PacketEvent.View` | src/main/java/cc/meteormc/packetlistener/event/PacketEvent.java:46-87 | what listeners see carries the event's current flag and its packet |
| `Events.PacketEvent.IsCancelled` | src/main/java/cc/meteormc/packetlistener/event/PacketEvent.java:85-88 | `isCancelled` reports the flag listeners see |
| `Events.PacketEvent.SetCancelled` | src/main/java/cc/meteormc/packetlistener/event/PacketEvent.java:96-99 | `isCancelled` then returns the argument, and ctx, profile, player and packet are unchanged |
| `Interceptor.ProfileField` | src/main/java/cc/meteormc/packetlistener/internal/PacketInterceptor.java:100 | reading the first GameProfile-typed field fails exactly when the packet has no such field |
| `Interceptor.LongSReadsAsStart` | src/main/java/cc/meteormc/packetlistener/internal/PacketInterceptor.java:105 | a serverbound LOGIN packet named "ſtart" counts as "Start", because `equalsIgnoreCase` upper-cases 'ſ' to 'S' |
| `Interceptor.Transition` | src/main/java/cc/meteormc/packetlistener/internal/PacketInterceptor.java:95-116 | only LOGIN "Success"/"Start" packets change the profile; a known player never changes; an unknown one changes only while a profile is known, and only to what the lookup returns for it |
| `Interceptor.LoginPacketSetsProfile` | src/main/java/cc/meteormc/packetlistener/internal/PacketInterceptor.java:97-113 | a LOGIN "Success" (clientbound) or "Start" (serverbound) packet overwrites the profile with its first GameProfile field, with no write-once guard, and when no player is known the same packet triggers the lookup for that profile; without such a field nothing changes and no lookup is made |
| `Interceptor.ModernPacketKeepsProfile` | src/main/java/cc/meteormc/packetlistener/internal/PacketInterceptor.java:98-105 | a packet of the modern naming scheme, stage UNKNOWN, never changes the profile |
| `Interceptor.LookupRetried` | src/main/java/cc/meteormc/packetlistener/internal/PacketInterceptor.java:111-113 | while a profile is known and no player, every packet that is not a login packet retries the lookup |
| `Interceptor.PlayerStable` | src/main/java/cc/meteormc/packetlistener/internal/PacketInterceptor.java:111-113 | over any run of packets, a known player stays the same |
| `Interceptor.ProfileOnlyFromLogin` | src/main/java/cc/meteormc/packetlistener/internal/PacketInterceptor.java:95-116 | over a run without LOGIN "Success"/"Start" packets the profile stays the same |
| `Interceptor.LoginStartResolvesPlayer` | src/main/java/cc/meteormc/packetlistener/internal/PacketInterceptor.java:95-116 | when the first packet is a LOGIN "Start" carrying a profile whose lookup answers, that packet sets the profile and the player, and the player stays so to the end of the run whatever later lookups answer; so does the profile unless a later login packet carries another |
| `Interceptor.PlayerFoundLater` | src/main/java/cc/meteormc/packetlistener/internal/PacketInterceptor.java:111-113 | after failed lookups, the player becomes what the first lookup that answers returns, and keeps it to the end of the run |
| `Interceptor.Intercept` | src/main/java/cc/meteormc/packetlistener/internal/PacketInterceptor.java:36-47 | a message that is not a packet is handed on with the state unchanged; a known player survives; a packet is dropped only when some listener set its flag to cancelled |
| `Interceptor.UnclassifiedForwarded` | src/main/java/cc/meteormc/packetlistener/internal/PacketInterceptor.java:36-47 | a message outside the `net.minecraft` packages is handed on and the state does not change |
| `Interceptor.SilentObserversForward` | src/main/java/cc/meteormc/packetlistener/internal/PacketInterceptor.java:124-136 | when no listener sets the flag, every message is handed on |
| `Interceptor.LastCancelDrops` | src/main/java/cc/meteormc/packetlistener/internal/PacketInterceptor.java:36-47 | a packet whose last flag-setting listener cancels is dropped, whatever earlier listeners did, and the state is still updated |
| `Interceptor.PacketInterceptor.constructor` | src/main/java/cc/meteormc/packetlistener/internal/PacketInterceptor.java:22-23 | a new handler knows no profile and no player and has handed nothing on |
| `Interceptor.PacketInterceptor.HandlePacket` | src/main/java/cc/meteormc/packetlistener/internal/PacketInterceptor.java:95-116 | the new profile and player are those of the transition, and nothing is handed on |
| `Interceptor.PacketInterceptor.CallEvent` | src/main/java/cc/meteormc/packetlistener/internal/PacketInterceptor.java:124-136 | returns the event's flag as the listeners, run in order, leave it; only the flag changes |
| `Interceptor.PacketInterceptor.ChannelRead` | src/main/java/cc/meteormc/packetlistener/internal/PacketInterceptor.java:35-47 | the state becomes the transition's, and the message is handed on by `fireChannelRead` exactly when it is not a packet or its event, built from the updated state, ends not cancelled |
| `Interceptor.PacketInterceptor.Write` | src/main/java/cc/meteormc/packetlistener/internal/PacketInterceptor.java:60-72 | the same for an outbound message, handed on with its promise |

## Left out

- `NettyPipelineInjector` is left out. It is threads, busy-wait loops, pipeline mutation on Netty threads, and a reflective lookup of the server connection.
- The `PacketListener` plugin class (bootstrap and logger) is left out. It calls `NettyPipelineInjector.inject()`, but the injector shown declares `injectAll()`; that mismatch is outside the model.
- `PacketInboundEvent` and `PacketOutboundEvent` are Bukkit `HandlerList` boilerplate. They appear only as the event's `Kind`.
- The regular-expression engine is replaced by predicates that try the alternatives in the engine's order. `.` is taken to match every character except the five Java line terminators.
- `JavaStrings.EqualsIgnoreCase` folds case only for the ASCII letters and the four other characters whose case maps onto an ASCII letter ('ı', 'ſ', 'İ' and the Kelvin sign). That is exact whenever one side is an ASCII word, as "Success" and "Start" are. Two non-ASCII names that differ only in case, such as 'é' and 'É', are not folded; this only affects the `String` overloads of `Reflection`.
- `setAccessible`, `SecurityException` and access failures other than bounds are left out. `Field.get` on an accessible field cannot fail, and every way `Field.set` can refuse a value is folded into the `assignable` parameter.
- The order of `getDeclaredFields` is taken as given: each class lists its declared fields in a fixed order.
- Apache `FieldUtils.getAllFieldsList` is modelled by its documented behaviour: the class's declared fields, then each superclass's.
- `getPackage()` returning null is left out. Every class has a package name.
- Null arguments the annotations forbid (a null handle, type or type name) are left out.
- `toString` and `getFullName` only format strings and are left out.
- `exceptionCaught` only passes the exception on and is left out.
- Listeners rewriting the packet's fields during dispatch is left out. An observer sees the event and may only set its flag.
- `Bukkit.getPlayer` and `GameProfile.getId` are one `Lookup` parameter. A lookup that throws is the same as one that finds nobody.
- `callEvent` catching an exception from the bus itself is left out. A listener that throws is logged and skipped by the bus. A `setCancelled` call it made before throwing stands, so it is an observer returning the last value it set, or None if it set nothing.
- `callEvent`'s `instanceof Cancellable` test is left out. Both event classes are cancellable, so the test always holds.
- `PacketDirection.ModernName`: the key is built in the root locale, while the source lower-cases in the JVM's default locale. `PacketDirection.ModernKey` keeps the locale as a parameter, and `PacketDirection.TurkishLocaleDropsClientbound` shows what a Turkish or Azerbaijani locale does.
- The profile and player are opaque references. The model does not look inside a `GameProfile` or a `Player`.

## Findings

| source | as written | input that shows it | evidently intended | confidence | as-written member | corrected member |
|---|---|---|---|---|---|---|
| src/main/java/cc/meteormc/packetlistener/objects/PacketDirection.java:30 | `name.substring(1).toLowerCase()` lower-cases in the JVM's default locale | default locale Turkish or Azerbaijani: CLIENTBOUND's key becomes "Clıentbound", so `getBySpigotName("Clientbound")` returns null and every modern clientbound packet gets a null direction | a locale-independent key "Clientbound", as `toLowerCase(Locale.ROOT)` builds it | not executed | `PacketDirection.TurkishLocaleDropsClientbound` | `PacketDirection.GetBySpigotName` |
