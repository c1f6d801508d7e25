/** The protocol stage of a packet, with the table that maps a legacy class-name token to it. */
module PacketStage {

  /** HANDSHAKE, LOGIN, PLAY, QUERY and UNKNOWN, in declaration order. */
  datatype Stage = Handshake | Login | Play | Query | Unknown

  /** The name each stage has in legacy Spigot packet class names. */
  function SpigotName(s: Stage): string {
    match s
    case Handshake => "Handshaking"
    case Login => "Login"
    case Play => "Play"
    case Query => "Status"
    case Unknown => ""
  }

  /** BY_SPIGOTNAME as the static initialiser fills it: one entry per constant, in declaration order. */
  function Table(): map<string, Stage> {
    map[SpigotName(Handshake) := Handshake]
      [SpigotName(Login) := Login]
      [SpigotName(Play) := Play]
      [SpigotName(Query) := Query]
      [SpigotName(Unknown) := Unknown]
  }

  /** `getBySpigotName`: the table entry, or UNKNOWN when there is none; never null. */
  function GetBySpigotName(name: string): (s: Stage)
    ensures s == Handshake <==> name == "Handshaking"
    ensures s == Login <==> name == "Login"
    ensures s == Play <==> name == "Play"
    ensures s == Query <==> name == "Status"
    ensures s == Unknown <==> name !in {"Handshaking", "Login", "Play", "Status"}
  {
    if name in Table() then Table()[name] else Unknown
  }

  /** The five spigot names are distinct, so no entry of the table overwrites another. */
  lemma TableHasOneEntryPerStage()
    ensures Table().Keys == {"Handshaking", "Login", "Play", "Status", ""}
    ensures |Table()| == 5
    ensures forall s: Stage :: SpigotName(s) in Table() && Table()[SpigotName(s)] == s
  {
    var keys := {"Handshaking", "Login", "Play", "Status", ""};
    assert Table().Keys == keys;
    assert |keys| == 5;
  }

  /** Every stage is found again from its own spigot name. */
  lemma SpigotNameRoundTrip(s: Stage)
    ensures GetBySpigotName(SpigotName(s)) == s
  {
  }

  /** The lookup is case-sensitive and has a default: "login" and "" are not LOGIN. */
  lemma LookupIsCaseSensitive()
    ensures GetBySpigotName("login") == Unknown
    ensures GetBySpigotName("LOGIN") == Unknown
    ensures GetBySpigotName("") == Unknown
  {
  }
}
