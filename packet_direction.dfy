/** The direction of a packet, with the table that maps both token forms to it. */
module PacketDirection {
  import opened Wrappers
  import opened JavaStrings

  /** CLIENTBOUND (server to client) and SERVERBOUND (client to server). */
  datatype Direction = Clientbound | Serverbound

  /** `name()`: the constant's identifier. */
  function EnumName(d: Direction): string {
    match d
    case Clientbound => "CLIENTBOUND"
    case Serverbound => "SERVERBOUND"
  }

  /** The token legacy Spigot class names use: "Out" for clientbound, "In" for serverbound. */
  function LegacyName(d: Direction): string {
    match d
    case Clientbound => "Out"
    case Serverbound => "In"
  }

  /**
   * The modern key as the static initialiser builds it: the first character of
   * `name()` followed by the rest lower-cased in the JVM's default locale,
   * which lowers each character by `lower`.
   */
  function ModernKey(d: Direction, lower: Lowering): string {
    var name := EnumName(d);
    [name[0]] + ToLowerCase(name[1..], lower)
  }

  /** BY_SPIGOTNAME as the static initialiser fills it in a locale: modern key then legacy key, per constant. */
  function TableIn(lower: Lowering): map<string, Direction> {
    map[ModernKey(Clientbound, lower) := Clientbound]
      [LegacyName(Clientbound) := Clientbound]
      [ModernKey(Serverbound, lower) := Serverbound]
      [LegacyName(Serverbound) := Serverbound]
  }

  /** `getBySpigotName` over the table built in a locale: the entry, or null (None). */
  function GetBySpigotNameIn(name: string, lower: Lowering): Option<Direction> {
    if name in TableIn(lower) then Some(TableIn(lower)[name]) else None
  }

  /**
   * Under a Turkish or Azerbaijani default locale the 'I' of CLIENTBOUND
   * lower-cases to the dotless 'ı': the table holds "Clıentbound", so the word
   * every modern clientbound class name starts with is not found, while the
   * legacy token and SERVERBOUND, which has no 'I', are.
   */
  lemma TurkishLocaleDropsClientbound()
    ensures ModernKey(Clientbound, TurkishLower)[2] == '\U{0131}'
    ensures GetBySpigotNameIn("Clientbound", TurkishLower) == None
    ensures GetBySpigotNameIn("Out", TurkishLower) == Some(Clientbound)
  {
    var key := ModernKey(Clientbound, TurkishLower);
    assert EnumName(Clientbound)[1..][1] == 'I';
    assert key[2] == '\U{0131}';
    assert key != "Clientbound" by {
      assert "Clientbound"[2] == 'i';
    }
    assert ModernKey(Serverbound, TurkishLower)[0] == 'S';
    assert "Clientbound"[0] == 'C';
  }

  /** The modern key in the root locale, as the rest of the library expects it. */
  function ModernName(d: Direction): string {
    ModernKey(d, RootLower)
  }

  /** The modern key of CLIENTBOUND in the root locale, spelled out. */
  lemma ModernNameOfClientbound()
    ensures ModernName(Clientbound) == "Clientbound"
  {
    assert EnumName(Clientbound)[1..] == "LIENTBOUND";
    var lower := ToLowerCase("LIENTBOUND", RootLower);
    assert lower[0] == 'l' && lower[1] == 'i' && lower[2] == 'e' && lower[3] == 'n' && lower[4] == 't';
    assert lower[5] == 'b' && lower[6] == 'o' && lower[7] == 'u' && lower[8] == 'n' && lower[9] == 'd';
  }

  /** The modern key of SERVERBOUND in the root locale, spelled out. */
  lemma ModernNameOfServerbound()
    ensures ModernName(Serverbound) == "Serverbound"
  {
    assert EnumName(Serverbound)[1..] == "ERVERBOUND";
    var lower := ToLowerCase("ERVERBOUND", RootLower);
    assert lower[0] == 'e' && lower[1] == 'r' && lower[2] == 'v' && lower[3] == 'e' && lower[4] == 'r';
    assert lower[5] == 'b' && lower[6] == 'o' && lower[7] == 'u' && lower[8] == 'n' && lower[9] == 'd';
  }

  /** BY_SPIGOTNAME built in the root locale. */
  function Table(): map<string, Direction> {
    TableIn(RootLower)
  }

  /** `getBySpigotName` with the table built in the root locale: the entry, or null (None) when there is none. */
  function GetBySpigotName(name: string): (r: Option<Direction>)
    ensures r == Some(Clientbound) <==> name == "Clientbound" || name == "Out"
    ensures r == Some(Serverbound) <==> name == "Serverbound" || name == "In"
    ensures r == None <==> name !in {"Clientbound", "Out", "Serverbound", "In"}
  {
    ModernNameOfClientbound();
    ModernNameOfServerbound();
    GetBySpigotNameIn(name, RootLower)
  }

  /** The four keys are distinct, so no entry of the table overwrites another. */
  lemma TableHasFourEntries()
    ensures Table().Keys == {"Clientbound", "Out", "Serverbound", "In"}
    ensures |Table()| == 4
  {
    ModernNameOfClientbound();
    ModernNameOfServerbound();
    var keys := {"Clientbound", "Out", "Serverbound", "In"};
    assert Table().Keys == keys;
    assert |keys| == 4;
  }

  /** Both token forms of every direction are found again by the lookup. */
  lemma TokenRoundTrip(d: Direction)
    ensures GetBySpigotName(ModernName(d)) == Some(d)
    ensures GetBySpigotName(LegacyName(d)) == Some(d)
  {
    ModernNameOfClientbound();
    ModernNameOfServerbound();
  }

  /** The lookup is case-sensitive and has no default. */
  lemma LookupIsCaseSensitive()
    ensures GetBySpigotName("out") == None
    ensures GetBySpigotName("CLIENTBOUND") == None
    ensures GetBySpigotName("") == None
  {
  }
}
