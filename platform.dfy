/** The platform plugin (`platform_sfputil`, an instance of the platform's
    `SfpUtil` class) as the core sees it, and the ways a Python call can end.
    The plugin's methods are not part of this model: each is an oracle here. */
module Platform {
  import opened Strings
  import opened Printing

  /** What a plugin call gives back: a value, or a raised NotImplementedError. */
  datatype Reply<+T> = Value(value: T) | NotImplemented

  /** The optional 'dom' section of an EEPROM dictionary; its 'data' may be absent. */
  datatype DomSection = DomSection(data: Option<map<string, Val>>)

  /** A dictionary returned by get_eeprom_dict: eeprom_dict['interface']['data']
      and the optional eeprom_dict['dom']. */
  datatype EepromRecord = EepromRecord(interfaceData: map<string, Val>, dom: Option<DomSection>)

  /** The plugin: its list of logical ports, its port table (is_logical_port is
      membership, get_logical_to_physical the lookup), is_valid_sfputil_port,
      and one oracle per hardware call. */
  datatype SfpUtil = SfpUtil(
    logical: seq<string>,
    portTable: map<string, seq<int>>,
    isValidPort: string -> bool,
    presence: int -> Reply<bool>,
    eepromDict: int -> Reply<Option<EepromRecord>>,
    eepromRaw: int -> Reply<Option<seq<string>>>,
    lowPowerMode: int -> Reply<bool>,
    setLowPowerMode: (int, bool) -> Reply<bool>,
    reset: int -> Reply<bool>)

  /** The exceptions that escape the core uncaught. */
  datatype PyError = ValueError | NotImplementedError | TypeError

  /** How a command or a renderer ends: it returns a value, calls sys.exit, or
      lets an exception escape. */
  datatype Outcome<+T> = Returned(value: T) | Exited(code: nat) | Raised(error: PyError)

  /** Exit status for an invalid port argument. */
  const ExitInvalidPort: nat := 4
  /** Exit status for a capability the platform does not implement. */
  const ExitNotImplemented: nat := 5
}
