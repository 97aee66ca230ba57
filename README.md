# sfputil core in Dafny

A model of `sfputil`, the SONiC command-line utility that shows and drives SFP
transceivers through a platform plugin (`sfputil/main.py`). The model covers:

- the text formatters: the hex dump of raw EEPROM bytes, and the pretty and
  comma-separated renderings of a nested EEPROM dictionary;
- the per-port status line;
- the display name of a lane;
- the resolution of a port name to its physical lanes;
- the three per-lane EEPROM renderers (pretty, one-line, raw);
- the command bodies of `show eeprom`, `show presence`, `show lpmode`,
  `lpmode on|off` and `reset`.

Modules:

- `Strings` (`strings.dfy`) covers Python's string order and `sorted(d)[0]`,
  `str.startswith`, and `"%d" % n` and `int(s)` on decimal strings.
- `Printing` (`printing.dfy`) holds `raw_bytes_to_string_pretty`,
  `dict_to_string_pretty` and `dict_to_string_comma_separated`.
- `Platform` (`platform.dfy`) describes the plugin `platform_sfputil` as a value
  of oracles. It also defines how a Python call ends: `Returned(value)`,
  `Exited(code)` for `sys.exit`, or `Raised(error)` for an uncaught exception.
- `SfpData` (`sfpdata.dfy`) holds the status line, `get_physical_port_name`,
  `logical_port_name_to_physical_port_list` and the three
  `port_eeprom_data_*` renderers.
- `Commands` (`commands.dfy`) holds the `eeprom`, `presence`, `lpmode`,
  `set_lpmode` and `reset` command bodies.

The pure parts of the source are functions with lemmas. The loops of the source
are methods whose `ensures` ties the result to a specification function, with
loop invariants. These are the hex dump, the lane loops of the three renderers,
the per-mode loops of `show eeprom`, the table loops of `show presence` and
`show lpmode`, and the lane loop of `set_lpmode`/`reset`. The lemmas then prove
what the source promises about those functions.

Output that `click.echo` prints and the status `sys.exit` ends with are returned
as values:

- the rendered text;
- the table rows, as `Row(port, state)`;
- the lines a `set_lpmode`/`reset` run echoes;
- the list of physical ports it calls the plugin for.

A `NotImplementedError` raised by a plugin call (`get_presence`, `get_eeprom_dict`,
`get_eeprom_raw`, `get_low_power_mode`, `set_low_power_mode`, `reset`) is a
`Reply.NotImplemented` answer.

## Model

| member | source | states |
|---|---|---|
| Printing.RawBytesToStringPretty | sfputil/main.py:40-53 | the loop builds exactly `HexDump` of all tokens: each token preceded by its separator and followed by one space |
| Printing.HexDumpLengthFormula | sfputil/main.py:40-53 | the empty input gives ""; n > 0 tokens give (sum of token lengths) + n + (n-1)/8 + (n-1)/16 characters |
| Printing.HexDumpTokenAt | sfputil/main.py:43-51 | token i sits at offset len(tokens before it) + i + i/8 + i/16, in input order, followed by exactly one space, preceded by " " when i%8==0 and also "\n" when i%16==0 (i>0) |
| Printing.PrettyRendersSortedKeys | sfputil/main.py:57-69 | for any strictly sorted listing of the keys, the rendering is the concatenation of the keys' entries in that order: every key once, ascending; a scalar gives `tabs+key+": "+val+"\n"`, a nested dict the header `tabs+key+":\n"` then its children at indent+1 |
| Printing.PrettyOneKey | sfputil/main.py:57-69 | a one-key level renders as that key's entry |
| Printing.PrettyTwoKeys | sfputil/main.py:57-69 | a two-key level renders the lesser key's entry first |
| Printing.PrettyInnerExample | sfputil/main.py:64-67 | {"High": 70} at indent 2 renders as "\t\tHigh: 70\n" |
| Printing.PrettyNestedExample | sfputil/main.py:61-69 | a nested dict gets a header line and its children one tab deeper, after the lesser key "Name" |
| Printing.CommaRendersSortedKeys | sfputil/main.py:73-97 | the flattening is the items of the keys before the least blacklisted key, in ascending order, joined by single commas: `JoinCommas` adds no leading comma, though an empty first item leaves one (see `CommaEmptyNestedLeadingComma`) |
| Printing.BlacklistTruncates | sfputil/main.py:78-82 | a key is rendered iff it sorts before every blacklisted key of its level (both directions; bare-key match) |
| Printing.CommaSecondBlacklisted | sfputil/main.py:78-82 | when the second key of a level is blacklisted, the level is the first key's item alone, whatever follows |
| Printing.CommaOneKey | sfputil/main.py:73-97 | a one-key level with the key not blacklisted renders as that key's item |
| Printing.CommaTwoKeys | sfputil/main.py:84-97 | two keys, neither blacklisted: lesser item, one comma, greater item |
| Printing.CommaNestedExample | sfputil/main.py:89-93 | nested {"High":70,"Low":-5} under prefix "Temp." gives "Temp.High:70,Temp.Low:-5" |
| Printing.CommaTempItem | sfputil/main.py:89-90 | a nested dict's items carry the prefix `key + "."` |
| Printing.CommaBlacklistIsBareKey | sfputil/main.py:81-93 | the blacklist entry "Temp.Low" matches no bare key, so the output is "Temp.High:70,Temp.Low:-5,VendorName:ACME" |
| Printing.CommaKeepsOnlyParentPrefix | sfputil/main.py:89-90 | {"a":{"b":{"c":1}}} flattens to "b.c:1": the grandparent "a" is lost |
| Printing.CommaEmptyNestedLeadingComma | sfputil/main.py:84-90 | an empty nested dict still uses up `first`, so the next item starts with a comma: ",b:x" |
| Printing.CommaBlacklistDropsLaterKeys | sfputil/main.py:81-82 | with "B" blacklisted, {"A","B","C"} gives "A:1": the blacklisted key and every later key are dropped |
| Strings.Least | sfputil/main.py:61 | `sorted(d)[0]`: the result is in the key set and below every other key |
| Strings.SortedListingHead | sfputil/main.py:69 | a sorted listing starts with the least key, and its tail lists the dict copied without that key |
| Strings.ParseInt | sfputil/main.py:132 | `int(s)` succeeds iff s is an optional sign followed by one or more decimal digits |
| Strings.DecimalRoundTrip | sfputil/main.py:119 | `int("%d" % n) == n` for every integer n |
| SfpData.StatusStringInjective | sfputil/main.py:103-107 | the status line determines both the port name and the detected flag |
| SfpData.StatusLineTellsDetection | sfputil/main.py:103-107 | a block starts with the "detected" line iff its flag is true |
| SfpData.GangedNamesDistinct | sfputil/main.py:115-121 | not ganged: the logical name unchanged; ganged: a name starting with `L + ":"`, different lanes giving different names |
| SfpData.GangedNamesExample | sfputil/main.py:118-119 | lanes 1 and 2 of ganged Ethernet0 are "Ethernet0:1 (ganged)" and "Ethernet0:2 (ganged)" |
| SfpData.LogicalPortNameToPhysicalPortList | sfputil/main.py:124-132 | only an "Ethernet" name can resolve to None, the answer for a name that is not a logical port |
| SfpData.ResolveDecimalName | sfputil/main.py:131-132 | a decimal name "%d" % n resolves to the single lane [n] |
| SfpData.PortEepromDataStringPretty | sfputil/main.py:140-180 | the renderer returns `PrettyText`: ValueError from `int`, "" for an unresolved name, None for an empty lane list, else the first lane's block or NotImplementedError |
| SfpData.PrettyRendersOnlyFirstLane | sfputil/main.py:153-180 | when every lane can be read (get_presence answers, and get_eeprom_dict too for a present module), the pretty text is a prefix of the all-lanes rendering, equal to it iff the port has one lane |
| SfpData.PortEepromDataStringPrettyOneline | sfputil/main.py:185-225 | the renderer returns `OnelineText` |
| SfpData.OnelineLanes | sfputil/main.py:201-225 | the lane loop appends each lane's block in order and raises NotImplementedError at the first lane whose get_presence, or EEPROM read of a present module, raises |
| SfpData.AppendOnelineLane | sfputil/main.py:207-223 | one lane adds `"port:"+name+","+iface+dom+"\n"` when detected, else "\n" |
| SfpData.PortEepromDataRawStringPretty | sfputil/main.py:228-259 | the renderer returns `RawText` |
| SfpData.RawLanes | sfputil/main.py:241-259 | the lane loop appends each lane's block in order and raises NotImplementedError at the first lane whose get_presence, or EEPROM read of a present module, raises |
| SfpData.AppendRawLane | sfputil/main.py:248-256 | one lane adds its status line, "\n", the hex dump if bytes were read, then "\n" |
| SfpData.RawAndOnelineFailIffSomeLaneFails | sfputil/main.py:241-259 | one-line and raw mode raise NotImplementedError iff some lane's get_presence raises, or its module is present and get_eeprom_dict/get_eeprom_raw raises; when no lane raises, they return every lane's block in lane order |
| SfpData.RawLaneDetectedIff | sfputil/main.py:243-256 | a raw block starts with the "detected" line iff the module is present and bytes were read |
| SfpData.OnelineLaneDetectedIff | sfputil/main.py:202-222 | a one-line block is a "port:<name>," line iff the module is present and a dict was read, and is "\n" alone otherwise |
| Commands.PortSelection | sfputil/main.py:341-348 | all logical ports without -p; [port] for a valid port; None (exit 4) iff the port is invalid |
| Commands.Eeprom | sfputil/main.py:336-371 | `show eeprom` ends as `EepromOutput`: exit 4 for an invalid port, else the pieces of the selected mode appended in port order |
| Commands.EepromRawPorts | sfputil/main.py:351-354 | raw mode appends each port's raw text plus "\n", stopping at the first exception |
| Commands.EepromOnelinePorts | sfputil/main.py:355-366 | one-line mode appends each port's one-line text with the fixed blacklists, stopping at the first exception |
| Commands.EepromPrettyPorts | sfputil/main.py:367-369 | pretty mode appends each port's text; a None from the renderer raises TypeError |
| Commands.EepromExitsOnlyForInvalidPort | sfputil/main.py:341-371 | `show eeprom` exits iff the -p port is invalid, and then with status 4 |
| Commands.PieceNeverExits | sfputil/main.py:351-369 | no renderer ends in sys.exit |
| Commands.EepromPrettyEmptyLanesRaise | sfputil/main.py:367-369 | a valid port with no lanes makes pretty mode raise TypeError |
| Commands.EepromRawSinglePort | sfputil/main.py:351-353 | for one port in raw mode the output is its raw text plus one "\n", whatever -d and -o say |
| Commands.LaneStates | sfputil/main.py:406-420 | the lane loop gives one row per lane, or NotImplemented at the first lane whose query raises |
| Commands.ShowLaneStates | sfputil/main.py:377-422 | the command ends as `LaneStateTable`: exit 4, the rows of all ports, exit 5, ValueError, or no table after an "Ethernet" name that is not a logical port |
| Commands.Presence | sfputil/main.py:377-422 | `show presence` is the table loop with "Present"/"Not present" |
| Commands.ShowLpmode | sfputil/main.py:428-473 | `show lpmode` is the table loop with "On"/"Off" |
| Commands.ShowInvalidPortExits | sfputil/main.py:384-390 | the table command exits 4 iff the -p port is invalid |
| Commands.ShowUnknownEthernetNoTable | sfputil/main.py:397-401 | a valid "Ethernet" name that is not a logical port takes the bare `return`: no table |
| Commands.TableRowsExitCode | sfputil/main.py:409-413 | the only exit inside the table loops is exit 5 |
| Commands.ShowSinglePortRows | sfputil/main.py:394-420 | for one port: exit 5 iff some lane's query raises; when none raises, the table is returned with exactly one row per lane in lane order, named by get_physical_port_name and showing the on/off text by the answer |
| Commands.RunOnLanes | sfputil/main.py:484-517 | the `set_lpmode`/`reset` body ends as `LaneRunOf`: exit 4, ValueError, a silent return, or the lane loop |
| Commands.RunLanes | sfputil/main.py:501-517 | the lane loop calls the plugin for the lanes in order, echoes one line each, and exits 5 right after the first call that raises |
| Commands.SetLpmode | sfputil/main.py:484-517 | `lpmode on|off` runs the loop with set_low_power_mode and the "Enabling"/"Disabling" lead text |
| Commands.Reset | sfputil/main.py:539-571 | `reset` runs the loop with the plugin's reset and the "Resetting port" lead text |
| Commands.LaneRunInvalidPort | sfputil/main.py:488-496 | exit 4 iff the port is invalid, with no call and no line; an unresolved name returns without a call |
| Commands.LaneRunStopsAtFirstFailure | sfputil/main.py:501-517 | exit 5 iff some lane's call raises, and a return when none does; a full run calls every lane; the echoed text is the lines of exactly the lanes called; calls stop at the first lane that raises, and every earlier call answered |
| Commands.TwoLanesAnswering | sfputil/main.py:501-517 | two answering lanes give no failure and one line each |
| Commands.ResetGangedExample | sfputil/main.py:557-571 | resetting Ethernet0 on lanes [5, 6] echoes two OK lines for "Ethernet0:1 (ganged)" and "Ethernet0:2 (ganged)", and calls lane 5 then lane 6 |

On `interface.data = {"VendorName": "ACME", "Temp": {"High": 70, "Low": -5}}`
with the one-line blacklist `{"Temp.Low"}`, the code gives
`Temp.High:70,Temp.Low:-5,VendorName:ACME`, because the keys come out sorted and
the blacklist is compared with the bare key only
(`Printing.CommaBlacklistIsBareKey`).

## Left out

- Printing to the terminal is not modelled: `click.echo` and `tabulate` with its header row. The model returns the text, the rows or the lines instead. Of the messages, only the lane lines of `set_lpmode`/`reset` are kept, including the not-implemented message they echo (`Commands.NotImplementedMessage`). The invalid-port message, the list of valid ports, "No physical ports found", "Invalid port" and the not-implemented message of `show presence`/`show lpmode` are absent.
- `cli` and plugin loading are not modelled, because they read files and the environment. This covers `load_platform_sfputil`, `os.geteuid`, `multi_asic`, port-table file reading and exit codes 1, 2 and 3.
- The logger and the `version` command are not modelled: they have no behaviour to prove.
- The plugin's methods are oracles (`Platform.SfpUtil`), because their code is platform-specific and not part of this model. The port table stands for `is_logical_port` and `get_logical_to_physical`.
- Python's `str(val)` on EEPROM values is not modelled: scalars arrive already converted to text.
- Strings.ParseInt: accepts only an optional sign and ASCII digits. Python's `int` also accepts surrounding whitespace, underscores and non-ASCII digits; every other string is modelled as the ValueError it raises.
- Strings.StrLess: compares characters by their code, as Python does for code points. Surrogate pairs are not modelled.
- SfpData.GetPhysicalPortName: the source's first branch (`logical_port == physical_port`) compares a str with the int lane counter. It is never true, so it is not modelled.
- An empty lane list in pretty mode makes the function end without `return`. The model returns `None`, and `show eeprom` then raises TypeError on `output += None`.
- In `show presence` and `show lpmode`, an "Ethernet" name that is not a logical port hits a bare `return` and no table is printed. The model returns `Returned(None)`. A port with an empty lane list only adds no rows.
- A `NotImplementedError` escaping a renderer inside `show eeprom` is not caught by the source. The model raises it instead of exiting 5.
- The dictionary renderers work on a copy of the dictionary, so the input is never modified. That needs no lemma here, because the model's values are immutable.
- Platform.SfpUtil: a plugin call can raise only `NotImplementedError` in the model. The source lets any exception escape from these calls, so other exception types are not modelled.
- Platform.EepromRecord: always holds `interface` and its `data`. When `get_eeprom_dict` returns a dictionary without them, the source raises AttributeError or fails inside the renderer. The plugin's dictionaries are not part of this model, so that failure is not modelled.
