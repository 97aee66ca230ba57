/** The command bodies of sfputil/main.py: `show eeprom`, `show presence`,
    `show lpmode`, `lpmode on|off` and `reset`. What click.echo prints and the
    status sys.exit ends with are returned as values. */
module Commands {
  import opened Strings
  import opened Printing
  import opened Platform
  import opened SfpData

  /** The logical ports a `show` command walks: all of them without -p, the
      given one when is_valid_sfputil_port accepts it, and None for the
      invalid port that makes the command exit 4. */
  function PortSelection(plugin: SfpUtil, port: Option<string>): (names: Option<seq<string>>)
    ensures names.None? <==> port.Some? && !plugin.isValidPort(port.value)
    ensures port.None? ==> names == Some(plugin.logical)
    ensures port.Some? && names.Some? ==> names.value == [port.value]
  {
    match port
    case None => Some(plugin.logical)
    case Some(p) => if plugin.isValidPort(p) then Some([p]) else None
  }

  /** The index of the first lane whose plugin call raises NotImplementedError,
      or the number of lanes when none does. */
  function FirstFailure(call: int -> Reply<bool>, ports: seq<int>): (f: nat)
    ensures f <= |ports|
    ensures forall k :: 0 <= k < f ==> call(ports[k]).Value?
    ensures f < |ports| ==> call(ports[f]).NotImplemented?
  {
    FirstFailureFrom(call, ports, 0)
  }

  /** A lane that answers before the first failure moves the failure past it. */
  lemma FirstFailurePast(call: int -> Reply<bool>, ports: seq<int>, k: nat)
    requires k < |ports| && k <= FirstFailure(call, ports) && call(ports[k]).Value?
    ensures k + 1 <= FirstFailure(call, ports)
  {
  }

  function FirstFailureFrom(call: int -> Reply<bool>, ports: seq<int>, j: nat): (f: nat)
    requires j <= |ports|
    ensures j <= f <= |ports|
    ensures forall k :: j <= k < f ==> call(ports[k]).Value?
    ensures f < |ports| ==> call(ports[f]).NotImplemented?
    decreases |ports| - j
  {
    if j == |ports| then j
    else if call(ports[j]).NotImplemented? then j
    else FirstFailureFrom(call, ports, j + 1)
  }

  // ---------------------------------------------------------------------------
  // show eeprom
  // ---------------------------------------------------------------------------

  const IfdataOutBlacklist: set<string> :=
    {"EncodingCodes", "ExtIdentOfTypeOfTransceiver", "NominalSignallingRate(UnitsOf100Mbd)"}
  const DomdataOutBlacklist: set<string> := {"AwThresholds", "StatusControl"}

  /** What `show eeprom` appends for one logical port. Raw mode adds a line
      break after each port; in pretty mode a port with an empty lane list
      makes the renderer return None, and `output += None` raises TypeError. */
  function EepromPiece(plugin: SfpUtil, name: string, dumpDom: bool, oneline: bool, raw: bool): Outcome<string>
  {
    if raw then
      match RawText(plugin, name)
      case Returned(s) => Returned(s + "\n")
      case Exited(c) => Exited(c)
      case Raised(e) => Raised(e)
    else if oneline then
      OnelineText(plugin, name, IfdataOutBlacklist, DomdataOutBlacklist, dumpDom)
    else
      match PrettyText(plugin, name, dumpDom)
      case Returned(Some(s)) => Returned(s)
      case Returned(None) => Raised(TypeError)
      case Exited(c) => Exited(c)
      case Raised(e) => Raised(e)
  }

  /** Pieces appended in order; the first piece that does not return ends the
      command with its outcome. */
  function AppendOutcomes(pieces: seq<Outcome<string>>): Outcome<string>
  {
    if pieces == [] then Returned("")
    else
      match AppendOutcomes(pieces[..|pieces| - 1])
      case Returned(s) =>
        (match pieces[|pieces| - 1]
         case Returned(t) => Returned(s + t)
         case Exited(c) => Exited(c)
         case Raised(e) => Raised(e))
      case Exited(c) => Exited(c)
      case Raised(e) => Raised(e)
  }

  /** The command returns iff every piece does, and otherwise ends as one of
      its pieces ended. */
  lemma {:induction false} AppendOutcomesResult(pieces: seq<Outcome<string>>)
    ensures AppendOutcomes(pieces).Returned? <==> forall k :: 0 <= k < |pieces| ==> pieces[k].Returned?
    ensures !AppendOutcomes(pieces).Returned? ==> exists k :: 0 <= k < |pieces| && AppendOutcomes(pieces) == pieces[k]
  {
    if pieces != [] {
      var init := pieces[..|pieces| - 1];
      AppendOutcomesResult(init);
      assert forall k :: 0 <= k < |init| ==> init[k] == pieces[k];
      if !AppendOutcomes(init).Returned? {
        var k :| 0 <= k < |init| && AppendOutcomes(init) == init[k];
        assert AppendOutcomes(pieces) == pieces[k];
      }
    }
  }

  /** Once a piece has ended the command, later pieces change nothing. */
  lemma {:induction false} AppendOutcomesSticky(pieces: seq<Outcome<string>>, m: nat)
    requires m <= |pieces| && !AppendOutcomes(pieces[..m]).Returned?
    ensures AppendOutcomes(pieces) == AppendOutcomes(pieces[..m])
    decreases |pieces|
  {
    if m == |pieces| {
      assert pieces[..m] == pieces;
    } else {
      var init := pieces[..|pieces| - 1];
      assert init[..m] == pieces[..m];
      AppendOutcomesSticky(init, m);
    }
  }

  function EepromPieces(plugin: SfpUtil, names: seq<string>, dumpDom: bool, oneline: bool, raw: bool)
    : (pieces: seq<Outcome<string>>)
    ensures |pieces| == |names|
    ensures forall k :: 0 <= k < |names| ==> pieces[k] == EepromPiece(plugin, names[k], dumpDom, oneline, raw)
  {
    seq(|names|, k requires 0 <= k < |names| => EepromPiece(plugin, names[k], dumpDom, oneline, raw))
  }

  /** The text `show eeprom` hands to click.echo, or how it ends otherwise. */
  function EepromOutput(plugin: SfpUtil, port: Option<string>, dumpDom: bool, oneline: bool, raw: bool): Outcome<string>
  {
    match PortSelection(plugin, port)
    case None => Exited(ExitInvalidPort)
    case Some(names) => AppendOutcomes(EepromPieces(plugin, names, dumpDom, oneline, raw))
  }

  method Eeprom(plugin: SfpUtil, port: Option<string>, dumpDom: bool, oneline: bool, raw: bool)
    returns (out: Outcome<string>)
    ensures out == EepromOutput(plugin, port, dumpDom, oneline, raw)
  {
    var logicalPortList: seq<string> := [];

    if port.None? {
      logicalPortList := plugin.logical;
    } else {
      if !plugin.isValidPort(port.value) {
        return Exited(ExitInvalidPort);
      }
      logicalPortList := [port.value];
    }

    if raw {
      out := EepromRawPorts(plugin, logicalPortList, dumpDom, oneline);
    } else if oneline {
      out := EepromOnelinePorts(plugin, logicalPortList, dumpDom);
    } else {
      out := EepromPrettyPorts(plugin, logicalPortList, dumpDom);
    }
  }

  /** A piece that returns extends the text of the pieces before it. */
  lemma AppendOutcomesStep(pieces: seq<Outcome<string>>, k: nat, s: string, t: string)
    requires k < |pieces| && AppendOutcomes(pieces[..k]) == Returned(s) && pieces[k] == Returned(t)
    ensures AppendOutcomes(pieces[..k + 1]) == Returned(s + t)
  {
    assert pieces[..k + 1][..k] == pieces[..k];
  }

  /** The raw-mode loop of `show eeprom`. */
  method EepromRawPorts(plugin: SfpUtil, logicalPortList: seq<string>, dumpDom: bool, oneline: bool)
    returns (out: Outcome<string>)
    ensures out == AppendOutcomes(EepromPieces(plugin, logicalPortList, dumpDom, oneline, true))
  {
    var output := "";
    ghost var pieces := EepromPieces(plugin, logicalPortList, dumpDom, oneline, true);
    for k := 0 to |logicalPortList|
      invariant AppendOutcomes(pieces[..k]) == Returned(output)
    {
      var r := PortEepromDataRawStringPretty(plugin, logicalPortList[k]);
      if !r.Returned? {
        assert AppendOutcomes(pieces) == r by {
          EndsWithPiece(pieces, k);
        }
        return r;
      }
      ghost var before := output;
      output := output + r.value;
      output := output + "\n";
      assert AppendOutcomes(pieces[..k + 1]) == Returned(output) by {
        assert output == before + (r.value + "\n");
        AppendOutcomesStep(pieces, k, before, r.value + "\n");
      }
    }
    assert AppendOutcomes(pieces) == Returned(output) by {
      assert pieces[..|logicalPortList|] == pieces;
    }
    return Returned(output);
  }

  /** The one-line-mode loop of `show eeprom`. */
  method EepromOnelinePorts(plugin: SfpUtil, logicalPortList: seq<string>, dumpDom: bool)
    returns (out: Outcome<string>)
    ensures out == AppendOutcomes(EepromPieces(plugin, logicalPortList, dumpDom, true, false))
  {
    var output := "";
    ghost var pieces := EepromPieces(plugin, logicalPortList, dumpDom, true, false);
    for k := 0 to |logicalPortList|
      invariant AppendOutcomes(pieces[..k]) == Returned(output)
    {
      var r := PortEepromDataStringPrettyOneline(plugin, logicalPortList[k],
                                                 IfdataOutBlacklist, DomdataOutBlacklist, dumpDom);
      if !r.Returned? {
        assert AppendOutcomes(pieces) == r by {
          EndsWithPiece(pieces, k);
        }
        return r;
      }
      ghost var before := output;
      output := output + r.value;
      assert AppendOutcomes(pieces[..k + 1]) == Returned(output) by {
        AppendOutcomesStep(pieces, k, before, r.value);
      }
    }
    assert AppendOutcomes(pieces) == Returned(output) by {
      assert pieces[..|logicalPortList|] == pieces;
    }
    return Returned(output);
  }

  /** The pretty-mode loop of `show eeprom`: a renderer that returns None makes
      `output += None` raise TypeError. */
  method EepromPrettyPorts(plugin: SfpUtil, logicalPortList: seq<string>, dumpDom: bool)
    returns (out: Outcome<string>)
    ensures out == AppendOutcomes(EepromPieces(plugin, logicalPortList, dumpDom, false, false))
  {
    var output := "";
    ghost var pieces := EepromPieces(plugin, logicalPortList, dumpDom, false, false);
    for k := 0 to |logicalPortList|
      invariant AppendOutcomes(pieces[..k]) == Returned(output)
    {
      var r := PortEepromDataStringPretty(plugin, logicalPortList[k], dumpDom);
      if r.Returned? && r.value.None? {
        assert AppendOutcomes(pieces) == Raised(TypeError) by {
          EndsWithPiece(pieces, k);
        }
        return Raised(TypeError);
      } else if r.Exited? {
        assert AppendOutcomes(pieces) == Exited(r.code) by {
          EndsWithPiece(pieces, k);
        }
        return Exited(r.code);
      } else if r.Raised? {
        assert AppendOutcomes(pieces) == Raised(r.error) by {
          EndsWithPiece(pieces, k);
        }
        return Raised(r.error);
      }
      ghost var before := output;
      output := output + r.value.value;
      assert AppendOutcomes(pieces[..k + 1]) == Returned(output) by {
        AppendOutcomesStep(pieces, k, before, r.value.value);
      }
    }
    assert AppendOutcomes(pieces) == Returned(output) by {
      assert pieces[..|logicalPortList|] == pieces;
    }
    return Returned(output);
  }

  /** The command so far has returned, and piece k does not: the command ends
      as piece k ends. */
  lemma EndsWithPiece(pieces: seq<Outcome<string>>, k: nat)
    requires k < |pieces| && AppendOutcomes(pieces[..k]).Returned? && !pieces[k].Returned?
    ensures AppendOutcomes(pieces) == pieces[k]
  {
    assert pieces[..k + 1][..k] == pieces[..k];
    AppendOutcomesSticky(pieces, k + 1);
  }

  /** `show eeprom` exits only for an invalid -p port, and then with status 4;
      a NotImplementedError from the plugin is never turned into exit 5. */
  lemma EepromExitsOnlyForInvalidPort(plugin: SfpUtil, port: Option<string>, dumpDom: bool, oneline: bool, raw: bool)
    ensures EepromOutput(plugin, port, dumpDom, oneline, raw).Exited?
      <==> port.Some? && !plugin.isValidPort(port.value)
    ensures EepromOutput(plugin, port, dumpDom, oneline, raw).Exited?
      ==> EepromOutput(plugin, port, dumpDom, oneline, raw).code == ExitInvalidPort
  {
    var names := PortSelection(plugin, port);
    if names.Some? {
      var pieces := EepromPieces(plugin, names.value, dumpDom, oneline, raw);
      AppendOutcomesResult(pieces);
      forall k | 0 <= k < |pieces|
        ensures !pieces[k].Exited?
      {
        PieceNeverExits(plugin, names.value[k], dumpDom, oneline, raw);
      }
    }
  }

  /** No renderer ends with sys.exit: each returns or raises. */
  lemma PieceNeverExits(plugin: SfpUtil, name: string, dumpDom: bool, oneline: bool, raw: bool)
    ensures !EepromPiece(plugin, name, dumpDom, oneline, raw).Exited?
  {
    match LogicalPortNameToPhysicalPortList(plugin, name)
    case PhysicalPorts(ports) =>
      if raw {
        AppendBlocksResult(RawBlocks(plugin, name, ports));
      } else if oneline {
        AppendBlocksResult(OnelineBlocks(plugin, name, ports, IfdataOutBlacklist, DomdataOutBlacklist, dumpDom));
      }
    case NoPorts =>
    case NotAnInteger =>
  }

  /** In pretty mode a valid port with an empty lane list makes the command
      raise TypeError instead of printing anything. */
  lemma EepromPrettyEmptyLanesRaise(plugin: SfpUtil, p: string, dumpDom: bool)
    requires plugin.isValidPort(p)
    requires LogicalPortNameToPhysicalPortList(plugin, p) == PhysicalPorts([])
    ensures EepromOutput(plugin, Some(p), dumpDom, false, false) == Raised(TypeError)
  {
    var pieces := EepromPieces(plugin, [p], dumpDom, false, false);
    assert PrettyText(plugin, p, dumpDom) == Returned(None);
    assert pieces[0] == Raised(TypeError);
    assert pieces[..0] == [] && pieces[..1] == pieces;
    assert AppendOutcomes(pieces) == Raised(TypeError);
  }

  /** For one valid port in raw mode, the command prints that port's raw text
      followed by one extra line break, whatever -d and -o say. */
  lemma EepromRawSinglePort(plugin: SfpUtil, p: string, dumpDom: bool, oneline: bool)
    requires plugin.isValidPort(p)
    requires RawText(plugin, p).Returned?
    ensures EepromOutput(plugin, Some(p), dumpDom, oneline, true) == Returned(RawText(plugin, p).value + "\n")
  {
    var text := RawText(plugin, p).value + "\n";
    var pieces := EepromPieces(plugin, [p], dumpDom, oneline, true);
    assert pieces[0] == Returned(text);
    assert pieces[..0] == [] && pieces[..1] == pieces;
    assert AppendOutcomes(pieces) == Returned("" + text);
    assert "" + text == text;
  }

  // ---------------------------------------------------------------------------
  // show presence, show lpmode
  // ---------------------------------------------------------------------------

  /** One table row: the lane's display name and its state. */
  datatype Row = Row(port: string, state: string)

  function StateText(r: Reply<bool>, onText: string, offText: string): string
  {
    if r == Value(true) then onText else offText
  }

  /** The rows of the first n lanes of one logical port. */
  function LaneStateRows(query: int -> Reply<bool>, name: string, ports: seq<int>,
                         onText: string, offText: string, n: nat): (rows: seq<Row>)
    requires n <= |ports|
    ensures |rows| == n
    ensures forall k :: 0 <= k < n ==>
      rows[k] == Row(GetPhysicalPortName(name, k + 1, |ports| > 1), StateText(query(ports[k]), onText, offText))
  {
    seq(n, k requires 0 <= k < n => Row(GetPhysicalPortName(name, k + 1, |ports| > 1), StateText(query(ports[k]), onText, offText)))
  }

  /** The rows of one logical port, or NotImplemented when a lane's query raises. */
  function LanesRows(query: int -> Reply<bool>, name: string, ports: seq<int>, onText: string, offText: string)
    : Reply<seq<Row>>
  {
    if FirstFailure(query, ports) < |ports| then NotImplemented
    else Value(LaneStateRows(query, name, ports, onText, offText, |ports|))
  }

  /** The table built over the logical ports `names`: Some(rows), None for the
      bare `return` taken when an "Ethernet..." name is not a logical port
      (no table is printed), exit 5 for NotImplementedError, ValueError from
      `int`. A port whose lane list is empty only adds no rows. */
  function TableRows(plugin: SfpUtil, names: seq<string>, query: int -> Reply<bool>, onText: string, offText: string)
    : Outcome<Option<seq<Row>>>
  {
    if names == [] then Returned(Some([]))
    else
      match TableRows(plugin, names[..|names| - 1], query, onText, offText)
      case Returned(Some(rows)) =>
        (match LogicalPortNameToPhysicalPortList(plugin, names[|names| - 1])
         case NotAnInteger => Raised(ValueError)
         case NoPorts => Returned(None)
         case PhysicalPorts(ports) =>
           match LanesRows(query, names[|names| - 1], ports, onText, offText)
           case NotImplemented => Exited(ExitNotImplemented)
           case Value(more) => Returned(Some(rows + more)))
      case other => other
  }

  /** Once the table has stopped growing, later ports change nothing. */
  lemma {:induction false} TableRowsSticky(plugin: SfpUtil, names: seq<string>, m: nat,
                                           query: int -> Reply<bool>, onText: string, offText: string)
    requires m <= |names|
    requires !(TableRows(plugin, names[..m], query, onText, offText).Returned?
               && TableRows(plugin, names[..m], query, onText, offText).value.Some?)
    ensures TableRows(plugin, names, query, onText, offText) == TableRows(plugin, names[..m], query, onText, offText)
    decreases |names|
  {
    if m == |names| {
      assert names[..m] == names;
    } else {
      var init := names[..|names| - 1];
      assert init[..m] == names[..m];
      TableRowsSticky(plugin, init, m, query, onText, offText);
    }
  }

  /** The table over one more logical port. */
  lemma TableRowsStep(plugin: SfpUtil, names: seq<string>, n: nat, query: int -> Reply<bool>,
                      onText: string, offText: string, rows: seq<Row>)
    requires n < |names| && TableRows(plugin, names[..n], query, onText, offText) == Returned(Some(rows))
    ensures TableRows(plugin, names[..n + 1], query, onText, offText)
      == match LogicalPortNameToPhysicalPortList(plugin, names[n])
         case NotAnInteger => Raised(ValueError)
         case NoPorts => Returned(None)
         case PhysicalPorts(ports) =>
           match LanesRows(query, names[n], ports, onText, offText)
           case NotImplemented => Exited(ExitNotImplemented)
           case Value(more) => Returned(Some(rows + more))
  {
    assert names[..n + 1][..n] == names[..n];
  }

  /** Exit 5 is the only exit the lane loops take. */
  lemma {:induction false} TableRowsExitCode(plugin: SfpUtil, names: seq<string>,
                                             query: int -> Reply<bool>, onText: string, offText: string)
    ensures TableRows(plugin, names, query, onText, offText).Exited?
      ==> TableRows(plugin, names, query, onText, offText).code == ExitNotImplemented
  {
    if names != [] {
      TableRowsExitCode(plugin, names[..|names| - 1], query, onText, offText);
    }
  }

  /** What a `show presence`/`show lpmode` command ends with. */
  function LaneStateTable(plugin: SfpUtil, port: Option<string>, query: int -> Reply<bool>,
                          onText: string, offText: string): Outcome<Option<seq<Row>>>
  {
    match PortSelection(plugin, port)
    case None => Exited(ExitInvalidPort)
    case Some(names) => TableRows(plugin, names, query, onText, offText)
  }

  /** The lane loop of `show presence`/`show lpmode` for one logical port:
      the rows of its lanes, or NotImplemented at the first lane whose query
      raises. */
  method LaneStates(query: int -> Reply<bool>, logicalPortName: string, ports: seq<int>,
                    onText: string, offText: string)
    returns (r: Reply<seq<Row>>)
    ensures r == LanesRows(query, logicalPortName, ports, onText, offText)
  {
    var ganged := false;
    var i := 1;
    var outputTable: seq<Row> := [];

    if |ports| > 1 {
      ganged := true;
    }

    for k := 0 to |ports|
      invariant i == k + 1
      invariant k <= FirstFailure(query, ports)
      invariant outputTable == LaneStateRows(query, logicalPortName, ports, onText, offText, k)
    {
      var portName := GetPhysicalPortName(logicalPortName, i, ganged);
      var state := query(ports[k]);
      if state.NotImplemented? {
        assert FirstFailure(query, ports) == k;
        return NotImplemented;
      }

      if state.value {
        outputTable := outputTable + [Row(portName, onText)];
      } else {
        outputTable := outputTable + [Row(portName, offText)];
      }

      i := i + 1;
      assert LaneStateRows(query, logicalPortName, ports, onText, offText, k + 1)
        == LaneStateRows(query, logicalPortName, ports, onText, offText, k) + [Row(portName, StateText(state, onText, offText))];
      FirstFailurePast(query, ports, k);
    }
    assert FirstFailure(query, ports) == |ports|;
    return Value(outputTable);
  }

  /** The loop shared by `show presence` and `show lpmode`: one row per lane,
      `onText` when the plugin answers True and `offText` otherwise. */
  method ShowLaneStates(plugin: SfpUtil, port: Option<string>, query: int -> Reply<bool>,
                        onText: string, offText: string)
    returns (out: Outcome<Option<seq<Row>>>)
    ensures out == LaneStateTable(plugin, port, query, onText, offText)
  {
    var logicalPortList: seq<string> := [];
    var outputTable: seq<Row> := [];

    if port.None? {
      logicalPortList := plugin.logical;
    } else {
      if !plugin.isValidPort(port.value) {
        return Exited(ExitInvalidPort);
      }
      logicalPortList := [port.value];
    }
    assert PortSelection(plugin, port) == Some(logicalPortList);

    for n := 0 to |logicalPortList|
      invariant TableRows(plugin, logicalPortList[..n], query, onText, offText) == Returned(Some(outputTable))
    {
      var logicalPortName := logicalPortList[n];

      var physicalPortList := LogicalPortNameToPhysicalPortList(plugin, logicalPortName);
      if physicalPortList.NotAnInteger? {
        assert TableRows(plugin, logicalPortList, query, onText, offText) == Raised(ValueError) by {
          TableRowsStep(plugin, logicalPortList, n, query, onText, offText, outputTable);
          TableRowsSticky(plugin, logicalPortList, n + 1, query, onText, offText);
        }
        return Raised(ValueError);
      }
      if physicalPortList.NoPorts? {
        assert TableRows(plugin, logicalPortList, query, onText, offText) == Returned(None) by {
          TableRowsStep(plugin, logicalPortList, n, query, onText, offText, outputTable);
          TableRowsSticky(plugin, logicalPortList, n + 1, query, onText, offText);
        }
        return Returned(None);
      }
      var ports := physicalPortList.ports;

      var laneRows := LaneStates(query, logicalPortName, ports, onText, offText);
      if laneRows.NotImplemented? {
        assert TableRows(plugin, logicalPortList, query, onText, offText) == Exited(ExitNotImplemented) by {
          TableRowsStep(plugin, logicalPortList, n, query, onText, offText, outputTable);
          TableRowsSticky(plugin, logicalPortList, n + 1, query, onText, offText);
        }
        return Exited(ExitNotImplemented);
      }
      assert TableRows(plugin, logicalPortList[..n + 1], query, onText, offText)
          == Returned(Some(outputTable + laneRows.value)) by {
        TableRowsStep(plugin, logicalPortList, n, query, onText, offText, outputTable);
      }
      outputTable := outputTable + laneRows.value;
    }
    assert logicalPortList[..|logicalPortList|] == logicalPortList;
    return Returned(Some(outputTable));
  }

  /** `show presence`: "Present" or "Not present" per lane. */
  method Presence(plugin: SfpUtil, port: Option<string>) returns (out: Outcome<Option<seq<Row>>>)
    ensures out == LaneStateTable(plugin, port, plugin.presence, "Present", "Not present")
  {
    out := ShowLaneStates(plugin, port, plugin.presence, "Present", "Not present");
  }

  /** `show lpmode`: "On" or "Off" per lane. */
  method ShowLpmode(plugin: SfpUtil, port: Option<string>) returns (out: Outcome<Option<seq<Row>>>)
    ensures out == LaneStateTable(plugin, port, plugin.lowPowerMode, "On", "Off")
  {
    out := ShowLaneStates(plugin, port, plugin.lowPowerMode, "On", "Off");
  }

  /** An invalid -p port exits 4 before any lane is queried, and no other case
      exits 4. */
  lemma ShowInvalidPortExits(plugin: SfpUtil, port: Option<string>, query: int -> Reply<bool>,
                             onText: string, offText: string)
    ensures LaneStateTable(plugin, port, query, onText, offText) == Exited(ExitInvalidPort)
      <==> port.Some? && !plugin.isValidPort(port.value)
  {
    var names := PortSelection(plugin, port);
    if names.Some? {
      TableRowsExitCode(plugin, names.value, query, onText, offText);
    }
  }

  lemma TableRowsSingle(plugin: SfpUtil, name: string, query: int -> Reply<bool>, onText: string, offText: string)
    ensures TableRows(plugin, [name], query, onText, offText)
      == match LogicalPortNameToPhysicalPortList(plugin, name)
         case NotAnInteger => Raised(ValueError)
         case NoPorts => Returned(None)
         case PhysicalPorts(ports) =>
           match LanesRows(query, name, ports, onText, offText)
           case NotImplemented => Exited(ExitNotImplemented)
           case Value(more) => Returned(Some([] + more))
  {
    assert [name][..0] == [];
    assert TableRows(plugin, [name][..0], query, onText, offText) == Returned(Some([]));
  }

  /** For one valid port with lanes `ports`: the command exits 5 iff some
      lane's query raises NotImplementedError, and otherwise returns exactly one
      row per lane, in lane order, named as get_physical_port_name names it. */
  lemma ShowSinglePortRows(plugin: SfpUtil, p: string, ports: seq<int>, query: int -> Reply<bool>,
                           onText: string, offText: string)
    requires plugin.isValidPort(p)
    requires LogicalPortNameToPhysicalPortList(plugin, p) == PhysicalPorts(ports)
    ensures var out := LaneStateTable(plugin, Some(p), query, onText, offText);
      && (out == Exited(ExitNotImplemented) <==> exists k :: 0 <= k < |ports| && query(ports[k]).NotImplemented?)
      && ((forall k :: 0 <= k < |ports| ==> query(ports[k]).Value?) ==> out.Returned?)
      && (out.Returned? ==> out.value.Some? && |out.value.value| == |ports|)
      && (out.Returned? ==> forall k :: 0 <= k < |ports| ==>
            out.value.value[k] == Row(GetPhysicalPortName(p, k + 1, |ports| > 1),
                                      if query(ports[k]).value then onText else offText))
  {
    assert PortSelection(plugin, Some(p)) == Some([p]);
    TableRowsSingle(plugin, p, query, onText, offText);
    var out := LaneStateTable(plugin, Some(p), query, onText, offText);
    var f := FirstFailure(query, ports);
    if f == |ports| {
      var rows := LaneStateRows(query, p, ports, onText, offText, |ports|);
      assert out == Returned(Some(rows)) by {
        assert LanesRows(query, p, ports, onText, offText) == Value(rows);
        assert [] + rows == rows;
      }
      forall k | 0 <= k < |ports|
        ensures !query(ports[k]).NotImplemented?
      {
      }
    } else {
      assert LanesRows(query, p, ports, onText, offText) == NotImplemented;
      assert out == Exited(ExitNotImplemented);
    }
  }

  /** The bare `return` of the table loop: a valid "Ethernet..." name that is
      not a logical port prints no table at all. */
  lemma ShowUnknownEthernetNoTable(plugin: SfpUtil, p: string, query: int -> Reply<bool>,
                                   onText: string, offText: string)
    requires plugin.isValidPort(p)
    requires LogicalPortNameToPhysicalPortList(plugin, p).NoPorts?
    ensures StartsWith(p, "Ethernet") && p !in plugin.portTable
    ensures LaneStateTable(plugin, Some(p), query, onText, offText) == Returned(None)
  {
    assert PortSelection(plugin, Some(p)) == Some([p]);
    TableRowsSingle(plugin, p, query, onText, offText);
  }

  // ---------------------------------------------------------------------------
  // lpmode on|off, reset
  // ---------------------------------------------------------------------------

  const NotImplementedMessage: string := "This functionality is currently not implemented for this platform"

  /** The line a lane gets: the lead text and lane name (echoed without a line
      break), then OK, Failed or the not-implemented message. */
  function LaneLine(lead: string, portName: string, reply: Reply<bool>): string
  {
    lead + portName + "... " + AnswerText(reply)
  }

  function AnswerText(reply: Reply<bool>): string
  {
    match reply
    case Value(true) => "OK\n"
    case Value(false) => "Failed\n"
    case NotImplemented => NotImplementedMessage + "\n"
  }

  lemma LaneLinesStep(call: int -> Reply<bool>, portName: string, ports: seq<int>, lead: string, k: nat)
    requires k < |ports|
    ensures LaneLines(call, portName, ports, lead, k + 1)
      == LaneLines(call, portName, ports, lead, k) + (lead + GetPhysicalPortName(portName, k + 1, |ports| > 1) + "... ")
         + AnswerText(call(ports[k]))
  {
  }

  /** The lines of the first n lanes. */
  function LaneLines(call: int -> Reply<bool>, name: string, ports: seq<int>, lead: string, n: nat): string
    requires n <= |ports|
  {
    if n == 0 then ""
    else LaneLines(call, name, ports, lead, n - 1) + LaneLine(lead, GetPhysicalPortName(name, n, |ports| > 1), call(ports[n - 1]))
  }

  /** How a `set_lpmode`/`reset` run ends, what it echoes on the lane lines, and
      which physical ports it calls the plugin for, in order. */
  datatype LaneRun = LaneRun(outcome: Outcome<()>, echoed: string, calls: seq<int>)

  /** The lane loop over `ports`: it calls the plugin for the lanes in order
      and stops with exit 5 right after the first call that raises. */
  function LanesRun(call: int -> Reply<bool>, portName: string, ports: seq<int>, lead: string): LaneRun
  {
    var f := FirstFailure(call, ports);
    var n := if f < |ports| then f + 1 else |ports|;
    LaneRun(if f < |ports| then Exited(ExitNotImplemented) else Returned(()),
            LaneLines(call, portName, ports, lead, n), ports[..n])
  }

  function LaneRunOf(plugin: SfpUtil, portName: string, call: int -> Reply<bool>, lead: string): LaneRun
  {
    if !plugin.isValidPort(portName) then LaneRun(Exited(ExitInvalidPort), "", [])
    else
      match LogicalPortNameToPhysicalPortList(plugin, portName)
      case NotAnInteger => LaneRun(Raised(ValueError), "", [])
      case NoPorts => LaneRun(Returned(()), "", [])
      case PhysicalPorts(ports) => LanesRun(call, portName, ports, lead)
  }

  lemma SliceExtend<T>(s: seq<T>, k: nat)
    requires k < |s|
    ensures s[..k + 1] == s[..k] + [s[k]]
  {
  }

  /** A lane loop whose k-th call is the first to raise exits 5 after k + 1
      calls and lines. */
  lemma LanesRunStops(call: int -> Reply<bool>, portName: string, ports: seq<int>, lead: string, k: nat)
    requires k < |ports| && k <= FirstFailure(call, ports) && call(ports[k]).NotImplemented?
    ensures LanesRun(call, portName, ports, lead)
      == LaneRun(Exited(ExitNotImplemented), LaneLines(call, portName, ports, lead, k + 1), ports[..k + 1])
  {
    assert FirstFailure(call, ports) == k;
  }

  /** A lane loop in which no call raises returns after calling every lane. */
  lemma LanesRunCompletes(call: int -> Reply<bool>, portName: string, ports: seq<int>, lead: string)
    requires |ports| <= FirstFailure(call, ports)
    ensures LanesRun(call, portName, ports, lead)
      == LaneRun(Returned(()), LaneLines(call, portName, ports, lead, |ports|), ports[..|ports|])
  {
  }

  /** The loop shared by `set_lpmode` and `reset`. */
  method RunOnLanes(plugin: SfpUtil, portName: string, call: int -> Reply<bool>, lead: string)
    returns (outcome: Outcome<()>, echoed: string, calls: seq<int>)
    ensures LaneRun(outcome, echoed, calls) == LaneRunOf(plugin, portName, call, lead)
  {
    if !plugin.isValidPort(portName) {
      return Exited(ExitInvalidPort), "", [];
    }

    var physicalPortList := LogicalPortNameToPhysicalPortList(plugin, portName);
    if physicalPortList.NotAnInteger? {
      return Raised(ValueError), "", [];
    }
    if physicalPortList.NoPorts? {
      return Returned(()), "", [];
    }

    outcome, echoed, calls := RunLanes(call, portName, physicalPortList.ports, lead);
  }

  /** The lane loop of `set_lpmode` and `reset`: echo the lane's lead text,
      call the plugin, echo its answer; NotImplementedError exits 5. */
  method RunLanes(call: int -> Reply<bool>, portName: string, ports: seq<int>, lead: string)
    returns (outcome: Outcome<()>, echoed: string, calls: seq<int>)
    ensures LaneRun(outcome, echoed, calls) == LanesRun(call, portName, ports, lead)
  {
    var ganged := false;
    var i := 1;
    echoed := "";
    calls := [];

    if |ports| > 1 {
      ganged := true;
    }

    for k := 0 to |ports|
      invariant i == k + 1
      invariant k <= FirstFailure(call, ports)
      invariant calls == ports[..k]
      invariant echoed == LaneLines(call, portName, ports, lead, k)
    {
      ghost var before := echoed;
      ghost var callsBefore := calls;
      var physicalPort := ports[k];
      echoed := echoed + (lead + GetPhysicalPortName(portName, i, ganged) + "... ");

      calls := calls + [physicalPort];
      var result := call(physicalPort);
      if result.NotImplemented? {
        echoed := echoed + (NotImplementedMessage + "\n");
        assert LaneRun(Exited(ExitNotImplemented), echoed, calls) == LanesRun(call, portName, ports, lead) by {
          LaneLinesStep(call, portName, ports, lead, k);
          SliceExtend(ports, k);
          LanesRunStops(call, portName, ports, lead, k);
        }
        return Exited(ExitNotImplemented), echoed, calls;
      }

      if result.value {
        echoed := echoed + "OK\n";
      } else {
        echoed := echoed + "Failed\n";
      }
      assert echoed == LaneLines(call, portName, ports, lead, k + 1) by {
        LaneLinesStep(call, portName, ports, lead, k);
      }
      assert k + 1 <= FirstFailure(call, ports) by {
        FirstFailurePast(call, ports, k);
      }

      i := i + 1;
      assert calls == ports[..k + 1] by {
        SliceExtend(ports, k);
      }
    }
    assert LaneRun(Returned(()), echoed, calls) == LanesRun(call, portName, ports, lead) by {
      LanesRunCompletes(call, portName, ports, lead);
    }
    return Returned(()), echoed, calls;
  }

  function LowPowerModeLead(enable: bool): string
  {
    (if enable then "Enabling" else "Disabling") + " low-power mode for port "
  }

  const ResetLead: string := "Resetting port "

  /** set_low_power_mode(port, enable) as a per-lane call. */
  function SetLowPowerModeCall(plugin: SfpUtil, enable: bool): int -> Reply<bool>
  {
    p => plugin.setLowPowerMode(p, enable)
  }

  /** set_lpmode(logical_port, enable), behind `lpmode on` and `lpmode off`. */
  method SetLpmode(plugin: SfpUtil, logicalPort: string, enable: bool)
    returns (outcome: Outcome<()>, echoed: string, calls: seq<int>)
    ensures LaneRun(outcome, echoed, calls)
      == LaneRunOf(plugin, logicalPort, SetLowPowerModeCall(plugin, enable), LowPowerModeLead(enable))
  {
    outcome, echoed, calls := RunOnLanes(plugin, logicalPort, SetLowPowerModeCall(plugin, enable), LowPowerModeLead(enable));
  }

  /** `reset <port_name>`. */
  method Reset(plugin: SfpUtil, portName: string)
    returns (outcome: Outcome<()>, echoed: string, calls: seq<int>)
    ensures LaneRun(outcome, echoed, calls) == LaneRunOf(plugin, portName, plugin.reset, ResetLead)
  {
    outcome, echoed, calls := RunOnLanes(plugin, portName, plugin.reset, ResetLead);
  }

  /** An invalid port exits 4 before the plugin is called for any lane; an
      unknown "Ethernet..." name returns without calling it either. */
  lemma LaneRunInvalidPort(plugin: SfpUtil, portName: string, call: int -> Reply<bool>, lead: string)
    ensures var r := LaneRunOf(plugin, portName, call, lead);
      && (r.outcome == Exited(ExitInvalidPort) <==> !plugin.isValidPort(portName))
      && (!plugin.isValidPort(portName) ==> r.calls == [] && r.echoed == "")
      && ((plugin.isValidPort(portName) && LogicalPortNameToPhysicalPortList(plugin, portName).NoPorts?)
          ==> r.outcome == Returned(()) && r.calls == [])
  {
  }

  /** For a port with lanes `ports`: the run exits 5 iff some lane's call raises
      NotImplementedError, and returns when every call answers; the plugin is
      called for the lanes in order up to and including the first one that
      raises and for none after it; and the lines echoed are the `LaneLine`s of
      exactly the lanes called: the lead, the lane name, then OK, Failed or the
      not-implemented message by what the plugin answered. */
  lemma LaneRunStopsAtFirstFailure(plugin: SfpUtil, portName: string, ports: seq<int>,
                                   call: int -> Reply<bool>, lead: string)
    requires plugin.isValidPort(portName)
    requires LogicalPortNameToPhysicalPortList(plugin, portName) == PhysicalPorts(ports)
    ensures LaneRunOf(plugin, portName, call, lead) == LanesRun(call, portName, ports, lead)
    ensures var r := LanesRun(call, portName, ports, lead);
      && (r.outcome == Exited(ExitNotImplemented) <==> exists k :: 0 <= k < |ports| && call(ports[k]).NotImplemented?)
      && ((forall k :: 0 <= k < |ports| ==> call(ports[k]).Value?) ==> r.outcome == Returned(()))
      && (r.outcome.Returned? ==> r.calls == ports)
      && r.echoed == LaneLines(call, portName, ports, lead, |r.calls|)
      && (forall k :: 0 <= k < |ports| && call(ports[k]).NotImplemented? ==>
            |r.calls| <= k + 1 && r.calls == ports[..|r.calls|]
            && r.calls[|r.calls| - 1] == ports[|r.calls| - 1]
            && call(r.calls[|r.calls| - 1]).NotImplemented?)
      && (forall k :: 0 <= k < |r.calls| - 1 ==> call(r.calls[k]).Value?)
  {
    LanesRunOutcome(call, portName, ports, lead);
    LanesRunCalls(call, portName, ports, lead);
  }

  lemma LanesRunOutcome(call: int -> Reply<bool>, portName: string, ports: seq<int>, lead: string)
    ensures var r := LanesRun(call, portName, ports, lead);
      && (r.outcome == Exited(ExitNotImplemented) <==> exists k :: 0 <= k < |ports| && call(ports[k]).NotImplemented?)
      && ((forall k :: 0 <= k < |ports| ==> call(ports[k]).Value?) ==> r.outcome == Returned(()))
      && (r.outcome.Returned? ==> r.calls == ports)
      && r.echoed == LaneLines(call, portName, ports, lead, |r.calls|)
  {
    var f := FirstFailure(call, ports);
    if f == |ports| {
      assert ports[..|ports|] == ports;
      assert forall k :: 0 <= k < |ports| ==> !call(ports[k]).NotImplemented?;
    }
  }

  lemma LanesRunCalls(call: int -> Reply<bool>, portName: string, ports: seq<int>, lead: string)
    ensures var r := LanesRun(call, portName, ports, lead);
      && (forall k :: 0 <= k < |ports| && call(ports[k]).NotImplemented? ==>
            |r.calls| <= k + 1 && r.calls == ports[..|r.calls|]
            && r.calls[|r.calls| - 1] == ports[|r.calls| - 1]
            && call(r.calls[|r.calls| - 1]).NotImplemented?)
      && (forall k :: 0 <= k < |r.calls| - 1 ==> call(r.calls[k]).Value?)
  {
    var f := FirstFailure(call, ports);
    if f == |ports| {
      assert forall k :: 0 <= k < |ports| ==> !call(ports[k]).NotImplemented?;
    }
  }

  /** Two lanes whose calls both answer: no failure, and one line each. */
  lemma TwoLanesAnswering(call: int -> Reply<bool>, name: string, ports: seq<int>, lead: string)
    requires |ports| == 2 && call(ports[0]).Value? && call(ports[1]).Value?
    ensures FirstFailure(call, ports) == 2
    ensures LaneLines(call, name, ports, lead, 2)
      == LaneLine(lead, GetPhysicalPortName(name, 1, true), call(ports[0]))
         + LaneLine(lead, GetPhysicalPortName(name, 2, true), call(ports[1]))
  {
    assert ports[1..][1..] == [];
    assert FirstFailure(call, ports[1..]) == 1;
    assert LaneLines(call, name, ports, lead, 0) == "";
    assert LaneLines(call, name, ports, lead, 1) == "" + LaneLine(lead, GetPhysicalPortName(name, 1, true), call(ports[0]));
  }

  /** Ganged port Ethernet0 on lanes [5, 6], both answering True: `reset`
      echoes one OK line per lane, calls lane 5 then lane 6, and returns. */
  lemma ResetGangedExample(plugin: SfpUtil)
    requires plugin.isValidPort("Ethernet0")
    requires "Ethernet0" in plugin.portTable && plugin.portTable["Ethernet0"] == [5, 6]
    requires plugin.reset(5) == Value(true) && plugin.reset(6) == Value(true)
    ensures LaneRunOf(plugin, "Ethernet0", plugin.reset, ResetLead)
      == LaneRun(Returned(()),
                 (ResetLead + "Ethernet0:1 (ganged)" + "... " + "OK\n")
                 + (ResetLead + "Ethernet0:2 (ganged)" + "... " + "OK\n"),
                 [5, 6])
  {
    assert StartsWith("Ethernet0", "Ethernet");
    var ports := [5, 6];
    assert LogicalPortNameToPhysicalPortList(plugin, "Ethernet0") == PhysicalPorts(ports);
    TwoLanesAnswering(plugin.reset, "Ethernet0", ports, ResetLead);
    assert ports[..2] == ports;
    GangedNamesExample();
  }
}
