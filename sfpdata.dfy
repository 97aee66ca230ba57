/** "Getting and printing SFP data" in sfputil/main.py: the status line, the
    display name of a lane, the resolution of a logical port name to physical
    lanes, and the three per-lane EEPROM renderers. */
module SfpData {
  import opened Strings
  import opened Printing
  import opened Platform

  // ---------------------------------------------------------------------------
  // get_sfp_eeprom_status_string
  // ---------------------------------------------------------------------------

  function SfpEepromStatusString(port: string, detected: bool): string
  {
    if detected then port + ": SFP EEPROM detected" else port + ": SFP EEPROM not detected"
  }

  /** The status line tells the port and whether its EEPROM was detected: no two
      different (port, detected) pairs give the same line. */
  lemma StatusStringInjective(p1: string, d1: bool, p2: string, d2: bool)
    requires SfpEepromStatusString(p1, d1) == SfpEepromStatusString(p2, d2)
    ensures p1 == p2 && d1 == d2
  {
    var r := SfpEepromStatusString(p1, d1);
    var s1, s2 := r[|p1|..], r[|p2|..];
    assert r == p1 + s1 && r == p2 + s2;
    if d1 != d2 {
      StatusWordMark(p1, d1);
      StatusWordMark(p2, d2);
    } else {
      assert |s1| == |s2|;
      assert p1 == r[..|p1|] && p2 == r[..|p2|];
    }
  }

  /** The character ten from the end of a status line is the 'M' of "EEPROM"
      when detected and the 't' of "not" otherwise. */
  lemma StatusWordMark(port: string, detected: bool)
    ensures var r := SfpEepromStatusString(port, detected);
      r[|r| - 10] == if detected then 'M' else 't'
  {
  }

  /** A block that starts with a status line reports detection iff the line
      says "detected". */
  lemma StatusLineTellsDetection(port: string, detected: bool, rest: string)
    ensures StartsWith(SfpEepromStatusString(port, detected) + rest, SfpEepromStatusString(port, true)) <==> detected
  {
    var t := SfpEepromStatusString(port, detected) + rest;
    if !detected {
      var n := |port| + 13;
      assert t[n] == 'n';
      assert SfpEepromStatusString(port, true)[n] == 'd';
    }
  }

  // ---------------------------------------------------------------------------
  // get_physical_port_name
  // ---------------------------------------------------------------------------

  /** get_physical_port_name(logical_port, physical_port, ganged). Every caller
      passes its 1-based lane counter as `physical_port`, so the source's first
      test, `logical_port == physical_port`, compares a str with an int and is
      never true; the name is the logical name, with ":<lane> (ganged)" added
      when the port is ganged. */
  function GetPhysicalPortName(logicalPort: string, lane: int, ganged: bool): string
  {
    if ganged then logicalPort + ":" + IntToDecimal(lane) + " (ganged)" else logicalPort
  }

  /** Lanes of a ganged port get pairwise different names, each the logical
      name followed by ':' and the lane number; a port that is not ganged shows
      its logical name unmodified. */
  lemma GangedNamesDistinct(logicalPort: string, j: int, k: int)
    ensures GetPhysicalPortName(logicalPort, j, false) == logicalPort
    ensures StartsWith(GetPhysicalPortName(logicalPort, j, true), logicalPort + ":")
    ensures j != k ==> GetPhysicalPortName(logicalPort, j, true) != GetPhysicalPortName(logicalPort, k, true)
  {
    var a, b := GetPhysicalPortName(logicalPort, j, true), GetPhysicalPortName(logicalPort, k, true);
    var n := |logicalPort| + 1;
    assert a[..n] == logicalPort + ":";
    if a == b {
      var dj, dk := IntToDecimal(j), IntToDecimal(k);
      assert |dj| == |dk|;
      assert dj == a[n..n + |dj|] && dk == b[n..n + |dk|];
      DecimalInjective(j, k);
    }
  }

  /** A logical port backed by lanes [5, 6] shows as "Ethernet0:1 (ganged)" and
      "Ethernet0:2 (ganged)". */
  lemma GangedNamesExample()
    ensures GetPhysicalPortName("Ethernet0", 1, 2 > 1) == "Ethernet0:1 (ganged)"
    ensures GetPhysicalPortName("Ethernet0", 2, 2 > 1) == "Ethernet0:2 (ganged)"
  {
    assert IntToDecimal(1) == "1" && IntToDecimal(2) == "2";
  }

  // ---------------------------------------------------------------------------
  // logical_port_name_to_physical_port_list
  // ---------------------------------------------------------------------------

  /** The result of resolving a port name: the physical lanes in table order,
      `None` for an unknown "Ethernet..." name, or the ValueError `int` raises. */
  datatype PortList = PhysicalPorts(ports: seq<int>) | NoPorts | NotAnInteger

  function LogicalPortNameToPhysicalPortList(plugin: SfpUtil, portName: string): (r: PortList)
    ensures r.NoPorts? ==> StartsWith(portName, "Ethernet")
  {
    if StartsWith(portName, "Ethernet") then
      if portName in plugin.portTable then PhysicalPorts(plugin.portTable[portName]) else NoPorts
    else
      match ParseInt(portName)
      case Some(n) => PhysicalPorts([n])
      case None => NotAnInteger
  }

  /** A decimal number names the physical port with that index: resolving
      "%d" % n gives the single lane [n]. */
  lemma ResolveDecimalName(plugin: SfpUtil, n: int)
    ensures LogicalPortNameToPhysicalPortList(plugin, IntToDecimal(n)) == PhysicalPorts([n])
  {
    DecimalRoundTrip(n);
    var s := IntToDecimal(n);
    assert s[0] == '-' || IsDigit(s[0]);
  }

  // ---------------------------------------------------------------------------
  // Lane loops shared by the three renderers
  // ---------------------------------------------------------------------------

  /** Lane blocks appended in lane order, as the renderers' loops append them;
      a NotImplementedError from a lane ends the loop. */
  function AppendBlocks(blocks: seq<Reply<string>>): Reply<string>
  {
    if blocks == [] then Value("")
    else
      match AppendBlocks(blocks[..|blocks| - 1])
      case NotImplemented => NotImplemented
      case Value(s) =>
        match blocks[|blocks| - 1]
        case NotImplemented => NotImplemented
        case Value(b) => Value(s + b)
  }

  function BlockText(b: Reply<string>): string
  {
    if b.Value? then b.value else ""
  }

  /** The texts of all blocks one after another. */
  function ConcatTexts(blocks: seq<Reply<string>>): string
  {
    if blocks == [] then "" else ConcatTexts(blocks[..|blocks| - 1]) + BlockText(blocks[|blocks| - 1])
  }

  /** The loop fails iff some lane fails, and otherwise its text is every
      lane's block in lane order. */
  lemma {:induction false} AppendBlocksResult(blocks: seq<Reply<string>>)
    ensures AppendBlocks(blocks).NotImplemented? <==> exists k :: 0 <= k < |blocks| && blocks[k].NotImplemented?
    ensures AppendBlocks(blocks).Value? ==> AppendBlocks(blocks).value == ConcatTexts(blocks)
  {
    if blocks != [] {
      var init := blocks[..|blocks| - 1];
      AppendBlocksResult(init);
      if AppendBlocks(init).NotImplemented? {
        var k :| 0 <= k < |init| && init[k].NotImplemented?;
        assert blocks[k].NotImplemented?;
      }
      assert forall k :: 0 <= k < |init| ==> init[k] == blocks[k];
    }
  }

  /** A lane that answers extends the text of the lanes before it by its block. */
  lemma AppendBlocksStep(blocks: seq<Reply<string>>, k: nat, s: string, t: string)
    requires k < |blocks| && AppendBlocks(blocks[..k]) == Value(s) && blocks[k] == Value(t)
    ensures AppendBlocks(blocks[..k + 1]) == Value(s + t)
  {
    assert blocks[..k + 1][..k] == blocks[..k];
  }

  function ToOutcome(r: Reply<string>): Outcome<string>
  {
    match r
    case Value(s) => Returned(s)
    case NotImplemented => Raised(NotImplementedError)
  }

  /** get_presence, then get_eeprom_dict for a module that is present; either
      call may raise. */
  function EepromDictOf(plugin: SfpUtil, port: int): Reply<Option<EepromRecord>>
  {
    match plugin.presence(port)
    case NotImplemented => NotImplemented
    case Value(present) => if present then plugin.eepromDict(port) else Value(None)
  }

  /** get_presence, then get_eeprom_raw for a module that is present; either
      call may raise. */
  function EepromRawOf(plugin: SfpUtil, port: int): Reply<Option<seq<string>>>
  {
    match plugin.presence(port)
    case NotImplemented => NotImplemented
    case Value(present) => if present then plugin.eepromRaw(port) else Value(None)
  }

  /** A lane whose EEPROM dictionary cannot be read: get_presence raises, or
      the module is present and get_eeprom_dict raises. */
  predicate DictLaneRaises(plugin: SfpUtil, port: int)
  {
    plugin.presence(port).NotImplemented?
    || (plugin.presence(port) == Value(true) && plugin.eepromDict(port).NotImplemented?)
  }

  /** A lane whose raw EEPROM cannot be read: get_presence raises, or the
      module is present and get_eeprom_raw raises. */
  predicate RawLaneRaises(plugin: SfpUtil, port: int)
  {
    plugin.presence(port).NotImplemented?
    || (plugin.presence(port) == Value(true) && plugin.eepromRaw(port).NotImplemented?)
  }

  /** eeprom_dict['dom']['data'] when both are present. */
  function DomData(r: EepromRecord): Option<map<string, Val>>
  {
    if r.dom.Some? then r.dom.value.data else None
  }

  // ---------------------------------------------------------------------------
  // port_eeprom_data_string_pretty
  // ---------------------------------------------------------------------------

  /** The DOM part of a pretty block: written only when asked for and present. */
  function DomPrettyText(r: EepromRecord, dumpDom: bool): string
  {
    if dumpDom && DomData(r).Some? then DictToStringPretty(DomData(r).value, 1) else ""
  }

  /** What pretty mode writes for one lane. */
  function PrettyLaneText(portName: string, eeprom: Option<EepromRecord>, dumpDom: bool): string
  {
    match eeprom
    case Some(r) =>
      SfpEepromStatusString(portName, true) + "\n" + DictToStringPretty(r.interfaceData, 1)
      + DomPrettyText(r, dumpDom) + "\n"
    case None => SfpEepromStatusString(portName, false) + "\n" + "\n"
  }

  function PrettyLaneBlock(plugin: SfpUtil, logicalPortName: string, ganged: bool, lane: int,
                           port: int, dumpDom: bool): Reply<string>
  {
    match EepromDictOf(plugin, port)
    case NotImplemented => NotImplemented
    case Value(e) => Value(PrettyLaneText(GetPhysicalPortName(logicalPortName, lane, ganged), e, dumpDom))
  }

  /** The value port_eeprom_data_string_pretty returns. Its `return` sits inside
      the lane loop, so only the first lane is rendered, and with no lanes at
      all the function ends without a return statement (`Some` absent). */
  function PrettyText(plugin: SfpUtil, logicalPortName: string, dumpDom: bool): Outcome<Option<string>>
  {
    match LogicalPortNameToPhysicalPortList(plugin, logicalPortName)
    case NotAnInteger => Raised(ValueError)
    case NoPorts => Returned(Some(""))
    case PhysicalPorts(ports) =>
      if ports == [] then Returned(None)
      else
        match PrettyLaneBlock(plugin, logicalPortName, |ports| > 1, 1, ports[0], dumpDom)
        case NotImplemented => Raised(NotImplementedError)
        case Value(b) => Returned(Some(b))
  }

  method PortEepromDataStringPretty(plugin: SfpUtil, logicalPortName: string, dumpDom: bool)
    returns (r: Outcome<Option<string>>)
    ensures r == PrettyText(plugin, logicalPortName, dumpDom)
  {
    var result := "";
    var ganged := false;
    var i := 1;

    var physicalPortList := LogicalPortNameToPhysicalPortList(plugin, logicalPortName);
    if physicalPortList.NotAnInteger? {
      return Raised(ValueError);
    }
    if physicalPortList.NoPorts? {
      return Returned(Some(""));
    }
    var ports := physicalPortList.ports;

    if |ports| > 1 {
      ganged := true;
    }

    for k := 0 to |ports|
      invariant k == 0 && i == 1 && result == ""
    {
      var physicalPort := ports[k];
      var portName := GetPhysicalPortName(logicalPortName, i, ganged);
      var present := plugin.presence(physicalPort);
      if present.NotImplemented? {
        return Raised(NotImplementedError);
      }
      var eepromDict: Option<EepromRecord> := None;
      if present.value {
        var read := plugin.eepromDict(physicalPort);
        if read.NotImplemented? {
          return Raised(NotImplementedError);
        }
        eepromDict := read.value;
      }

      if eepromDict.Some? {
        var ifaceDataDict := eepromDict.value.interfaceData;
        result := result + SfpEepromStatusString(portName, true);
        assert result == SfpEepromStatusString(portName, true);
        result := result + "\n";
        result := result + DictToStringPretty(ifaceDataDict, 1);
        ghost var beforeDom := result;

        if dumpDom {
          var eepromDomDict := eepromDict.value.dom;
          if eepromDomDict.Some? {
            var domDataDict := eepromDomDict.value.data;
            if domDataDict.Some? {
              result := result + DictToStringPretty(domDataDict.value, 1);
            }
          }
        }
        assert result == beforeDom + DomPrettyText(eepromDict.value, dumpDom);
      } else {
        result := result + SfpEepromStatusString(portName, false);
        assert result == SfpEepromStatusString(portName, false);
        result := result + "\n";
      }

      result := result + "\n";
      i := i + 1;

      assert result == PrettyLaneText(portName, eepromDict, dumpDom);
      return Returned(Some(result));
    }
    return Returned(None);
  }

  function PrettyBlocks(plugin: SfpUtil, logicalPortName: string, ports: seq<int>, dumpDom: bool)
    : (blocks: seq<Reply<string>>)
    ensures |blocks| == |ports|
    ensures forall k :: 0 <= k < |ports| ==>
      blocks[k] == PrettyLaneBlock(plugin, logicalPortName, |ports| > 1, k + 1, ports[k], dumpDom)
  {
    seq(|ports|, k requires 0 <= k < |ports| => PrettyLaneBlock(plugin, logicalPortName, |ports| > 1, k + 1, ports[k], dumpDom))
  }

  /** The text pretty mode would give if every lane were rendered, as the
      per-lane layout of the other two modes does. */
  function PrettyAllLanesText(plugin: SfpUtil, ports: seq<int>, logicalPortName: string, dumpDom: bool): Outcome<string>
  {
    ToOutcome(AppendBlocks(PrettyBlocks(plugin, logicalPortName, ports, dumpDom)))
  }

  /** Pretty mode stops after the first lane: for a port whose lanes can all be
      read, its text is the first lane's block of the all-lanes
      rendering, equal to it for a single-lane port and strictly shorter for a
      ganged one. */
  lemma PrettyRendersOnlyFirstLane(plugin: SfpUtil, logicalPortName: string, dumpDom: bool, ports: seq<int>)
    requires LogicalPortNameToPhysicalPortList(plugin, logicalPortName) == PhysicalPorts(ports)
    requires ports != []
    requires forall k :: 0 <= k < |ports| ==> !DictLaneRaises(plugin, ports[k])
    ensures PrettyText(plugin, logicalPortName, dumpDom).Returned?
    ensures PrettyAllLanesText(plugin, ports, logicalPortName, dumpDom).Returned?
    ensures var first, all := PrettyText(plugin, logicalPortName, dumpDom).value.value,
                              PrettyAllLanesText(plugin, ports, logicalPortName, dumpDom).value;
      && StartsWith(all, first)
      && (|ports| == 1 <==> first == all)
  {
    var blocks := PrettyBlocks(plugin, logicalPortName, ports, dumpDom);
    forall k | 0 <= k < |blocks|
      ensures blocks[k].Value? && |blocks[k].value| > 0
    {
      assert EepromDictOf(plugin, ports[k]).Value?;
    }
    AppendBlocksResult(blocks);
    FirstBlockPrefix(blocks);
  }

  /** With every lane answering and every block non-empty, the first block
      starts the concatenation, and is all of it only for a single lane. */
  lemma FirstBlockPrefix(blocks: seq<Reply<string>>)
    requires blocks != []
    requires forall k :: 0 <= k < |blocks| ==> blocks[k].Value? && |blocks[k].value| > 0
    ensures StartsWith(ConcatTexts(blocks), blocks[0].value)
    ensures |blocks| == 1 <==> blocks[0].value == ConcatTexts(blocks)
  {
    assert ConcatTexts(blocks[..1]) == blocks[0].value by {
      assert blocks[..1][..0] == [];
    }
    ConcatTextsPrefix(blocks, 1);
    if |blocks| > 1 {
      ConcatTextsPrefix(blocks, 2);
      assert blocks[..2][..1] == blocks[..1];
      assert ConcatTexts(blocks[..2]) == blocks[0].value + blocks[1].value;
    } else {
      assert blocks[..1] == blocks;
    }
  }

  lemma {:induction false} ConcatTextsPrefix(blocks: seq<Reply<string>>, n: nat)
    requires n <= |blocks|
    ensures |ConcatTexts(blocks[..n])| <= |ConcatTexts(blocks)|
    ensures StartsWith(ConcatTexts(blocks), ConcatTexts(blocks[..n]))
    decreases |blocks|
  {
    if n < |blocks| {
      var init := blocks[..|blocks| - 1];
      assert init[..n] == blocks[..n];
      ConcatTextsPrefix(init, n);
    } else {
      assert blocks[..n] == blocks;
    }
  }

  // ---------------------------------------------------------------------------
  // port_eeprom_data_string_pretty_oneline
  // ---------------------------------------------------------------------------

  /** What one-line mode writes for one lane: nothing but the line break for a
      lane without EEPROM data, and no separator between the interface items
      and the DOM items. */
  function OnelineLaneText(portName: string, eeprom: Option<EepromRecord>,
                           ifdataBlacklist: set<string>, domdataBlacklist: set<string>, dumpDom: bool): string
  {
    match eeprom
    case Some(r) =>
      "port:" + portName + "," + DictToStringCommaSeparated(r.interfaceData, ifdataBlacklist, "")
      + DomOnelineText(r, domdataBlacklist, dumpDom) + "\n"
    case None => "\n"
  }

  /** The DOM items of a one-line block: written only when asked for and present. */
  function DomOnelineText(r: EepromRecord, domdataBlacklist: set<string>, dumpDom: bool): string
  {
    if dumpDom && DomData(r).Some? then DictToStringCommaSeparated(DomData(r).value, domdataBlacklist, "") else ""
  }

  function OnelineLaneBlock(plugin: SfpUtil, logicalPortName: string, ganged: bool, lane: int, port: int,
                            ifdataBlacklist: set<string>, domdataBlacklist: set<string>, dumpDom: bool): Reply<string>
  {
    match EepromDictOf(plugin, port)
    case NotImplemented => NotImplemented
    case Value(e) =>
      Value(OnelineLaneText(GetPhysicalPortName(logicalPortName, lane, ganged), e, ifdataBlacklist, domdataBlacklist, dumpDom))
  }

  function OnelineBlocks(plugin: SfpUtil, logicalPortName: string, ports: seq<int>,
                         ifdataBlacklist: set<string>, domdataBlacklist: set<string>, dumpDom: bool)
    : (blocks: seq<Reply<string>>)
    ensures |blocks| == |ports|
    ensures forall k :: 0 <= k < |ports| ==>
      blocks[k] == OnelineLaneBlock(plugin, logicalPortName, |ports| > 1, k + 1, ports[k], ifdataBlacklist, domdataBlacklist, dumpDom)
  {
    seq(|ports|, k requires 0 <= k < |ports| =>
      OnelineLaneBlock(plugin, logicalPortName, |ports| > 1, k + 1, ports[k], ifdataBlacklist, domdataBlacklist, dumpDom))
  }

  /** The value port_eeprom_data_string_pretty_oneline returns. */
  function OnelineText(plugin: SfpUtil, logicalPortName: string,
                       ifdataBlacklist: set<string>, domdataBlacklist: set<string>, dumpDom: bool): Outcome<string>
  {
    match LogicalPortNameToPhysicalPortList(plugin, logicalPortName)
    case NotAnInteger => Raised(ValueError)
    case NoPorts => Returned("")
    case PhysicalPorts(ports) =>
      ToOutcome(AppendBlocks(OnelineBlocks(plugin, logicalPortName, ports, ifdataBlacklist, domdataBlacklist, dumpDom)))
  }

  method PortEepromDataStringPrettyOneline(plugin: SfpUtil, logicalPortName: string,
                                           ifdataBlacklist: set<string>, domdataBlacklist: set<string>, dumpDom: bool)
    returns (r: Outcome<string>)
    ensures r == OnelineText(plugin, logicalPortName, ifdataBlacklist, domdataBlacklist, dumpDom)
  {
    var ganged := false;

    var physicalPortList := LogicalPortNameToPhysicalPortList(plugin, logicalPortName);
    if physicalPortList.NotAnInteger? {
      return Raised(ValueError);
    }
    if physicalPortList.NoPorts? {
      return Returned("");
    }
    var ports := physicalPortList.ports;

    if |ports| > 1 {
      ganged := true;
    }

    r := OnelineLanes(plugin, logicalPortName, ports, ganged, ifdataBlacklist, domdataBlacklist, dumpDom);
  }

  /** The lane loop of port_eeprom_data_string_pretty_oneline. */
  method OnelineLanes(plugin: SfpUtil, logicalPortName: string, ports: seq<int>, ganged: bool,
                      ifdataBlacklist: set<string>, domdataBlacklist: set<string>, dumpDom: bool)
    returns (r: Outcome<string>)
    requires ganged == (|ports| > 1)
    ensures r == ToOutcome(AppendBlocks(OnelineBlocks(plugin, logicalPortName, ports, ifdataBlacklist, domdataBlacklist, dumpDom)))
  {
    var result := "";
    var i := 1;
    ghost var blocks := OnelineBlocks(plugin, logicalPortName, ports, ifdataBlacklist, domdataBlacklist, dumpDom);
    for k := 0 to |ports|
      invariant i == k + 1
      invariant AppendBlocks(blocks[..k]) == Value(result)
    {
      var physicalPort := ports[k];
      var present := plugin.presence(physicalPort);
      if present.NotImplemented? {
        assert ToOutcome(AppendBlocks(blocks)) == Raised(NotImplementedError) by {
          assert blocks[k].NotImplemented?;
          AppendBlocksResult(blocks);
        }
        return Raised(NotImplementedError);
      }
      var eepromDict: Option<EepromRecord> := None;
      if present.value {
        var read := plugin.eepromDict(physicalPort);
        if read.NotImplemented? {
          assert ToOutcome(AppendBlocks(blocks)) == Raised(NotImplementedError) by {
            assert blocks[k].NotImplemented?;
            AppendBlocksResult(blocks);
          }
          return Raised(NotImplementedError);
        }
        eepromDict := read.value;
      }
      var portName := GetPhysicalPortName(logicalPortName, i, ganged);
      ghost var before := result;
      result := AppendOnelineLane(result, portName, eepromDict, ifdataBlacklist, domdataBlacklist, dumpDom);
      assert AppendBlocks(blocks[..k + 1]) == Value(result) by {
        ghost var text := OnelineLaneText(portName, eepromDict, ifdataBlacklist, domdataBlacklist, dumpDom);
        assert blocks[k] == Value(text);
        AppendBlocksStep(blocks, k, before, text);
      }
      i := i + 1;
    }
    assert ToOutcome(AppendBlocks(blocks)) == Returned(result) by {
      assert blocks[..|ports|] == blocks;
    }
    return Returned(result);
  }

  /** The body of the one-line lane loop once the lane has been read: only
      detected ports are printed, but every lane ends the line. */
  method AppendOnelineLane(output: string, portName: string, eepromDict: Option<EepromRecord>,
                           ifdataBlacklist: set<string>, domdataBlacklist: set<string>, dumpDom: bool)
    returns (result: string)
    ensures result == output + OnelineLaneText(portName, eepromDict, ifdataBlacklist, domdataBlacklist, dumpDom)
  {
    result := output;
    if eepromDict.Some? {
      var ifaceDataDict := eepromDict.value.interfaceData;
      result := result + "port:" + portName + ",";
      result := result + DictToStringCommaSeparated(ifaceDataDict, ifdataBlacklist, "");
      ghost var beforeDom := result;

      if dumpDom {
        var eepromDomDict := eepromDict.value.dom;
        if eepromDomDict.Some? {
          var domDataDict := eepromDomDict.value.data;
          if domDataDict.Some? {
            result := result + DictToStringCommaSeparated(domDataDict.value, domdataBlacklist, "");
          }
        }
      }
      assert result == beforeDom + DomOnelineText(eepromDict.value, domdataBlacklist, dumpDom);
    }

    result := result + "\n";
    if eepromDict.Some? {
      assert result == output + ("port:" + portName + "," + DictToStringCommaSeparated(eepromDict.value.interfaceData, ifdataBlacklist, "")
                                 + DomOnelineText(eepromDict.value, domdataBlacklist, dumpDom) + "\n");
    }
  }

  // ---------------------------------------------------------------------------
  // port_eeprom_data_raw_string_pretty
  // ---------------------------------------------------------------------------

  /** What raw mode writes for one lane: the status line, the hex dump when
      there are bytes, and a blank line. */
  function RawLaneText(portName: string, eepromRaw: Option<seq<string>>): string
  {
    match eepromRaw
    case None => SfpEepromStatusString(portName, false) + "\n" + "\n"
    case Some(bytes) => SfpEepromStatusString(portName, true) + "\n" + RawBytesText(bytes) + "\n"
  }

  function RawLaneBlock(plugin: SfpUtil, logicalPortName: string, ganged: bool, lane: int, port: int): Reply<string>
  {
    match EepromRawOf(plugin, port)
    case NotImplemented => NotImplemented
    case Value(raw) => Value(RawLaneText(GetPhysicalPortName(logicalPortName, lane, ganged), raw))
  }

  function RawBlocks(plugin: SfpUtil, logicalPortName: string, ports: seq<int>): (blocks: seq<Reply<string>>)
    ensures |blocks| == |ports|
    ensures forall k :: 0 <= k < |ports| ==> blocks[k] == RawLaneBlock(plugin, logicalPortName, |ports| > 1, k + 1, ports[k])
  {
    seq(|ports|, k requires 0 <= k < |ports| => RawLaneBlock(plugin, logicalPortName, |ports| > 1, k + 1, ports[k]))
  }

  /** The value port_eeprom_data_raw_string_pretty returns. */
  function RawText(plugin: SfpUtil, logicalPortName: string): Outcome<string>
  {
    match LogicalPortNameToPhysicalPortList(plugin, logicalPortName)
    case NotAnInteger => Raised(ValueError)
    case NoPorts => Returned("")
    case PhysicalPorts(ports) => ToOutcome(AppendBlocks(RawBlocks(plugin, logicalPortName, ports)))
  }

  method PortEepromDataRawStringPretty(plugin: SfpUtil, logicalPortName: string) returns (r: Outcome<string>)
    ensures r == RawText(plugin, logicalPortName)
  {
    var ganged := false;

    var physicalPortList := LogicalPortNameToPhysicalPortList(plugin, logicalPortName);
    if physicalPortList.NotAnInteger? {
      return Raised(ValueError);
    }
    if physicalPortList.NoPorts? {
      return Returned("");
    }
    var ports := physicalPortList.ports;

    if |ports| > 1 {
      ganged := true;
    }

    r := RawLanes(plugin, logicalPortName, ports, ganged);
  }

  /** The lane loop of port_eeprom_data_raw_string_pretty. */
  method RawLanes(plugin: SfpUtil, logicalPortName: string, ports: seq<int>, ganged: bool)
    returns (r: Outcome<string>)
    requires ganged == (|ports| > 1)
    ensures r == ToOutcome(AppendBlocks(RawBlocks(plugin, logicalPortName, ports)))
  {
    var result := "";
    var i := 1;
    ghost var blocks := RawBlocks(plugin, logicalPortName, ports);
    for k := 0 to |ports|
      invariant i == k + 1
      invariant AppendBlocks(blocks[..k]) == Value(result)
    {
      var physicalPort := ports[k];
      var portName := GetPhysicalPortName(logicalPortName, i, ganged);
      var present := plugin.presence(physicalPort);
      if present.NotImplemented? {
        assert ToOutcome(AppendBlocks(blocks)) == Raised(NotImplementedError) by {
          assert blocks[k].NotImplemented?;
          AppendBlocksResult(blocks);
        }
        return Raised(NotImplementedError);
      }
      var eepromRaw: Option<seq<string>> := None;
      if present.value {
        var read := plugin.eepromRaw(physicalPort);
        if read.NotImplemented? {
          assert ToOutcome(AppendBlocks(blocks)) == Raised(NotImplementedError) by {
            assert blocks[k].NotImplemented?;
            AppendBlocksResult(blocks);
          }
          return Raised(NotImplementedError);
        }
        eepromRaw := read.value;
      }
      ghost var before := result;
      result := AppendRawLane(result, portName, eepromRaw);
      assert AppendBlocks(blocks[..k + 1]) == Value(result) by {
        assert blocks[k] == Value(RawLaneText(portName, eepromRaw));
        AppendBlocksStep(blocks, k, before, RawLaneText(portName, eepromRaw));
      }
      i := i + 1;
    }
    assert ToOutcome(AppendBlocks(blocks)) == Returned(result) by {
      assert blocks[..|ports|] == blocks;
    }
    return Returned(result);
  }

  /** The body of the raw lane loop once the lane has been read. */
  method AppendRawLane(output: string, portName: string, eepromRaw: Option<seq<string>>) returns (result: string)
    ensures result == output + RawLaneText(portName, eepromRaw)
  {
    result := output;
    if eepromRaw.None? {
      result := result + SfpEepromStatusString(portName, false);
      result := result + "\n";
    } else {
      result := result + SfpEepromStatusString(portName, true);
      result := result + "\n";
      var hexstr := RawBytesToStringPretty(eepromRaw.value);
      result := result + hexstr;
    }

    result := result + "\n";
    if eepromRaw.None? {
      assert result == output + (SfpEepromStatusString(portName, false) + "\n" + "\n");
    } else {
      assert result == output + (SfpEepromStatusString(portName, true) + "\n" + RawBytesText(eepromRaw.value) + "\n");
    }
  }

  // ---------------------------------------------------------------------------
  // Properties of the renderers
  // ---------------------------------------------------------------------------

  /** One-line and raw mode raise NotImplementedError iff some lane of a port
      that resolved cannot be read (get_presence raises, or the module is
      present and the EEPROM read raises); otherwise they return, and their
      text is every lane's block in lane order. */
  lemma RawAndOnelineFailIffSomeLaneFails(plugin: SfpUtil, logicalPortName: string, ports: seq<int>,
                                          ifdataBlacklist: set<string>, domdataBlacklist: set<string>, dumpDom: bool)
    requires LogicalPortNameToPhysicalPortList(plugin, logicalPortName) == PhysicalPorts(ports)
    ensures RawText(plugin, logicalPortName) == Raised(NotImplementedError)
      <==> exists k :: 0 <= k < |ports| && RawLaneRaises(plugin, ports[k])
    ensures OnelineText(plugin, logicalPortName, ifdataBlacklist, domdataBlacklist, dumpDom) == Raised(NotImplementedError)
      <==> exists k :: 0 <= k < |ports| && DictLaneRaises(plugin, ports[k])
    ensures (forall k :: 0 <= k < |ports| ==> !RawLaneRaises(plugin, ports[k])) ==>
      RawText(plugin, logicalPortName).Returned?
    ensures (forall k :: 0 <= k < |ports| ==> !DictLaneRaises(plugin, ports[k])) ==>
      OnelineText(plugin, logicalPortName, ifdataBlacklist, domdataBlacklist, dumpDom).Returned?
    ensures RawText(plugin, logicalPortName).Returned? ==>
      RawText(plugin, logicalPortName).value == ConcatTexts(RawBlocks(plugin, logicalPortName, ports))
    ensures OnelineText(plugin, logicalPortName, ifdataBlacklist, domdataBlacklist, dumpDom).Returned? ==>
      OnelineText(plugin, logicalPortName, ifdataBlacklist, domdataBlacklist, dumpDom).value
        == ConcatTexts(OnelineBlocks(plugin, logicalPortName, ports, ifdataBlacklist, domdataBlacklist, dumpDom))
  {
    var raw := RawBlocks(plugin, logicalPortName, ports);
    var one := OnelineBlocks(plugin, logicalPortName, ports, ifdataBlacklist, domdataBlacklist, dumpDom);
    AppendBlocksResult(raw);
    AppendBlocksResult(one);
    forall k | 0 <= k < |ports|
      ensures raw[k].NotImplemented? <==> RawLaneRaises(plugin, ports[k])
      ensures one[k].NotImplemented? <==> DictLaneRaises(plugin, ports[k])
    {
    }
  }

  /** In raw mode a lane's block begins with the "detected" status line iff its
      module is present and get_eeprom_raw returned bytes. */
  lemma RawLaneDetectedIff(plugin: SfpUtil, logicalPortName: string, ganged: bool, lane: int, port: int)
    requires !RawLaneRaises(plugin, port)
    ensures RawLaneBlock(plugin, logicalPortName, ganged, lane, port).Value?
    ensures var name := GetPhysicalPortName(logicalPortName, lane, ganged);
      var block := RawLaneBlock(plugin, logicalPortName, ganged, lane, port).value;
      StartsWith(block, SfpEepromStatusString(name, true)) <==> plugin.presence(port).value && plugin.eepromRaw(port).value.Some?
  {
    var name := GetPhysicalPortName(logicalPortName, lane, ganged);
    var raw := EepromRawOf(plugin, port).value;
    match raw
    case None =>
      StatusLineTellsDetection(name, false, "\n" + "\n");
      assert RawLaneText(name, raw) == SfpEepromStatusString(name, false) + ("\n" + "\n");
    case Some(bytes) =>
      StatusLineTellsDetection(name, true, "\n" + RawBytesText(bytes) + "\n");
      assert RawLaneText(name, raw) == SfpEepromStatusString(name, true) + ("\n" + RawBytesText(bytes) + "\n");
  }

  /** In one-line mode a lane's block is a "port:<name>," line iff its module is
      present and get_eeprom_dict returned a dictionary; any other lane still
      writes its line break. */
  lemma OnelineLaneDetectedIff(plugin: SfpUtil, logicalPortName: string, ganged: bool, lane: int, port: int,
                               ifdataBlacklist: set<string>, domdataBlacklist: set<string>, dumpDom: bool)
    requires !DictLaneRaises(plugin, port)
    ensures OnelineLaneBlock(plugin, logicalPortName, ganged, lane, port, ifdataBlacklist, domdataBlacklist, dumpDom).Value?
    ensures var name := GetPhysicalPortName(logicalPortName, lane, ganged);
      var block := OnelineLaneBlock(plugin, logicalPortName, ganged, lane, port, ifdataBlacklist, domdataBlacklist, dumpDom).value;
      && (StartsWith(block, "port:" + name + ",") <==> plugin.presence(port).value && plugin.eepromDict(port).value.Some?)
      && (block == "\n" <==> !(plugin.presence(port).value && plugin.eepromDict(port).value.Some?))
  {
  }
}
