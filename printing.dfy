/** The text formatters of sfputil/main.py ("Methods for printing"): the hex dump of
    raw EEPROM bytes and the two renderings of a nested EEPROM dictionary. */
module Printing {
  import opened Strings

  /** A value of a parsed EEPROM dictionary: a scalar, already converted with
      `str`, or a nested dictionary. */
  datatype Val = Scalar(text: string) | Dict(fields: map<string, Val>)

  // ---------------------------------------------------------------------------
  // raw_bytes_to_string_pretty
  // ---------------------------------------------------------------------------

  /** What is written before token `i`: one extra space at every multiple of 8
      and a line break at every multiple of 16 (never before the first token). */
  function HexSeparator(i: nat): string
  {
    (if i > 0 && i % 8 == 0 then " " else "") + (if i > 0 && i % 16 == 0 then "\n" else "")
  }

  /** The dump of the first `n` tokens: each token preceded by its separator
      and followed by one space. */
  function HexDump(tokens: seq<string>, n: nat): string
    requires n <= |tokens|
  {
    if n == 0 then "" else HexDump(tokens, n - 1) + HexSeparator(n - 1) + tokens[n - 1] + " "
  }

  /** Builds the hex dump token by token, as the source's loop does. */
  method RawBytesToStringPretty(rawBytes: seq<string>) returns (hexstr: string)
    ensures hexstr == HexDump(rawBytes, |rawBytes|)
  {
    hexstr := "";
    for i := 0 to |rawBytes|
      invariant hexstr == HexDump(rawBytes, i)
    {
      if i > 0 && i % 8 == 0 {
        hexstr := hexstr + " ";
      }
      if i > 0 && i % 16 == 0 {
        hexstr := hexstr + "\n";
      }
      hexstr := hexstr + rawBytes[i];
      hexstr := hexstr + " ";
    }
  }

  function TotalLength(tokens: seq<string>): nat
  {
    if tokens == [] then 0 else TotalLength(tokens[..|tokens| - 1]) + |tokens[|tokens| - 1]|
  }

  /** Where token `i` starts in the dump: the tokens before it with their
      trailing spaces, one extra space per 8 tokens and one line break per 16. */
  function TokenOffset(tokens: seq<string>, i: nat): nat
    requires i <= |tokens|
  {
    TotalLength(tokens[..i]) + i + i / 8 + i / 16
  }

  lemma FloorStep(n: nat)
    requires n > 0
    ensures n / 8 == (n - 1) / 8 + (if n % 8 == 0 then 1 else 0)
    ensures n / 16 == (n - 1) / 16 + (if n % 16 == 0 then 1 else 0)
  {
  }

  lemma {:induction false} HexDumpLength(tokens: seq<string>, n: nat)
    requires n <= |tokens|
    ensures |HexDump(tokens, n)| == TotalLength(tokens[..n]) + n + (if n == 0 then 0 else (n - 1) / 8 + (n - 1) / 16)
  {
    if n > 0 {
      HexDumpLength(tokens, n - 1);
      assert tokens[..n][..n - 1] == tokens[..n - 1];
      assert TotalLength(tokens[..n]) == TotalLength(tokens[..n - 1]) + |tokens[n - 1]|;
      if n > 1 {
        FloorStep(n - 1);
      }
    }
  }

  /** The dump of n > 0 tokens is (sum of token lengths) + n + (n-1)/8 + (n-1)/16
      characters long, and the empty input gives the empty string. */
  lemma HexDumpLengthFormula(tokens: seq<string>)
    ensures |tokens| == 0 ==> RawBytesText(tokens) == ""
    ensures |tokens| > 0 ==> |RawBytesText(tokens)| == TotalLength(tokens) + |tokens| + (|tokens| - 1) / 8 + (|tokens| - 1) / 16
  {
    HexDumpLength(tokens, |tokens|);
    assert tokens[..|tokens|] == tokens;
  }

  /** The function whose value `RawBytesToStringPretty` returns. */
  function RawBytesText(tokens: seq<string>): string
  {
    HexDump(tokens, |tokens|)
  }

  lemma {:induction false} HexDumpExtends(tokens: seq<string>, m: nat, n: nat)
    requires m <= n <= |tokens|
    ensures |HexDump(tokens, m)| <= |HexDump(tokens, n)|
    ensures HexDump(tokens, n)[..|HexDump(tokens, m)|] == HexDump(tokens, m)
    decreases n
  {
    if m < n {
      HexDumpExtends(tokens, m, n - 1);
    }
  }

  /** Where token `i` sits in the dump of the first `i + 1` tokens. */
  lemma HexDumpLastToken(tokens: seq<string>, i: nat)
    requires i < |tokens|
    ensures |HexDump(tokens, i + 1)| == TokenOffset(tokens, i) + |tokens[i]| + 1
    ensures |HexSeparator(i)| <= TokenOffset(tokens, i)
    ensures HexDump(tokens, i + 1)[TokenOffset(tokens, i) - |HexSeparator(i)|..TokenOffset(tokens, i)] == HexSeparator(i)
    ensures HexDump(tokens, i + 1)[TokenOffset(tokens, i)..TokenOffset(tokens, i) + |tokens[i]|] == tokens[i]
    ensures HexDump(tokens, i + 1)[TokenOffset(tokens, i) + |tokens[i]|] == ' '
  {
    var pre, sep := HexDump(tokens, i), HexSeparator(i);
    HexDumpLength(tokens, i);
    assert |pre| + |sep| == TokenOffset(tokens, i) by {
      if i > 0 {
        FloorStep(i);
      }
    }
    assert HexDump(tokens, i + 1) == pre + sep + tokens[i] + " ";
  }

  /** Every token appears in input order at its offset, preceded by its
      separator and followed by exactly one space. */
  lemma HexDumpTokenAt(tokens: seq<string>, i: nat)
    requires i < |tokens|
    ensures TokenOffset(tokens, i) + |tokens[i]| < |RawBytesText(tokens)|
    ensures RawBytesText(tokens)[TokenOffset(tokens, i)..TokenOffset(tokens, i) + |tokens[i]|] == tokens[i]
    ensures RawBytesText(tokens)[TokenOffset(tokens, i) + |tokens[i]|] == ' '
    ensures |HexSeparator(i)| <= TokenOffset(tokens, i)
    ensures RawBytesText(tokens)[TokenOffset(tokens, i) - |HexSeparator(i)|..TokenOffset(tokens, i)] == HexSeparator(i)
  {
    var d, upto := RawBytesText(tokens), HexDump(tokens, i + 1);
    var off, len := TokenOffset(tokens, i), |tokens[i]|;
    HexDumpLastToken(tokens, i);
    HexDumpExtends(tokens, i + 1, |tokens|);
    SliceOfPrefix(d, upto, off, off + len);
    SliceOfPrefix(d, upto, off - |HexSeparator(i)|, off);
    assert d[off + len] == d[..|upto|][off + len];
  }

  lemma SliceOfPrefix(s: string, p: string, a: nat, b: nat)
    requires |p| <= |s| && s[..|p|] == p && a <= b <= |p|
    ensures s[a..b] == p[a..b]
  {
    assert forall x :: a <= x < b ==> s[x] == s[..|p|][x];
  }

  // ---------------------------------------------------------------------------
  // dict_to_string_pretty
  // ---------------------------------------------------------------------------

  function Tabs(n: nat): (s: string)
    ensures |s| == n && forall i :: 0 <= i < n ==> s[i] == '\t'
  {
    if n == 0 then "" else Tabs(n - 1) + "\t"
  }

  /** The pretty rendering of the dictionary `d` restricted to the keys `ks`: the
      source's recursion takes the least key, renders it, and recurses on a copy
      of the dictionary without that key; `ks` is the key set of that copy. */
  function PrettyKeys(d: map<string, Val>, ks: set<string>, indent: nat): string
    requires ks <= d.Keys
    decreases Dict(d), |ks|
  {
    if ks == {} then ""
    else
      var key := Least(ks);
      var output := match d[key]
        case Dict(sub) => Tabs(indent) + key + ":\n" + PrettyKeys(sub, sub.Keys, indent + 1)
        case Scalar(v) => Tabs(indent) + key + ": " + v + "\n";
      output + PrettyKeys(d, ks - {key}, indent)
  }

  /** dict_to_string_pretty(in_dict, indent). */
  function DictToStringPretty(d: map<string, Val>, indent: nat): string
  {
    PrettyKeys(d, d.Keys, indent)
  }

  /** The block one key contributes at one level of the pretty rendering. */
  function PrettyEntry(d: map<string, Val>, key: string, indent: nat): string
    requires key in d
  {
    match d[key]
    case Dict(sub) => Tabs(indent) + key + ":\n" + DictToStringPretty(sub, indent + 1)
    case Scalar(v) => Tabs(indent) + key + ": " + v + "\n"
  }

  /** The entries of `keys`, in the order listed, one after another. */
  function PrettyEntries(d: map<string, Val>, keys: seq<string>, indent: nat): string
    requires forall k :: k in keys ==> k in d
  {
    if keys == [] then "" else PrettyEntry(d, keys[0], indent) + PrettyEntries(d, keys[1..], indent)
  }

  lemma {:induction false} PrettyKeysListing(d: map<string, Val>, keys: seq<string>, indent: nat)
    requires StrictlySorted(keys) && Elements(keys) <= d.Keys
    ensures PrettyKeys(d, Elements(keys), indent) == PrettyEntries(d, keys, indent)
    decreases |keys|
  {
    if keys != [] {
      SortedListingHead(keys);
      PrettyKeysListing(d, keys[1..], indent);
    }
  }

  /** dict_to_string_pretty emits every key of a level exactly once, in
      ascending key order: the rendering is the concatenation of the entries of
      the sorted key listing. */
  lemma PrettyRendersSortedKeys(d: map<string, Val>, keys: seq<string>, indent: nat)
    requires StrictlySorted(keys) && Elements(keys) == d.Keys
    ensures DictToStringPretty(d, indent) == PrettyEntries(d, keys, indent)
  {
    PrettyKeysListing(d, keys, indent);
  }

  // ---------------------------------------------------------------------------
  // dict_to_string_comma_separated
  // ---------------------------------------------------------------------------

  /** The comma-separated rendering of `d` restricted to `ks` (the key set of the
      copy the source recurses on). A blacklisted least key ends this level;
      a nested dictionary is rendered with the prefix `key + "."` alone. */
  function CommaKeys(d: map<string, Val>, ks: set<string>, blacklist: set<string>,
                     prefix: string, first: bool): string
    requires ks <= d.Keys
    decreases Dict(d), |ks|
  {
    if ks == {} then ""
    else
      var key := Least(ks);
      if key in blacklist then ""
      else
        var output := (if first then "" else ",") + match d[key]
          case Dict(sub) => CommaKeys(sub, sub.Keys, blacklist, key + ".", true)
          case Scalar(v) => prefix + key + ":" + v;
        output + CommaKeys(d, ks - {key}, blacklist, prefix, false)
  }

  /** dict_to_string_comma_separated(in_dict, key_blacklist, elemprefix). */
  function DictToStringCommaSeparated(d: map<string, Val>, blacklist: set<string>, prefix: string): string
  {
    CommaKeys(d, d.Keys, blacklist, prefix, true)
  }

  /** The text one key contributes, without its separating comma. */
  function CommaItem(d: map<string, Val>, key: string, blacklist: set<string>, prefix: string): string
    requires key in d
  {
    match d[key]
    case Dict(sub) => DictToStringCommaSeparated(sub, blacklist, key + ".")
    case Scalar(v) => prefix + key + ":" + v
  }

  /** The longest prefix of the listing that holds no blacklisted key. */
  function BeforeBlacklisted(keys: seq<string>, blacklist: set<string>): (r: seq<string>)
    ensures |r| <= |keys| && r == keys[..|r|]
    ensures forall k :: k in r ==> k !in blacklist
    ensures |r| < |keys| ==> keys[|r|] in blacklist
  {
    if keys == [] || keys[0] in blacklist then [] else [keys[0]] + BeforeBlacklisted(keys[1..], blacklist)
  }

  /** `items` joined with single commas. */
  function JoinCommas(items: seq<string>): string
  {
    if items == [] then "" else if |items| == 1 then items[0] else items[0] + "," + JoinCommas(items[1..])
  }

  /** The items of `keys`, each preceded by a comma. */
  function CommaEach(items: seq<string>): string
  {
    if items == [] then "" else "," + items[0] + CommaEach(items[1..])
  }

  function CommaItems(d: map<string, Val>, keys: seq<string>, blacklist: set<string>, prefix: string): (r: seq<string>)
    requires forall k :: k in keys ==> k in d
    ensures |r| == |keys| && forall i :: 0 <= i < |keys| ==> r[i] == CommaItem(d, keys[i], blacklist, prefix)
  {
    if keys == [] then [] else [CommaItem(d, keys[0], blacklist, prefix)] + CommaItems(d, keys[1..], blacklist, prefix)
  }

  /** One step of the source's recursion, on a sorted listing of the keys. */
  lemma CommaKeysStep(d: map<string, Val>, keys: seq<string>, blacklist: set<string>,
                      prefix: string, first: bool)
    requires StrictlySorted(keys) && Elements(keys) <= d.Keys && keys != []
    ensures CommaKeys(d, Elements(keys), blacklist, prefix, first)
      == if keys[0] in blacklist then ""
         else (if first then "" else ",") + CommaItem(d, keys[0], blacklist, prefix)
              + CommaKeys(d, Elements(keys[1..]), blacklist, prefix, false)
  {
    SortedListingHead(keys);
  }

  lemma {:induction false} CommaKeysListing(d: map<string, Val>, keys: seq<string>, blacklist: set<string>,
                                            prefix: string, first: bool)
    requires StrictlySorted(keys) && Elements(keys) <= d.Keys
    ensures CommaKeys(d, Elements(keys), blacklist, prefix, first)
      == CommaJoin(CommaItems(d, BeforeBlacklisted(keys, blacklist), blacklist, prefix), first)
    decreases |keys|
  {
    if keys != [] {
      CommaKeysStep(d, keys, blacklist, prefix, first);
      SortedListingHead(keys);
      CommaKeysListing(d, keys[1..], blacklist, prefix, false);
      if keys[0] !in blacklist {
        var item := CommaItem(d, keys[0], blacklist, prefix);
        var rest := CommaItems(d, BeforeBlacklisted(keys[1..], blacklist), blacklist, prefix);
        CommaItemsCons(d, keys, blacklist, prefix);
        CommaJoinCons(item, rest, first);
      }
    }
  }

  /** The items joined by commas; after the first item of a level every item
      is preceded by a comma. */
  function CommaJoin(items: seq<string>, first: bool): string
  {
    if first then JoinCommas(items) else CommaEach(items)
  }

  lemma CommaJoinCons(item: string, rest: seq<string>, first: bool)
    ensures CommaJoin([item] + rest, first) == (if first then "" else ",") + item + CommaJoin(rest, false)
  {
    if first {
      JoinCommasCons(item, rest);
    } else {
      assert ([item] + rest)[1..] == rest;
    }
  }

  lemma CommaItemsCons(d: map<string, Val>, keys: seq<string>, blacklist: set<string>, prefix: string)
    requires keys != [] && keys[0] !in blacklist && forall k :: k in keys ==> k in d
    ensures CommaItems(d, BeforeBlacklisted(keys, blacklist), blacklist, prefix)
      == [CommaItem(d, keys[0], blacklist, prefix)] + CommaItems(d, BeforeBlacklisted(keys[1..], blacklist), blacklist, prefix)
  {
    var kept := BeforeBlacklisted(keys, blacklist);
    assert kept == [keys[0]] + BeforeBlacklisted(keys[1..], blacklist);
    assert kept[0] == keys[0] && kept[1..] == BeforeBlacklisted(keys[1..], blacklist);
  }

  lemma JoinCommasCons(x: string, rest: seq<string>)
    ensures JoinCommas([x] + rest) == x + CommaEach(rest)
    decreases |rest|
  {
    if rest != [] {
      assert ([x] + rest)[1..] == rest;
      JoinCommasCons(rest[0], rest[1..]);
      assert rest == [rest[0]] + rest[1..];
    }
  }

  /** dict_to_string_comma_separated lists, in ascending key order and joined by
      single commas, the items of exactly those keys that sort before the least
      blacklisted key of the level. */
  lemma CommaRendersSortedKeys(d: map<string, Val>, keys: seq<string>, blacklist: set<string>, prefix: string)
    requires StrictlySorted(keys) && Elements(keys) == d.Keys
    ensures DictToStringCommaSeparated(d, blacklist, prefix)
      == JoinCommas(CommaItems(d, BeforeBlacklisted(keys, blacklist), blacklist, prefix))
  {
    CommaKeysListing(d, keys, blacklist, prefix, true);
  }

  lemma SortedDistinct(keys: seq<string>, i: nat, j: nat)
    requires StrictlySorted(keys) && i < |keys| && j < |keys| && keys[i] == keys[j]
    ensures i == j
  {
    if i != j {
      StrLessIrreflexive(keys[i]);
    }
  }

  /** Blacklist truncation: a key of the level is rendered iff it sorts before
      every blacklisted key of the level (the match is on the bare key). */
  lemma BlacklistTruncates(keys: seq<string>, blacklist: set<string>, k: string)
    requires StrictlySorted(keys) && k in keys
    ensures k in BeforeBlacklisted(keys, blacklist)
      <==> forall b :: b in keys && b in blacklist ==> StrLess(k, b)
  {
    var kept := BeforeBlacklisted(keys, blacklist);
    var m := |kept|;
    var i :| 0 <= i < |keys| && keys[i] == k;
    if i < m {
      assert kept[i] == k;
      forall b | b in keys && b in blacklist
        ensures StrLess(k, b)
      {
        var j :| 0 <= j < |keys| && keys[j] == b;
        KeptBeforeBlacklisted(keys, blacklist, j);
        assert StrLess(keys[i], keys[j]);
      }
    } else {
      assert k !in kept by {
        if k in kept {
          var i' :| 0 <= i' < m && kept[i'] == k;
          SortedDistinct(keys, i, i');
        }
      }
      var b := keys[m];
      assert !StrLess(k, b) by {
        if i == m {
          StrLessIrreflexive(k);
        } else {
          assert StrLess(keys[m], keys[i]);
          StrLessAsymmetric(b, k);
        }
      }
      assert b in keys && b in blacklist;
    }
  }

  lemma KeptBeforeBlacklisted(keys: seq<string>, blacklist: set<string>, j: nat)
    requires j < |keys| && keys[j] in blacklist
    ensures |BeforeBlacklisted(keys, blacklist)| <= j
  {
    var kept := BeforeBlacklisted(keys, blacklist);
    assert forall x :: 0 <= x < |kept| ==> kept[x] == keys[x] && kept[x] !in blacklist;
  }

  // ---------------------------------------------------------------------------
  // Worked examples
  // ---------------------------------------------------------------------------

  /** A one-key level renders as that key's item. */
  lemma CommaOneKey(d: map<string, Val>, k: string, blacklist: set<string>, prefix: string)
    requires d.Keys == {k} && k !in blacklist
    ensures DictToStringCommaSeparated(d, blacklist, prefix) == CommaItem(d, k, blacklist, prefix)
  {
    assert Elements([k]) == d.Keys;
    CommaRendersSortedKeys(d, [k], blacklist, prefix);
    assert BeforeBlacklisted([k], blacklist) == [k];
  }

  /** A two-key level with neither key blacklisted renders as the two items,
      the lesser key first. */
  lemma CommaTwoKeys(d: map<string, Val>, k1: string, k2: string, blacklist: set<string>, prefix: string)
    requires d.Keys == {k1, k2} && StrLess(k1, k2) && k1 !in blacklist && k2 !in blacklist
    ensures DictToStringCommaSeparated(d, blacklist, prefix)
      == CommaItem(d, k1, blacklist, prefix) + "," + CommaItem(d, k2, blacklist, prefix)
  {
    assert Elements([k1, k2]) == d.Keys;
    CommaRendersSortedKeys(d, [k1, k2], blacklist, prefix);
    assert BeforeBlacklisted([k1, k2], blacklist) == [k1, k2];
    var items := CommaItems(d, [k1, k2], blacklist, prefix);
    assert items[1..] == [items[1]];
  }

  /** The nested part of the example below. */
  lemma CommaNestedExample(temp: map<string, Val>)
    requires temp == map["High" := Scalar("70"), "Low" := Scalar("-5")]
    ensures DictToStringCommaSeparated(temp, {"Temp.Low"}, "Temp.") == "Temp.High:70" + "," + "Temp.Low:-5"
  {
    assert StrLess("High", "Low");
    CommaTwoKeys(temp, "High", "Low", {"Temp.Low"}, "Temp.");
  }

  /** The item of the nested key "Temp" of the example below. */
  lemma CommaTempItem(d: map<string, Val>)
    requires d == map["VendorName" := Scalar("ACME"),
                      "Temp" := Dict(map["High" := Scalar("70"), "Low" := Scalar("-5")])]
    ensures CommaItem(d, "Temp", {"Temp.Low"}, "") == "Temp.High:70" + "," + "Temp.Low:-5"
  {
    CommaNestedExample(d["Temp"].fields);
    assert "Temp" + "." == "Temp.";
  }

  /** The blacklist is matched against bare keys, so the dotted name "Temp.Low"
      excludes nothing; nested items carry their parent's key as prefix. */
  lemma CommaBlacklistIsBareKey(d: map<string, Val>)
    requires d == map["VendorName" := Scalar("ACME"),
                      "Temp" := Dict(map["High" := Scalar("70"), "Low" := Scalar("-5")])]
    ensures DictToStringCommaSeparated(d, {"Temp.Low"}, "")
      == "Temp.High:70" + "," + "Temp.Low:-5" + "," + "VendorName:ACME"
  {
    var bl := {"Temp.Low"};
    assert DictToStringCommaSeparated(d, bl, "") == CommaItem(d, "Temp", bl, "") + "," + CommaItem(d, "VendorName", bl, "") by {
      assert StrLess("Temp", "VendorName");
      CommaTwoKeys(d, "Temp", "VendorName", bl, "");
    }
    assert CommaItem(d, "Temp", bl, "") == "Temp.High:70" + "," + "Temp.Low:-5" by {
      CommaTempItem(d);
    }
    assert CommaItem(d, "VendorName", bl, "") == "VendorName:ACME";
  }

  /** Only the immediate parent's key prefixes a nested item: the grandparent
      "a" is lost. */
  lemma CommaKeepsOnlyParentPrefix(d: map<string, Val>)
    requires d == map["a" := Dict(map["b" := Dict(map["c" := Scalar("1")])])]
    ensures DictToStringCommaSeparated(d, {}, "") == "b.c:1"
  {
    var mid := d["a"].fields;
    var inner := mid["b"].fields;
    CommaOneKey(inner, "c", {}, "b.");
    CommaOneKey(mid, "b", {}, "a.");
    CommaOneKey(d, "a", {}, "");
  }

  /** An empty nested dictionary still takes the first position, so the next
      item is written with a leading comma. */
  lemma CommaEmptyNestedLeadingComma(d: map<string, Val>)
    requires d == map["a" := Dict(map[]), "b" := Scalar("x")]
    ensures DictToStringCommaSeparated(d, {}, "") == ",b:x"
  {
    assert StrLess("a", "b");
    CommaTwoKeys(d, "a", "b", {}, "");
  }

  /** When the second key of a level is blacklisted, the level renders as its
      first key's item alone, however many keys follow. */
  lemma CommaSecondBlacklisted(d: map<string, Val>, keys: seq<string>, blacklist: set<string>, prefix: string)
    requires StrictlySorted(keys) && Elements(keys) == d.Keys
    requires |keys| >= 2 && keys[0] !in blacklist && keys[1] in blacklist
    ensures DictToStringCommaSeparated(d, blacklist, prefix) == CommaItem(d, keys[0], blacklist, prefix)
  {
    CommaRendersSortedKeys(d, keys, blacklist, prefix);
    assert BeforeBlacklisted(keys, blacklist) == [keys[0]];
  }

  /** A blacklisted key drops itself and every key after it at its level. */
  lemma CommaBlacklistDropsLaterKeys(d: map<string, Val>)
    requires d == map["A" := Scalar("1"), "B" := Scalar("2"), "C" := Scalar("3")]
    ensures DictToStringCommaSeparated(d, {"B"}, "") == "A:1"
  {
    assert StrictlySorted(["A", "B", "C"]) by {
      assert StrLess("A", "B") && StrLess("B", "C") && StrLess("A", "C");
    }
    assert Elements(["A", "B", "C"]) == d.Keys;
    CommaSecondBlacklisted(d, ["A", "B", "C"], {"B"}, "");
  }

  /** A one-key level renders as that key's entry. */
  lemma PrettyOneKey(d: map<string, Val>, k: string, indent: nat)
    requires d.Keys == {k}
    ensures DictToStringPretty(d, indent) == PrettyEntry(d, k, indent)
  {
    assert Elements([k]) == d.Keys;
    PrettyRendersSortedKeys(d, [k], indent);
  }

  /** A two-key level renders as the two entries, the lesser key first. */
  lemma PrettyTwoKeys(d: map<string, Val>, k1: string, k2: string, indent: nat)
    requires d.Keys == {k1, k2} && StrLess(k1, k2)
    ensures DictToStringPretty(d, indent) == PrettyEntry(d, k1, indent) + PrettyEntry(d, k2, indent)
  {
    assert Elements([k1, k2]) == d.Keys;
    PrettyRendersSortedKeys(d, [k1, k2], indent);
    assert [k1, k2][1..] == [k2] && [k2][1..] == [];
    assert PrettyEntries(d, [k2], indent) == PrettyEntry(d, k2, indent);
  }

  /** The nested part of the example below. */
  lemma PrettyInnerExample(temp: map<string, Val>)
    requires temp == map["High" := Scalar("70")]
    ensures DictToStringPretty(temp, 2) == "\t\tHigh: 70\n"
  {
    assert Tabs(2) == "\t\t";
    PrettyOneKey(temp, "High", 2);
  }

  /** Nested dictionaries get a header line and one more tab. */
  lemma PrettyNestedExample(d: map<string, Val>)
    requires d == map["Temp" := Dict(map["High" := Scalar("70")]), "Name" := Scalar("ACME")]
    ensures DictToStringPretty(d, 1) == "\tName: ACME\n" + "\tTemp:\n" + "\t\tHigh: 70\n"
  {
    assert DictToStringPretty(d, 1) == PrettyEntry(d, "Name", 1) + PrettyEntry(d, "Temp", 1) by {
      assert StrLess("Name", "Temp");
      PrettyTwoKeys(d, "Name", "Temp", 1);
    }
    assert PrettyEntry(d, "Temp", 1) == "\tTemp:\n" + "\t\tHigh: 70\n" by {
      PrettyInnerExample(d["Temp"].fields);
      assert Tabs(1) == "\t";
    }
    assert PrettyEntry(d, "Name", 1) == "\tName: ACME\n" by {
      assert Tabs(1) == "\t";
    }
  }
}
