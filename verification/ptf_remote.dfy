/**
 * The PTF "remote" platform: which lines of /proc/net/dev name front-panel
 * interfaces (get_ifaces), and how the interface names become the
 * (device, port) -> name map PTF opens its dataplane on (build_ifaces_map).
 * Reading /proc/net/dev and constants.yaml is left to the caller: the file
 * contents, the constants and the PTF configuration are parameters.
 */
module PtfRemote {
  import opened Wrappers
  import opened Text

  const EthPrefix: string := "eth"
  const BackplaneName: string := "backplane"
  const SubInterfaceSeparator: char := '.'
  /** The characters iface.lstrip('eth') removes: any of 'e', 't', 'h'. */
  const EthChars: set<char> := {'e', 't', 'h'}

  const PortMappingModeKey: string := "PTF_PORT_MAPPING_MODE"
  const OrigInterfaceMode: string := "use_orig_interface"
  const SubInterfaceMode: string := "use_sub_interface"
  const NeedBackplaneKey: string := "need_backplane"

  // ---------------------------------------------------------------------
  // get_ifaces: the line filter over /proc/net/dev.
  // ---------------------------------------------------------------------

  /**
   * Lines 20-31 for one line: a line without ':' is a header; otherwise the
   * interface is the stripped text before the first ':', kept when it
   * contains "eth" or is exactly "backplane".
   */
  function IfaceOfLine(line: string): (r: Option<string>)
    ensures ':' !in line ==> r.None?
    ensures r.Some? ==> Contains(r.value, EthPrefix) || r.value == BackplaneName
  {
    if ':' !in line then None
    else
      var iface := Strip(Split(line, ':')[0]);
      if !Contains(iface, EthPrefix) && iface != BackplaneName then None
      else Some(iface)
  }

  /**
   * A returned interface name has no ':' and no surrounding whitespace, and
   * it contains "eth" or is "backplane"; a line without ':' gives none.
   */
  lemma IfaceOfLineSound(line: string)
    ensures ':' !in line ==> IfaceOfLine(line).None?
    ensures IfaceOfLine(line).Some? ==>
              var x := IfaceOfLine(line).value;
              && ':' !in x
              && (Contains(x, EthPrefix) || x == BackplaneName)
              && (x != [] ==> !IsSpace(x[0]) && !IsSpace(x[|x| - 1]))
  {
    if ':' in line {
      var name := Split(line, ':')[0];
      StripLacks(name, ':');
      var x := Strip(name);
      assert IfaceOfLine(line) == if !Contains(x, EthPrefix) && x != BackplaneName then None else Some(x);
    }
  }

  /**
   * Every line is read by its text before the first ':': the stripped name
   * is kept exactly when it contains "eth" or is "backplane".
   */
  lemma IfaceOfLineComplete(name: string, rest: string)
    requires ':' !in name
    ensures IfaceOfLine(name + [':'] + rest) ==
              if Contains(Strip(name), EthPrefix) || Strip(name) == BackplaneName then Some(Strip(name)) else None
  {
    FirstPieceOfSplit(name, ':', rest);
  }

  /** Stripping cannot bring in a character the text lacks. */
  lemma StripLacks(s: string, c: char)
    requires c !in s
    ensures c !in Strip(s)
  {
    NoCharInPiece(s, Strip(s), c);
  }

  /** A piece of a string lacks whatever the string lacks. */
  lemma NoCharInPiece(s: string, piece: string, c: char)
    requires c !in s
    requires exists i :: OccursAt(s, piece, i)
    ensures c !in piece
  {
  }

  /** What pick keeps of a run of lines, in line order. */
  function KeptLines(pick: string -> Option<string>, lines: seq<string>): seq<string>
  {
    if lines == [] then []
    else
      var init := KeptLines(pick, lines[..|lines| - 1]);
      match pick(lines[|lines| - 1])
      case Some(x) => init + [x]
      case None => init
  }

  /**
   * get_ifaces (lines 15-34) with the file contents as a parameter: split
   * the contents at '\n' and keep the interface of each qualifying line.
   * The list is returned in line order (nothing sorts it).
   */
  method GetIfaces(contents: string) returns (ifaces: seq<string>)
    ensures ifaces == KeptLines(IfaceOfLine, Split(contents, '\n'))
  {
    var lines := Split(contents, '\n');
    ifaces := [];
    for i := 0 to |lines|
      invariant ifaces == KeptLines(IfaceOfLine, lines[..i])
    {
      assert lines[..i + 1][..i] == lines[..i];
      var line := lines[i];
      if ':' !in line {
        continue;
      }
      var iface := Strip(Split(line, ':')[0]);
      if !Contains(iface, EthPrefix) && iface != BackplaneName {
        continue;
      }
      ifaces := ifaces + [iface];
    }
    assert lines[..|lines|] == lines;
  }

  /** The filter works line by line: what two runs of lines give is what each gives, in order. */
  lemma {:induction false} KeptLinesAppend(pick: string -> Option<string>, a: seq<string>, b: seq<string>)
    ensures KeptLines(pick, a + b) == KeptLines(pick, a) + KeptLines(pick, b)
    decreases |b|
  {
    if b == [] {
      assert a + b == a;
    } else {
      var b0 := b[..|b| - 1];
      assert (a + b)[..|a + b| - 1] == a + b0;
      assert (a + b)[|a + b| - 1] == b[|b| - 1];
      KeptLinesAppend(pick, a, b0);
    }
  }

  /** Every kept value comes from a line. */
  lemma {:induction false} KeptLineSource(pick: string -> Option<string>, lines: seq<string>, x: string) returns (i: nat)
    requires x in KeptLines(pick, lines)
    ensures i < |lines| && pick(lines[i]) == Some(x)
  {
    var init := lines[..|lines| - 1];
    if x in KeptLines(pick, init) {
      i := KeptLineSource(pick, init, x);
      assert lines[i] == init[i];
    } else {
      i := |lines| - 1;
    }
  }

  /** The value of every qualifying line is kept. */
  lemma KeptLineOf(pick: string -> Option<string>, lines: seq<string>, i: nat)
    requires i < |lines| && pick(lines[i]).Some?
    ensures pick(lines[i]).value in KeptLines(pick, lines)
  {
    var upTo := lines[..i + 1];
    var rest := lines[i + 1..];
    assert upTo[..|upTo| - 1] == lines[..i];
    assert upTo[|upTo| - 1] == lines[i];
    assert lines == upTo + rest;
    KeptLinesAppend(pick, upTo, rest);
  }

  /** get_ifaces returns exactly the interfaces its lines name. */
  lemma GetIfacesMembers(lines: seq<string>, x: string)
    ensures x in KeptLines(IfaceOfLine, lines) <==> exists i :: 0 <= i < |lines| && IfaceOfLine(lines[i]) == Some(x)
  {
    if x in KeptLines(IfaceOfLine, lines) {
      var i := KeptLineSource(IfaceOfLine, lines, x);
    }
    forall i | 0 <= i < |lines| && IfaceOfLine(lines[i]) == Some(x)
      ensures x in KeptLines(IfaceOfLine, lines)
    {
      KeptLineOf(IfaceOfLine, lines, i);
    }
  }

  /** The loopback is not a front-panel interface. */
  lemma LoopbackLineExample()
    ensures IfaceOfLine("lo: 5") == None
  {
    assert "lo: 5" == "lo" + [':'] + " 5";
    FirstPieceOfSplit("lo", ':', " 5");
    StripTrimmed("lo");
    assert !Contains("lo", EthPrefix);
  }

  /** An Ethernet port is kept under its own name. */
  lemma EthLineExample()
    ensures IfaceOfLine("eth0: 5") == Some("eth0")
  {
    assert "eth0: 5" == "eth0" + [':'] + " 5";
    FirstPieceOfSplit("eth0", ':', " 5");
    StripTrimmed("eth0");
    assert OccursAt("eth0", EthPrefix, 0);
  }

  // ---------------------------------------------------------------------
  // build_ifaces_map.
  // ---------------------------------------------------------------------

  /** (device, port): build_ifaces_map only uses device 0. */
  type PortKey = (int, int)
  type PortMap = map<PortKey, string>

  datatype RemoteError =
    | InvalidIndex(iface: string)     // int() of the suffix raises ValueError
    | UnsupportedMode(mode: string)   // line 81
    | ConstantsNotMapping             // constants.get on a document that is not a mapping raises AttributeError (line 44)

  /**
   * What yaml.safe_load made of constants.yaml: no file, a mapping, or a
   * document that is not a mapping (None for an empty file, a list, a scalar).
   */
  datatype ConstantsFile = NoConstantsFile | ConstantsMapping(entries: map<string, string>) | ConstantsOther

  /**
   * Lines 39-45: the mapping mode is "use_orig_interface" unless constants.yaml
   * exists and names another; a document that is not a mapping has no .get.
   */
  function MappingMode(constants: ConstantsFile): (r: Result<string, RemoteError>)
    ensures r.Failure? <==> constants.ConstantsOther?
    ensures r.Failure? ==> r.error == ConstantsNotMapping
    ensures constants.NoConstantsFile? ==> r == Success(OrigInterfaceMode)
    ensures constants.ConstantsMapping? && PortMappingModeKey !in constants.entries ==> r == Success(OrigInterfaceMode)
    ensures constants.ConstantsMapping? && PortMappingModeKey in constants.entries ==>
              r == Success(constants.entries[PortMappingModeKey])
  {
    match constants
    case NoConstantsFile => Success(OrigInterfaceMode)
    case ConstantsOther => Failure(ConstantsNotMapping)
    case ConstantsMapping(entries) =>
      Success(if PortMappingModeKey in entries then entries[PortMappingModeKey] else OrigInterfaceMode)
  }

  /** Lines 47-49: need_backplane from the PTF configuration, false when there is none. */
  function NeedBackplane(ptfConfig: Option<map<string, bool>>): bool
  {
    ptfConfig.Some? && NeedBackplaneKey in ptfConfig.value && ptfConfig.value[NeedBackplaneKey]
  }

  /** What the loop of lines 55-65 makes of one interface name. */
  datatype PortKind = PlainPort(index: int) | SubPort(index: int) | BackplanePort | Unparsable

  /**
   * Lines 56-65 for one name: strip leading 'e', 't' and 'h'; a remainder
   * with '.' is a sub-interface of the number before the first '.'; the
   * name "backplane" is the backplane; anything else is a plain port of the
   * remainder's number. A number int() refuses is a ValueError.
   */
  function Classify(iface: string): (r: PortKind)
    ensures r == BackplanePort ==> iface == BackplaneName
    ensures r.SubPort? ==> SubInterfaceSeparator in iface
    ensures r.PlainPort? ==> SubInterfaceSeparator !in iface && iface != BackplaneName
  {
    var suffix := DropLeading(iface, EthChars);
    if SubInterfaceSeparator in suffix then
      match ParseInt(Split(suffix, SubInterfaceSeparator)[0])
      case Some(n) => SubPort(n)
      case None => Unparsable
    else if iface == BackplaneName then BackplanePort
    else
      match ParseInt(suffix)
      case Some(n) => PlainPort(n)
      case None => Unparsable
  }

  /** Exactly the name "backplane" is the backplane. */
  lemma ClassifyBackplane(iface: string)
    ensures Classify(iface) == BackplanePort <==> iface == BackplaneName
  {
    if iface == BackplaneName {
      assert iface[0] !in EthChars;
      assert DropLeading(iface, EthChars) == iface;
      assert SubInterfaceSeparator !in iface;
    }
  }

  /** lstrip drops a prefix made of its characters and stops at the first other one. */
  lemma {:induction false} DropLeadingPrefix(p: string, s: string, chars: set<char>)
    requires forall i :: 0 <= i < |p| ==> p[i] in chars
    requires s == [] || s[0] !in chars
    ensures DropLeading(p + s, chars) == s
  {
    if p == [] {
      assert p + s == s;
    } else {
      assert (p + s)[1..] == p[1..] + s;
      DropLeadingPrefix(p[1..], s, chars);
    }
  }

  /**
   * A name without '.' other than "backplane" is a plain port of whatever
   * int() reads after its leading 'e', 't' and 'h' characters, and the
   * ValueError when int() refuses that rest.
   */
  lemma ClassifyPlain(p: string, s: string)
    requires forall i :: 0 <= i < |p| ==> p[i] in EthChars
    requires s == [] || s[0] !in EthChars
    requires SubInterfaceSeparator !in s && p + s != BackplaneName
    ensures Classify(p + s) == if ParseInt(s).Some? then PlainPort(ParseInt(s).value) else Unparsable
  {
    DropLeadingPrefix(p, s, EthChars);
  }

  /**
   * A name with '.' is a sub-interface of whatever int() reads between its
   * leading 'e', 't' and 'h' characters and the first '.', and the
   * ValueError when int() refuses that text.
   */
  lemma ClassifySub(p: string, a: string, b: string)
    requires forall i :: 0 <= i < |p| ==> p[i] in EthChars
    requires a == [] || a[0] !in EthChars
    requires SubInterfaceSeparator !in a
    ensures Classify(p + a + [SubInterfaceSeparator] + b) == if ParseInt(a).Some? then SubPort(ParseInt(a).value) else Unparsable
  {
    var suffix := a + [SubInterfaceSeparator] + b;
    assert p + a + [SubInterfaceSeparator] + b == p + suffix;
    DropLeadingPrefix(p, suffix, EthChars);
    FirstPieceOfSplit(a, SubInterfaceSeparator, b);
  }

  /** lstrip('eth') takes any run of those letters and int() accepts leading zeros: "eth01" is port 1. */
  lemma ClassifyLeadingZero()
    ensures Classify("eth01") == PlainPort(1)
  {
    assert "01"[..1] == "0" && "0"[..0] == [];
    assert AllDigits("01") && DigitsValue("01") == 1;
    ClassifyPlain("eth", "01");
    assert "eth" + "01" == "eth01";
  }

  /** The letters need not spell "eth": "te5" is port 5. */
  lemma ClassifyOtherLetters()
    ensures Classify("te5") == PlainPort(5)
  {
    ClassifyPlain("te", "5");
    assert "te" + "5" == "te5";
  }

  /** Whatever follows the first '.' is not read: "eth1.x" is a sub-interface of port 1. */
  lemma ClassifyAnySubSuffix()
    ensures Classify("eth1.x") == SubPort(1)
  {
    var name := "eth" + "1" + [SubInterfaceSeparator] + "x";
    assert name == "eth1.x";
    assert ParseInt("1") == Some(1) by {
      assert "1"[..0] == [];
    }
    ClassifySub("eth", "1", "x");
  }

  /** A rest int() refuses is the ValueError: "ethx" is unparsable. */
  lemma ClassifyRefused()
    ensures Classify("ethx") == Unparsable
  {
    assert ParseInt("x").None? by {
      assert !IsDigit("x"[0]);
    }
    ClassifyPlain("eth", "x");
    assert "eth" + "x" == "ethx";
  }

  /** "eth<n>" is the plain port n. */
  lemma ClassifyEthName(n: int)
    ensures Classify(EthPrefix + IntToString(n)) == PlainPort(n)
  {
    var digits := IntToString(n);
    DropLeadingPrefix(EthPrefix, digits, EthChars);
    assert '.' !in digits;
    assert EthPrefix + digits != BackplaneName;
    ParseIntOfIntToString(n);
  }

  /** "eth<n>.<m>" is a sub-interface of port n. */
  lemma ClassifySubName(n: int, m: int)
    ensures Classify(EthPrefix + IntToString(n) + [SubInterfaceSeparator] + IntToString(m)) == SubPort(n)
  {
    var a := IntToString(n);
    var suffix := a + [SubInterfaceSeparator] + IntToString(m);
    var iface := EthPrefix + a + [SubInterfaceSeparator] + IntToString(m);
    assert DropLeading(iface, EthChars) == suffix by {
      assert iface == EthPrefix + suffix;
      assert suffix[0] == a[0];
      DropLeadingPrefix(EthPrefix, suffix, EthChars);
    }
    assert SubInterfaceSeparator in suffix && Split(suffix, SubInterfaceSeparator)[0] == a by {
      assert SubInterfaceSeparator !in a;
      FirstPieceOfSplit(a, SubInterfaceSeparator, IntToString(m));
    }
    ParseIntOfIntToString(n);
  }

  /** What the loop of lines 55-65 gathers. */
  datatype Collected = Collected(plain: PortMap, used: set<int>, subs: seq<(int, string)>, backplane: bool)

  /**
   * Lines 55-65 as a fold over the names, each sorted by `kind` (Classify
   * in build_ifaces_map); the first name int() refuses stops it.
   */
  function Collect(kind: string -> PortKind, ifaces: seq<string>): Result<Collected, RemoteError>
  {
    if ifaces == [] then Success(Collected(map[], {}, [], false))
    else
      var c :- Collect(kind, ifaces[..|ifaces| - 1]);
      Gather(c, ifaces[|ifaces| - 1], kind(ifaces[|ifaces| - 1]))
  }

  /** One turn of the loop of lines 55-65, for a name of the given kind. */
  function Gather(c: Collected, iface: string, k: PortKind): Result<Collected, RemoteError>
  {
    match k
    case SubPort(n) => Success(c.(subs := c.subs + [(n, iface)]))
    case BackplanePort => Success(c.(backplane := true))
    case PlainPort(n) => Success(c.(plain := c.plain[(0, n) := iface], used := c.used + {n}))
    case Unparsable => Failure(InvalidIndex(iface))
  }

  /** The fold over one more name is one more turn of the loop. */
  lemma CollectStep(kind: string -> PortKind, ifaces: seq<string>, i: nat)
    requires i < |ifaces| && Collect(kind, ifaces[..i]).Success?
    ensures Collect(kind, ifaces[..i + 1]) == Gather(Collect(kind, ifaces[..i]).value, ifaces[i], kind(ifaces[i]))
  {
    assert ifaces[..i + 1][..i] == ifaces[..i];
  }

  /**
   * Lines 67-69: the first count from `from` on that no plain port uses;
   * from 1, the smallest positive index that is free.
   */
  function FreeFrom(used: set<int>, from: int): (c: int)
    requires from >= 1 && forall k :: 1 <= k < from ==> k in used
    ensures c >= from && c !in used
    ensures forall k :: 1 <= k < c ==> k in used
    decreases |used| + 1 - from
  {
    if from in used then
      TakenBelow(used, from);
      FreeFrom(used, from + 1)
    else from
  }

  /** When 1..n are all used, there are at least n used indices. */
  lemma {:induction false} TakenBelow(used: set<int>, n: nat)
    requires forall k :: 1 <= k <= n ==> k in used
    ensures |used| >= n
  {
    if n > 0 {
      var rest := used - {n};
      forall k | 1 <= k <= n - 1
        ensures k in rest
      {
        assert k in used;
      }
      TakenBelow(rest, n - 1);
      assert used == rest + {n};
    }
  }

  function LeastFree(used: set<int>): (c: int)
    ensures c >= 1 && c !in used && forall k :: 1 <= k < c ==> k in used
  {
    FreeFrom(used, 1)
  }

  /** Lines 75-76: each sub-interface, in order, overwrites the entry of its port. */
  function Override(m: PortMap, subs: seq<(int, string)>): PortMap
  {
    if subs == [] then m
    else
      var last := subs[|subs| - 1];
      Override(m, subs[..|subs| - 1])[(0, last.0) := last.1]
  }

  /** Lines 67-71: backplane at the first free index, when it exists and is needed. */
  function WithBackplane(c: Collected, needBackplane: bool): PortMap
  {
    if c.backplane && needBackplane then c.plain[(0, LeastFree(c.used)) := BackplaneName] else c.plain
  }

  /** build_ifaces_map (lines 37-82) with the mode and need_backplane already read. */
  function IfacesMap(ifaces: seq<string>, needBackplane: bool, mode: string): (r: Result<PortMap, RemoteError>)
    ensures r.Success? ==> mode == SubInterfaceMode || mode == OrigInterfaceMode
    ensures Collect(Classify, ifaces).Failure? ==> r == Failure(Collect(Classify, ifaces).error)
    ensures Collect(Classify, ifaces).Success? && mode != SubInterfaceMode && mode != OrigInterfaceMode ==>
              r == Failure(UnsupportedMode(mode))
  {
    var c :- Collect(Classify, ifaces);
    var m := WithBackplane(c, needBackplane);
    if mode == SubInterfaceMode then Success(Override(m, c.subs))
    else if mode == OrigInterfaceMode then Success(m)
    else Failure(UnsupportedMode(mode))
  }

  /** A failure in the first names is the failure of the whole fold. */
  lemma {:induction false} CollectPrefixFails(kind: string -> PortKind, ifaces: seq<string>, j: nat)
    requires j <= |ifaces| && Collect(kind, ifaces[..j]).Failure?
    ensures Collect(kind, ifaces) == Collect(kind, ifaces[..j])
    decreases |ifaces| - j
  {
    if j == |ifaces| {
      assert ifaces[..j] == ifaces;
    } else {
      assert ifaces[..j + 1][..j] == ifaces[..j];
      CollectPrefixFails(kind, ifaces, j + 1);
    }
  }

  // ---------------------------------------------------------------------
  // What build_ifaces_map promises.
  // ---------------------------------------------------------------------

  /** The fold fails exactly when int() refuses a name, and then on the first such name. */
  lemma {:induction false} CollectFailure(kind: string -> PortKind, ifaces: seq<string>) returns (i: nat)
    requires Collect(kind, ifaces).Failure?
    ensures i < |ifaces| && kind(ifaces[i]) == Unparsable
    ensures Collect(kind, ifaces) == Failure(InvalidIndex(ifaces[i]))
    ensures forall j :: 0 <= j < i ==> kind(ifaces[j]) != Unparsable
  {
    var init := ifaces[..|ifaces| - 1];
    if Collect(kind, init).Failure? {
      i := CollectFailure(kind, init);
      assert ifaces[i] == init[i];
      forall j | 0 <= j < i
        ensures kind(ifaces[j]) != Unparsable
      {
        assert ifaces[j] == init[j];
      }
    } else {
      i := |ifaces| - 1;
      CollectSuccess(kind, init);
      forall j | 0 <= j < i
        ensures kind(ifaces[j]) != Unparsable
      {
        assert ifaces[j] == init[j];
      }
    }
  }

  /** Names int() accepts throughout make the fold succeed, and the other way round. */
  lemma {:induction false} CollectSuccess(kind: string -> PortKind, ifaces: seq<string>)
    ensures Collect(kind, ifaces).Success? <==> forall i :: 0 <= i < |ifaces| ==> kind(ifaces[i]) != Unparsable
  {
    if ifaces != [] {
      var init := ifaces[..|ifaces| - 1];
      CollectSuccess(kind, init);
      if Collect(kind, ifaces).Success? {
        forall i | 0 <= i < |ifaces|
          ensures kind(ifaces[i]) != Unparsable
        {
          if i < |init| {
            assert ifaces[i] == init[i];
          }
        }
      } else if Collect(kind, init).Failure? {
        var k :| 0 <= k < |init| && kind(init[k]) == Unparsable;
        assert ifaces[k] == init[k];
      }
    }
  }

  /**
   * Lines 55-65: every key gathered is (0, n) for a used index n, its name
   * is a plain port of index n, and the used indices are exactly the plain
   * port numbers; the backplane flag says whether a backplane was listed.
   */
  lemma {:induction false} CollectPlain(kind: string -> PortKind, ifaces: seq<string>)
    requires Collect(kind, ifaces).Success?
    ensures var c := Collect(kind, ifaces).value;
            && (forall k :: k in c.plain <==> k.0 == 0 && k.1 in c.used)
            && (forall k :: k in c.plain ==> c.plain[k] in ifaces && kind(c.plain[k]) == PlainPort(k.1))
            && (forall n :: n in c.used <==> exists i :: 0 <= i < |ifaces| && kind(ifaces[i]) == PlainPort(n))
            && (c.backplane <==> exists i :: 0 <= i < |ifaces| && kind(ifaces[i]) == BackplanePort)
  {
    if ifaces != [] {
      var init := ifaces[..|ifaces| - 1];
      var last := ifaces[|ifaces| - 1];
      CollectPlain(kind, init);
      assert ifaces == init + [last];
      var c0 := Collect(kind, init).value;
      var c := Collect(kind, ifaces).value;
      forall n
        ensures n in c.used <==> exists i :: 0 <= i < |ifaces| && kind(ifaces[i]) == PlainPort(n)
      {
        if n in c0.used {
          var i :| 0 <= i < |init| && kind(init[i]) == PlainPort(n);
          assert ifaces[i] == init[i];
        }
        if exists i :: 0 <= i < |ifaces| && kind(ifaces[i]) == PlainPort(n) {
          var i :| 0 <= i < |ifaces| && kind(ifaces[i]) == PlainPort(n);
          if i < |init| {
            assert init[i] == ifaces[i];
          }
        }
      }
    }
  }

  /** Lines 63-64: of several plain ports with the same index, the last one listed holds the key. */
  lemma {:induction false} PlainLastWins(kind: string -> PortKind, ifaces: seq<string>, i: nat, n: int)
    requires Collect(kind, ifaces).Success?
    requires i < |ifaces| && kind(ifaces[i]) == PlainPort(n)
    requires forall j :: i < j < |ifaces| ==> kind(ifaces[j]) != PlainPort(n)
    ensures (0, n) in Collect(kind, ifaces).value.plain && Collect(kind, ifaces).value.plain[(0, n)] == ifaces[i]
  {
    var init := ifaces[..|ifaces| - 1];
    if i < |ifaces| - 1 {
      assert init[i] == ifaces[i];
      PlainLastWins(kind, init, i, n);
    }
  }

  /** ifaces[i] is a sub-interface of port n and no later name is one. */
  predicate LastSubInterface(kind: string -> PortKind, ifaces: seq<string>, i: int, n: int)
  {
    0 <= i < |ifaces| && kind(ifaces[i]) == SubPort(n) &&
    forall j :: i < j < |ifaces| ==> kind(ifaces[j]) != SubPort(n)
  }

  /** No name in ifaces is a sub-interface of port n. */
  predicate NoSubInterface(kind: string -> PortKind, ifaces: seq<string>, n: int)
  {
    forall j :: 0 <= j < |ifaces| ==> kind(ifaces[j]) != SubPort(n)
  }

  /** Lines 75-76: of several sub-interfaces of a port, the last one listed overrides its key. */
  lemma {:induction false} SubLastWins(kind: string -> PortKind, m: PortMap, ifaces: seq<string>, i: nat, n: int)
    requires Collect(kind, ifaces).Success?
    requires LastSubInterface(kind, ifaces, i, n)
    ensures var m' := Override(m, Collect(kind, ifaces).value.subs);
            (0, n) in m' && m'[(0, n)] == ifaces[i]
  {
    var init := ifaces[..|ifaces| - 1];
    var subs := Collect(kind, ifaces).value.subs;
    if i < |ifaces| - 1 {
      assert init[i] == ifaces[i];
      SubLastWins(kind, m, init, i, n);
      var subs0 := Collect(kind, init).value.subs;
      if subs != subs0 {
        assert subs[..|subs| - 1] == subs0;
      }
    } else {
      assert subs[..|subs| - 1] == Collect(kind, init).value.subs;
    }
  }

  /** A key no sub-interface names keeps its entry through the override. */
  lemma {:induction false} SubUntouched(kind: string -> PortKind, m: PortMap, ifaces: seq<string>, k: PortKey)
    requires Collect(kind, ifaces).Success?
    requires k.0 != 0 || NoSubInterface(kind, ifaces, k.1)
    ensures var m' := Override(m, Collect(kind, ifaces).value.subs);
            (k in m' <==> k in m) && (k in m ==> m'[k] == m[k])
  {
    if ifaces != [] {
      var init := ifaces[..|ifaces| - 1];
      forall j | 0 <= j < |init|
        ensures k.0 != 0 || kind(init[j]) != SubPort(k.1)
      {
        assert init[j] == ifaces[j];
      }
      SubUntouched(kind, m, init, k);
      var subs := Collect(kind, ifaces).value.subs;
      var subs0 := Collect(kind, init).value.subs;
      if subs != subs0 {
        assert subs[..|subs| - 1] == subs0;
      }
    }
  }

  /**
   * In use_orig_interface mode (lines 67-71, 78-79): the map holds every
   * plain port under (0, index) as gathered, "backplane" under (0, c) for c
   * the smallest free index when it is listed and needed, and nothing else;
   * in particular no sub-interface.
   */
  lemma OrigInterfaceMap(ifaces: seq<string>, needBackplane: bool)
    requires Collect(Classify, ifaces).Success?
    ensures IfacesMap(ifaces, needBackplane, OrigInterfaceMode).Success?
    ensures var c := Collect(Classify, ifaces).value;
            var m := IfacesMap(ifaces, needBackplane, OrigInterfaceMode).value;
            var free := LeastFree(c.used);
            && (forall k :: k in m <==> k.0 == 0 && (k.1 in c.used || (c.backplane && needBackplane && k.1 == free)))
            && (forall k :: k in c.plain ==> m[k] == c.plain[k])
            && (c.backplane && needBackplane ==> m[(0, free)] == BackplaneName)
            && (forall k :: k in m ==> Classify(m[k]) == PlainPort(k.1) || Classify(m[k]) == BackplanePort)
  {
    CollectPlain(Classify, ifaces);
    ClassifyBackplane(BackplaneName);
  }

  /**
   * In use_sub_interface mode (lines 73-77): each port with sub-interfaces
   * ends up with the last one listed; every other key is as in
   * use_orig_interface mode.
   */
  lemma SubInterfaceMap(ifaces: seq<string>, needBackplane: bool)
    requires Collect(Classify, ifaces).Success?
    ensures IfacesMap(ifaces, needBackplane, SubInterfaceMode).Success?
    ensures var orig := IfacesMap(ifaces, needBackplane, OrigInterfaceMode).value;
            var m := IfacesMap(ifaces, needBackplane, SubInterfaceMode).value;
            && (forall i, n :: LastSubInterface(Classify, ifaces, i, n) ==> (0, n) in m && m[(0, n)] == ifaces[i])
            && (forall k: PortKey :: (k.0 != 0 || NoSubInterface(Classify, ifaces, k.1)) ==>
                  (k in m <==> k in orig) && (k in orig ==> m[k] == orig[k]))
  {
    var c := Collect(Classify, ifaces).value;
    var base := WithBackplane(c, needBackplane);
    forall i, n | LastSubInterface(Classify, ifaces, i, n)
      ensures var m := Override(base, c.subs); (0, n) in m && m[(0, n)] == ifaces[i]
    {
      SubLastWins(Classify, base, ifaces, i, n);
    }
    forall k: PortKey | k.0 != 0 || NoSubInterface(Classify, ifaces, k.1)
      ensures var m := Override(base, c.subs); (k in m <==> k in base) && (k in base ==> m[k] == base[k])
    {
      SubUntouched(Classify, base, ifaces, k);
    }
  }

  /** A name int() refuses is the error whatever the mode; otherwise a mode other than the two known ones is. */
  lemma IfacesMapErrors(ifaces: seq<string>, needBackplane: bool, mode: string)
    ensures Collect(Classify, ifaces).Failure? ==>
              IfacesMap(ifaces, needBackplane, mode) == Failure(Collect(Classify, ifaces).error)
    ensures Collect(Classify, ifaces).Success? ==>
              (IfacesMap(ifaces, needBackplane, mode).Failure? <==> mode != OrigInterfaceMode && mode != SubInterfaceMode)
    ensures Collect(Classify, ifaces).Success? && mode != OrigInterfaceMode && mode != SubInterfaceMode ==>
              IfacesMap(ifaces, needBackplane, mode) == Failure(UnsupportedMode(mode))
  {
  }

  /** Lines 51-65: the loop over the interface names. */
  method CollectPorts(ifaces: seq<string>) returns (r: Result<Collected, RemoteError>)
    ensures r == Collect(Classify, ifaces)
  {
    var subIfaces: seq<(int, string)> := [];
    var ifaceMap: PortMap := map[];
    var usedIndex: set<int> := {};
    var backplaneExist := false;
    for i := 0 to |ifaces|
      invariant Collect(Classify, ifaces[..i]) == Success(Collected(ifaceMap, usedIndex, subIfaces, backplaneExist))
    {
      CollectStep(Classify, ifaces, i);
      var iface := ifaces[i];
      match Classify(iface) {
        case SubPort(n) =>
          subIfaces := subIfaces + [(n, iface)];
        case BackplanePort =>
          backplaneExist := true;
        case PlainPort(n) =>
          ifaceMap := ifaceMap[(0, n) := iface];
          usedIndex := usedIndex + {n};
        case Unparsable =>
          CollectPrefixFails(Classify, ifaces, i + 1);
          return Failure(InvalidIndex(iface));
      }
    }
    assert ifaces[..|ifaces|] == ifaces;
    return Success(Collected(ifaceMap, usedIndex, subIfaces, backplaneExist));
  }

  /** Lines 67-69: count up from 1 past the used indices. */
  method FirstFreeIndex(usedIndex: set<int>) returns (count: int)
    ensures count == LeastFree(usedIndex)
  {
    count := 1;
    while count in usedIndex
      invariant count >= 1 && forall k :: 1 <= k < count ==> k in usedIndex
      invariant FreeFrom(usedIndex, count) == LeastFree(usedIndex)
      decreases |usedIndex| + 1 - count
    {
      TakenBelow(usedIndex, count);
      count := count + 1;
    }
  }

  /** Lines 75-76: override those interfaces that have sub-interfaces. */
  method OverrideSubInterfaces(m: PortMap, subIfaces: seq<(int, string)>) returns (ifaceMap: PortMap)
    ensures ifaceMap == Override(m, subIfaces)
  {
    ifaceMap := m;
    for j := 0 to |subIfaces|
      invariant ifaceMap == Override(m, subIfaces[..j])
    {
      assert subIfaces[..j + 1][..j] == subIfaces[..j];
      var (index, si) := subIfaces[j];
      ifaceMap := ifaceMap[(0, index) := si];
    }
    assert subIfaces[..|subIfaces|] == subIfaces;
  }

  /**
   * build_ifaces_map (lines 37-82): the interface loop, the search for the
   * backplane index, then the mode dispatch with the sub-interface override.
   */
  method BuildIfacesMap(ifaces: seq<string>, ptfConfig: Option<map<string, bool>>, constants: ConstantsFile)
    returns (r: Result<PortMap, RemoteError>)
    ensures MappingMode(constants).Failure? ==> r == Failure(ConstantsNotMapping)
    ensures MappingMode(constants).Success? ==> r == IfacesMap(ifaces, NeedBackplane(ptfConfig), MappingMode(constants).value)
  {
    var modeRead := MappingMode(constants);
    if modeRead.Failure? {
      return Failure(modeRead.error);
    }
    var mode := modeRead.value;
    var needBackplane := NeedBackplane(ptfConfig);
    var collected := CollectPorts(ifaces);
    if collected.Failure? {
      return Failure(collected.error);
    }
    var c := collected.value;
    var ifaceMap := c.plain;
    var count := FirstFreeIndex(c.used);
    if c.backplane && needBackplane {
      ifaceMap := ifaceMap[(0, count) := BackplaneName];
    }
    if mode == SubInterfaceMode {
      ifaceMap := OverrideSubInterfaces(ifaceMap, c.subs);
      return Success(ifaceMap);
    } else if mode == OrigInterfaceMode {
      return Success(ifaceMap);
    } else {
      return Failure(UnsupportedMode(mode));
    }
  }
}
