/**
 * The shared-buffer accounting of the Broadcom generator: the running buffer
 * configuration, the binding-key and profile-name parsers, and the number of
 * ingress shared-buffer cells.
 */
module BufferAccounting {
  import opened Wrappers
  import opened Text
  import opened QosTypes
  import opened Asic

  /** An entry of BUFFER_POOL; xoff is optional. */
  datatype Pool = Pool(mode: string, size: int, xoff: Option<int>)

  /** An entry of BUFFER_PROFILE; only its size is read. */
  datatype BufferProfile = BufferProfile(size: int)

  /**
   * An entry of BUFFER_QUEUE or BUFFER_PG: its key, such as "Ethernet0|3-4",
   * and the value of its "profile" field (None for a null value).
   */
  datatype Binding = Binding(key: string, profile: Option<string>)

  /** The tables of the running buffer configuration; bindings in iteration order. */
  datatype BufferConfig = BufferConfig(
    pools: map<string, Pool>,
    profiles: map<string, BufferProfile>,
    queues: seq<Binding>,
    pgs: seq<Binding>)

  /**
   * The profile name in a binding's "profile" field: the text after the last
   * '|', without one trailing ']' ("[BUFFER_PROFILE|egress_lossy_profile]"
   * and "egress_lossy_profile" both name egress_lossy_profile). An empty or
   * null field gives None.
   */
  function ExtractProfileName(fullname: Option<string>): (r: Option<string>)
    ensures r.None? <==> fullname.None? || fullname.value == ""
    ensures r.Some? ==> '|' !in r.value
  {
    if fullname.None? || fullname.value == "" then None
    else
      var parts := Split(fullname.value, '|');
      var fn := parts[|parts| - 1];
      Some(if fn != "" && fn[|fn| - 1] == ']' then fn[..|fn| - 1] else fn)
  }

  /** A name without '|' and without a closing ']' comes back unchanged. */
  lemma ExtractPlainName(name: string)
    requires name != "" && '|' !in name && name[|name| - 1] != ']'
    ensures ExtractProfileName(Some(name)) == Some(name)
  {
  }

  /** Whatever precedes the last '|' is dropped, and so is one ']' that closes the name. */
  lemma ExtractQualifiedName(table: string, name: string)
    requires '|' !in name
    ensures ExtractProfileName(Some(table + "|" + name))
              == Some(if name != "" && name[|name| - 1] == ']' then name[..|name| - 1] else name)
  {
    assert table + "|" + name == table + ['|'] + name;
    LastPieceOfSplit(table, '|', name);
  }

  /** The bracketed form of the internal-202012 branch names the profile inside the brackets. */
  lemma ExtractBracketedName(table: string, name: string)
    requires '|' !in name
    ensures ExtractProfileName(Some("[" + table + "|" + name + "]")) == Some(name)
  {
    var full := "[" + table + "|" + name + "]";
    assert full == ("[" + table) + ['|'] + (name + "]");
    LastPieceOfSplit("[" + table, '|', name + "]");
    assert (name + "]")[..|name|] == name;
  }

  /**
   * The shapes of a BUFFER_QUEUE / BUFFER_PG key the accounting recognises:
   * "Ethernet<digits>|<d>-<d>" (a range of one-digit indices) and
   * "Ethernet<digits>|<d>" (a single index). Both are prefix matches, so
   * anything may follow.
   */
  datatype BindingShape = RangeKey(lo: nat, hi: nat) | SingleKey | NoMatch

  const EthernetPrefix: string := "Ethernet"

  function ParseBindingKey(key: string): (r: BindingShape)
    ensures r != NoMatch ==> |key| >= 11 && key[..8] == EthernetPrefix && IsDigit(key[8])
    ensures r.RangeKey? ==> r.lo < 10 && r.hi < 10
  {
    if |key| < 8 || key[..8] != EthernetPrefix then NoMatch
    else
      var port := LeadingDigits(key[8..]);
      var after := key[8 + |port|..];
      if |port| == 0 || |after| < 2 || after[0] != '|' || !IsDigit(after[1]) then NoMatch
      else if |after| >= 4 && after[2] == '-' && IsDigit(after[3]) then
        RangeKey(DigitValue(after[1]), DigitValue(after[3]))
      else SingleKey
  }

  /** "Ethernet<port>|<lo>-<hi>..." is a range binding of indices lo..hi. */
  lemma RangeKeyParses(port: string, lo: nat, hi: nat, rest: string)
    requires |port| > 0 && AllDigits(port) && lo < 10 && hi < 10
    ensures ParseBindingKey(EthernetPrefix + port + "|" + [DigitChar(lo), '-', DigitChar(hi)] + rest) == RangeKey(lo, hi)
  {
    var tail := "|" + [DigitChar(lo), '-', DigitChar(hi)] + rest;
    var key := EthernetPrefix + port + tail;
    assert key == EthernetPrefix + port + "|" + [DigitChar(lo), '-', DigitChar(hi)] + rest;
    assert key[..8] == EthernetPrefix;
    assert key[8..] == port + tail;
    LeadingDigitsOf(port, tail);
    assert key[8 + |port|..] == tail;
  }

  /** "Ethernet<port>|<d>" not followed by "-<digit>" is a single-index binding. */
  lemma SingleKeyParses(port: string, d: nat, rest: string)
    requires |port| > 0 && AllDigits(port) && d < 10
    requires !(|rest| >= 2 && rest[0] == '-' && IsDigit(rest[1]))
    ensures ParseBindingKey(EthernetPrefix + port + "|" + [DigitChar(d)] + rest) == SingleKey
  {
    var tail := "|" + [DigitChar(d)] + rest;
    var key := EthernetPrefix + port + tail;
    assert key == EthernetPrefix + port + "|" + [DigitChar(d)] + rest;
    assert key[..8] == EthernetPrefix;
    assert key[8..] == port + tail;
    LeadingDigitsOf(port, tail);
    assert key[8 + |port|..] == tail;
  }

  /** key is "Ethernet<port>|<lo>-<hi>" followed by anything. */
  predicate RangeKeyShape(key: string, port: string, lo: nat, hi: nat, rest: string)
  {
    |port| > 0 && AllDigits(port) && lo < 10 && hi < 10
    && key == EthernetPrefix + port + "|" + [DigitChar(lo), '-', DigitChar(hi)] + rest
  }

  /** key is "Ethernet<port>|<d>" followed by anything but "-<digit>". */
  predicate SingleKeyShape(key: string, port: string, d: nat, rest: string)
  {
    |port| > 0 && AllDigits(port) && d < 10
    && !(|rest| >= 2 && rest[0] == '-' && IsDigit(rest[1]))
    && key == EthernetPrefix + port + "|" + [DigitChar(d)] + rest
  }

  lemma DigitRoundTrip(c: char)
    requires IsDigit(c)
    ensures DigitChar(DigitValue(c)) == c
  {
  }

  /** Only a key of the range form parses as a range, and its bounds are the two digits. */
  lemma RangeKeySound(key: string)
    requires ParseBindingKey(key).RangeKey?
    ensures exists port, rest :: RangeKeyShape(key, port, ParseBindingKey(key).lo, ParseBindingKey(key).hi, rest)
  {
    var port := LeadingDigits(key[8..]);
    var after := key[8 + |port|..];
    var lo, hi := ParseBindingKey(key).lo, ParseBindingKey(key).hi;
    DigitRoundTrip(after[1]);
    DigitRoundTrip(after[3]);
    assert after == "|" + [DigitChar(lo), '-', DigitChar(hi)] + after[4..];
    assert key == key[..8] + port + after;
    assert RangeKeyShape(key, port, lo, hi, after[4..]);
  }

  /** Only a key of the single-index form parses as a single index. */
  lemma SingleKeySound(key: string)
    requires ParseBindingKey(key).SingleKey?
    ensures exists port, d, rest :: SingleKeyShape(key, port, d, rest)
  {
    var port := LeadingDigits(key[8..]);
    var after := key[8 + |port|..];
    var d := DigitValue(after[1]);
    DigitRoundTrip(after[1]);
    assert after == "|" + [DigitChar(d)] + after[2..];
    assert key == key[..8] + port + after;
    assert SingleKeyShape(key, port, d, after[2..]);
  }

  /** A two-digit index is not a range: "Ethernet0|10-12" counts as the single index 1. */
  lemma MultiDigitRangeIsSingle()
    ensures ParseBindingKey("Ethernet0|10-12") == SingleKey
  {
    SingleKeyParses("0", 1, "0-12");
    assert EthernetPrefix + "0" + "|" + [DigitChar(1)] + "0-12" == "Ethernet0|10-12";
  }

  /** "pg_lossless_" occurs at i, and is followed (on the same line) by "_profile". */
  predicate PgLosslessAt(name: string, i: int)
  {
    OccursAt(name, "pg_lossless_", i) &&
    exists j | i + 12 <= j <= |name| :: OccursAt(name, "_profile", j) && '\n' !in name[i + 12..j]
  }

  /** re.search('pg_lossless_(.*)_profile', name). */
  predicate IsPgLosslessName(name: string)
  {
    exists i | 0 <= i <= |name| :: PgLosslessAt(name, i)
  }

  lemma PgLosslessNameExamples()
    ensures IsPgLosslessName("pg_lossless_100000_5m_profile")
    ensures !IsPgLosslessName("pg_lossless_profile")
  {
    var s := "pg_lossless_100000_5m_profile";
    assert OccursAt(s, "_profile", 21);
    assert PgLosslessAt(s, 0);
  }

  function KnownProfile(name: Option<string>, table: map<string, BufferProfile>): bool
  {
    name.Some? && name.value in table
  }

  /**
   * What one binding takes from the shared buffer: the profile size in cells
   * times the number of indices for a range key (an unknown profile there is
   * a KeyError), the profile size once for a single-index key with a known
   * profile, and nothing otherwise.
   */
  function BindingCells(b: Binding, table: map<string, BufferProfile>, cellSize: nat): (r: Result<int, Error>)
    requires cellSize > 0
    ensures r.Failure? ==> ParseBindingKey(b.key).RangeKey? && r == Failure(UnknownProfile(ExtractProfileName(b.profile)))
    ensures ParseBindingKey(b.key).NoMatch? ==> r == Success(0)
  {
    var name := ExtractProfileName(b.profile);
    match ParseBindingKey(b.key)
    case RangeKey(lo, hi) =>
      if KnownProfile(name, table) then Success(ByteToCell(table[name.value].size, cellSize) * (hi - lo + 1))
      else Failure(UnknownProfile(name))
    case SingleKey =>
      if KnownProfile(name, table) then Success(ByteToCell(table[name.value].size, cellSize) * 1)
      else Success(0)
    case NoMatch => Success(0)
  }

  /**
   * A range binding over an unknown profile is an error, a single-index
   * binding over an unknown profile is skipped, and a key of neither shape
   * takes nothing.
   */
  lemma BindingCellsPolicy(b: Binding, table: map<string, BufferProfile>, cellSize: nat)
    requires cellSize > 0
    ensures var r := BindingCells(b, table, cellSize);
            && (r.Failure? <==> ParseBindingKey(b.key).RangeKey? && !KnownProfile(ExtractProfileName(b.profile), table))
            && (r.Failure? ==> r.error == UnknownProfile(ExtractProfileName(b.profile)))
            && (!KnownProfile(ExtractProfileName(b.profile), table) && r.Success? ==> r.value == 0)
            && (ParseBindingKey(b.key).NoMatch? ==> r == Success(0))
  {
  }

  /** A binding whose profile is known takes that profile's cells once per index. */
  lemma KnownBindingCells(b: Binding, table: map<string, BufferProfile>, cellSize: nat, name: string)
    requires cellSize > 0
    requires ExtractProfileName(b.profile) == Some(name) && name in table
    ensures ParseBindingKey(b.key).RangeKey? ==>
              var k := ParseBindingKey(b.key);
              BindingCells(b, table, cellSize) == Success(ByteToCell(table[name].size, cellSize) * (k.hi - k.lo + 1))
    ensures ParseBindingKey(b.key).SingleKey? ==>
              BindingCells(b, table, cellSize) == Success(ByteToCell(table[name].size, cellSize))
  {
  }

  /** Two partial sums in order: the first error wins, otherwise the cells add up. */
  function Combine(x: Result<int, Error>, y: Result<int, Error>): Result<int, Error>
  {
    match x
    case Failure(e) => Failure(e)
    case Success(u) =>
      match y
      case Failure(e) => Failure(e)
      case Success(v) => Success(u + v)
  }

  /** A running total over per-binding results, left to right; the first error stops it. */
  function Total(rs: seq<Result<int, Error>>): Result<int, Error>
  {
    if rs == [] then Success(0) else Combine(Total(rs[..|rs| - 1]), rs[|rs| - 1])
  }

  /** What each binding of a table takes, in iteration order. */
  function BindingResults(bs: seq<Binding>, table: map<string, BufferProfile>, cellSize: nat): (rs: seq<Result<int, Error>>)
    requires cellSize > 0
    ensures |rs| == |bs|
  {
    if bs == [] then [] else BindingResults(bs[..|bs| - 1], table, cellSize) + [BindingCells(bs[|bs| - 1], table, cellSize)]
  }

  lemma {:induction false} BindingResultsAt(bs: seq<Binding>, table: map<string, BufferProfile>, cellSize: nat, i: nat)
    requires cellSize > 0 && i < |bs|
    ensures BindingResults(bs, table, cellSize)[i] == BindingCells(bs[i], table, cellSize)
    decreases |bs|
  {
    if i < |bs| - 1 {
      BindingResultsAt(bs[..|bs| - 1], table, cellSize, i);
    }
  }

  lemma {:induction false} BindingResultsConcat(a: seq<Binding>, b: seq<Binding>, table: map<string, BufferProfile>, cellSize: nat)
    requires cellSize > 0
    ensures BindingResults(a + b, table, cellSize) == BindingResults(a, table, cellSize) + BindingResults(b, table, cellSize)
    decreases |b|
  {
    if b == [] {
      assert a + b == a;
    } else {
      var b' := b[..|b| - 1];
      assert (a + b)[..|a + b| - 1] == a + b';
      assert (a + b)[|a + b| - 1] == b[|b| - 1];
      BindingResultsConcat(a, b', table, cellSize);
      var last := [BindingCells(b[|b| - 1], table, cellSize)];
      calc {
        BindingResults(a + b, table, cellSize);
        BindingResults(a + b', table, cellSize) + last;
        (BindingResults(a, table, cellSize) + BindingResults(b', table, cellSize)) + last;
        BindingResults(a, table, cellSize) + (BindingResults(b', table, cellSize) + last);
      }
    }
  }

  /** The cells all bindings of a table take; the first KeyError stops the sum. */
  function Deductions(bs: seq<Binding>, table: map<string, BufferProfile>, cellSize: nat): Result<int, Error>
    requires cellSize > 0
  {
    Total(BindingResults(bs, table, cellSize))
  }

  lemma CombineAssociative(x: Result<int, Error>, y: Result<int, Error>, z: Result<int, Error>)
    ensures Combine(Combine(x, y), z) == Combine(x, Combine(y, z))
  {
  }

  /** The totals of two runs add up, and the earlier run's error wins. */
  lemma {:induction false} TotalConcat(a: seq<Result<int, Error>>, b: seq<Result<int, Error>>)
    ensures Total(a + b) == Combine(Total(a), Total(b))
    decreases |b|
  {
    if b == [] {
      assert a + b == a;
      assert Total(a) == Combine(Total(a), Success(0));
    } else {
      var b' := b[..|b| - 1];
      var last := b[|b| - 1];
      var ab := a + b;
      assert ab[..|ab| - 1] == a + b';
      assert ab[|ab| - 1] == last;
      TotalConcat(a, b');
      CombineAssociative(Total(a), Total(b'), last);
    }
  }

  /** A total fails exactly when some entry is an error, and then with the first error. */
  lemma {:induction false} TotalFailure(rs: seq<Result<int, Error>>)
    ensures Total(rs).Failure? <==> exists i :: 0 <= i < |rs| && rs[i].Failure?
    ensures Total(rs).Failure? ==>
              exists i :: 0 <= i < |rs| && Total(rs) == rs[i] && forall k :: 0 <= k < i ==> rs[k].Success?
  {
    if rs != [] {
      var n := |rs| - 1;
      var init := rs[..n];
      TotalFailure(init);
      assert forall k :: 0 <= k < n ==> init[k] == rs[k];
      if Total(init).Failure? {
        var i :| 0 <= i < n && Total(init) == init[i] && forall k :: 0 <= k < i ==> init[k].Success?;
        assert Total(rs) == rs[i];
      } else if rs[n].Failure? {
        assert Total(rs) == rs[n];
      }
    }
  }

  /** The deductions of two runs of bindings add up, and the earlier run's KeyError wins. */
  lemma DeductionsConcat(a: seq<Binding>, b: seq<Binding>, table: map<string, BufferProfile>, cellSize: nat)
    requires cellSize > 0
    ensures Deductions(a + b, table, cellSize) == Combine(Deductions(a, table, cellSize), Deductions(b, table, cellSize))
  {
    BindingResultsConcat(a, b, table, cellSize);
    TotalConcat(BindingResults(a, table, cellSize), BindingResults(b, table, cellSize));
  }

  /** The total does not depend on the order the tables are iterated in. */
  lemma DeductionsOrderFree(a: seq<Binding>, b: seq<Binding>, table: map<string, BufferProfile>, cellSize: nat)
    requires cellSize > 0
    ensures Deductions(a + b, table, cellSize).Success? <==> Deductions(b + a, table, cellSize).Success?
    ensures Deductions(a + b, table, cellSize).Success? ==>
              Deductions(a + b, table, cellSize).value == Deductions(b + a, table, cellSize).value
  {
    DeductionsConcat(a, b, table, cellSize);
    DeductionsConcat(b, a, table, cellSize);
  }

  /** Two totals agree on success and, when both succeed, on the cells. */
  predicate SameOutcome(x: Result<int, Error>, y: Result<int, Error>)
  {
    x.Success? == y.Success? && (x.Success? ==> x.value == y.value)
  }

  /** Moving one binding's share past a run of others does not change the outcome. */
  lemma CombineExchange(x: Result<int, Error>, p: Result<int, Error>, q: Result<int, Error>, y: Result<int, Error>)
    requires SameOutcome(y, Combine(p, q))
    ensures SameOutcome(Combine(x, y), Combine(p, Combine(x, q)))
  {
  }

  /** Taking one binding out of a run: its share combined with the rest gives the same outcome. */
  lemma DeductionsExtract(b: seq<Binding>, j: nat, table: map<string, BufferProfile>, cellSize: nat)
    requires cellSize > 0 && j < |b|
    ensures SameOutcome(Deductions(b, table, cellSize),
                        Combine(Deductions([b[j]], table, cellSize), Deductions(b[..j] + b[j + 1..], table, cellSize)))
  {
    var p, q := b[..j], b[j + 1..];
    assert b == p + ([b[j]] + q);
    DeductionsConcat(p, q, table, cellSize);
    DeductionsConcat(p, [b[j]] + q, table, cellSize);
    DeductionsConcat([b[j]], q, table, cellSize);
    CombineExchange(Deductions([b[j]], table, cellSize), Deductions(p, table, cellSize),
                    Deductions(q, table, cellSize), Deductions(p + q, table, cellSize));
  }

  /** Removing the same element from two permutations of each other leaves permutations. */
  lemma MultisetRemoveFirst<T>(a: seq<T>, b: seq<T>, j: nat)
    requires multiset(a) == multiset(b) && a != [] && j < |b| && b[j] == a[0]
    ensures multiset(a[1..]) == multiset(b[..j] + b[j + 1..])
  {
    assert a == [a[0]] + a[1..];
    assert multiset(a) == multiset{a[0]} + multiset(a[1..]);
    assert b == b[..j] + [b[j]] + b[j + 1..];
    assert multiset(b) == multiset(b[..j]) + multiset{a[0]} + multiset(b[j + 1..]);
    assert multiset(b[..j] + b[j + 1..]) == multiset(b[..j]) + multiset(b[j + 1..]);
    calc {
      multiset(a[1..]);
      multiset(a) - multiset{a[0]};
      multiset(b) - multiset{a[0]};
      multiset(b[..j]) + multiset(b[j + 1..]);
    }
  }

  /** The deductions depend only on which bindings the tables hold, not on the order they are visited in. */
  lemma {:induction false} DeductionsPermutation(a: seq<Binding>, b: seq<Binding>, table: map<string, BufferProfile>, cellSize: nat)
    requires cellSize > 0
    requires multiset(a) == multiset(b)
    ensures SameOutcome(Deductions(a, table, cellSize), Deductions(b, table, cellSize))
    decreases |a|
  {
    if a == [] {
      assert |b| == |multiset(b)| == 0;
      assert b == [];
    } else {
      assert a[0] in multiset(b);
      var j :| 0 <= j < |b| && b[j] == a[0];
      MultisetRemoveFirst(a, b, j);
      DeductionsPermutation(a[1..], b[..j] + b[j + 1..], table, cellSize);
      assert a == [a[0]] + a[1..];
      DeductionsConcat([a[0]], a[1..], table, cellSize);
      DeductionsExtract(b, j, table, cellSize);
    }
  }

  /** The sum fails exactly when some binding is a range over an unknown profile, and then with the first such binding's error. */
  lemma DeductionsFailure(bs: seq<Binding>, table: map<string, BufferProfile>, cellSize: nat)
    requires cellSize > 0
    ensures Deductions(bs, table, cellSize).Failure? <==>
              exists i :: 0 <= i < |bs| && BindingCells(bs[i], table, cellSize).Failure?
    ensures Deductions(bs, table, cellSize).Failure? ==>
              exists i :: 0 <= i < |bs| && Deductions(bs, table, cellSize) == BindingCells(bs[i], table, cellSize)
                && forall k :: 0 <= k < i ==> BindingCells(bs[k], table, cellSize).Success?
  {
    var rs := BindingResults(bs, table, cellSize);
    TotalFailure(rs);
    if Total(rs).Failure? {
      var i :| 0 <= i < |rs| && Total(rs) == rs[i] && forall k :: 0 <= k < i ==> rs[k].Success?;
      BindingResultsAt(bs, table, cellSize, i);
      forall k | 0 <= k < i
        ensures BindingCells(bs[k], table, cellSize).Success?
      {
        BindingResultsAt(bs, table, cellSize, k);
      }
    }
    forall i | 0 <= i < |bs|
      ensures BindingCells(bs[i], table, cellSize) == rs[i]
    {
      BindingResultsAt(bs, table, cellSize, i);
    }
  }

  const EgressLossless: string := "egress_lossless_profile"
  const EgressLossy: string := "egress_lossy_profile"

  /** The two egress profiles BUFFER_QUEUE bindings may name; both must exist. */
  function EgressProfiles(cfg: BufferConfig): (r: Result<map<string, BufferProfile>, Error>)
    ensures r.Success? <==> EgressLossless in cfg.profiles && EgressLossy in cfg.profiles
    ensures r.Success? ==> r.value.Keys == {EgressLossless, EgressLossy}
                            && forall n :: n in r.value ==> r.value[n] == cfg.profiles[n]
  {
    if EgressLossless !in cfg.profiles then Failure(MissingKey(EgressLossless))
    else if EgressLossy !in cfg.profiles then Failure(MissingKey(EgressLossy))
    else Success(map[EgressLossless := cfg.profiles[EgressLossless], EgressLossy := cfg.profiles[EgressLossy]])
  }

  /** The lossless PG profiles BUFFER_PG bindings may name. */
  function PgLosslessProfiles(cfg: BufferConfig): (r: map<string, BufferProfile>)
    ensures forall n :: n in r <==> n in cfg.profiles && IsPgLosslessName(n)
    ensures forall n :: n in r ==> r[n] == cfg.profiles[n]
  {
    map n | n in cfg.profiles && IsPgLosslessName(n) :: cfg.profiles[n]
  }

  const IngressLosslessPool: string := "ingress_lossless_pool"

  /**
   * The ingress shared buffer in cells: for th/th2/th3 the pool size split
   * evenly across the xpe engines; for the other families the pool size
   * less its xoff, less every egress queue binding and every lossless PG
   * binding.
   */
  function SharedBufferCells(asicType: string, asic: AsicParams, cfg: BufferConfig): (r: Result<int, Error>)
    requires asic.cellSize > 0 && asic.xpeCount > 0
    ensures IngressLosslessPool !in cfg.pools ==> r == Failure(MissingKey(IngressLosslessPool))
  {
    if IngressLosslessPool !in cfg.pools then Failure(MissingKey(IngressLosslessPool))
    else
      var pool := cfg.pools[IngressLosslessPool];
      if IsMultiXpeFamily(asicType) then
        Success(ByteToCell(pool.size, asic.cellSize) / asic.xpeCount)
      else
        var egress :- EgressProfiles(cfg);
        var start := ByteToCell(pool.size, asic.cellSize) - ByteToCell(pool.xoff.GetOr(0), asic.cellSize);
        var queues :- Deductions(cfg.queues, egress, asic.cellSize);
        var pgs :- Deductions(cfg.pgs, PgLosslessProfiles(cfg), asic.cellSize);
        Success(start - queues - pgs)
  }

  /** On a multi-engine family every engine gets the same whole number of cells, and fewer than one engine's share is left over. */
  lemma MultiXpeShare(asicType: string, asic: AsicParams, cfg: BufferConfig)
    requires asic.cellSize > 0 && asic.xpeCount > 0
    requires IsMultiXpeFamily(asicType) && IngressLosslessPool in cfg.pools
    ensures var total := ByteToCell(cfg.pools[IngressLosslessPool].size, asic.cellSize);
            var share := SharedBufferCells(asicType, asic, cfg).value;
            share * asic.xpeCount <= total < (share + 1) * asic.xpeCount
  {
    var total := ByteToCell(cfg.pools[IngressLosslessPool].size, asic.cellSize);
    var share := total / asic.xpeCount;
    assert (share + 1) * asic.xpeCount == share * asic.xpeCount + asic.xpeCount;
  }

  /** The loops at lines 260-287 over a binding table: the result is the starting total less the table's deductions, or the first KeyError. */
  method SubtractBindings(start: int, bs: seq<Binding>, table: map<string, BufferProfile>, cellSize: nat)
    returns (r: Result<int, Error>)
    requires cellSize > 0
    ensures Deductions(bs, table, cellSize).Success? ==> r == Success(start - Deductions(bs, table, cellSize).value)
    ensures Deductions(bs, table, cellSize).Failure? ==> r == Failure(Deductions(bs, table, cellSize).error)
  {
    ghost var rs := BindingResults(bs, table, cellSize);
    var cells := start;
    var i := 0;
    while i < |bs|
      invariant 0 <= i <= |bs|
      invariant Total(rs[..i]) == Success(start - cells)
    {
      assert rs[..i + 1][..i] == rs[..i];
      BindingResultsAt(bs, table, cellSize, i);
      var taken := BindingCells(bs[i], table, cellSize);
      if taken.Failure? {
        TotalConcat(rs[..i + 1], rs[i + 1..]);
        assert rs[..i + 1] + rs[i + 1..] == rs;
        return Failure(taken.error);
      }
      cells := cells - taken.value;
      i := i + 1;
    }
    assert rs[..i] == rs;
    assert Total(rs) == Success(start - cells);
    return Success(cells);
  }

  /** Lines 230-287: the shared buffer, computed the way the generator walks the tables. */
  method ComputeSharedBufferCells(asicType: string, asic: AsicParams, cfg: BufferConfig) returns (r: Result<int, Error>)
    requires asic.cellSize > 0 && asic.xpeCount > 0
    ensures r == SharedBufferCells(asicType, asic, cfg)
  {
    if IngressLosslessPool !in cfg.pools {
      return Failure(MissingKey(IngressLosslessPool));
    }
    var pool := cfg.pools[IngressLosslessPool];
    if IsMultiXpeFamily(asicType) {
      return Success(ByteToCell(pool.size, asic.cellSize) / asic.xpeCount);
    }
    var egress := EgressProfiles(cfg);
    if egress.Failure? {
      return Failure(egress.error);
    }
    var cells := ByteToCell(pool.size, asic.cellSize) - ByteToCell(pool.xoff.GetOr(0), asic.cellSize);
    var afterQueues := SubtractBindings(cells, cfg.queues, egress.value, asic.cellSize);
    if afterQueues.Failure? {
      return afterQueues;
    }
    r := SubtractBindings(afterQueues.value, cfg.pgs, PgLosslessProfiles(cfg), asic.cellSize);
  }

  /** As written, lines 253-254 call re.search without importing re: every subtractive-family run fails. */
  function SharedBufferCellsAsWritten(asicType: string, asic: AsicParams, cfg: BufferConfig): (r: Result<int, Error>)
    requires asic.cellSize > 0 && asic.xpeCount > 0
    ensures r.Success? ==> r == SharedBufferCells(asicType, asic, cfg)
    ensures IsMultiXpeFamily(asicType) ==> r == SharedBufferCells(asicType, asic, cfg)
    ensures !IsMultiXpeFamily(asicType) && IngressLosslessPool in cfg.pools && EgressProfiles(cfg).Success? && cfg.profiles != map[] ==>
              r == Failure(ReNotImported)
  {
    if IngressLosslessPool !in cfg.pools then Failure(MissingKey(IngressLosslessPool))
    else
      var pool := cfg.pools[IngressLosslessPool];
      if IsMultiXpeFamily(asicType) then
        Success(ByteToCell(pool.size, asic.cellSize) / asic.xpeCount)
      else
        var egress :- EgressProfiles(cfg);
        if cfg.profiles != map[] then Failure(ReNotImported)
        else SharedBufferCells(asicType, asic, cfg)
  }

  /** The as-written accounting never yields a number for td2 or td3, while the corrected one does. */
  lemma SubtractiveAccountingAsWrittenFails(asicType: string, asic: AsicParams, cfg: BufferConfig)
    requires asic.cellSize > 0 && asic.xpeCount > 0 && !IsMultiXpeFamily(asicType)
    ensures SharedBufferCellsAsWritten(asicType, asic, cfg).Failure?
    ensures cfg == ExampleConfig("0", "BUFFER_PROFILE") && asic == AsicParams(208, 1) ==>
              SharedBufferCells(asicType, asic, cfg) == Success(35243)
  {
    if cfg == ExampleConfig("0", "BUFFER_PROFILE") && asic == AsicParams(208, 1) {
      ExampleAccounting(asicType, "0", "BUFFER_PROFILE");
    }
  }

  const ExamplePgProfile: string := "pg_lossless_100000_5m_profile"

  /**
   * An 8 MiB ingress lossless pool with 1 MiB xoff, one 2048-byte egress
   * lossless profile bound to queues 0-3 of a port (named in the bracketed
   * form "[<table>|egress_lossless_profile]") and one 1024-byte lossless PG
   * profile bound to PG 3 of the same port (named as "<table>|<profile>").
   */
  function ExampleConfig(port: string, tableName: string): BufferConfig
  {
    BufferConfig(
      map[IngressLosslessPool := Pool("dynamic", 8388608, Some(1048576))],
      map[EgressLossless := BufferProfile(2048), EgressLossy := BufferProfile(1518), ExamplePgProfile := BufferProfile(1024)],
      [Binding(EthernetPrefix + port + "|" + [DigitChar(0), '-', DigitChar(3)] + "",
               Some("[" + tableName + "|" + EgressLossless + "]"))],
      [Binding(EthernetPrefix + port + "|" + [DigitChar(3)] + "", Some(tableName + "|" + ExamplePgProfile))])
  }

  lemma TotalSingle(x: Result<int, Error>)
    ensures Total([x]) == Combine(Success(0), x)
  {
    assert [x][..0] == [];
  }

  /** One binding makes a total of its own cells. */
  lemma DeductionsSingle(b: Binding, table: map<string, BufferProfile>, cellSize: nat)
    requires cellSize > 0
    ensures Deductions([b], table, cellSize) == Combine(Success(0), BindingCells(b, table, cellSize))
  {
    assert [b][..0] == [];
    var x := BindingCells(b, table, cellSize);
    assert BindingResults([b], table, cellSize) == [x];
    TotalSingle(x);
  }

  /** Four queues of a 2048-byte profile take 4 * 10 cells of 208 bytes. */
  lemma ExampleQueueCells(port: string, tableName: string)
    requires |port| > 0 && AllDigits(port)
    ensures Deductions(ExampleConfig(port, tableName).queues, EgressProfiles(ExampleConfig(port, tableName)).value, 208)
            == Success(40)
  {
    var cfg := ExampleConfig(port, tableName);
    var b := cfg.queues[0];
    assert cfg.queues == [b];
    ExampleQueueBinding(port, tableName);
    ExampleEgressTable(port, tableName);
    RangeOfKnownProfile(b, EgressProfiles(cfg).value, EgressLossless);
  }

  lemma ExampleQueueBinding(port: string, tableName: string)
    requires |port| > 0 && AllDigits(port)
    ensures ParseBindingKey(ExampleConfig(port, tableName).queues[0].key) == RangeKey(0, 3)
    ensures ExtractProfileName(ExampleConfig(port, tableName).queues[0].profile) == Some(EgressLossless)
  {
    RangeKeyParses(port, 0, 3, "");
    ExtractBracketedName(tableName, EgressLossless);
  }

  lemma ExampleEgressTable(port: string, tableName: string)
    ensures EgressProfiles(ExampleConfig(port, tableName)).Success?
    ensures EgressLossless in EgressProfiles(ExampleConfig(port, tableName)).value
    ensures EgressProfiles(ExampleConfig(port, tableName)).value[EgressLossless].size == 2048
  {
    assert EgressLossless != EgressLossy;
  }

  /** A 0-3 range over a 2048-byte profile takes 4 * 10 cells of 208 bytes. */
  lemma RangeOfKnownProfile(b: Binding, table: map<string, BufferProfile>, name: string)
    requires ParseBindingKey(b.key) == RangeKey(0, 3)
    requires ExtractProfileName(b.profile) == Some(name) && name in table && table[name].size == 2048
    ensures Deductions([b], table, 208) == Success(40)
  {
    assert ByteToCell(2048, 208) == 10;
    KnownBindingCells(b, table, 208, name);
    DeductionsSingle(b, table, 208);
  }

  /** One PG of a 1024-byte lossless profile takes 5 cells of 208 bytes. */
  lemma ExamplePgCells(port: string, tableName: string)
    requires |port| > 0 && AllDigits(port)
    ensures Deductions(ExampleConfig(port, tableName).pgs, PgLosslessProfiles(ExampleConfig(port, tableName)), 208)
            == Success(5)
  {
    var cfg := ExampleConfig(port, tableName);
    var b := cfg.pgs[0];
    assert cfg.pgs == [b];
    ExamplePgBinding(port, tableName);
    ExamplePgTable(port, tableName);
    SingleOfKnownProfile(b, PgLosslessProfiles(cfg), ExamplePgProfile);
  }

  lemma ExamplePgBinding(port: string, tableName: string)
    requires |port| > 0 && AllDigits(port)
    ensures ParseBindingKey(ExampleConfig(port, tableName).pgs[0].key) == SingleKey
    ensures ExtractProfileName(ExampleConfig(port, tableName).pgs[0].profile) == Some(ExamplePgProfile)
  {
    SingleKeyParses(port, 3, "");
    ExtractQualifiedName(tableName, ExamplePgProfile);
  }

  lemma ExamplePgTable(port: string, tableName: string)
    ensures ExamplePgProfile in PgLosslessProfiles(ExampleConfig(port, tableName))
    ensures PgLosslessProfiles(ExampleConfig(port, tableName))[ExamplePgProfile].size == 1024
  {
    PgLosslessNameExamples();
  }

  /** One PG over a 1024-byte profile takes 5 cells of 208 bytes. */
  lemma SingleOfKnownProfile(b: Binding, table: map<string, BufferProfile>, name: string)
    requires ParseBindingKey(b.key) == SingleKey
    requires ExtractProfileName(b.profile) == Some(name) && name in table && table[name].size == 1024
    ensures Deductions([b], table, 208) == Success(5)
  {
    assert ByteToCell(1024, 208) == 5;
    KnownBindingCells(b, table, 208, name);
    DeductionsSingle(b, table, 208);
  }

  /** 40330 pool cells - 5042 xoff cells - 4 * 10 queue cells - 1 * 5 PG cells. */
  lemma ExampleAccounting(asicType: string, port: string, tableName: string)
    requires !IsMultiXpeFamily(asicType)
    requires |port| > 0 && AllDigits(port)
    ensures SharedBufferCells(asicType, AsicParams(208, 1), ExampleConfig(port, tableName)) == Success(35243)
  {
    ExampleQueueCells(port, tableName);
    ExamplePgCells(port, tableName);
    assert ByteToCell(8388608, 208) == 40330;
    assert ByteToCell(1048576, 208) == 5042;
  }

  /** th2: a 16 MiB pool is 80660 cells, 20165 per engine. */
  lemma MultiXpeExample()
    ensures SharedBufferCells("th2", AsicParams(208, 4),
              BufferConfig(map[IngressLosslessPool := Pool("dynamic", 16777216, None)], map[], [], [])) == Success(20165)
  {
  }
}
