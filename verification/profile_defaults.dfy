/**
 * Default filling of the Broadcom generator (prepare_default_parameters and
 * the create_default_* helpers): the "<speed>_<len>m" scenario keys, the
 * (speed, length) order, the choice of the scenario a missing one is cloned
 * from, and the cloning and margin steps as functions on qos_params.
 */
module ProfileDefaults {
  import opened Wrappers
  import opened Text
  import opened QosTypes

  /** A (speed, cable length) pair. */
  type SpeedLen = (int, int)

  /** Python's s[:-1]: the text without its last character, empty for empty text. */
  function DropLast(s: string): (r: string)
    ensures s != [] ==> |r| == |s| - 1 && s == r + [s[|s| - 1]]
    ensures s == [] ==> r == []
  {
    if s == [] then [] else s[..|s| - 1]
  }

  /**
   * The target scenario key split as the generator splits it: the speed is
   * int() of the text before the first '_', the length int() of the second
   * '_'-piece without its last character (whatever that character is).
   */
  function ParseTargetKey(scl: string): (r: Result<SpeedLen, Error>)
    ensures r.Failure? ==> r.error == BadScenarioKey(scl)
    ensures var parts := Split(scl, '_');
            && (r.Success? <==> |parts| >= 2 && ParseInt(parts[0]).Some? && ParseInt(DropLast(parts[1])).Some?)
            && (r.Success? ==> r.value == (ParseInt(parts[0]).value, ParseInt(DropLast(parts[1])).value))
  {
    var parts := Split(scl, '_');
    if |parts| < 2 then Failure(BadScenarioKey(scl))
    else
      match (ParseInt(parts[0]), ParseInt(DropLast(parts[1])))
      case (Some(speed), Some(length)) => Success((speed, length))
      case _ => Failure(BadScenarioKey(scl))
  }

  /**
   * re.match('(\d+)_(\d+)m', key): a digit run, '_', a digit run and 'm' at
   * the start of the key; anything may follow.
   */
  function ParseScenarioKey(key: string): (r: Option<SpeedLen>)
    ensures r.Some? ==> r.value.0 >= 0 && r.value.1 >= 0
  {
    var d1 := LeadingDigits(key);
    if |d1| == 0 || |d1| == |key| || key[|d1|] != '_' then None
    else
      var rest := key[|d1| + 1..];
      var d2 := LeadingDigits(rest);
      if |d2| == 0 || |d2| == |rest| || rest[|d2|] != 'm' then None
      else Some((DigitsValue(d1), DigitsValue(d2)))
  }

  /** A key that re.match('(\d+)_(\d+)m', key) accepts: two digit runs joined by '_', then 'm', then anything. */
  predicate ScenarioKeyShape(key: string, d1: string, d2: string, rest: string)
  {
    |d1| > 0 && |d2| > 0 && AllDigits(d1) && AllDigits(d2) && key == d1 + "_" + d2 + "m" + rest
  }

  /** The parse in terms of its two digit runs. */
  lemma ParseScenarioKeyBy(key: string, d1: string, after: string, d2: string)
    requires LeadingDigits(key) == d1 && |d1| > 0 && |key| > |d1| && key[|d1|] == '_'
    requires after == key[|d1| + 1..]
    requires LeadingDigits(after) == d2 && |d2| > 0 && |after| > |d2| && after[|d2|] == 'm'
    ensures ParseScenarioKey(key) == Some((DigitsValue(d1), DigitsValue(d2)))
  {
  }

  /** A digit run followed by a non-digit: the run is the leading digits, the non-digit follows it. */
  lemma DigitsThen(d: string, c: char, t: string)
    requires |d| > 0 && AllDigits(d) && !IsDigit(c)
    ensures var k := d + [c] + t;
            LeadingDigits(k) == d && |k| > |d| && k[|d|] == c && k[|d| + 1..] == t
  {
    assert d + [c] + t == d + ([c] + t);
    LeadingDigitsOf(d, [c] + t);
  }

  /** Every key of that shape is recognised, with the values of its two digit runs. */
  lemma ParseScenarioKeyComplete(d1: string, d2: string, rest: string)
    requires |d1| > 0 && |d2| > 0 && AllDigits(d1) && AllDigits(d2)
    ensures ParseScenarioKey(d1 + "_" + d2 + "m" + rest) == Some((DigitsValue(d1), DigitsValue(d2)))
  {
    var after := d2 + ['m'] + rest;
    var key := d1 + ['_'] + after;
    assert LeadingDigits(key) == d1 && |key| > |d1| && key[|d1|] == '_' && key[|d1| + 1..] == after by {
      DigitsThen(d1, '_', after);
    }
    assert LeadingDigits(after) == d2 && |after| > |d2| && after[|d2|] == 'm' by {
      DigitsThen(d2, 'm', rest);
    }
    ParseScenarioKeyBy(key, d1, after, d2);
    ScenarioKeyParts(d1, d2, rest);
  }

  lemma ScenarioKeyParts(d1: string, d2: string, rest: string)
    ensures d1 + "_" + d2 + "m" + rest == d1 + ['_'] + (d2 + ['m'] + rest)
  {
  }

  /** Only keys of that shape are recognised, and the pair is the values of the two digit runs. */
  lemma ParseScenarioKeySound(key: string)
    requires ParseScenarioKey(key).Some?
    ensures exists d1, d2, rest :: ScenarioKeyShape(key, d1, d2, rest)
              && ParseScenarioKey(key).value == (DigitsValue(d1), DigitsValue(d2))
  {
    var d1 := LeadingDigits(key);
    var after := key[|d1| + 1..];
    var d2 := LeadingDigits(after);
    var rest := after[|d2| + 1..];
    assert key == d1 + [key[|d1|]] + after;
    assert after == d2 + [after[|d2|]] + rest;
    assert ScenarioKeyShape(key, d1, d2, rest);
  }

  /** '{}_{}m'.format(speed, length). */
  function FormatScenarioKey(t: SpeedLen): string
  {
    IntToString(t.0) + "_" + IntToString(t.1) + "m"
  }

  /** A formatted key of non-negative numbers is recognised as a scenario key with the same numbers. */
  lemma ParseFormattedScenarioKey(speed: nat, length: nat)
    ensures ParseScenarioKey(FormatScenarioKey((speed, length))) == Some((speed, length))
  {
    var a := NatToString(speed);
    var b := NatToString(length);
    var key := FormatScenarioKey((speed, length));
    var tail := "_" + b + "m";
    assert key == a + tail;
    LeadingDigitsOf(a, tail);
    assert key[|a|] == '_';
    var rest := key[|a| + 1..];
    assert rest == b + "m";
    LeadingDigitsOf(b, "m");
    assert rest[|b|] == 'm';
  }

  /** Splitting and int() read back the numbers of any formatted key, negative ones included. */
  lemma ParseFormattedTargetKey(speed: int, length: int)
    ensures ParseTargetKey(FormatScenarioKey((speed, length))) == Success((speed, length))
  {
    var a := IntToString(speed);
    var bm := IntToString(length) + "m";
    assert '_' !in a;
    assert '_' !in bm;
    assert FormatScenarioKey((speed, length)) == Join([a, bm], '_');
    SplitJoin([a, bm], '_');
    assert bm[..|bm| - 1] == IntToString(length);
    ParseIntOfIntToString(speed);
    ParseIntOfIntToString(length);
  }

  /** compare_speed_cable_len (lines 98-110): speed first, then length. */
  function CompareSpeedLen(a: SpeedLen, b: SpeedLen): int
  {
    if a.0 < b.0 then -1
    else if a.0 > b.0 then 1
    else if a.1 < b.1 then -1
    else if a.1 > b.1 then 1
    else 0
  }

  /** a sorts strictly before b. */
  predicate Before(a: SpeedLen, b: SpeedLen)
  {
    a.0 < b.0 || (a.0 == b.0 && a.1 < b.1)
  }

  /** a sorts at or after b. */
  predicate AtLeast(a: SpeedLen, b: SpeedLen)
  {
    !Before(a, b)
  }

  /** The comparator is the lexicographic order on pairs, and 0 only for equal pairs. */
  lemma CompareIsLexicographic(a: SpeedLen, b: SpeedLen)
    ensures CompareSpeedLen(a, b) == -1 <==> Before(a, b)
    ensures CompareSpeedLen(a, b) == 1 <==> Before(b, a)
    ensures CompareSpeedLen(a, b) == 0 <==> a == b
    ensures a != b ==> Before(a, b) || Before(b, a)
  {
  }

  /**
   * The scenario the target is cloned from, given the pairs parsed from the
   * other keys: the least pair at or after the target if there is one,
   * otherwise the greatest pair (which is then before the target).
   */
  predicate IsReference(target: SpeedLen, others: set<SpeedLen>, ref: SpeedLen)
  {
    ref in others &&
    if AtLeast(ref, target) then
      forall o :: o in others && AtLeast(o, target) ==> AtLeast(o, ref)
    else
      forall o :: o in others ==> Before(o, target) && AtLeast(ref, o)
  }

  /** At most one pair is the reference. */
  lemma ReferenceUnique(target: SpeedLen, others: set<SpeedLen>, r1: SpeedLen, r2: SpeedLen)
    requires IsReference(target, others, r1) && IsReference(target, others, r2)
    ensures r1 == r2
  {
    CompareIsLexicographic(r1, r2);
  }

  /** The better of a current choice and a newly seen pair. */
  function Pick(target: SpeedLen, a: SpeedLen, b: SpeedLen): SpeedLen
  {
    if AtLeast(a, target) && AtLeast(b, target) then (if Before(b, a) then b else a)
    else if AtLeast(a, target) then a
    else if AtLeast(b, target) then b
    else if Before(a, b) then b
    else a
  }

  /** Seeing one more pair keeps the choice the reference of everything seen. */
  lemma PickExtends(target: SpeedLen, others: set<SpeedLen>, r: SpeedLen, t: SpeedLen)
    requires IsReference(target, others, r)
    ensures IsReference(target, others + {t}, Pick(target, r, t))
  {
    var p := Pick(target, r, t);
    var all := others + {t};
    if AtLeast(p, target) {
      forall o | o in all && AtLeast(o, target)
        ensures AtLeast(o, p)
      {
        if o != t {
          assert o in others;
        }
      }
    } else {
      forall o | o in all
        ensures Before(o, target) && AtLeast(p, o)
      {
        if o != t {
          assert o in others;
        }
      }
    }
  }

  /** A single pair is its own reference. */
  lemma SingletonReference(target: SpeedLen, t: SpeedLen)
    ensures IsReference(target, {t}, t)
  {
  }

  /** Every non-empty set of pairs has a reference. */
  lemma {:induction false} ReferenceExists(target: SpeedLen, others: set<SpeedLen>)
    requires others != {}
    ensures exists r :: IsReference(target, others, r)
    decreases |others|
  {
    var t :| t in others;
    if others == {t} {
      SingletonReference(target, t);
    } else {
      var rest := others - {t};
      ReferenceExists(target, rest);
      var r :| IsReference(target, rest, r);
      PickExtends(target, rest, r, t);
      assert rest + {t} == others;
    }
  }

  /** The reference of a non-empty set of pairs. */
  ghost function ReferenceOf(target: SpeedLen, others: set<SpeedLen>): (r: SpeedLen)
    requires others != {}
    ensures IsReference(target, others, r)
  {
    ReferenceExists(target, others);
    var r :| IsReference(target, others, r);
    r
  }

  /** The reference is one of the other pairs, so both its numbers come from a key and are non-negative. */
  lemma ReferenceIsParsed(target: SpeedLen, keys: set<string>)
    requires ScenarioTuples(keys) != {}
    ensures var r := ReferenceOf(target, ScenarioTuples(keys));
            r.0 >= 0 && r.1 >= 0 && exists k :: k in keys && ParseScenarioKey(k) == Some(r)
  {
  }

  // ---------------------------------------------------------------------
  // The list, the sort and the neighbour index of lines 115-124.
  // ---------------------------------------------------------------------

  /** Sorted by compare_speed_cable_len. */
  predicate SortedPairs(s: seq<SpeedLen>)
  {
    forall j, k :: 0 <= j < k < |s| ==> AtLeast(s[k], s[j])
  }

  /** list.index: the first position of x. */
  function FirstIndex(s: seq<SpeedLen>, x: SpeedLen): (i: nat)
    requires x in s
    ensures i < |s| && s[i] == x && x !in s[..i]
  {
    if s[0] == x then 0
    else
      var j := FirstIndex(s[1..], x);
      assert s[..j + 1] == [s[0]] + s[1..][..j];
      j + 1
  }

  /** ref_index: the next entry, or the previous one when the target is last. */
  function Neighbour(s: seq<SpeedLen>, i: nat): SpeedLen
    requires |s| >= 2 && i < |s|
  {
    if i + 1 < |s| then s[i + 1] else s[i - 1]
  }

  /** Everything before the first position of the target in a sorted list sorts before it. */
  lemma PrefixBeforeTarget(sorted: seq<SpeedLen>, i: nat)
    requires SortedPairs(sorted) && i < |sorted| && sorted[i] !in sorted[..i]
    ensures forall j :: 0 <= j < i ==> Before(sorted[j], sorted[i])
  {
    forall j | 0 <= j < i
      ensures Before(sorted[j], sorted[i])
    {
      assert sorted[j] in sorted[..i];
      CompareIsLexicographic(sorted[j], sorted[i]);
    }
  }

  /** With the target's first position taken out, the neighbour is the reference of what is left. */
  lemma NeighbourOfRest(sorted: seq<SpeedLen>, i: nat)
    requires SortedPairs(sorted) && |sorted| >= 2 && i < |sorted| && sorted[i] !in sorted[..i]
    ensures IsReference(sorted[i], Elements(sorted[..i] + sorted[i + 1..]), Neighbour(sorted, i))
  {
    var target := sorted[i];
    var rest := sorted[..i] + sorted[i + 1..];
    var elems := Elements(rest);
    PrefixBeforeTarget(sorted, i);
    var ref := Neighbour(sorted, i);
    if i + 1 < |sorted| {
      assert ref == rest[i];
      forall o | o in elems && AtLeast(o, target)
        ensures AtLeast(o, ref)
      {
        var j :| 0 <= j < |rest| && rest[j] == o;
        if j >= i {
          assert rest[j] == sorted[j + 1];
        }
      }
    } else {
      assert ref == rest[i - 1];
      assert rest == sorted[..i];
      forall o | o in elems
        ensures Before(o, target) && AtLeast(ref, o)
      {
        var j :| 0 <= j < |rest| && rest[j] == o;
        assert rest[j] == sorted[j];
      }
    }
  }

  /** The pairs of a list, as a set. */
  function Elements(s: seq<SpeedLen>): set<SpeedLen>
  {
    set o | o in s
  }

  /** Taking the target's first position out of a permutation of [target] + others leaves the pairs of others. */
  lemma RemoveFirstTarget(target: SpeedLen, others: seq<SpeedLen>, sorted: seq<SpeedLen>)
    requires multiset(sorted) == multiset([target] + others)
    ensures target in sorted && |sorted| == |others| + 1
    ensures var i := FirstIndex(sorted, target);
            Elements(others) == Elements(sorted[..i] + sorted[i + 1..])
  {
    assert target in sorted && |sorted| == |others| + 1 by {
      PermutationHoldsTarget(target, others, sorted);
    }
    var i := FirstIndex(sorted, target);
    var rest := sorted[..i] + sorted[i + 1..];
    assert multiset(rest) == multiset(others) by {
      PermutationWithoutTarget(target, others, sorted, i);
    }
    SameElements(others, rest);
  }

  lemma PermutationHoldsTarget(target: SpeedLen, others: seq<SpeedLen>, sorted: seq<SpeedLen>)
    requires multiset(sorted) == multiset([target] + others)
    ensures target in sorted && |sorted| == |others| + 1
  {
    assert |sorted| == |multiset(sorted)| == |[target] + others|;
    assert target in multiset(sorted);
  }

  lemma PermutationWithoutTarget(target: SpeedLen, others: seq<SpeedLen>, sorted: seq<SpeedLen>, i: nat)
    requires multiset(sorted) == multiset([target] + others)
    requires i < |sorted| && sorted[i] == target
    ensures multiset(sorted[..i] + sorted[i + 1..]) == multiset(others)
  {
    MultisetWithout(sorted, i);
    assert multiset([target] + others) == multiset{target} + multiset(others);
  }

  lemma SameElements(a: seq<SpeedLen>, b: seq<SpeedLen>)
    requires multiset(a) == multiset(b)
    ensures Elements(a) == Elements(b)
  {
    forall o
      ensures o in a <==> o in b
    {
      assert o in a <==> o in multiset(a);
      assert o in b <==> o in multiset(b);
    }
  }

  lemma MultisetWithout(s: seq<SpeedLen>, i: nat)
    requires i < |s|
    ensures multiset(s[..i] + s[i + 1..]) == multiset(s) - multiset{s[i]}
  {
    assert s == s[..i] + [s[i]] + s[i + 1..];
    assert multiset(s) == multiset(s[..i]) + multiset{s[i]} + multiset(s[i + 1..]);
  }

  /**
   * Sorting the target together with the other pairs and taking the
   * neighbour of the target's first position picks exactly the reference.
   */
  lemma SortedNeighbourIsReference(target: SpeedLen, others: seq<SpeedLen>, sorted: seq<SpeedLen>)
    requires |others| >= 1
    requires SortedPairs(sorted) && multiset(sorted) == multiset([target] + others)
    ensures target in sorted && |sorted| >= 2
    ensures IsReference(target, Elements(others), Neighbour(sorted, FirstIndex(sorted, target)))
  {
    RemoveFirstTarget(target, others, sorted);
    NeighbourOfRest(sorted, FirstIndex(sorted, target));
  }

  // ---------------------------------------------------------------------
  // The reference loop over the keys of qos_params.
  // ---------------------------------------------------------------------

  /** The pairs of all keys of qos_params that look like scenario keys. */
  function ScenarioTuples(keys: set<string>): (r: set<SpeedLen>)
    ensures forall k :: k in keys && ParseScenarioKey(k).Some? ==> ParseScenarioKey(k).value in r
    ensures forall t :: t in r ==> exists k :: k in keys && ParseScenarioKey(k) == Some(t)
  {
    set k | k in keys && ParseScenarioKey(k).Some? :: ParseScenarioKey(k).value
  }

  lemma ScenarioTuplesAdd(seen: set<string>, k: string)
    ensures ScenarioTuples(seen + {k}) ==
              ScenarioTuples(seen) + (if ParseScenarioKey(k).Some? then {ParseScenarioKey(k).value} else {})
  {
  }

  /** best is the reference among the scenario pairs of keys, or None when there are none. */
  ghost predicate ChoiceOf(target: SpeedLen, keys: set<string>, best: Option<SpeedLen>)
  {
    && (best.None? <==> ScenarioTuples(keys) == {})
    && (best.Some? ==> IsReference(target, ScenarioTuples(keys), best.value))
  }

  /** Looking at one more key keeps the running choice the reference. */
  lemma ChoiceStep(target: SpeedLen, seen: set<string>, k: string, before: Option<SpeedLen>, after: Option<SpeedLen>)
    requires ChoiceOf(target, seen, before)
    requires after == match ParseScenarioKey(k)
                      case Some(t) => Some(if before.None? then t else Pick(target, before.value, t))
                      case None => before
    ensures ChoiceOf(target, seen + {k}, after)
  {
    ScenarioTuplesAdd(seen, k);
    match ParseScenarioKey(k) {
      case Some(t) =>
        if before.None? {
          SingletonReference(target, t);
        } else {
          PickExtends(target, ScenarioTuples(seen), before.value, t);
        }
      case None =>
    }
  }

  /**
   * Lines 115-124: walk the keys of qos_params, keep the pairs of the
   * scenario keys, and choose the reference. The list and its sort are
   * replaced by a running choice with the same outcome
   * (SortedNeighbourIsReference); no keys to choose from is the assertion
   * failure of line 121.
   */
  method FindReference(target: SpeedLen, keys: set<string>) returns (r: Result<SpeedLen, Error>)
    ensures r.Failure? <==> ScenarioTuples(keys) == {}
    ensures r.Failure? ==> r.error == NotEnoughScenarios
    ensures r.Success? ==> IsReference(target, ScenarioTuples(keys), r.value)
  {
    var remaining := keys;
    ghost var seen: set<string> := {};
    var best: Option<SpeedLen> := None;
    while remaining != {}
      invariant remaining + seen == keys && remaining !! seen
      invariant ChoiceOf(target, seen, best)
      decreases |remaining|
    {
      var k :| k in remaining;
      ghost var before := best;
      match ParseScenarioKey(k) {
        case Some(t) =>
          if best.None? {
            best := Some(t);
          } else {
            best := Some(Pick(target, best.value, t));
          }
        case None =>
      }
      assert ChoiceOf(target, seen + {k}, best) by {
        ChoiceStep(target, seen, k, before, best);
      }
      assert (remaining - {k}) + (seen + {k}) == keys && (remaining - {k}) !! (seen + {k}) by {
        assert remaining == (remaining - {k}) + {k};
      }
      remaining := remaining - {k};
      seen := seen + {k};
    }
    assert seen == keys;
    if best.None? {
      return Failure(NotEnoughScenarios);
    }
    return Success(best.value);
  }

  // ---------------------------------------------------------------------
  // The defaulting steps as functions on qos_params.
  // ---------------------------------------------------------------------

  /** qos_params[scl] read as a scenario. */
  function ScenarioAt(q: QosParams, scl: string): (r: Result<map<string, Record>, Error>)
    ensures r.Success? <==> scl in q && q[scl].Scenario?
    ensures r.Success? ==> r.value == q[scl].profiles
  {
    if scl !in q then Failure(MissingKey(scl))
    else match q[scl]
      case Scenario(ps) => Success(ps)
      case Profile(_) => Failure(WrongShape(scl))
  }

  /**
   * create_default_speed_cable_length_parameter (lines 112-127), with the
   * scenario pattern matched as intended: qos_params[scl] becomes a copy of
   * the reference scenario, whose key is the reference pair formatted back.
   */
  ghost function DefaultScenario(q: QosParams, scl: string): (r: Result<QosParams, Error>)
    ensures ParseTargetKey(scl).Failure? ==> r == Failure(BadScenarioKey(scl))
    ensures ParseTargetKey(scl).Success? && ScenarioTuples(q.Keys) == {} ==> r == Failure(NotEnoughScenarios)
    ensures r.Success? ==> r.value.Keys == q.Keys + {scl} && forall k :: k in q && k != scl ==> r.value[k] == q[k]
  {
    var target :- ParseTargetKey(scl);
    var others := ScenarioTuples(q.Keys);
    if others == {} then Failure(NotEnoughScenarios)
    else
      var refKey := FormatScenarioKey(ReferenceOf(target, others));
      if refKey !in q then Failure(MissingKey(refKey))
      else Success(q[scl := q[refKey]])
  }

  /**
   * The same lines as written: `re` is never imported, so line 117 raises
   * NameError as soon as qos_params has a key, and line 121 fails otherwise.
   */
  function DefaultScenarioAsWritten(q: QosParams, scl: string): (r: Result<QosParams, Error>)
    ensures r.Failure?
    ensures ParseTargetKey(scl).Success? && q.Keys != {} ==> r == Failure(ReNotImported)
  {
    var target :- ParseTargetKey(scl);
    if q.Keys != {} then Failure(ReNotImported) else Failure(NotEnoughScenarios)
  }

  /** As written, a missing scenario can never be created; the corrected step creates it from a neighbour. */
  lemma DefaultScenarioAsWrittenNeverSucceeds(q: QosParams, scl: string)
    ensures DefaultScenarioAsWritten(q, scl).Failure?
    ensures scl !in q && ParseTargetKey(scl).Success? && q.Keys != {} ==>
              DefaultScenarioAsWritten(q, scl) == Failure(ReNotImported)
  {
  }

  /** The corrected step copies the reference scenario to the target key and changes nothing else. */
  lemma DefaultScenarioClonesReference(q: QosParams, scl: string)
    requires DefaultScenario(q, scl).Success?
    ensures var q' := DefaultScenario(q, scl).value;
            var target := ParseTargetKey(scl).value;
            var ref := ReferenceOf(target, ScenarioTuples(q.Keys));
            && FormatScenarioKey(ref) in q
            && q'[scl] == q[FormatScenarioKey(ref)]
            && q'.Keys == q.Keys + {scl}
            && (forall k :: k in q && k != scl ==> q'[k] == q[k])
  {
    var target := ParseTargetKey(scl).value;
    var refKey := FormatScenarioKey(ReferenceOf(target, ScenarioTuples(q.Keys)));
    assert refKey in q;
    assert DefaultScenario(q, scl).value == q[scl := q[refKey]];
  }

  /** When the target key is missing and a parsable neighbour exists under its canonical key, the step succeeds. */
  lemma DefaultScenarioSucceeds(q: QosParams, scl: string)
    requires ParseTargetKey(scl).Success?
    requires ScenarioTuples(q.Keys) != {}
    requires FormatScenarioKey(ReferenceOf(ParseTargetKey(scl).value, ScenarioTuples(q.Keys))) in q
    ensures DefaultScenario(q, scl).Success?
  {
  }

  /**
   * create_default_xon_parameter as guarded at lines 152-154: a missing
   * sub-profile of the scenario becomes a copy of the top-level record of
   * the same name.
   */
  function CloneMissingProfile(q: QosParams, scl: string, name: string): (r: Result<QosParams, Error>)
    ensures r.Success? ==> scl in q && q[scl].Scenario?
    ensures r.Success? && name in q[scl].profiles ==> r.value == q
    ensures r.Success? && name !in q[scl].profiles ==>
              name in q && q[name].Profile? &&
              r.value == q[scl := Scenario(q[scl].profiles[name := q[name].fields])]
    ensures ScenarioAt(q, scl).Failure? ==> r == Failure(ScenarioAt(q, scl).error)
    ensures ScenarioAt(q, scl).Success? && name !in q[scl].profiles && name !in q ==> r == Failure(MissingKey(name))
  {
    var ps :- ScenarioAt(q, scl);
    if name in ps then Success(q)
    else if name !in q then Failure(MissingKey(name))
    else match q[name]
      case Profile(fields) => Success(q[scl := Scenario(ps[name := fields])])
      case Scenario(_) => Failure(WrongShape(name))
  }

  /** Lines 152-154: the loop over the xon sub-profiles. */
  function CloneMissingProfiles(q: QosParams, scl: string, names: seq<string>): Result<QosParams, Error>
  {
    if names == [] then Success(q)
    else
      var q' :- CloneMissingProfiles(q, scl, names[..|names| - 1]);
      CloneMissingProfile(q', scl, names[|names| - 1])
  }

  /**
   * create_default_headroom_pool_size_parameter as guarded at lines 156-158:
   * a missing hdrm_pool_size is copied from the top level if it is there,
   * and otherwise left missing.
   */
  function CloneHeadroomPool(q: QosParams, scl: string): (r: Result<QosParams, Error>)
    ensures ScenarioAt(q, scl).Failure? ==> r == Failure(ScenarioAt(q, scl).error)
    ensures ScenarioAt(q, scl).Success? && HdrmPoolSize !in q ==> r == Success(q)
  {
    var ps :- ScenarioAt(q, scl);
    if HdrmPoolSize in ps || HdrmPoolSize !in q then Success(q)
    else CloneMissingProfile(q, scl, HdrmPoolSize)
  }

  /**
   * The copy that create_default_xon_parameter (lines 130-132),
   * create_default_headroom_pool_size_parameter (lines 135-141) and
   * create_default_pg_shared_watermark_parameter (lines 143-145) make: the
   * scenario's sub-profile becomes the top-level record of the same name,
   * whether or not it was there. The top-level record is looked up before
   * the scenario, as Python evaluates the right-hand side of an assignment
   * first.
   */
  function CloneProfile(q: QosParams, scl: string, name: string): (r: Result<QosParams, Error>)
    ensures name !in q ==> r == Failure(MissingKey(name))
    ensures name in q && ScenarioAt(q, scl).Failure? ==> r == Failure(ScenarioAt(q, scl).error)
    ensures r.Success? ==> scl in q && name in q && q[name].Profile? && q[scl].Scenario?
    ensures r.Success? ==> r.value.Keys == q.Keys && r.value[scl].Scenario?
                            && r.value[scl].profiles == q[scl].profiles[name := q[name].fields]
                            && forall k :: k in q && k != scl ==> r.value[k] == q[k]
    ensures ScenarioAt(q, scl).Success? && name !in q[scl].profiles ==> r == CloneMissingProfile(q, scl, name)
  {
    if name !in q then Failure(MissingKey(name))
    else
      var ps :- ScenarioAt(q, scl);
      match q[name]
      case Profile(fields) => Success(q[scl := Scenario(ps[name := fields])])
      case Scenario(_) => Failure(WrongShape(name))
  }

  const HdrmPoolSize: string := "hdrm_pool_size"
  const MarginKey: string := "pkts_num_margin"
  const DefaultMargin: int := 4

  /** Lines 162-164: raise a missing or smaller pkts_num_margin to 4. */
  function RaiseMargin(rec: Record): (r: Record)
    ensures MarginKey in r && AsInt(r[MarginKey]) >= DefaultMargin
    ensures r.Keys == rec.Keys + {MarginKey}
    ensures forall f :: f in rec && f != MarginKey ==> r[f] == rec[f]
    ensures MarginKey in rec && AsInt(rec[MarginKey]) >= DefaultMargin ==> r == rec
    ensures MarginKey !in rec || AsInt(rec[MarginKey]) < DefaultMargin ==> r[MarginKey] == Num(DefaultMargin)
  {
    if MarginKey !in rec || AsInt(rec[MarginKey]) < DefaultMargin then rec[MarginKey := Num(DefaultMargin)]
    else rec
  }

  /** Lines 161-165 for one profile, which the scenario must hold. */
  function FloorMargin(q: QosParams, scl: string, name: string): (r: Result<QosParams, Error>)
    ensures r.Success? <==> scl in q && q[scl].Scenario? && name in q[scl].profiles
    ensures r.Success? ==> r.value == q[scl := Scenario(q[scl].profiles[name := RaiseMargin(q[scl].profiles[name])])]
  {
    var ps :- ScenarioAt(q, scl);
    if name !in ps then Failure(MissingKey(name))
    else Success(q[scl := Scenario(ps[name := RaiseMargin(ps[name])])])
  }

  /** Lines 161-165: the loop over the four threshold profiles. */
  function FloorMargins(q: QosParams, scl: string, names: seq<string>): Result<QosParams, Error>
  {
    if names == [] then Success(q)
    else
      var q' :- FloorMargins(q, scl, names[..|names| - 1]);
      FloorMargin(q', scl, names[|names| - 1])
  }

  const XonProfiles: seq<string> := ["xon_1", "xon_2"]
  const ThresholdProfiles: seq<string> := ["xoff_1", "xoff_2", "xon_1", "xon_2"]

  /** Lines 149-150: create the target scenario when it is missing. */
  ghost function EnsureScenario(q: QosParams, scl: string): (r: Result<QosParams, Error>)
  {
    if scl in q then Success(q) else DefaultScenario(q, scl)
  }

  /** Lines 152-165: fill in the sub-profiles of an existing scenario and floor the margins. */
  function CompleteScenario(q: QosParams, scl: string): Result<QosParams, Error>
  {
    var q2 :- CloneMissingProfiles(q, scl, XonProfiles);
    var q3 :- CloneHeadroomPool(q2, scl);
    FloorMargins(q3, scl, ThresholdProfiles)
  }

  /** prepare_default_parameters (lines 148-165), with the scenario created as intended. */
  ghost function PrepareDefaults(q: QosParams, scl: string): Result<QosParams, Error>
  {
    var q1 :- EnsureScenario(q, scl);
    CompleteScenario(q1, scl)
  }

  // ---------------------------------------------------------------------
  // What the defaulting steps promise.
  // ---------------------------------------------------------------------

  /** Only the entry at scl may differ, and no key appears or disappears. */
  predicate OnlyScenarioChanged(q: QosParams, q': QosParams, scl: string)
  {
    q'.Keys == q.Keys && forall k :: k in q && k != scl ==> q'[k] == q[k]
  }

  /** Both hold a scenario at scl, and every sub-profile of the first is kept as it was. */
  predicate KeepsProfiles(q: QosParams, q': QosParams, scl: string)
  {
    scl in q && q[scl].Scenario? && scl in q' && q'[scl].Scenario? &&
    forall p :: p in q[scl].profiles ==> p in q'[scl].profiles && q'[scl].profiles[p] == q[scl].profiles[p]
  }

  /**
   * Cloning the xon sub-profiles adds each missing one as a copy of the
   * top-level record and keeps everything else.
   */
  lemma {:induction false} CloneMissingProfilesSpec(q: QosParams, scl: string, names: seq<string>)
    requires CloneMissingProfiles(q, scl, names).Success?
    requires names != [] ==> scl in q && q[scl].Scenario?
    ensures var q' := CloneMissingProfiles(q, scl, names).value;
            && OnlyScenarioChanged(q, q', scl)
            && (names != [] ==> KeepsProfiles(q, q', scl))
            && (names != [] ==> q'[scl].profiles.Keys == q[scl].profiles.Keys + set n | n in names)
            && (forall n :: n in names && n !in q[scl].profiles ==>
                  n in q && q[n].Profile? && q'[scl].profiles[n] == q[n].fields)
  {
    if names != [] {
      var init := names[..|names| - 1];
      var last := names[|names| - 1];
      CloneMissingProfilesSpec(q, scl, init);
      var q1 := CloneMissingProfiles(q, scl, init).value;
      var q' := CloneMissingProfiles(q, scl, names).value;
      assert q' == CloneMissingProfile(q1, scl, last).value;
      if init == [] {
        assert q1 == q;
      }
      assert (set n | n in names) == (set n | n in init) + {last} by {
        assert names == init + [last];
      }
      forall n | n in names && n !in q[scl].profiles
        ensures n in q && q[n].Profile? && q'[scl].profiles[n] == q[n].fields
      {
        if n == last && last !in q1[scl].profiles {
          assert last != scl;
        } else {
          assert n in init;
        }
      }
    }
  }

  /** The headroom-pool step keeps every sub-profile and, when the top level has one, leaves the scenario with one. */
  lemma CloneHeadroomPoolSpec(q: QosParams, scl: string)
    requires CloneHeadroomPool(q, scl).Success?
    ensures var q' := CloneHeadroomPool(q, scl).value;
            && OnlyScenarioChanged(q, q', scl)
            && KeepsProfiles(q, q', scl)
            && q'[scl].profiles.Keys == q[scl].profiles.Keys + (if HdrmPoolSize in q then {HdrmPoolSize} else {})
            && (HdrmPoolSize !in q[scl].profiles && HdrmPoolSize in q ==>
                  q[HdrmPoolSize].Profile? && q'[scl].profiles[HdrmPoolSize] == q[HdrmPoolSize].fields)
  {
  }

  /**
   * Flooring the margins raises pkts_num_margin to at least 4 in each named
   * sub-profile, changes no other field, no other sub-profile and no other
   * entry.
   */
  lemma {:induction false} FloorMarginsSpec(q: QosParams, scl: string, names: seq<string>)
    requires names != []
    ensures FloorMargins(q, scl, names).Success? <==>
              scl in q && q[scl].Scenario? && forall n :: n in names ==> n in q[scl].profiles
    ensures FloorMargins(q, scl, names).Success? ==>
              var q' := FloorMargins(q, scl, names).value;
              && OnlyScenarioChanged(q, q', scl)
              && q'[scl].Scenario?
              && q'[scl].profiles.Keys == q[scl].profiles.Keys
              && (forall p :: p in q[scl].profiles ==>
                    q'[scl].profiles[p] == if p in names then RaiseMargin(q[scl].profiles[p]) else q[scl].profiles[p])
  {
    var init := names[..|names| - 1];
    var last := names[|names| - 1];
    assert names == init + [last];
    if init == [] {
      assert FloorMargins(q, scl, init) == Success(q);
    } else {
      FloorMarginsSpec(q, scl, init);
      if FloorMargins(q, scl, init).Success? {
        var q1 := FloorMargins(q, scl, init).value;
        if FloorMargins(q, scl, names).Success? {
          var q' := FloorMargins(q, scl, names).value;
          forall p | p in q[scl].profiles
            ensures q'[scl].profiles[p] == if p in names then RaiseMargin(q[scl].profiles[p]) else q[scl].profiles[p]
          {
            if p == last && p in init {
              RaiseMarginIdempotent(q[scl].profiles[p]);
            }
          }
        }
      }
    }
  }

  /** Once a prefix of the xon loop fails, the whole loop fails with that error. */
  lemma {:induction false} CloneMissingPrefixFails(q: QosParams, scl: string, names: seq<string>, j: nat)
    requires j <= |names| && CloneMissingProfiles(q, scl, names[..j]).Failure?
    ensures CloneMissingProfiles(q, scl, names) == CloneMissingProfiles(q, scl, names[..j])
    decreases |names| - j
  {
    if j == |names| {
      assert names[..j] == names;
    } else {
      assert names[..j + 1][..j] == names[..j];
      CloneMissingPrefixFails(q, scl, names, j + 1);
    }
  }

  /** Once a prefix of the margin loop fails, the whole loop fails with that error. */
  /** One more name in the loop is one more FloorMargin on what the earlier names gave. */
  lemma FloorMarginsStep(q: QosParams, scl: string, names: seq<string>, i: nat)
    requires i < |names| && FloorMargins(q, scl, names[..i]).Success?
    ensures FloorMargins(q, scl, names[..i + 1]) == FloorMargin(FloorMargins(q, scl, names[..i]).value, scl, names[i])
  {
    assert names[..i + 1][..i] == names[..i];
  }

  lemma {:induction false} FloorMarginsPrefixFails(q: QosParams, scl: string, names: seq<string>, j: nat)
    requires j <= |names| && FloorMargins(q, scl, names[..j]).Failure?
    ensures FloorMargins(q, scl, names) == FloorMargins(q, scl, names[..j])
    decreases |names| - j
  {
    if j == |names| {
      assert names[..j] == names;
    } else {
      assert names[..j + 1][..j] == names[..j];
      FloorMarginsPrefixFails(q, scl, names, j + 1);
    }
  }

  /** Raising a margin twice is raising it once. */
  lemma RaiseMarginIdempotent(rec: Record)
    ensures RaiseMargin(RaiseMargin(rec)) == RaiseMargin(rec)
  {
  }

  /**
   * Completing a scenario leaves it holding xoff_1, xoff_2, xon_1 and xon_2
   * with pkts_num_margin at least 4 (and hdrm_pool_size when the top level
   * has one); a missing xon sub-profile is the top-level record with its
   * margin floored; every sub-profile it already had is kept apart from the
   * margin of the four threshold profiles; no other entry changes.
   */
  lemma CompleteScenarioSpec(q: QosParams, scl: string)
    requires CompleteScenario(q, scl).Success?
    ensures scl in q && q[scl].Scenario?
    ensures var q' := CompleteScenario(q, scl).value;
            && OnlyScenarioChanged(q, q', scl)
            && q'[scl].Scenario?
            && (forall p :: p in ThresholdProfiles ==>
                  p in q'[scl].profiles && MarginKey in q'[scl].profiles[p]
                  && AsInt(q'[scl].profiles[p][MarginKey]) >= DefaultMargin)
            && (HdrmPoolSize in q ==> HdrmPoolSize in q'[scl].profiles)
            && (forall p :: p in q[scl].profiles ==>
                  p in q'[scl].profiles &&
                  q'[scl].profiles[p] == if p in ThresholdProfiles then RaiseMargin(q[scl].profiles[p]) else q[scl].profiles[p])
            && (forall x :: x in XonProfiles && x !in q[scl].profiles ==>
                  x in q && q[x].Profile? && q'[scl].profiles[x] == RaiseMargin(q[x].fields))
  {
    CompleteScenarioMargins(q, scl);
    CompleteScenarioKeeps(q, scl);
  }

  /** The margin half of CompleteScenarioSpec. */
  lemma CompleteScenarioMargins(q: QosParams, scl: string)
    requires CompleteScenario(q, scl).Success?
    ensures scl in q && q[scl].Scenario?
    ensures var q' := CompleteScenario(q, scl).value;
            && OnlyScenarioChanged(q, q', scl)
            && q'[scl].Scenario?
            && (forall p :: p in ThresholdProfiles ==>
                  p in q'[scl].profiles && MarginKey in q'[scl].profiles[p]
                  && AsInt(q'[scl].profiles[p][MarginKey]) >= DefaultMargin)
            && (HdrmPoolSize in q ==> HdrmPoolSize in q'[scl].profiles)
  {
    var q2 := CloneMissingProfiles(q, scl, XonProfiles).value;
    assert CloneMissingProfile(CloneMissingProfiles(q, scl, XonProfiles[..1]).value, scl, "xon_2").Success?;
    assert CloneMissingProfiles(q, scl, XonProfiles[..1][..0]) == Success(q);
    CloneMissingProfilesSpec(q, scl, XonProfiles);
    var q3 := CloneHeadroomPool(q2, scl).value;
    CloneHeadroomPoolSpec(q2, scl);
    FloorMarginsSpec(q3, scl, ThresholdProfiles);
  }

  /** The half of CompleteScenarioSpec about the sub-profiles already there and the cloned xon ones. */
  lemma CompleteScenarioKeeps(q: QosParams, scl: string)
    requires CompleteScenario(q, scl).Success?
    ensures scl in q && q[scl].Scenario?
    ensures var q' := CompleteScenario(q, scl).value;
            && scl in q' && q'[scl].Scenario?
            && (forall p :: p in q[scl].profiles ==>
                  p in q'[scl].profiles &&
                  q'[scl].profiles[p] == if p in ThresholdProfiles then RaiseMargin(q[scl].profiles[p]) else q[scl].profiles[p])
            && (forall x :: x in XonProfiles && x !in q[scl].profiles ==>
                  x in q && q[x].Profile? && x in q'[scl].profiles && q'[scl].profiles[x] == RaiseMargin(q[x].fields))
  {
    var q2 := CloneMissingProfiles(q, scl, XonProfiles).value;
    assert CloneMissingProfile(CloneMissingProfiles(q, scl, XonProfiles[..1]).value, scl, "xon_2").Success?;
    assert CloneMissingProfiles(q, scl, XonProfiles[..1][..0]) == Success(q);
    CloneMissingProfilesSpec(q, scl, XonProfiles);
    var q3 := CloneHeadroomPool(q2, scl).value;
    CloneHeadroomPoolSpec(q2, scl);
    FloorMarginsSpec(q3, scl, ThresholdProfiles);
  }

  /**
   * After preparation the target scenario exists and is complete, and no
   * other entry of qos_params changes.
   */
  lemma PrepareDefaultsSpec(q: QosParams, scl: string)
    requires PrepareDefaults(q, scl).Success?
    ensures var q' := PrepareDefaults(q, scl).value;
            && q'.Keys == q.Keys + {scl}
            && (forall k :: k in q && k != scl ==> q'[k] == q[k])
            && scl in q' && q'[scl].Scenario?
            && (forall p :: p in ThresholdProfiles ==>
                  p in q'[scl].profiles && MarginKey in q'[scl].profiles[p]
                  && AsInt(q'[scl].profiles[p][MarginKey]) >= DefaultMargin)
  {
    var q1 := EnsureScenario(q, scl).value;
    if scl !in q {
      DefaultScenarioClonesReference(q, scl);
    }
    CompleteScenarioSpec(q1, scl);
  }

  /** A threshold sub-profile whose margin is already at least 4 comes out of preparation unchanged. */
  lemma PrepareDefaultsKeepsMargins(q: QosParams, scl: string, p: string)
    requires PrepareDefaults(q, scl).Success?
    requires scl in q && q[scl].Scenario? && p in q[scl].profiles
    requires MarginKey in q[scl].profiles[p] && AsInt(q[scl].profiles[p][MarginKey]) >= DefaultMargin
    ensures scl in PrepareDefaults(q, scl).value && PrepareDefaults(q, scl).value[scl].Scenario?
    ensures p in PrepareDefaults(q, scl).value[scl].profiles
    ensures PrepareDefaults(q, scl).value[scl].profiles[p] == q[scl].profiles[p]
  {
    CompleteScenarioSpec(q, scl);
  }

  /** Completing an already completed scenario changes nothing. */
  lemma CompleteScenarioIdempotent(q: QosParams, scl: string)
    requires CompleteScenario(q, scl).Success?
    ensures CompleteScenario(CompleteScenario(q, scl).value, scl) == CompleteScenario(q, scl)
  {
    var q' := CompleteScenario(q, scl).value;
    CompleteScenarioSpec(q, scl);
    CloneMissingNoop(q', scl);
    assert CloneHeadroomPool(q', scl) == Success(q');
    FloorMarginsNoop(q', scl);
  }

  /** A scenario that already holds both xon sub-profiles gets nothing cloned. */
  lemma CloneMissingNoop(q: QosParams, scl: string)
    requires scl in q && q[scl].Scenario?
    requires forall p :: p in XonProfiles ==> p in q[scl].profiles
    ensures CloneMissingProfiles(q, scl, XonProfiles) == Success(q)
  {
    assert CloneMissingProfiles(q, scl, XonProfiles[..1][..0]) == Success(q);
    assert CloneMissingProfiles(q, scl, XonProfiles[..1]) == Success(q);
  }

  /** Margins already at least 4 are not touched. */
  lemma FloorMarginsNoop(q: QosParams, scl: string)
    requires scl in q && q[scl].Scenario?
    requires forall p :: p in ThresholdProfiles ==>
               p in q[scl].profiles && MarginKey in q[scl].profiles[p]
               && AsInt(q[scl].profiles[p][MarginKey]) >= DefaultMargin
    ensures FloorMargins(q, scl, ThresholdProfiles) == Success(q)
  {
    FloorMarginsSpec(q, scl, ThresholdProfiles);
    var q' := FloorMargins(q, scl, ThresholdProfiles).value;
    assert q'[scl].profiles == q[scl].profiles by {
      forall p | p in q[scl].profiles
        ensures q'[scl].profiles[p] == q[scl].profiles[p]
      {
        if p in ThresholdProfiles {
          assert RaiseMargin(q[scl].profiles[p]) == q[scl].profiles[p];
        }
      }
    }
    assert q' == q by {
      assert q'[scl] == q[scl];
    }
  }

  lemma PrepareDefaultsIdempotent(q: QosParams, scl: string)
    requires PrepareDefaults(q, scl).Success?
    ensures PrepareDefaults(PrepareDefaults(q, scl).value, scl) == PrepareDefaults(q, scl)
  {
    var q1 := EnsureScenario(q, scl).value;
    CompleteScenarioSpec(q1, scl);
    CompleteScenarioIdempotent(q1, scl);
  }
}
