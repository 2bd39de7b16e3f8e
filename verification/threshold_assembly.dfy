/**
 * The threshold half of calculate_parameters: the cell counts the generator
 * derives from the ingress lossless profile and the buffer configuration,
 * and how it writes them back into the target scenario of qos_params.
 */
module ThresholdAssembly {
  import opened Wrappers
  import opened QosTypes
  import opened Asic
  import opened DynamicThreshold
  import opened BufferAccounting
  import ProfileDefaults

  /** The numbers the write-back uses, all in cells. */
  datatype Thresholds = Thresholds(
    pgMin: int,          // the PG's guaranteed minimum
    available: int,      // what the dynamic threshold still lets the PG take from the shared buffer
    headroom: int,       // the PG's xoff headroom
    resetOffset: int,    // the PG's xon offset
    dynamicPool: bool)   // the ingress lossless pool is in dynamic mode

  const SizeField: string := "size"
  const DynamicThField: string := "dynamic_th"
  const XoffField: string := "xoff"
  const XonOffsetField: string := "xon_offset"
  const SharedLimitSp0: string := "shared_limit_sp0"

  /**
   * calc_avaiable_shared_buffer (lines 189-222): the pool mode is checked
   * before dynamic_th is read from the ingress lossless profile.
   */
  function AvailableFor(sharedCells: int, pool: Pool, profile: map<string, int>): (r: Result<int, Error>)
    ensures pool.mode != "dynamic" ==> r == Failure(StaticPoolMode)
    ensures pool.mode == "dynamic" && DynamicThField !in profile ==> r == Failure(MissingKey(DynamicThField))
    ensures r.Success? ==>
              MayGrow(sharedCells, profile[DynamicThField], r.value)
              && !MayGrow(sharedCells, profile[DynamicThField], r.value + 1)
  {
    if pool.mode != "dynamic" then Failure(StaticPoolMode)
    else if DynamicThField !in profile then Failure(MissingKey(DynamicThField))
    else AvailableSharedBuffer(sharedCells, pool.mode, profile[DynamicThField])
  }

  /**
   * Lines 228-314 of calculate_parameters, up to the write-back. The PG min
   * is the profile size in cells (half the reset offset in cells on td2), the
   * headroom and the reset offset are the profile's xoff and xon_offset in
   * cells, the available share is the largest the growth rule admits over
   * the shared buffer (or over the ASIC's shared_limit_sp0 register when that
   * is present and differs), and the pool is always dynamic. The lookups
   * fail in the order the code makes them.
   */
  function ComputeThresholds(
    asicType: string, asic: AsicParams, profile: map<string, int>,
    cfg: BufferConfig, asicConfig: map<string, int>): (r: Result<Thresholds, Error>)
    requires asic.cellSize > 0 && asic.xpeCount > 0
    ensures SizeField !in profile ==> r == Failure(MissingKey(SizeField))
    ensures SizeField in profile && IngressLosslessPool !in cfg.pools ==> r == Failure(MissingKey(IngressLosslessPool))
    ensures SizeField in profile && SharedBufferCells(asicType, asic, cfg).Failure? ==>
              r == Failure(SharedBufferCells(asicType, asic, cfg).error)
    ensures (SizeField in profile && IngressLosslessPool in cfg.pools && SharedBufferCells(asicType, asic, cfg).Success?
             && cfg.pools[IngressLosslessPool].mode != "dynamic") ==> r == Failure(StaticPoolMode)
    ensures (SizeField in profile && IngressLosslessPool in cfg.pools && SharedBufferCells(asicType, asic, cfg).Success?
             && cfg.pools[IngressLosslessPool].mode == "dynamic") ==>
              && (DynamicThField !in profile ==> r == Failure(MissingKey(DynamicThField)))
              && (DynamicThField in profile && XoffField !in profile ==> r == Failure(MissingKey(XoffField)))
              && (DynamicThField in profile && XoffField in profile && XonOffsetField !in profile ==>
                    r == Failure(MissingKey(XonOffsetField)))
    ensures r.Success? <==>
              && SizeField in profile && DynamicThField in profile && XoffField in profile && XonOffsetField in profile
              && IngressLosslessPool in cfg.pools && cfg.pools[IngressLosslessPool].mode == "dynamic"
              && SharedBufferCells(asicType, asic, cfg).Success?
    ensures r.Success? ==>
              var t := r.value;
              var shared := SharedBufferCells(asicType, asic, cfg).value;
              var base := if SharedLimitSp0 in asicConfig && shared != asicConfig[SharedLimitSp0]
                          then asicConfig[SharedLimitSp0] else shared;
              && t.dynamicPool
              && t.headroom == ByteToCell(profile[XoffField], asic.cellSize)
              && t.resetOffset == ByteToCell(profile[XonOffsetField], asic.cellSize)
              && t.pgMin == (if asicType == "td2" then t.resetOffset / 2 else ByteToCell(profile[SizeField], asic.cellSize))
              && MayGrow(base, profile[DynamicThField], t.available)
              && !MayGrow(base, profile[DynamicThField], t.available + 1)
  {
    if SizeField !in profile then Failure(MissingKey(SizeField))
    else
      var pgMinCells := ByteToCell(profile[SizeField], asic.cellSize);
      if IngressLosslessPool !in cfg.pools then Failure(MissingKey(IngressLosslessPool))
      else
        var pool := cfg.pools[IngressLosslessPool];
        var shared :- SharedBufferCells(asicType, asic, cfg);
        var available :- AvailableFor(shared, pool, profile);
        if XoffField !in profile then Failure(MissingKey(XoffField))
        else if XonOffsetField !in profile then Failure(MissingKey(XonOffsetField))
        else
          var headroom := ByteToCell(profile[XoffField], asic.cellSize);
          var resetOffset := ByteToCell(profile[XonOffsetField], asic.cellSize);
          var pgMin := if asicType == "td2" then resetOffset / 2 else pgMinCells;
          if SharedLimitSp0 in asicConfig && shared != asicConfig[SharedLimitSp0] then
            // the mode and dynamic_th were checked by the first computation, so this one succeeds
            var available' := AvailableFor(asicConfig[SharedLimitSp0], pool, profile).value;
            Success(Thresholds(pgMin, available', headroom, resetOffset, pool.mode == "dynamic"))
          else
            Success(Thresholds(pgMin, available, headroom, resetOffset, pool.mode == "dynamic"))
  }

  /**
   * The generator as written, where the non-th families reach the missing
   * `re` module while computing the shared buffer.
   */
  function ComputeThresholdsAsWritten(
    asicType: string, asic: AsicParams, profile: map<string, int>,
    cfg: BufferConfig, asicConfig: map<string, int>): (r: Result<Thresholds, Error>)
    requires asic.cellSize > 0 && asic.xpeCount > 0
    ensures r.Success? ==> IsMultiXpeFamily(asicType)
  {
    if SizeField !in profile then Failure(MissingKey(SizeField))
    else if IngressLosslessPool !in cfg.pools then Failure(MissingKey(IngressLosslessPool))
    else
      var _ :- SharedBufferCellsAsWritten(asicType, asic, cfg);
      ComputeThresholds(asicType, asic, profile, cfg, asicConfig)
  }

  // ---------------------------------------------------------------------
  // The write-back into one threshold record.
  // ---------------------------------------------------------------------

  const TrigPfc: string := "pkts_num_trig_pfc"
  const TrigIngrDrp: string := "pkts_num_trig_ingr_drp"
  const DismissPfc: string := "pkts_num_dismiss_pfc"
  const HdrmFull: string := "pkts_num_hdrm_full"
  const HdrmPartial: string := "pkts_num_hdrm_partial"
  const Margin: string := "margin"
  const DynamicThresholdField: string := "dynamic_threshold"
  const HeadroomMargin: int := 4

  /** The field names the write-back uses are pairwise different. */
  lemma HdrmFieldsDistinct()
    ensures TrigPfc != HdrmFull && TrigPfc != Margin && TrigPfc != HdrmPartial && TrigPfc != DynamicThresholdField
    ensures HdrmFull != Margin && HdrmFull != HdrmPartial && HdrmFull != DynamicThresholdField
    ensures Margin != HdrmPartial && Margin != DynamicThresholdField
    ensures HdrmPartial != DynamicThresholdField
  {
    assert TrigPfc[9] != HdrmFull[9];
    assert HdrmFull[14] != HdrmPartial[14];
  }

  /** A field the record must already have is overwritten with n, unless it already equals n. */
  function UpdateField(rec: Record, field: string, n: int): (r: Result<Record, Error>)
    ensures r.Failure? <==> field !in rec
    ensures r.Failure? ==> r.error == MissingKey(field)
    ensures r.Success? ==> r.value.Keys == rec.Keys && field in r.value && AsInt(r.value[field]) == n
    ensures r.Success? ==> forall f :: f in rec && f != field ==> r.value[f] == rec[f]
    ensures r.Success? && AsInt(rec[field]) == n ==> r.value == rec
  {
    if field !in rec then Failure(MissingKey(field))
    else if AsInt(rec[field]) != n then Success(rec[field := Num(n)])
    else Success(rec)
  }

  /** A field is set to n when it is missing or differs from n. */
  function SetField(rec: Record, field: string, n: int): (r: Record)
    ensures r.Keys == rec.Keys + {field} && AsInt(r[field]) == n
    ensures forall f :: f in rec && f != field ==> r[f] == rec[f]
    ensures field in rec && AsInt(rec[field]) == n ==> r == rec
  {
    if field !in rec || AsInt(rec[field]) != n then rec[field := Num(n)] else rec
  }

  /**
   * Lines 318-325 for one xoff profile: PFC triggers at PG min plus the
   * available share and ingress drop one headroom later. Both fields must
   * already be there; nothing else in the record changes.
   */
  function AssembleXoff(rec: Record, t: Thresholds): (r: Result<Record, Error>)
    ensures r.Failure? <==> TrigPfc !in rec || TrigIngrDrp !in rec
    ensures r.Success? ==>
              && r.value.Keys == rec.Keys
              && AsInt(r.value[TrigPfc]) == t.pgMin + t.available
              && AsInt(r.value[TrigIngrDrp]) == AsInt(r.value[TrigPfc]) + t.headroom
              && (forall f :: f in rec && f != TrigPfc && f != TrigIngrDrp ==> r.value[f] == rec[f])
  {
    var r1 :- UpdateField(rec, TrigPfc, t.pgMin + t.available);
    UpdateField(r1, TrigIngrDrp, t.pgMin + t.available + t.headroom)
  }

  /**
   * Lines 328-335 for one xon profile: PFC triggers at PG min plus the
   * available share and is dismissed at the reset offset. Both fields must
   * already be there; nothing else in the record changes.
   */
  function AssembleXon(rec: Record, t: Thresholds): (r: Result<Record, Error>)
    ensures r.Failure? <==> TrigPfc !in rec || DismissPfc !in rec
    ensures r.Success? ==>
              && r.value.Keys == rec.Keys
              && AsInt(r.value[TrigPfc]) == t.pgMin + t.available
              && AsInt(r.value[DismissPfc]) == t.resetOffset
              && (forall f :: f in rec && f != TrigPfc && f != DismissPfc ==> r.value[f] == rec[f])
  {
    var r1 :- UpdateField(rec, TrigPfc, t.pgMin + t.available);
    UpdateField(r1, DismissPfc, t.resetOffset)
  }

  /** The margin the partial-headroom watermark is measured from: 4, or the record's own margin when that is larger. */
  function HeadroomMarginOf(rec: Record): (m: int)
    ensures m >= HeadroomMargin
    ensures Margin in rec && AsInt(rec[Margin]) >= HeadroomMargin ==> m == AsInt(rec[Margin])
  {
    if Margin !in rec || AsInt(rec[Margin]) < HeadroomMargin then HeadroomMargin else AsInt(rec[Margin])
  }

  /** Lines 350-355: a missing margin, or one below 4, becomes 4. */
  function FloorHeadroomMargin(rec: Record): (r: Record)
    ensures r.Keys == rec.Keys + {Margin}
    ensures Margin in r && AsInt(r[Margin]) == HeadroomMarginOf(rec)
    ensures Margin in rec && AsInt(rec[Margin]) >= HeadroomMargin ==> r == rec
    ensures forall f :: f in rec && f != Margin ==> r[f] == rec[f]
  {
    if Margin !in rec || AsInt(rec[Margin]) < HeadroomMargin then rec[Margin := Num(HeadroomMargin)] else rec
  }

  /**
   * Lines 341-363 for the hdrm_pool_size profile, whose missing fields are
   * created rather than refused: PFC triggers at PG min plus the available
   * share, full headroom is the headroom, the margin is at least 4 (a margin
   * already at least 4 is kept), partial headroom is the headroom less that
   * margin, and dynamic_threshold is True for a dynamic pool; no other field
   * changes.
   */
  function AssembleHdrm(rec: Record, t: Thresholds): (r: Record)
    ensures r.Keys == rec.Keys + {TrigPfc, HdrmFull, Margin, HdrmPartial}
                      + (if t.dynamicPool then {DynamicThresholdField} else {})
    ensures TrigPfc in r && HdrmFull in r && Margin in r && HdrmPartial in r
    ensures AsInt(r[TrigPfc]) == t.pgMin + t.available
    ensures AsInt(r[HdrmFull]) == t.headroom
    ensures AsInt(r[Margin]) >= HeadroomMargin
    ensures Margin in rec && AsInt(rec[Margin]) >= HeadroomMargin ==> r[Margin] == rec[Margin]
    ensures AsInt(r[HdrmPartial]) == t.headroom - AsInt(r[Margin])
    ensures t.dynamicPool ==> r[DynamicThresholdField] == Flag(true)
    ensures !t.dynamicPool && DynamicThresholdField in rec ==> r[DynamicThresholdField] == rec[DynamicThresholdField]
    ensures forall f :: f in rec && f !in {TrigPfc, HdrmFull, Margin, HdrmPartial, DynamicThresholdField} ==> r[f] == rec[f]
  {
    HdrmFieldsDistinct();
    var r4 := HdrmFields(rec, t);
    if t.dynamicPool then r4[DynamicThresholdField := Flag(true)] else r4
  }

  /** Lines 341-355: the four headroom-pool fields, before dynamic_threshold. */
  function HdrmFields(rec: Record, t: Thresholds): (r: Record)
    ensures r.Keys == rec.Keys + {TrigPfc, HdrmFull, Margin, HdrmPartial}
    ensures AsInt(r[TrigPfc]) == t.pgMin + t.available
    ensures AsInt(r[HdrmFull]) == t.headroom
    ensures AsInt(r[Margin]) >= HeadroomMargin
    ensures Margin in rec && AsInt(rec[Margin]) >= HeadroomMargin ==> r[Margin] == rec[Margin]
    ensures AsInt(r[HdrmPartial]) == t.headroom - AsInt(r[Margin])
    ensures forall f :: f in rec && f !in {TrigPfc, HdrmFull, Margin, HdrmPartial} ==> r[f] == rec[f]
  {
    HdrmFieldsDistinct();
    var r1 := SetField(rec, TrigPfc, t.pgMin + t.available);
    var r2 := SetField(r1, HdrmFull, t.headroom);
    var r3 := FloorHeadroomMargin(r2);
    SetField(r3, HdrmPartial, t.headroom - HeadroomMarginOf(r2))
  }

  lemma AssembleXoffIdempotent(rec: Record, t: Thresholds)
    requires AssembleXoff(rec, t).Success?
    ensures AssembleXoff(AssembleXoff(rec, t).value, t) == AssembleXoff(rec, t)
  {
  }

  lemma AssembleXonIdempotent(rec: Record, t: Thresholds)
    requires AssembleXon(rec, t).Success?
    ensures AssembleXon(AssembleXon(rec, t).value, t) == AssembleXon(rec, t)
  {
  }

  lemma AssembleHdrmIdempotent(rec: Record, t: Thresholds)
    ensures AssembleHdrm(AssembleHdrm(rec, t), t) == AssembleHdrm(rec, t)
  {
    AssembleHdrmFixed(AssembleHdrm(rec, t), t);
  }

  /** A record that already holds the values the write-back computes is left as it is. */
  lemma AssembleHdrmFixed(r: Record, t: Thresholds)
    requires TrigPfc in r && AsInt(r[TrigPfc]) == t.pgMin + t.available
    requires HdrmFull in r && AsInt(r[HdrmFull]) == t.headroom
    requires Margin in r && AsInt(r[Margin]) >= HeadroomMargin
    requires HdrmPartial in r && AsInt(r[HdrmPartial]) == t.headroom - AsInt(r[Margin])
    requires t.dynamicPool ==> DynamicThresholdField in r && r[DynamicThresholdField] == Flag(true)
    ensures AssembleHdrm(r, t) == r
  {
    assert SetField(r, TrigPfc, t.pgMin + t.available) == r;
    assert SetField(r, HdrmFull, t.headroom) == r;
    assert FloorHeadroomMargin(r) == r;
    assert HeadroomMarginOf(r) == AsInt(r[Margin]);
    assert SetField(r, HdrmPartial, t.headroom - AsInt(r[Margin])) == r;
    if t.dynamicPool {
      assert r[DynamicThresholdField := Flag(true)] == r;
    }
  }

  // ---------------------------------------------------------------------
  // The write-back into the target scenario.
  // ---------------------------------------------------------------------

  datatype ProfileKind = XoffKind | XonKind

  function AssembleProfile(kind: ProfileKind, rec: Record, t: Thresholds): Result<Record, Error>
  {
    match kind
    case XoffKind => AssembleXoff(rec, t)
    case XonKind => AssembleXon(rec, t)
  }

  /** The loops at lines 317 and 327: each named sub-profile must be there. */
  function AssembleProfiles(ps: map<string, Record>, names: seq<string>, kind: ProfileKind, t: Thresholds)
    : Result<map<string, Record>, Error>
  {
    if names == [] then Success(ps)
    else
      var ps' :- AssembleProfiles(ps, names[..|names| - 1], kind, t);
      var name := names[|names| - 1];
      if name !in ps' then Failure(MissingKey(name))
      else
        var rec :- AssembleProfile(kind, ps'[name], t);
        Success(ps'[name := rec])
  }

  const XoffProfiles: seq<string> := ["xoff_1", "xoff_2"]

  /** The xoff, xon and headroom-pool sub-profiles are different entries. */
  lemma PassNamesDisjoint()
    ensures forall n :: n in ProfileDefaults.XonProfiles ==> n !in XoffProfiles && n != ProfileDefaults.HdrmPoolSize
    ensures forall n :: n in XoffProfiles ==> n != ProfileDefaults.HdrmPoolSize
  {
    assert "xon_1"[1] != "xoff_1"[2];
  }

  /** Lines 337-363: hdrm_pool_size is rewritten when the scenario has it, and skipped otherwise. */
  function AssembleHeadroomPool(ps: map<string, Record>, t: Thresholds): map<string, Record>
  {
    if ProfileDefaults.HdrmPoolSize in ps then ps[ProfileDefaults.HdrmPoolSize := AssembleHdrm(ps[ProfileDefaults.HdrmPoolSize], t)]
    else ps
  }

  /** Lines 316-335: the xoff pass, then the xon pass. */
  function AssembleProfilePasses(ps: map<string, Record>, t: Thresholds): Result<map<string, Record>, Error>
  {
    var ps1 :- AssembleProfiles(ps, XoffProfiles, XoffKind, t);
    AssembleProfiles(ps1, ProfileDefaults.XonProfiles, XonKind, t)
  }

  /** Lines 316-363 on the sub-profiles of the target scenario. */
  function AssembleProfileSet(ps: map<string, Record>, t: Thresholds): Result<map<string, Record>, Error>
  {
    var ps2 :- AssembleProfilePasses(ps, t);
    Success(AssembleHeadroomPool(ps2, t))
  }

  /** Lines 316-363: the write-back into qos_params[scl]. */
  function AssembleScenario(q: QosParams, scl: string, t: Thresholds): Result<QosParams, Error>
  {
    var ps :- ProfileDefaults.ScenarioAt(q, scl);
    var ps' :- AssembleProfileSet(ps, t);
    Success(q[scl := Scenario(ps')])
  }

  /** q' is q with the scenario at scl written back from t, and nothing else changed. */
  predicate WritesBack(q: QosParams, q': QosParams, scl: string, t: Thresholds)
  {
    && scl in q && q[scl].Scenario? && Assemblable(q[scl].profiles)
    && ProfileDefaults.OnlyScenarioChanged(q, q', scl)
    && q'[scl].Scenario?
    && Assembled(q[scl].profiles, q'[scl].profiles, t)
  }

  /** A write-back pass that fails raises KeyError: a named sub-profile or one of its fields is missing. */
  lemma {:induction false} AssembleProfilesKeyError(ps: map<string, Record>, names: seq<string>, kind: ProfileKind, t: Thresholds)
    requires AssembleProfiles(ps, names, kind, t).Failure?
    ensures AssembleProfiles(ps, names, kind, t).error.MissingKey?
  {
    var init := names[..|names| - 1];
    if AssembleProfiles(ps, init, kind, t).Failure? {
      AssembleProfilesKeyError(ps, init, kind, t);
    }
  }

  /**
   * The write-back into qos_params[scl] fails with KeyError for a missing
   * scenario, with WrongShape for an entry that is not a scenario, and
   * otherwise with the KeyError of the first missing sub-profile or field.
   */
  lemma AssembleScenarioKeyError(q: QosParams, scl: string, t: Thresholds)
    requires AssembleScenario(q, scl, t).Failure?
    ensures scl !in q ==> AssembleScenario(q, scl, t) == Failure(MissingKey(scl))
    ensures scl in q && q[scl].Profile? ==> AssembleScenario(q, scl, t) == Failure(WrongShape(scl))
    ensures scl in q && q[scl].Scenario? ==> AssembleScenario(q, scl, t).error.MissingKey?
  {
    if scl in q && q[scl].Scenario? {
      var ps := q[scl].profiles;
      if AssembleProfiles(ps, XoffProfiles, XoffKind, t).Failure? {
        AssembleProfilesKeyError(ps, XoffProfiles, XoffKind, t);
      } else {
        AssembleProfilesKeyError(AssembleProfiles(ps, XoffProfiles, XoffKind, t).value, ProfileDefaults.XonProfiles, XonKind, t);
      }
    }
  }

  /** calculate_parameters (lines 168-363), with the pg_lossless name test done as intended. */
  function Calculate(
    q: QosParams, scl: string, asicType: string, asic: AsicParams, profile: map<string, int>,
    cfg: BufferConfig, asicConfig: map<string, int>): (r: Result<QosParams, Error>)
    requires asic.cellSize > 0 && asic.xpeCount > 0
    ensures ComputeThresholds(asicType, asic, profile, cfg, asicConfig).Failure? ==>
              r == Failure(ComputeThresholds(asicType, asic, profile, cfg, asicConfig).error)
    ensures r.Success? ==>
              && ComputeThresholds(asicType, asic, profile, cfg, asicConfig).Success?
              && WritesBack(q, r.value, scl, ComputeThresholds(asicType, asic, profile, cfg, asicConfig).value)
    ensures ComputeThresholds(asicType, asic, profile, cfg, asicConfig).Success? ==>
              (r.Success? <==> scl in q && q[scl].Scenario? && Assemblable(q[scl].profiles))
    ensures ComputeThresholds(asicType, asic, profile, cfg, asicConfig).Success? && scl !in q ==>
              r == Failure(MissingKey(scl))
  {
    var t :- ComputeThresholds(asicType, asic, profile, cfg, asicConfig);
    AssembleScenarioSucceeds(q, scl, t);
    var q' :- AssembleScenario(q, scl, t);
    AssembleScenarioSpec(q, scl, t);
    Success(q')
  }

  // ---------------------------------------------------------------------
  // What the write-back promises.
  // ---------------------------------------------------------------------

  /** Once a prefix of a write-back loop fails, the whole loop fails with that error. */
  lemma {:induction false} AssembleProfilesPrefixFails(
    ps: map<string, Record>, names: seq<string>, kind: ProfileKind, t: Thresholds, j: nat)
    requires j <= |names| && AssembleProfiles(ps, names[..j], kind, t).Failure?
    ensures AssembleProfiles(ps, names, kind, t) == AssembleProfiles(ps, names[..j], kind, t)
    decreases |names| - j
  {
    if j == |names| {
      assert names[..j] == names;
    } else {
      assert names[..j + 1][..j] == names[..j];
      AssembleProfilesPrefixFails(ps, names, kind, t, j + 1);
    }
  }

  lemma AssembleProfileIdempotent(kind: ProfileKind, rec: Record, t: Thresholds)
    requires AssembleProfile(kind, rec, t).Success?
    ensures AssembleProfile(kind, AssembleProfile(kind, rec, t).value, t) == AssembleProfile(kind, rec, t)
  {
    match kind
    case XoffKind => AssembleXoffIdempotent(rec, t);
    case XonKind => AssembleXonIdempotent(rec, t);
  }

  /**
   * The loop over named sub-profiles succeeds exactly when each of them is
   * there with the fields its kind rewrites.
   */
  lemma {:induction false} AssembleProfilesSucceeds(ps: map<string, Record>, names: seq<string>, kind: ProfileKind, t: Thresholds)
    ensures AssembleProfiles(ps, names, kind, t).Success? <==>
              forall n :: n in names ==> n in ps && AssembleProfile(kind, ps[n], t).Success?
    decreases |names|
  {
    if names != [] {
      var init := names[..|names| - 1];
      var last := names[|names| - 1];
      assert names == init + [last];
      AssembleProfilesSucceeds(ps, init, kind, t);
      var r1 := AssembleProfiles(ps, init, kind, t);
      if r1.Success? {
        AssembleProfilesSpec(ps, init, kind, t);
        if last in init && AssembleProfile(kind, ps[last], t).Success? {
          AssembleProfileIdempotent(kind, ps[last], t);
        }
      }
    }
  }

  /**
   * A successful loop over named sub-profiles rewrites each of them once
   * and leaves every other sub-profile as it was.
   */
  lemma {:induction false} AssembleProfilesSpec(ps: map<string, Record>, names: seq<string>, kind: ProfileKind, t: Thresholds)
    requires AssembleProfiles(ps, names, kind, t).Success?
    ensures var r := AssembleProfiles(ps, names, kind, t).value;
            && r.Keys == ps.Keys
            && (forall n :: n in ps && n !in names ==> r[n] == ps[n])
            && (forall n :: n in names ==>
                  n in ps && AssembleProfile(kind, ps[n], t).Success? && r[n] == AssembleProfile(kind, ps[n], t).value)
    decreases |names|
  {
    if names != [] {
      var init := names[..|names| - 1];
      var last := names[|names| - 1];
      assert names == init + [last];
      var r1 := AssembleProfiles(ps, init, kind, t);
      AssembleProfilesSpec(ps, init, kind, t);
      var r := AssembleProfiles(ps, names, kind, t).value;
      if last in init {
        AssembleProfileIdempotent(kind, ps[last], t);
        assert r1.value[last] == AssembleProfile(kind, ps[last], t).value;
      } else {
        assert r1.value[last] == ps[last];
      }
      assert r == r1.value[last := AssembleProfile(kind, ps[last], t).value];
      forall n | n in names
        ensures n in ps && AssembleProfile(kind, ps[n], t).Success? && r[n] == AssembleProfile(kind, ps[n], t).value
      {
        if n != last {
          assert n in init;
        }
      }
    }
  }

  /** The scenario has the four threshold sub-profiles, each with the fields the write-back rewrites. */
  predicate Assemblable(ps: map<string, Record>)
  {
    && (forall n :: n in XoffProfiles ==> n in ps && TrigPfc in ps[n] && TrigIngrDrp in ps[n])
    && (forall n :: n in ProfileDefaults.XonProfiles ==> n in ps && TrigPfc in ps[n] && DismissPfc in ps[n])
  }

  /** How the write-back leaves the sub-profiles of the scenario. */
  predicate Assembled(ps: map<string, Record>, ps': map<string, Record>, t: Thresholds)
    requires Assemblable(ps)
  {
    && ps'.Keys == ps.Keys
    && (forall n :: n in XoffProfiles ==> ps'[n] == AssembleXoff(ps[n], t).value)
    && (forall n :: n in ProfileDefaults.XonProfiles ==> ps'[n] == AssembleXon(ps[n], t).value)
    && (ProfileDefaults.HdrmPoolSize in ps ==>
          ps'[ProfileDefaults.HdrmPoolSize] == AssembleHdrm(ps[ProfileDefaults.HdrmPoolSize], t))
    && (forall n :: (n in ps && n !in XoffProfiles && n !in ProfileDefaults.XonProfiles
                     && n != ProfileDefaults.HdrmPoolSize) ==> ps'[n] == ps[n])
  }

  /** The write-back fails exactly when the sub-profiles lack a field it rewrites. */
  lemma AssembleProfileSetSucceeds(ps: map<string, Record>, t: Thresholds)
    ensures AssembleProfileSet(ps, t).Success? <==> Assemblable(ps)
  {
    AssembleProfilePassesSucceeds(ps, t);
  }

  /** The xoff and xon passes succeed exactly when their four sub-profiles hold the fields they rewrite. */
  lemma AssembleProfilePassesSucceeds(ps: map<string, Record>, t: Thresholds)
    ensures AssembleProfilePasses(ps, t).Success? <==> Assemblable(ps)
  {
    AssembleProfilesSucceeds(ps, XoffProfiles, XoffKind, t);
    var r1 := AssembleProfiles(ps, XoffProfiles, XoffKind, t);
    if r1.Success? {
      AssembleProfilesSpec(ps, XoffProfiles, XoffKind, t);
      AssembleProfilesSucceeds(r1.value, ProfileDefaults.XonProfiles, XonKind, t);
      PassNamesDisjoint();
    }
  }

  /** The two folds of a successful write-back, with what each of them did. */
  lemma AssembleProfileSetSteps(ps: map<string, Record>, t: Thresholds)
    returns (ps1: map<string, Record>, ps2: map<string, Record>)
    requires AssembleProfileSet(ps, t).Success?
    ensures AssembleProfiles(ps, XoffProfiles, XoffKind, t) == Success(ps1)
    ensures AssembleProfiles(ps1, ProfileDefaults.XonProfiles, XonKind, t) == Success(ps2)
    ensures AssembleProfileSet(ps, t).value == AssembleHeadroomPool(ps2, t)
    ensures ps1.Keys == ps.Keys && ps2.Keys == ps.Keys
    ensures forall n :: n in ps && n !in XoffProfiles ==> ps1[n] == ps[n]
    ensures forall n :: n in XoffProfiles ==>
              n in ps && AssembleXoff(ps[n], t).Success? && ps1[n] == AssembleXoff(ps[n], t).value
    ensures forall n :: n in ps1 && n !in ProfileDefaults.XonProfiles ==> ps2[n] == ps1[n]
    ensures forall n :: n in ProfileDefaults.XonProfiles ==>
              n in ps1 && AssembleXon(ps1[n], t).Success? && ps2[n] == AssembleXon(ps1[n], t).value
  {
    AssembleProfilesSucceeds(ps, XoffProfiles, XoffKind, t);
    AssembleProfilesSpec(ps, XoffProfiles, XoffKind, t);
    ps1 := AssembleProfiles(ps, XoffProfiles, XoffKind, t).value;
    AssembleProfilesSucceeds(ps1, ProfileDefaults.XonProfiles, XonKind, t);
    AssembleProfilesSpec(ps1, ProfileDefaults.XonProfiles, XonKind, t);
    ps2 := AssembleProfiles(ps1, ProfileDefaults.XonProfiles, XonKind, t).value;
  }

  lemma AssembleProfileSetXoff(ps: map<string, Record>, t: Thresholds)
    requires AssembleProfileSet(ps, t).Success?
    ensures Assemblable(ps) && AssembleProfileSet(ps, t).value.Keys == ps.Keys
    ensures forall n :: n in XoffProfiles ==> AssembleProfileSet(ps, t).value[n] == AssembleXoff(ps[n], t).value
  {
    AssembleProfileSetSucceeds(ps, t);
    var ps1, ps2 := AssembleProfileSetSteps(ps, t);
    forall n | n in XoffProfiles
      ensures AssembleProfileSet(ps, t).value[n] == AssembleXoff(ps[n], t).value
    {
      PassNamesDisjoint();
    }
  }

  lemma AssembleProfileSetXon(ps: map<string, Record>, t: Thresholds)
    requires AssembleProfileSet(ps, t).Success?
    ensures Assemblable(ps) && AssembleProfileSet(ps, t).value.Keys == ps.Keys
    ensures forall n :: n in ProfileDefaults.XonProfiles ==> AssembleProfileSet(ps, t).value[n] == AssembleXon(ps[n], t).value
  {
    AssembleProfileSetSucceeds(ps, t);
    var ps1, ps2 := AssembleProfileSetSteps(ps, t);
    forall n | n in ProfileDefaults.XonProfiles
      ensures AssembleProfileSet(ps, t).value[n] == AssembleXon(ps[n], t).value
    {
      PassNamesDisjoint();
    }
  }

  lemma AssembleProfileSetRest(ps: map<string, Record>, t: Thresholds)
    requires AssembleProfileSet(ps, t).Success?
    ensures AssembleProfileSet(ps, t).value.Keys == ps.Keys
    ensures ProfileDefaults.HdrmPoolSize in ps ==>
              AssembleProfileSet(ps, t).value[ProfileDefaults.HdrmPoolSize] == AssembleHdrm(ps[ProfileDefaults.HdrmPoolSize], t)
    ensures forall n :: (n in ps && n !in XoffProfiles && n !in ProfileDefaults.XonProfiles
                         && n != ProfileDefaults.HdrmPoolSize) ==> AssembleProfileSet(ps, t).value[n] == ps[n]
  {
    var ps1, ps2 := AssembleProfileSetSteps(ps, t);
    PassNamesDisjoint();
  }

  /** What a successful write-back does to the sub-profiles. */
  lemma AssembleProfileSetSpec(ps: map<string, Record>, t: Thresholds)
    requires AssembleProfileSet(ps, t).Success?
    ensures Assemblable(ps) && Assembled(ps, AssembleProfileSet(ps, t).value, t)
  {
    AssembleProfileSetXoff(ps, t);
    AssembleProfileSetXon(ps, t);
    AssembleProfileSetRest(ps, t);
  }

  /** The write-back fails exactly when qos_params[scl] is not a scenario with the fields it rewrites. */
  lemma AssembleScenarioSucceeds(q: QosParams, scl: string, t: Thresholds)
    ensures AssembleScenario(q, scl, t).Success? <==> scl in q && q[scl].Scenario? && Assemblable(q[scl].profiles)
  {
    if scl in q && q[scl].Scenario? {
      AssembleProfileSetSucceeds(q[scl].profiles, t);
    }
  }

  /**
   * A successful write-back rewrites xoff_1 and xoff_2 as AssembleXoff says,
   * xon_1 and xon_2 as AssembleXon says, hdrm_pool_size as AssembleHdrm says
   * when the scenario has one, and changes no other sub-profile and no other
   * entry of qos_params.
   */
  lemma AssembleScenarioSpec(q: QosParams, scl: string, t: Thresholds)
    requires AssembleScenario(q, scl, t).Success?
    ensures scl in q && q[scl].Scenario? && Assemblable(q[scl].profiles)
    ensures var q' := AssembleScenario(q, scl, t).value;
            && ProfileDefaults.OnlyScenarioChanged(q, q', scl)
            && q'[scl].Scenario?
            && Assembled(q[scl].profiles, q'[scl].profiles, t)
  {
    AssembleProfileSetSpec(q[scl].profiles, t);
  }

  /** The result of a write-back can be written back again, and doing so gives the same sub-profiles. */
  lemma AssembledFixed(ps: map<string, Record>, ps': map<string, Record>, t: Thresholds)
    requires Assemblable(ps) && Assembled(ps, ps', t)
    ensures Assemblable(ps') && Assembled(ps', ps', t)
  {
    forall n | n in XoffProfiles
      ensures TrigPfc in ps'[n] && TrigIngrDrp in ps'[n] && AssembleXoff(ps'[n], t).value == ps'[n]
    {
      AssembleXoffIdempotent(ps[n], t);
    }
    forall n | n in ProfileDefaults.XonProfiles
      ensures TrigPfc in ps'[n] && DismissPfc in ps'[n] && AssembleXon(ps'[n], t).value == ps'[n]
    {
      AssembleXonIdempotent(ps[n], t);
    }
    if ProfileDefaults.HdrmPoolSize in ps {
      AssembleHdrmIdempotent(ps[ProfileDefaults.HdrmPoolSize], t);
    }
  }

  /** Assembled pins the result down: two results of the same write-back are equal. */
  lemma AssembledUnique(ps: map<string, Record>, a: map<string, Record>, b: map<string, Record>, t: Thresholds)
    requires Assemblable(ps) && Assembled(ps, a, t) && Assembled(ps, b, t)
    ensures a == b
  {
    forall n | n in a
      ensures a[n] == b[n]
    {
      if n in XoffProfiles {
      } else if n in ProfileDefaults.XonProfiles {
      } else if n == ProfileDefaults.HdrmPoolSize {
      }
    }
  }

  /** Writing the same thresholds back a second time changes nothing. */
  lemma AssembleScenarioIdempotent(q: QosParams, scl: string, t: Thresholds)
    requires AssembleScenario(q, scl, t).Success?
    ensures AssembleScenario(AssembleScenario(q, scl, t).value, scl, t) == AssembleScenario(q, scl, t)
  {
    var q' := AssembleScenario(q, scl, t).value;
    AssembleScenarioSpec(q, scl, t);
    var ps' := q'[scl].profiles;
    AssembledFixed(q[scl].profiles, ps', t);
    AssembleScenarioSucceeds(q', scl, t);
    AssembleScenarioSpec(q', scl, t);
    var q'' := AssembleScenario(q', scl, t).value;
    AssembledUnique(ps', q''[scl].profiles, ps', t);
    assert q''[scl] == q'[scl];
    assert q'' == q';
  }


  /**
   * calculate_parameters is a fixed point: run on its own output with the
   * same profile, buffer and ASIC configuration it writes nothing new.
   */
  lemma CalculateIdempotent(
    q: QosParams, scl: string, asicType: string, asic: AsicParams, profile: map<string, int>,
    cfg: BufferConfig, asicConfig: map<string, int>)
    requires asic.cellSize > 0 && asic.xpeCount > 0
    requires Calculate(q, scl, asicType, asic, profile, cfg, asicConfig).Success?
    ensures Calculate(Calculate(q, scl, asicType, asic, profile, cfg, asicConfig).value,
                      scl, asicType, asic, profile, cfg, asicConfig)
            == Calculate(q, scl, asicType, asic, profile, cfg, asicConfig)
  {
    var t := ComputeThresholds(asicType, asic, profile, cfg, asicConfig).value;
    AssembleScenarioIdempotent(q, scl, t);
  }
}
