/**
 * QosParamBroadcom: the object that fills in and recomputes the Broadcom
 * QoS test parameters. Its one mutable field is qos_params; every other
 * input is fixed at construction. Each method updates qos_params the way
 * the Python method does, and is proved against the functions of
 * ProfileDefaults and ThresholdAssembly that specify it.
 */
module QosParamGenerator {
  import opened Wrappers
  import opened QosTypes
  import opened Asic
  import opened BufferAccounting
  import opened ProfileDefaults
  import opened ThresholdAssembly

  /** Prepare, then calculate: what run() computes from the qos_params it is given. */
  ghost function Generate(
    q: QosParams, scl: string, asicType: string, asic: AsicParams, profile: map<string, int>,
    cfg: BufferConfig, asicConfig: map<string, int>): Result<QosParams, Error>
    requires asic.cellSize > 0 && asic.xpeCount > 0
  {
    var q1 :- PrepareDefaults(q, scl);
    Calculate(q1, scl, asicType, asic, profile, cfg, asicConfig)
  }

  class QosParamBroadcom {
    const asicType: string
    const asic: AsicParams
    const speedCableLen: string
    const ingressLosslessProfile: map<string, int>
    const bufferConfig: BufferConfig
    const asicConfig: map<string, int>
    var qosParams: QosParams

    /** The ASIC parameters are the table's entry for a known family. */
    predicate Valid()
    {
      asicType in KnownFamilies && LookupAsic(asicType) == Some(asic)
    }

    /** __init__ (lines 14-86) for a family the ASIC table knows. */
    constructor (
      qosParams: QosParams, asicType: string, speedCableLen: string,
      ingressLosslessProfile: map<string, int>, bufferConfig: BufferConfig, asicConfig: map<string, int>)
      requires asicType in KnownFamilies
      ensures Valid()
      ensures this.qosParams == qosParams && this.asicType == asicType && this.speedCableLen == speedCableLen
      ensures this.ingressLosslessProfile == ingressLosslessProfile
      ensures this.bufferConfig == bufferConfig && this.asicConfig == asicConfig
    {
      this.asicType := asicType;
      this.asic := LookupAsic(asicType).value;
      this.speedCableLen := speedCableLen;
      this.ingressLosslessProfile := ingressLosslessProfile;
      this.bufferConfig := bufferConfig;
      this.asicConfig := asicConfig;
      this.qosParams := qosParams;
    }

    /** __init__ (lines 48-72): an ASIC family missing from the table is the KeyError the lookup raises. */
    static method Create(
      qosParams: QosParams, asicType: string, speedCableLen: string,
      ingressLosslessProfile: map<string, int>, bufferConfig: BufferConfig, asicConfig: map<string, int>)
      returns (r: Result<QosParamBroadcom, Error>)
      ensures r.Failure? <==> asicType !in KnownFamilies
      ensures r.Failure? ==> r.error == UnknownAsicType(asicType)
      ensures r.Success? ==>
                && fresh(r.value) && r.value.Valid() && r.value.qosParams == qosParams
                && r.value.asicType == asicType && r.value.speedCableLen == speedCableLen
                && r.value.ingressLosslessProfile == ingressLosslessProfile
                && r.value.bufferConfig == bufferConfig && r.value.asicConfig == asicConfig
    {
      if asicType !in KnownFamilies {
        return Failure(UnknownAsicType(asicType));
      }
      var g := new QosParamBroadcom(qosParams, asicType, speedCableLen, ingressLosslessProfile, bufferConfig, asicConfig);
      return Success(g);
    }

    /**
     * create_default_speed_cable_length_parameter (lines 96-128), with the
     * scenario keys matched as intended: the target scenario becomes a copy
     * of its neighbour in (speed, length) order.
     */
    method CreateDefaultSpeedCableLengthParameter() returns (failure: Option<Error>)
      modifies this
      ensures var r := DefaultScenario(old(qosParams), speedCableLen);
              && (failure.None? <==> r.Success?)
              && (r.Success? ==> qosParams == r.value)
              && (r.Failure? ==> failure == Some(r.error) && qosParams == old(qosParams))
    {
      var target := ParseTargetKey(speedCableLen);
      if target.Failure? {
        return Some(target.error);
      }
      var reference := FindReference(target.value, qosParams.Keys);
      if reference.Failure? {
        return Some(reference.error);
      }
      ReferenceUnique(target.value, ScenarioTuples(qosParams.Keys), reference.value,
                      ReferenceOf(target.value, ScenarioTuples(qosParams.Keys)));
      var refKey := FormatScenarioKey(reference.value);
      if refKey !in qosParams {
        return Some(MissingKey(refKey));
      }
      qosParams := qosParams[speedCableLen := qosParams[refKey]];
      return None;
    }

    /** create_default_xon_parameter (lines 131-133). */
    method CreateDefaultXonParameter(xonProfile: string) returns (failure: Option<Error>)
      modifies this
      ensures var r := CloneProfile(old(qosParams), speedCableLen, xonProfile);
              && (failure.None? <==> r.Success?)
              && (r.Success? ==> qosParams == r.value)
              && (r.Failure? ==> failure == Some(r.error) && qosParams == old(qosParams))
    {
      failure := CloneTopLevelProfile(xonProfile);
    }

    /** create_default_headroom_pool_size_parameter (lines 136-141): copied only when the top level has it. */
    method CreateDefaultHeadroomPoolSizeParameter(hdrmProfile: string) returns (failure: Option<Error>)
      modifies this
      ensures hdrmProfile !in old(qosParams) ==> failure.None? && qosParams == old(qosParams)
      ensures hdrmProfile in old(qosParams) ==>
                var r := CloneProfile(old(qosParams), speedCableLen, hdrmProfile);
                && (failure.None? <==> r.Success?)
                && (r.Success? ==> qosParams == r.value)
                && (r.Failure? ==> failure == Some(r.error) && qosParams == old(qosParams))
    {
      if hdrmProfile in qosParams {
        failure := CloneTopLevelProfile(hdrmProfile);
      } else {
        failure := None;
      }
    }

    /** create_default_pg_shared_watermark_parameter (lines 143-145). */
    method CreateDefaultPgSharedWatermarkParameter(pgProfile: string) returns (failure: Option<Error>)
      modifies this
      ensures var r := CloneProfile(old(qosParams), speedCableLen, pgProfile);
              && (failure.None? <==> r.Success?)
              && (r.Success? ==> qosParams == r.value)
              && (r.Failure? ==> failure == Some(r.error) && qosParams == old(qosParams))
    {
      failure := CloneTopLevelProfile(pgProfile);
    }

    /** qos_params[scl][name] = qos_params[name], the assignment the three create_default_* methods share. */
    method CloneTopLevelProfile(name: string) returns (failure: Option<Error>)
      modifies this
      ensures var r := CloneProfile(old(qosParams), speedCableLen, name);
              && (failure.None? <==> r.Success?)
              && (r.Success? ==> qosParams == r.value)
              && (r.Failure? ==> failure == Some(r.error) && qosParams == old(qosParams))
    {
      if name !in qosParams {
        return Some(MissingKey(name));
      }
      var scenario := ScenarioAt(qosParams, speedCableLen);
      if scenario.Failure? {
        return Some(scenario.error);
      }
      match qosParams[name]
      case Profile(fields) =>
        qosParams := qosParams[speedCableLen := Scenario(scenario.value[name := fields])];
        failure := None;
      case Scenario(_) =>
        failure := Some(WrongShape(name));
    }

    /** Lines 152-154: the loop that clones each missing xon sub-profile. */
    method CloneMissingXonProfiles() returns (failure: Option<Error>)
      modifies this
      ensures var r := CloneMissingProfiles(old(qosParams), speedCableLen, XonProfiles);
              && (failure.None? <==> r.Success?)
              && (r.Success? ==> qosParams == r.value)
              && (r.Failure? ==> failure == Some(r.error))
      ensures failure.None? ==> speedCableLen in qosParams && qosParams[speedCableLen].Scenario?
    {
      ghost var q0 := qosParams;
      for i := 0 to |XonProfiles|
        invariant CloneMissingProfiles(q0, speedCableLen, XonProfiles[..i]) == Success(qosParams)
        invariant i > 0 ==> speedCableLen in qosParams && qosParams[speedCableLen].Scenario?
      {
        assert XonProfiles[..i + 1][..i] == XonProfiles[..i];
        var xonProfile := XonProfiles[i];
        var scenario := ScenarioAt(qosParams, speedCableLen);
        if scenario.Failure? {
          CloneMissingPrefixFails(q0, speedCableLen, XonProfiles, i + 1);
          return Some(scenario.error);
        }
        if xonProfile !in scenario.value {
          failure := CreateDefaultXonParameter(xonProfile);
          if failure.Some? {
            CloneMissingPrefixFails(q0, speedCableLen, XonProfiles, i + 1);
            return;
          }
        }
      }
      assert XonProfiles[..|XonProfiles|] == XonProfiles;
      return None;
    }

    /** Lines 161-164: the loop that raises pkts_num_margin to at least 4 in the four threshold profiles. */
    method FloorThresholdMargins() returns (failure: Option<Error>)
      modifies this
      ensures var r := FloorMargins(old(qosParams), speedCableLen, ThresholdProfiles);
              && (failure.None? <==> r.Success?)
              && (r.Success? ==> qosParams == r.value)
              && (r.Failure? ==> failure == Some(r.error))
    {
      ghost var q0 := qosParams;
      for i := 0 to |ThresholdProfiles|
        invariant FloorMargins(q0, speedCableLen, ThresholdProfiles[..i]) == Success(qosParams)
      {
        FloorMarginsStep(q0, speedCableLen, ThresholdProfiles, i);
        var profile := ThresholdProfiles[i];
        var scenario := ScenarioAt(qosParams, speedCableLen);
        if scenario.Failure? {
          FloorMarginsPrefixFails(q0, speedCableLen, ThresholdProfiles, i + 1);
          return Some(scenario.error);
        }
        if profile !in scenario.value {
          FloorMarginsPrefixFails(q0, speedCableLen, ThresholdProfiles, i + 1);
          return Some(MissingKey(profile));
        }
        // pkts_num_margin is raised to 4 when it is missing or smaller
        qosParams := qosParams[speedCableLen := Scenario(scenario.value[profile := RaiseMargin(scenario.value[profile])])];
      }
      assert ThresholdProfiles[..|ThresholdProfiles|] == ThresholdProfiles;
      return None;
    }

    /**
     * prepare_default_parameters (lines 148-165): create the target
     * scenario when it is missing, clone its missing xon and headroom-pool
     * sub-profiles, and floor the margins.
     */
    method PrepareDefaultParameters() returns (failure: Option<Error>)
      modifies this
      ensures var r := PrepareDefaults(old(qosParams), speedCableLen);
              && (failure.None? <==> r.Success?)
              && (r.Success? ==> qosParams == r.value)
              && (r.Failure? ==> failure == Some(r.error))
    {
      if speedCableLen !in qosParams {
        failure := CreateDefaultSpeedCableLengthParameter();
        if failure.Some? {
          return;
        }
      }
      ghost var q1 := qosParams;
      assert EnsureScenario(old(qosParams), speedCableLen) == Success(q1);
      failure := CloneMissingXonProfiles();
      if failure.Some? {
        return;
      }
      ghost var q2 := qosParams;
      // the one-element loop over ['hdrm_pool_size']
      if HdrmPoolSize !in qosParams[speedCableLen].profiles {
        failure := CreateDefaultHeadroomPoolSizeParameter(HdrmPoolSize);
        if failure.Some? {
          return;
        }
      }
      assert CloneHeadroomPool(q2, speedCableLen) == Success(qosParams);
      failure := FloorThresholdMargins();
    }

    /**
     * Lines 228-314 of calculate_parameters: the cell counts, with the
     * shared buffer computed by the binding loops.
     */
    method ComputeThresholdValues() returns (r: Result<Thresholds, Error>)
      requires Valid()
      ensures r == ComputeThresholds(asicType, asic, ingressLosslessProfile, bufferConfig, asicConfig)
    {
      var profile := ingressLosslessProfile;
      if SizeField !in profile {
        return Failure(MissingKey(SizeField));
      }
      var pgMin := ByteToCell(profile[SizeField], asic.cellSize);
      if IngressLosslessPool !in bufferConfig.pools {
        return Failure(MissingKey(IngressLosslessPool));
      }
      var pool := bufferConfig.pools[IngressLosslessPool];
      var shared := ComputeSharedBufferCells(asicType, asic, bufferConfig);
      if shared.Failure? {
        return Failure(shared.error);
      }
      var available := AvailableFor(shared.value, pool, profile);
      if available.Failure? {
        return Failure(available.error);
      }
      if XoffField !in profile {
        return Failure(MissingKey(XoffField));
      }
      if XonOffsetField !in profile {
        return Failure(MissingKey(XonOffsetField));
      }
      var headroom := ByteToCell(profile[XoffField], asic.cellSize);
      var resetOffset := ByteToCell(profile[XonOffsetField], asic.cellSize);
      if asicType == "td2" {
        pgMin := resetOffset / 2;
      }
      var availableCells := available.value;
      if SharedLimitSp0 in asicConfig && shared.value != asicConfig[SharedLimitSp0] {
        availableCells := AvailableFor(asicConfig[SharedLimitSp0], pool, profile).value;
      }
      return Success(Thresholds(pgMin, availableCells, headroom, resetOffset, pool.mode == "dynamic"));
    }

    /** The loops at lines 317-335: rewrite the named sub-profiles of the target scenario. */
    method WriteThresholdProfiles(names: seq<string>, kind: ProfileKind, t: Thresholds) returns (failure: Option<Error>)
      requires speedCableLen in qosParams && qosParams[speedCableLen].Scenario?
      modifies this
      ensures var r := AssembleProfiles(old(qosParams)[speedCableLen].profiles, names, kind, t);
              && (failure.None? <==> r.Success?)
              && (r.Success? ==> qosParams == old(qosParams)[speedCableLen := Scenario(r.value)])
              && (r.Failure? ==> failure == Some(r.error))
    {
      ghost var q0 := qosParams;
      ghost var ps0 := qosParams[speedCableLen].profiles;
      for i := 0 to |names|
        invariant speedCableLen in qosParams && qosParams[speedCableLen].Scenario?
        invariant qosParams == q0[speedCableLen := Scenario(qosParams[speedCableLen].profiles)]
        invariant AssembleProfiles(ps0, names[..i], kind, t) == Success(qosParams[speedCableLen].profiles)
      {
        assert names[..i + 1][..i] == names[..i];
        var name := names[i];
        var ps := qosParams[speedCableLen].profiles;
        if name !in ps {
          AssembleProfilesPrefixFails(ps0, names, kind, t, i + 1);
          return Some(MissingKey(name));
        }
        var rec := AssembleProfile(kind, ps[name], t);
        if rec.Failure? {
          AssembleProfilesPrefixFails(ps0, names, kind, t, i + 1);
          return Some(rec.error);
        }
        qosParams := qosParams[speedCableLen := Scenario(ps[name := rec.value])];
      }
      assert names[..|names|] == names;
      return None;
    }

    /** Lines 337-363: the one-element loop over hdrm_pool_size, skipped when the scenario has none. */
    method WriteHeadroomPool(t: Thresholds)
      requires speedCableLen in qosParams && qosParams[speedCableLen].Scenario?
      modifies this
      ensures qosParams == old(qosParams)[speedCableLen := Scenario(AssembleHeadroomPool(old(qosParams)[speedCableLen].profiles, t))]
    {
      var ps := qosParams[speedCableLen].profiles;
      if HdrmPoolSize !in ps {
        assert AssembleHeadroomPool(ps, t) == ps;
        assert qosParams[speedCableLen := Scenario(ps)] == qosParams;
        return;
      }
      var profile := AssembleHdrm(ps[HdrmPoolSize], t);
      qosParams := qosParams[speedCableLen := Scenario(ps[HdrmPoolSize := profile])];
    }

    /** calculate_parameters (lines 168-363), with the pg_lossless name test done as intended. */
    method CalculateParameters() returns (failure: Option<Error>)
      requires Valid()
      modifies this
      ensures var r := Calculate(old(qosParams), speedCableLen, asicType, asic, ingressLosslessProfile, bufferConfig, asicConfig);
              && (failure.None? <==> r.Success?)
              && (r.Success? ==> qosParams == r.value)
              && (r.Failure? ==> failure == Some(r.error))
    {
      var t := ComputeThresholdValues();
      if t.Failure? {
        return Some(t.error);
      }
      failure := WriteThresholds(t.value);
    }

    /** Lines 316-363: write the thresholds back into the target scenario. */
    method WriteThresholds(t: Thresholds) returns (failure: Option<Error>)
      modifies this
      ensures var r := AssembleScenario(old(qosParams), speedCableLen, t);
              && (failure.None? <==> r.Success?)
              && (r.Success? ==> qosParams == r.value)
              && (r.Failure? ==> failure == Some(r.error))
    {
      var scenario := ScenarioAt(qosParams, speedCableLen);
      if scenario.Failure? {
        return Some(scenario.error);
      }
      failure := WriteProfileSet(t);
    }

    /** Lines 316-363 once the scenario exists: the two profile passes, then the headroom pool. */
    method WriteProfileSet(t: Thresholds) returns (failure: Option<Error>)
      requires speedCableLen in qosParams && qosParams[speedCableLen].Scenario?
      modifies this
      ensures var r := AssembleProfileSet(old(qosParams)[speedCableLen].profiles, t);
              && (failure.None? <==> r.Success?)
              && (r.Success? ==> qosParams == old(qosParams)[speedCableLen := Scenario(r.value)])
              && (r.Failure? ==> failure == Some(r.error))
    {
      failure := WriteProfilePasses(t);
      if failure.None? {
        WriteHeadroomPool(t);
      }
    }

    /** Lines 316-335: the xoff profiles, then the xon profiles. */
    method WriteProfilePasses(t: Thresholds) returns (failure: Option<Error>)
      requires speedCableLen in qosParams && qosParams[speedCableLen].Scenario?
      modifies this
      ensures var r := AssembleProfilePasses(old(qosParams)[speedCableLen].profiles, t);
              && (failure.None? <==> r.Success?)
              && (r.Success? ==> qosParams == old(qosParams)[speedCableLen := Scenario(r.value)])
              && (r.Failure? ==> failure == Some(r.error))
    {
      ghost var q0 := qosParams;
      failure := WriteThresholdProfiles(XoffProfiles, XoffKind, t);
      if failure.Some? {
        return;
      }
      failure := WriteThresholdProfiles(XonProfiles, XonKind, t);
      if failure.None? {
        assert qosParams == q0[speedCableLen := Scenario(qosParams[speedCableLen].profiles)];
      }
    }

    /** run (lines 89-93): prepare the defaults, then calculate; the result is the updated qos_params. */
    method Run() returns (r: Result<QosParams, Error>)
      requires Valid()
      modifies this
      ensures r == Generate(old(qosParams), speedCableLen, asicType, asic, ingressLosslessProfile, bufferConfig, asicConfig)
      ensures r.Success? ==> qosParams == r.value
    {
      var failure := PrepareDefaultParameters();
      if failure.Some? {
        return Failure(failure.value);
      }
      failure := CalculateParameters();
      if failure.Some? {
        return Failure(failure.value);
      }
      return Success(qosParams);
    }
  }
}
