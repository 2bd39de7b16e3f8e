/**
 * The nested qos_params structure the Broadcom generator reads and updates,
 * and the ways the generator can fail.
 */
module QosTypes {
  import opened Wrappers

  /** A leaf of qos_params: an integer, or a boolean such as dynamic_threshold. */
  datatype Value = Num(n: int) | Flag(b: bool)

  /** The integer a leaf stands for in a Python comparison (True == 1, False == 0). */
  function AsInt(v: Value): int
  {
    match v
    case Num(n) => n
    case Flag(b) => if b then 1 else 0
  }

  /** One threshold record, e.g. qos_params["100000_5m"]["xoff_1"]. */
  type Record = map<string, Value>

  /**
   * A top-level entry of qos_params: a scenario keyed by "<speed>_<len>m"
   * that maps sub-profile names (xoff_1, xon_1, hdrm_pool_size, ...) to
   * records, or a record kept at the top level (the defaults for xon_1,
   * xon_2, hdrm_pool_size, ...).
   */
  datatype Entry = Scenario(profiles: map<string, Record>) | Profile(fields: Record)

  type QosParams = map<string, Entry>

  /** Why a run of the generator stops; each stands for a Python exception. */
  datatype Error =
    | UnknownAsicType(asicType: string)     // KeyError on the ASIC table
    | MissingKey(key: string)               // KeyError on qos_params, a record or the buffer configuration
    | UnknownProfile(name: Option<string>)  // KeyError on a profile table for a range binding
    | NotEnoughScenarios                    // AssertionError: no other scenario to clone from
    | StaticPoolMode                        // AssertionError: only dynamic pools are supported
    | BadScenarioKey(key: string)           // IndexError or ValueError parsing "<speed>_<len>m"
    | WrongShape(key: string)               // an entry that is a record where a scenario is needed, or the reverse
    | ReNotImported                         // NameError: the module uses `re` without importing it
}
