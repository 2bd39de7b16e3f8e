/** The ASIC parameter table and the byte-to-cell quantizer. */
module Asic {
  import opened Wrappers

  /** Memory-cell size in bytes and the number of parallel xpe buffer engines. */
  datatype AsicParams = AsicParams(cellSize: nat, xpeCount: nat)

  const KnownFamilies: set<string> := {"td2", "td3", "th", "th2", "th3"}

  /** The families whose shared buffer is divided across xpe engines. */
  predicate IsMultiXpeFamily(asicType: string)
  {
    asicType == "th" || asicType == "th2" || asicType == "th3"
  }

  /** The ASIC table; None is the KeyError an unknown family raises. */
  function LookupAsic(asicType: string): (r: Option<AsicParams>)
    ensures r.Some? <==> asicType in KnownFamilies
    ensures r.Some? ==> r.value.cellSize > 0 && r.value.xpeCount > 0
    ensures r.Some? ==> (r.value.xpeCount > 1 <==> IsMultiXpeFamily(asicType))
    ensures r.Some? ==> r.value.cellSize == (if asicType == "td3" then 256 else 208)
    ensures r.Some? ==> r.value.xpeCount == (if asicType == "th" || asicType == "th2" then 4 else if asicType == "th3" then 2 else 1)
  {
    if asicType == "td2" then Some(AsicParams(208, 1))
    else if asicType == "td3" then Some(AsicParams(256, 1))
    else if asicType == "th" then Some(AsicParams(208, 4))
    else if asicType == "th2" then Some(AsicParams(208, 4))
    else if asicType == "th3" then Some(AsicParams(208, 2))
    else None
  }

  /** Bytes to cells, rounding up: the least whole number of cells that holds the bytes. */
  function ByteToCell(bytes: int, cellSize: nat): (cells: int)
    requires cellSize > 0
    ensures cells * cellSize >= bytes
    ensures (cells - 1) * cellSize < bytes
    ensures bytes >= 0 ==> cells >= 0
  {
    var q := (bytes + cellSize - 1) / cellSize;
    assert q * cellSize + (bytes + cellSize - 1) % cellSize == bytes + cellSize - 1;
    assert (q - 1) * cellSize == q * cellSize - cellSize;
    q
  }

  /** Those two bounds pin the cell count down: it is the ceiling of bytes / cellSize. */
  lemma ByteToCellIsCeiling(bytes: int, cellSize: nat, cells: int)
    requires cellSize > 0
    requires cells * cellSize >= bytes && (cells - 1) * cellSize < bytes
    ensures cells == ByteToCell(bytes, cellSize)
  {
    var c := ByteToCell(bytes, cellSize);
    if cells < c {
      assert cells <= c - 1;
      MulMonotone(cells, c - 1, cellSize);
    } else if cells > c {
      assert c <= cells - 1;
      MulMonotone(c, cells - 1, cellSize);
    }
  }

  lemma MulMonotone(a: int, b: int, k: nat)
    requires a <= b
    ensures a * k <= b * k
  {
    assert b * k - a * k == (b - a) * k;
  }
}
