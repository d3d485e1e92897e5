/** Shared value types of the plugin model: optional values, the outcome of a
    step that may raise an uncaught Python exception, and the planar point and
    axis-aligned rectangle types that QGIS hands to the plugin. */
module Common {

  /** Python's `None` or a value. */
  datatype Option<+T> = None | Some(value: T) {
    function GetOr(default: T): T {
      match this
      case Some(v) => v
      case None => default
    }
  }

  /** The result of plugin code that may raise an exception nobody catches
      (an `IndexError` from `str.split(...)[1]`, a `KeyError` from a dict
      lookup). `Crash` carries a description of the exception. */
  datatype Result<+T> = Ok(value: T) | Crash(reason: string)

  /** What a query-engine call returned, or the text of the exception it
      raised. The engine itself is not modelled: its answers are inputs. */
  datatype Answer<+T> = Answered(value: T) | Raised(message: string)

  /** The first index whose element satisfies `p`. */
  function FirstIndex<T>(s: seq<T>, p: T -> bool): (r: Option<nat>)
    ensures r.Some? ==> r.value < |s| && p(s[r.value])
    ensures r.Some? ==> forall j :: 0 <= j < r.value ==> !p(s[j])
    ensures r.None? ==> forall j :: 0 <= j < |s| ==> !p(s[j])
  {
    if |s| == 0 then None
    else if p(s[0]) then Some(0)
    else match FirstIndex(s[1..], p)
      case None => None
      case Some(i) => Some(i + 1)
  }

  /** A `QgsPointXY`. */
  datatype Point = Point(x: real, y: real)

  /** A `QgsRectangle`, stored as its four bounds. */
  datatype Rect = Rect(xMin: real, yMin: real, xMax: real, yMax: real)

  /** A coordinate reference system, identified by its authority id. */
  datatype Crs = Crs(authid: string)

  /** The canonical geographic CRS every area-of-interest predicate uses. */
  const Wgs84: Crs := Crs("EPSG:4326")

  predicate Normalized(r: Rect) {
    r.xMin <= r.xMax && r.yMin <= r.yMax
  }

  function Min(a: real, b: real): real { if a <= b then a else b }
  function Max(a: real, b: real): real { if a <= b then b else a }
}
