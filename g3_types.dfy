/** Sentinel ids and the small wrapper datatypes shared by every module. */
module G3Types {

  /** Marks a missing or deleted vertex, triangle or edge. */
  const InvalidID: int := -1
  /** Marks an edge or vertex whose neighbourhood is non-manifold. */
  const NonManifoldID: int := -2
  const MarkerID1: int := -10
  const MarkerID2: int := -11
  const MarkerID3: int := -12

  datatype Option<+T> = None | Some(value: T)

  /** A value, or the error the source reports by throwing or by undefined behaviour. */
  datatype Result<+T, +E> = Ok(value: T) | Err(error: E)
}
