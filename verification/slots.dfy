/**
 * Fields whose text format belongs to the base binding layer (value,
 * vector, matrix, flags and text properties). The model keeps only what a
 * freshly constructed record holds in them.
 */
module Slots {

  /** A field's initial content: the default the record declares, or the binding layer's own. */
  datatype Slot<T> = BaseDefault | Given(value: T)

  type Vector = seq<real>

  type Matrix = seq<seq<real>>

  /** A three-component vector, as a `Vector((x, y, z))`. */
  type Vector3 = v: Vector | |v| == 3 witness [0.0, 0.0, 0.0]

  /** A 4x4 matrix, row by row, as a `Matrix()`. */
  type Matrix4 = m: Matrix | |m| == 4 && forall i | 0 <= i < 4 :: |m[i]| == 4
    witness [[0.0, 0.0, 0.0, 0.0], [0.0, 0.0, 0.0, 0.0], [0.0, 0.0, 0.0, 0.0], [0.0, 0.0, 0.0, 0.0]]

  type Flags = seq<string>
}
