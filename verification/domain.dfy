/**
 * The persisted product record (`Producto`) and the Java value types its
 * fields are built from.
 */
module Domain {
  import opened Wrappers

  /** Java `long`: a 64-bit signed integer. */
  type Long = x: int | -0x8000_0000_0000_0000 <= x < 0x8000_0000_0000_0000

  predicate InInt32Range(x: int) {
    -0x8000_0000 <= x < 0x8000_0000
  }

  /** Java `int`: a 32-bit signed integer. */
  type Int32 = x: int | InInt32Range(x)

  /**
   * `Long.intValue()`: keeps the low 32 bits of a long and reads them as a
   * signed 32-bit integer. The result is the one 32-bit value congruent to
   * `x` modulo 2^32.
   */
  function IntValue(x: Long): (r: Int32)
    ensures (r - x) % 0x1_0000_0000 == 0
  {
    var low := (x + 0x8000_0000) % 0x1_0000_0000;
    low - 0x8000_0000
  }

  /** `intValue()` is the identity exactly on the values a Java `int` can hold. */
  lemma IntValueIdentityIff(x: Long)
    ensures IntValue(x) == x <==> InInt32Range(x)
  {
  }

  /** Bit pattern of a Java `double`; prices are only ever copied, never computed with. */
  datatype DoubleValue = DoubleValue(bits: bv64)

  /** Bit pattern of a Java `float` (the price type of the transport objects). */
  datatype FloatValue = FloatValue(bits: bv32)

  /** A `LocalDateTime` reading of the clock; its structure is never inspected. */
  type Timestamp = int

  /** The `productos` table row. Every boxed Java field may be `null`. */
  datatype Producto = Producto(
    id: Option<Long>,
    nombre: Option<string>,
    descripcion: Option<string>,
    precio: Option<DoubleValue>,
    stock: Option<Int32>,
    activo: Option<bool>,
    fechaCreacion: Option<Timestamp>)
}
