/** Tagged 64-bit values (`mjs_val_t`) and the addresses of the memory words that hold them. */
module Values {

  /** A pointer; the collector relies on pointers fitting 48 bits. Zero is NULL. */
  type Addr = a: nat | a < 0x1_0000_0000_0000

  /** The top sixteen bits of a value. Numbers and bare words carry none of the tags. */
  datatype Tag =
    | Untagged | Object | Foreign | Undefined | Boolean | Nan
    | StringI | String5 | StringO | StringF | StringC | StringD
    | Array | Function | FunctionFfi | Null

  /** `payload` is the remaining 48 bits. */
  datatype Value = Value(tag: Tag, payload: nat)

  const ZERO := Value(Untagged, 0)

  /** `mjs_is_object`: arrays are objects too. */
  predicate IsObject(v: Value) {
    v.tag == Object || v.tag == Array
  }

  /** `mjs_is_ffi_sig`. */
  predicate IsFfiSig(v: Value) {
    v.tag == FunctionFfi
  }

  predicate IsOwnedString(v: Value) {
    v.tag == StringO
  }
}
