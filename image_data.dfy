/**
 * The snapshot value stored in the undo/redo history: the RGBA pixel bytes
 * of the canvas together with its dimensions (`ImageDataWrapper` in
 * src/engine/image_data.rs). The browser-side `ImageData` object it also
 * carries is not part of this model; the snapshot is a plain value, so a
 * clone of it is the value itself.
 */
module ImageData {
  /** An unsigned 8-bit integer (`u8`). */
  type Byte = x: int | 0 <= x < 0x100

  /** An unsigned 32-bit integer (`u32`). */
  type U32 = x: int | 0 <= x < 0x1_0000_0000

  datatype ImageDataWrapper = ImageDataWrapper(data: seq<Byte>, width: U32, height: U32)
}
