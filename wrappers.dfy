/** Option and Result, used where the decoder can find nothing or must stop. */
module Wrappers {

  datatype Option<+T> = None | Some(value: T)

  /** What makes the Java decoder throw: a memory read past the end of the
      address space (ArrayIndexOutOfBoundsException in Memory.fetch) or an
      operand-type character that is not one of b,w,l,q,o,f,d,g,h,1,2
      (IllegalStateException in generateOprsStr). */
  datatype Fault =
    | OutOfBounds(addr: int, size: int)
    | IllegalOperand(tag: char)

  datatype Result<+T> = Ok(value: T) | Err(fault: Fault)
}
