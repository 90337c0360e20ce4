/** Status codes that the modelled functions return, as their 32-bit two's complement words. */
module Status {
  import opened Words

  /** A value, or the status code of the failure. */
  datatype Result<T> = Ok(value: T) | Err(status: u32)

  const OK: u32 := 0
  const ERR_UNSUPPORTED_ABI: u32 := 0xffff_fffe     // -2
  const ERR_BAD_POINTER: u32 := 0xffff_fffd         // -3
  const ERR_BAD_LENGTH: u32 := 0xffff_fffc          // -4
  const ERR_BAD_ENCODING: u32 := 0xffff_fffb        // -5
  const ERR_UNSUPPORTED_OPCODE: u32 := 0xffff_fffa  // -6
  const ERR_CAPABILITY_DENIED: u32 := 0xffff_fff9   // -7
  const ERR_INVALID_RESOURCE: u32 := 0xffff_fff8    // -8
  const ERR_INVALID_STATE: u32 := 0xffff_fff7       // -9
  const ERR_TIMEOUT: u32 := 0xffff_fff5             // -11
  const ERR_NO_MEMORY: u32 := 0xffff_fff4           // -12
  const ERR_RESPONSE_TOO_SMALL: u32 := 0xffff_fff3  // -13
  const ERR_RATE_LIMITED: u32 := 0xffff_fff2        // -14
  const ERR_CONTRACT_VIOLATION: u32 := 0xffff_fff1  // -15
  const ERR_IO: u32 := 0xffff_fff0                  // -16
  const ERR_NOT_AVAILABLE: u32 := 0xffff_ffef       // -17
  const ERR_NOT_SYNCHRONIZED: u32 := 0xffff_ffee    // -18
}
