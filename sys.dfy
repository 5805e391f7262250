/** Constants and small types shared by the rclip model: Linux errno values,
    poll flags, the 64-bit `long` range, and the two data directions. */
module Sys {

  datatype Option<T> = None | Some(value: T)

  /** The direction of a listening endpoint: index 0 of `poll_fds` is the copy
      socket, index 1 the paste socket. */
  datatype Direction = Copy | Paste

  function DirectionOf(i: nat): (d: Direction)
    requires i < 2
    ensures d == Copy <==> i == 0
  {
    if i == 0 then Copy else Paste
  }

  // errno values as defined by Linux (asm-generic/errno-base.h, asm-generic/errno.h)
  const EINTR: int := 4
  const EAGAIN: int := 11
  const EMFILE: int := 24
  const ERANGE: int := 34
  const ENONET: int := 64
  const EPROTO: int := 71
  const ENOPROTOOPT: int := 92
  const ENETDOWN: int := 100
  const ENETUNREACH: int := 101
  const EHOSTDOWN: int := 112
  const EHOSTUNREACH: int := 113

  /** The accept errors after which the drain simply tries the next accept. */
  predicate Transient(errno: int) {
    errno == ENETDOWN || errno == EPROTO || errno == ENOPROTOOPT || errno == EHOSTDOWN ||
    errno == ENONET || errno == EHOSTUNREACH || errno == ENETUNREACH
  }

  /** `short` flags of `struct pollfd`. */
  const POLLIN: bv16 := 0x0001

  /** LP64: `long` is 64 bits wide, `int` 32 bits. */
  const LONG_MAX: int := 0x7fff_ffff_ffff_ffff
  const LONG_MIN: int := -0x8000_0000_0000_0000
  const INT_RANGE: int := 0x1_0000_0000

  /** A C string: its characters, without the terminating NUL, which cannot occur inside. */
  type CStr = s: seq<char> | '\0' !in s
}
