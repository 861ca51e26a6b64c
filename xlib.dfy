/**
 * The part of Xlib the program talks to, seen from outside: the integer widths
 * of its C interface, the answers of the three queries it issues (modelled as an
 * oracle fixed for one run), and the fire-and-forget requests it sends.
 */
module Xlib {
  import opened Wrappers

  newtype i32 = x: int | -0x8000_0000 <= x < 0x8000_0000
  newtype u32 = x: int | 0 <= x < 0x1_0000_0000
  /** `XWindow` is a `c_ulong`; 0 is the value the iterator writes into consumed slots. */
  newtype u64 = x: int | 0 <= x < 0x1_0000_0000_0000_0000

  /** The geometry fields of `XWindowAttributes`; `others` stands for its remaining fields. */
  datatype Attributes = Attributes(x: i32, y: i32, width: i32, height: i32, others: seq<int>)

  /** An `XTextProperty`: the decoded bytes of the name and their `format` (8, 16 or 32 bits). */
  datatype TextProperty = TextProperty(value: string, format: int)

  /**
   * What the X server answers, per window: `XGetWMName`, `XGetWindowAttributes`
   * and the child list of `XQueryTree`. `None` is a query that returned 0 (failure).
   */
  datatype Server = Server(
    wmName: u64 -> Option<TextProperty>,
    windowAttributes: u64 -> Option<Attributes>,
    queryTree: u64 -> Option<seq<u64>>)

  /** One outgoing request: `XMoveResizeWindow`, `XRaiseWindow`, `XUnmapWindow`, `XMapWindow`. */
  datatype Request =
    | MoveResize(window: u64, x: i32, y: i32, width: u32, height: u32)
    | Raise(window: u64)
    | Unmap(window: u64)
    | Map(window: u64)

  /** Rust's `v as u32` on an `i32`: the same 32 bits read as unsigned. */
  function AsU32(v: i32): (r: u32)
    ensures r as int == v as int % 0x1_0000_0000
    ensures 0 <= v ==> r as int == v as int
    ensures v < 0 ==> r as int >= 0x8000_0000
  {
    if v < 0 then (v as int + 0x1_0000_0000) as u32 else v as u32
  }
}
