# win-rearrange: window selection and command application

This project models the core of `win-rearrange`, a small X11 tool. The tool
lists the direct children of the root window. It resolves each child's name and
attributes, tests the name against a regex, and sends one request (move/resize,
raise, map or unmap) to every window that matches.

Modules:

- `Wrappers` (wrappers.dfy): `Option` and `Result`, in the shape of Rust's.
- `Xlib` (xlib.dfy): the C integer widths (`i32`, `u32`, `u64`) and the geometry
  fields of `XWindowAttributes`. It also holds `XTextProperty` and the `Server`
  oracle, which answers `XGetWMName`, `XGetWindowAttributes` and the child list of
  `XQueryTree` per window id (`None` is a call that returned 0). `Request` covers
  the four outgoing requests, and `AsU32` models Rust's `as u32` on an `i32`.
- `Selection` (selection.dfy): what one run means, as values.
  - `Resolve` is all-or-nothing resolution: both queries succeed and the name format is 8.
  - `Selected` gives the slots whose window resolves and whose name the predicate accepts.
  - `Effects` gives the requests the command loop owes, slot by slot.
  - `RequestsFor` is an independent description of those requests: one per selected slot.
  - The lemmas connect these definitions.
- `Rearrange` (rearrange.dfy): the program's state and control flow.
  - `Connection` holds the oracle and the append-only log of sent requests.
  - `Context.Tree` is `Context::tree`.
  - `Tree` is the buffer of child ids.
  - `Window` carries its cached name and attributes, its `move_and_resize`, `raise`, `hide`,
    `show` and `resync`, and the accessors `Name` and `Attr`.
  - `TreeIterator` has an array and a cursor `idx`; its `Next` is proved against `Resolve`.
  - `Apply` is the `match` on the command for one matched window.
  - `Run` is `main` after argument parsing, proved against `Selected` and `Effects`.
- `SelectionExample` (scenario.dfy): three windows, the middle one unreadable, and a
  resize for names starting with "term".

The regex becomes a predicate `pred: string -> bool`. X11 calls become reads of the
`Server` oracle or appends to `Connection.requests`.

## Model

| member | source | states |
|---|---|---|
| `Xlib.AsU32` | src/main.rs:62-63 | `w as u32` keeps the 32 bits: the result is `w` modulo 2^32, equal to `w` when `w >= 0`, and at least 2^31 when `w` is negative. No dimension is rejected. |
| `Selection.Resolve` | src/main.rs:136-153 | Resolution is all or nothing. It succeeds exactly when the name query succeeds, the attribute query succeeds, and the name format is 8. It then carries exactly that name and those attributes. |
| `Selection.Command` | src/main.rs:267-281 | The request one matched window gets always targets that window. Resize sends a move-resize with the cached x and y and the new size as `u32`. Move sends the new x and y with the cached size as `u32`. Show sends a map, Hide an unmap, Raise a raise. |
| `Selection.Owed` | src/main.rs:266-282 | A resolved window is owed at most one request, and exactly one when the predicate accepts its name. Any request owed targets that window. |
| `Selection.SelectedExactly` | src/main.rs:125-157 | The selected slots are exactly the slots from `from` on whose window resolves (name query, attribute query, format 8) and whose name satisfies the predicate. Each appears once, in strictly increasing child-list order. |
| `Selection.SelectedSkip` | src/main.rs:126-153 | A run of slots that do not match adds nothing to the selection. Skipping never stops the walk. |
| `Selection.EffectsSkip` | src/main.rs:265-266 | A run of slots that fail to resolve or fail the predicate adds no request. |
| `Selection.EffectsOfSelected` | src/main.rs:265-283 | The loop's requests are exactly one per selected window, in the same order. Each is built from that window's own resolved attributes. Unmatched windows get none. |
| `Selection.YieldStep` | src/main.rs:126-162 | If the slots before `k` fail and slot `k` resolves, then `k` is the next window visited. The loop owes one request for it if the predicate accepts its name, none otherwise, and then continues at `k + 1`. |
| `Selection.VisitStep` | src/main.rs:265-283 | Across one yielded window, the slots visited so far plus the selection still ahead remain the whole selection. The requests sent plus those still owed remain the whole effect. |
| `Selection.VisitDone` | src/main.rs:164 | Once the iterator is exhausted, the visited slots are the whole selection and the log has grown by the whole effect. |
| `Selection.ExhaustedStep` | src/main.rs:126-164 | When no remaining slot resolves, nothing more is visited and no more requests are owed. |
| `SelectionExample.ThreeWindows` | src/main.rs:263-283 | With windows "term1", an unreadable one, and "xterm", both readable windows are visited and the unreadable one is skipped. Only "term1" gets the request, and a resize to 200x80 keeps its position (10, 20). |
| `Rearrange.Context.Tree` | src/main.rs:182-213 | Returns `Err` exactly when the children query on the root fails. Otherwise it returns a fresh buffer holding the reported children, in the reported order. |
| `Rearrange.TreeIterator.constructor` | src/main.rs:117-119 | `into_iter` starts the cursor at slot 0 over the whole buffer. |
| `Rearrange.TreeIterator.Next` | src/main.rs:125-165 | Returns the window at the smallest unconsumed slot that resolves, with that resolution's id, name and attributes and the shared connection. Every slot it passes is zeroed and `idx` moves past it; slots below `idx` stay zero and `idx <= len`. It returns `None` exactly when no remaining slot resolves, leaving `idx == len`, and every later call returns `None` too. |
| `Rearrange.Window.Name` | src/main.rs:41-43 | `name()` returns the cached name, as last resolved. |
| `Rearrange.Window.Attr` | src/main.rs:45-47 | `attr()` returns the cached attributes, as last resolved or requested. |
| `Rearrange.Window.MoveAndResize` | src/main.rs:49-66 | Sets cached x, y, width and height to exactly the arguments. Name and the other attribute fields are unchanged. Appends one move-resize request `(window, x, y, w as u32, h as u32)`. |
| `Rearrange.Window.Raise` | src/main.rs:68-72 | Appends one raise request for the window; name and attributes unchanged. |
| `Rearrange.Window.Hide` | src/main.rs:74-78 | Appends one unmap request for the window; name and attributes unchanged. |
| `Rearrange.Window.Show` | src/main.rs:80-84 | Appends one map request for the window; name and attributes unchanged. |
| `Rearrange.Window.Resync` | src/main.rs:86-103 | All or nothing, and issues no request. It returns `Ok` exactly when the window resolves, and then the cached name and attributes are both that resolution. On `Err` neither changes. |
| `Rearrange.Apply` | src/main.rs:267-281 | Resize keeps the cached position and replaces the size. Move keeps the cached size and replaces the position. Show, hide and raise leave the cache alone. Exactly one request is appended: the one `Command` assigns to the command and the old cache. |
| `Rearrange.Run` | src/main.rs:262-283 | Aborts with `Err` and no request exactly when the root's children query fails. Otherwise it visits exactly the resolvable slots, in order and once each. The log grows by exactly `Effects`: one request per resolved window whose name satisfies the predicate, in child-list order. |

## Left out

- Opening the display (`Context::new`: `XOpenDisplay`, `XDefaultScreen`, `XRootWindow`) is left out because it is foreign I/O. The `Context` constructor takes the connection and root as given. The source does not check for a null display either.
- Closing the display (`Drop` for `Context`) and `Rc` sharing of the display are resource lifetime, not logic. In the model every `Window` holds the same `Connection` object.
- `MaybeUninit`, `String::from_raw_parts` and `Vec::from_raw_parts` are memory handling. The name is modelled as the characters of `XTextProperty.value`. UTF-8 validity and the allocator mismatch are not modelled.
- Regex compilation and matching become the parameter `pred`. A pattern that fails to compile (the `unwrap` panics) is not modelled.
- StructOpt argument parsing is left out. `Opt` keeps the five sub-commands with their numeric arguments but not the regex string.
- Only four fields of `XWindowAttributes` are interpreted. The rest are carried, uninterpreted, in `Attributes.others`.
- The unused fields `Tree::_root`, `Tree::_parent` and `Context::_screen` are not modelled.
- The server is a fixed oracle for one run. The model does not say how the server's answers change after a request, for example what `resync` would read after a move.
- Requests are fire-and-forget. The log records that a request was sent, not whether the server carried it out.
- Rearrange.Run: `main` panics on a failed `tree()` (`unwrap`); the model returns `Err` with the log unchanged instead of ending the process.
- Descendant traversal: the code queries only the root's direct children, so no recursive walk is modelled.
- Names are not required to be non-empty. The code accepts any name in 8-bit format, and the model follows the code.
