/**
 * The program's own state and control flow: the X connection with its log of
 * outgoing requests, the root context, the child list of the root, the cached
 * window handle, the skip-on-failure iterator and the command loop of `main`.
 */
module Rearrange {
  import opened Wrappers
  import opened Xlib
  import opened Selection

  /**
   * The shared display connection. `server` answers the queries; `requests`
   * is every request sent through the connection so far, oldest first.
   */
  class Connection {
    const server: Server
    var requests: seq<Request>

    constructor (server: Server)
      ensures this.server == server && requests == []
    {
      this.server := server;
      requests := [];
    }
  }

  /** The root context: the connection and the root window of the default screen. */
  class Context {
    const display: Connection
    const root: u64

    constructor (display: Connection, root: u64)
      ensures this.display == display && this.root == root
    {
      this.display := display;
      this.root := root;
    }

    /** `XQueryTree` on the root: its direct children, copied into a fresh buffer, or `Err`. */
    method Tree() returns (r: Result<Tree, ()>)
      ensures r.Err? <==> display.server.queryTree(root).None?
      ensures r.Ok? ==> fresh(r.value) && fresh(r.value.children) && r.value.context == this
      ensures r.Ok? ==> r.value.children[..] == display.server.queryTree(root).value
    {
      var query := display.server.queryTree(root);
      if query.None? {
        return Err(());
      }
      var ids := query.value;
      var children := new u64[|ids|](k requires 0 <= k < |ids| => ids[k]);
      assert children[..] == ids;
      var tree := new Tree(this, children);
      return Ok(tree);
    }
  }

  /** The direct children of the root, in the order `XQueryTree` reported them. */
  class Tree {
    const context: Context
    const children: array<u64>

    constructor (context: Context, children: array<u64>)
      ensures this.context == context && this.children == children
    {
      this.context := context;
      this.children := children;
    }
  }

  /** A resolved window: its cached name and attributes, its id and the shared connection. */
  class Window {
    var name: string
    var attr: Attributes
    const window: u64
    const display: Connection

    constructor (name: string, attr: Attributes, window: u64, display: Connection)
      ensures this.name == name && this.attr == attr
      ensures this.window == window && this.display == display
    {
      this.name := name;
      this.attr := attr;
      this.window := window;
      this.display := display;
    }

    /** The accessor `name()`: the cached name, as last resolved. */
    function Name(): (r: string)
      reads this
      ensures r == name
    {
      name
    }

    /** The accessor `attr()`: the cached attributes, as last resolved or requested. */
    function Attr(): (r: Attributes)
      reads this
      ensures r == attr
    {
      attr
    }

    /**
     * Updates the cached geometry to exactly the requested one, without any
     * check of the dimensions, and sends one move-resize request whose width
     * and height are the requested ones reinterpreted as unsigned.
     */
    method MoveAndResize(posX: i32, posY: i32, width: i32, height: i32)
      modifies this, display
      ensures attr == old(attr).(x := posX, y := posY, width := width, height := height)
      ensures name == old(name)
      ensures display.requests
           == old(display.requests) + [MoveResize(window, posX, posY, AsU32(width), AsU32(height))]
    {
      attr := attr.(x := posX, y := posY, width := width, height := height);
      display.requests := display.requests + [MoveResize(window, posX, posY, AsU32(width), AsU32(height))];
    }

    /** Sends one raise request; the cache is untouched. */
    method Raise()
      modifies display
      ensures name == old(name) && attr == old(attr)
      ensures display.requests == old(display.requests) + [Xlib.Raise(window)]
    {
      display.requests := display.requests + [Xlib.Raise(window)];
    }

    /** Sends one unmap request; the cache is untouched. */
    method Hide()
      modifies display
      ensures name == old(name) && attr == old(attr)
      ensures display.requests == old(display.requests) + [Unmap(window)]
    {
      display.requests := display.requests + [Unmap(window)];
    }

    /** Sends one map request; the cache is untouched. */
    method Show()
      modifies display
      ensures name == old(name) && attr == old(attr)
      ensures display.requests == old(display.requests) + [Map(window)]
    {
      display.requests := display.requests + [Map(window)];
    }

    /**
     * Queries name and attributes again: on success both cached values are
     * replaced by the fresh ones, on any failure neither changes.
     */
    method Resync() returns (r: Result<(), ()>)
      modifies this
      ensures r.Ok? <==> Resolve(display.server, window).Some?
      ensures r.Ok? ==> Resolved(name, attr) == Resolve(display.server, window).value
      ensures r.Err? ==> name == old(name) && attr == old(attr)
      ensures display.requests == old(display.requests)
    {
      var wmName := display.server.wmName(window);
      if wmName.None? {
        return Err(());
      }
      var attributes := display.server.windowAttributes(window);
      if attributes.None? || wmName.value.format != 8 {
        return Err(());
      }
      name := wmName.value.value;
      attr := attributes.value;
      return Ok(());
    }
  }

  /**
   * The iterator over the tree: slots below `idx` are consumed (zeroed), slots
   * from `idx` on still hold the ids the query returned (`snapshot`).
   */
  class TreeIterator {
    const tree: Tree
    var idx: nat
    ghost const snapshot: seq<u64>

    ghost predicate Valid()
      reads this, tree.children
    {
      && idx <= tree.children.Length
      && |snapshot| == tree.children.Length
      && (forall j :: 0 <= j < idx ==> tree.children[j] == 0)
      && (forall j :: idx <= j < tree.children.Length ==> tree.children[j] == snapshot[j])
    }

    /** `tree.into_iter()`: the cursor starts at the first child. */
    constructor (tree: Tree)
      ensures Valid()
      ensures this.tree == tree && idx == 0 && snapshot == tree.children[..]
    {
      this.tree := tree;
      idx := 0;
      snapshot := tree.children[..];
    }

    /**
     * Consumes slots until one resolves and returns that window, or returns
     * `None` once the buffer is exhausted. The window is the one at the
     * smallest unconsumed slot that resolves, carrying exactly that resolution.
     */
    method Next() returns (w: Option<Window>)
      requires Valid()
      modifies this, tree.children
      ensures Valid()
      ensures old(idx) <= idx
      ensures old(idx) == |snapshot| ==> w.None? && idx == old(idx)
      ensures w.None? ==> idx == |snapshot|
      ensures w.None? ==> forall j :: old(idx) <= j < |snapshot| ==> Resolve(tree.context.display.server, snapshot[j]).None?
      ensures w.Some? ==> old(idx) < idx
      ensures w.Some? ==> forall j :: old(idx) <= j < idx - 1 ==> Resolve(tree.context.display.server, snapshot[j]).None?
      ensures w.Some? ==> fresh(w.value) && w.value.display == tree.context.display
      ensures w.Some? ==> w.value.window == snapshot[idx - 1]
      ensures w.Some? ==> Resolve(tree.context.display.server, w.value.window) == Some(Resolved(w.value.name, w.value.attr))
    {
      var server := tree.context.display.server;
      while idx < tree.children.Length
        invariant Valid()
        invariant old(idx) <= idx
        invariant forall j :: old(idx) <= j < idx ==> Resolve(server, snapshot[j]).None?
        decreases tree.children.Length - idx
      {
        var window := tree.children[idx];
        tree.children[idx] := 0;
        idx := idx + 1;
        var name := server.wmName(window);
        if name.None? {
          continue;
        }
        var attr := server.windowAttributes(window);
        if attr.None? || name.value.format != 8 {
          continue;
        }
        var win := new Window(name.value.value, attr.value, window, tree.context.display);
        return Some(win);
      }
      return None;
    }
  }

  /**
   * The body of the loop in `main` for one matched window: Resize keeps the
   * cached position and replaces the size, Move keeps the cached size and
   * replaces the position, Show, Hide and Raise leave the cache alone.
   */
  method Apply(w: Window, cmd: Opt)
    modifies w, w.display
    ensures w.name == old(w.name)
    ensures cmd.Resize? ==> w.attr == old(w.attr).(width := cmd.width, height := cmd.height)
    ensures cmd.Move? ==> w.attr == old(w.attr).(x := cmd.posX, y := cmd.posY)
    ensures !cmd.Resize? && !cmd.Move? ==> w.attr == old(w.attr)
    ensures w.display.requests == old(w.display.requests) + [Command(cmd, w.window, old(w.attr))]
  {
    match cmd
    case Resize(width, height) => w.MoveAndResize(w.Attr().x, w.Attr().y, width, height);
    case Move(posX, posY) => w.MoveAndResize(posX, posY, w.Attr().width, w.Attr().height);
    case Hide => w.Hide();
    case Show => w.Show();
    case Raise => w.Raise();
  }

  /**
   * `main` after argument parsing: query the root's children (abort with no
   * request if that fails), then visit every window the iterator yields, in
   * order, and apply the command to each one whose name `pred` accepts.
   * `visited` lists the slots of the windows the iterator yielded.
   */
  method Run(context: Context, cmd: Opt, pred: string -> bool) returns (r: Result<(), ()>, ghost visited: seq<nat>)
    modifies context.display
    ensures r.Err? <==> context.display.server.queryTree(context.root).None?
    ensures r.Err? ==> context.display.requests == old(context.display.requests)
    ensures r.Ok? ==>
      var ids := context.display.server.queryTree(context.root).value;
      && visited == Selected(context.display.server, ids, AnyName, 0)
      && context.display.requests == old(context.display.requests) + Effects(context.display.server, ids, cmd, pred, 0)
  {
    visited := [];
    var tree := context.Tree();
    if tree.Err? {
      return Err(()), visited;
    }
    var server := context.display.server;
    var it := new TreeIterator(tree.value);
    ghost var ids := it.snapshot;
    while true
      invariant it.Valid() && fresh(it) && fresh(it.tree.children)
      invariant it.tree == tree.value && it.snapshot == ids
      invariant visited + Selected(server, ids, AnyName, it.idx) == Selected(server, ids, AnyName, 0)
      invariant context.display.requests + Effects(server, ids, cmd, pred, it.idx)
             == old(context.display.requests) + Effects(server, ids, cmd, pred, 0)
      decreases |ids| - it.idx
    {
      ghost var from := it.idx;
      ghost var sent := context.display.requests;
      var next := it.Next();
      if next.None? {
        VisitDone(server, ids, cmd, pred, from, visited, sent, old(context.display.requests));
        break;
      }
      var w := next.value;
      ghost var k := it.idx - 1;
      ghost var res := Resolved(w.name, w.attr);
      VisitStep(server, ids, cmd, pred, from, k, visited, sent, old(context.display.requests));
      visited := visited + [k];
      assert w.display == context.display && w.window == ids[k];
      if pred(w.Name()) {
        Apply(w, cmd);
        assert context.display.requests == sent + [Command(cmd, ids[k], res.attr)];
      }
      assert context.display.requests == sent + Owed(cmd, pred, ids[k], res);
    }
    return Ok(()), visited;
  }
}
