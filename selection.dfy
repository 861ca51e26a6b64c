/**
 * The meaning of one run, as values: which windows of a child list resolve,
 * which of them the name predicate selects, and which requests the command
 * loop owes the X server for them.
 */
module Selection {
  import opened Wrappers
  import opened Xlib

  /** What one successful resolution yields: the window's name and attributes. */
  datatype Resolved = Resolved(name: string, attr: Attributes)

  /** The sub-commands of the program, without their regex (the predicate stands for it). */
  datatype Opt =
    | Resize(width: i32, height: i32)
    | Move(posX: i32, posY: i32)
    | Show
    | Hide
    | Raise

  /**
   * Resolution of one window id, all or nothing: both queries must succeed and
   * the name must be stored in 8-bit format.
   */
  function Resolve(s: Server, id: u64): (r: Option<Resolved>)
    ensures r.Some? <==>
      s.wmName(id).Some? && s.windowAttributes(id).Some? && s.wmName(id).value.format == 8
    ensures r.Some? ==> r.value.name == s.wmName(id).value.value && r.value.attr == s.windowAttributes(id).value
  {
    match s.wmName(id)
    case None => None
    case Some(name) =>
      match s.windowAttributes(id)
      case None => None
      case Some(attr) => if name.format != 8 then None else Some(Resolved(name.value, attr))
  }

  /** The window resolves and its name satisfies `pred`. */
  predicate Matches(s: Server, id: u64, pred: string -> bool)
  {
    Resolve(s, id).Some? && pred(Resolve(s, id).value.name)
  }

  /** The predicate that accepts every name: with it, `Selected` lists every window the iterator yields. */
  function AnyName(name: string): bool
  {
    true
  }

  /** The indices, from `from` on, of the windows that match, in child-list order. */
  function Selected(s: Server, ids: seq<u64>, pred: string -> bool, from: nat): seq<nat>
    requires from <= |ids|
    decreases |ids| - from
  {
    if from == |ids| then []
    else if Matches(s, ids[from], pred) then [from] + Selected(s, ids, pred, from + 1)
    else Selected(s, ids, pred, from + 1)
  }

  /**
   * `Selected` lists exactly the matching slots from `from` on, each once,
   * in strictly increasing order.
   */
  lemma {:induction false} SelectedExactly(s: Server, ids: seq<u64>, pred: string -> bool, from: nat)
    requires from <= |ids|
    ensures forall k :: 0 <= k < |Selected(s, ids, pred, from)| ==>
      from <= Selected(s, ids, pred, from)[k] < |ids| && Matches(s, ids[Selected(s, ids, pred, from)[k]], pred)
    ensures forall k, l :: 0 <= k < l < |Selected(s, ids, pred, from)| ==>
      Selected(s, ids, pred, from)[k] < Selected(s, ids, pred, from)[l]
    ensures forall i :: from <= i < |ids| && Matches(s, ids[i], pred) ==> i in Selected(s, ids, pred, from)
    decreases |ids| - from
  {
    if from < |ids| {
      SelectedExactly(s, ids, pred, from + 1);
      var rest := Selected(s, ids, pred, from + 1);
      if Matches(s, ids[from], pred) {
        var r := [from] + rest;
        assert Selected(s, ids, pred, from) == r;
        assert forall k :: 0 < k < |r| ==> r[k] == rest[k - 1];
      } else {
        assert Selected(s, ids, pred, from) == rest;
      }
    }
  }

  /** The request the command owes one matched window, given its cached attributes. */
  function Command(cmd: Opt, id: u64, attr: Attributes): (r: Request)
    ensures r.window == id
    ensures r.MoveResize? <==> cmd.Resize? || cmd.Move?
    ensures cmd.Resize? ==> r.x == attr.x && r.y == attr.y && r.width == AsU32(cmd.width) && r.height == AsU32(cmd.height)
    ensures cmd.Move? ==> r.x == cmd.posX && r.y == cmd.posY && r.width == AsU32(attr.width) && r.height == AsU32(attr.height)
    ensures cmd.Show? <==> r.Map?
    ensures cmd.Hide? <==> r.Unmap?
    ensures cmd.Raise? <==> r.Raise?
  {
    match cmd
    case Resize(width, height) => MoveResize(id, attr.x, attr.y, AsU32(width), AsU32(height))
    case Move(posX, posY) => MoveResize(id, posX, posY, AsU32(attr.width), AsU32(attr.height))
    case Show => Map(id)
    case Hide => Unmap(id)
    case Raise => Xlib.Raise(id)
  }

  /** The requests owed to one resolved window: one if `pred` accepts its name, none otherwise. */
  function Owed(cmd: Opt, pred: string -> bool, id: u64, res: Resolved): (r: seq<Request>)
    ensures |r| <= 1
    ensures |r| == 1 <==> pred(res.name)
    ensures forall q :: q in r ==> q.window == id
  {
    if pred(res.name) then [Command(cmd, id, res.attr)] else []
  }

  /** The requests the command loop issues for the child list from slot `from` on, window by window. */
  function Effects(s: Server, ids: seq<u64>, cmd: Opt, pred: string -> bool, from: nat): seq<Request>
    requires from <= |ids|
    decreases |ids| - from
  {
    if from == |ids| then []
    else
      var rest := Effects(s, ids, cmd, pred, from + 1);
      match Resolve(s, ids[from])
      case None => rest
      case Some(res) => Owed(cmd, pred, ids[from], res) + rest
  }

  /** Slots that do not match contribute nothing to the selection. */
  lemma {:induction false} SelectedSkip(s: Server, ids: seq<u64>, pred: string -> bool, from: nat, to: nat)
    requires from <= to <= |ids|
    requires forall j :: from <= j < to ==> !Matches(s, ids[j], pred)
    ensures Selected(s, ids, pred, from) == Selected(s, ids, pred, to)
    decreases |ids| - from
  {
    if from < to {
      SelectedSkip(s, ids, pred, from + 1, to);
    }
  }

  /** Slots that do not match contribute no request. */
  lemma {:induction false} EffectsSkip(s: Server, ids: seq<u64>, cmd: Opt, pred: string -> bool, from: nat, to: nat)
    requires from <= to <= |ids|
    requires forall j :: from <= j < to ==> !Matches(s, ids[j], pred)
    ensures Effects(s, ids, cmd, pred, from) == Effects(s, ids, cmd, pred, to)
    decreases |ids| - from
  {
    if from < to {
      EffectsSkip(s, ids, cmd, pred, from + 1, to);
    }
  }

  /**
   * One step of the iterator: when the slots from `from` up to `k` fail to
   * resolve and slot `k` resolves, `k` is the next window visited and the
   * loop owes at most one request before moving on to slot `k + 1`.
   */
  lemma YieldStep(s: Server, ids: seq<u64>, cmd: Opt, pred: string -> bool, from: nat, k: nat)
    requires from <= k < |ids|
    requires forall j :: from <= j < k ==> Resolve(s, ids[j]).None?
    requires Resolve(s, ids[k]).Some?
    ensures Selected(s, ids, AnyName, from) == [k] + Selected(s, ids, AnyName, k + 1)
    ensures Effects(s, ids, cmd, pred, from)
         == Owed(cmd, pred, ids[k], Resolve(s, ids[k]).value) + Effects(s, ids, cmd, pred, k + 1)
  {
    SelectedSkip(s, ids, AnyName, from, k);
    EffectsSkip(s, ids, cmd, pred, from, k);
  }

  /**
   * The command loop's bookkeeping across one yielded window: the slots
   * visited so far plus those still to come stay the whole selection, and the
   * requests sent so far plus those still owed stay the whole effect.
   */
  lemma VisitStep(s: Server, ids: seq<u64>, cmd: Opt, pred: string -> bool, from: nat, k: nat,
                  visited: seq<nat>, sent: seq<Request>, base: seq<Request>)
    requires from <= k < |ids|
    requires forall j :: from <= j < k ==> Resolve(s, ids[j]).None?
    requires Resolve(s, ids[k]).Some?
    requires visited + Selected(s, ids, AnyName, from) == Selected(s, ids, AnyName, 0)
    requires sent + Effects(s, ids, cmd, pred, from) == base + Effects(s, ids, cmd, pred, 0)
    ensures (visited + [k]) + Selected(s, ids, AnyName, k + 1) == Selected(s, ids, AnyName, 0)
    ensures (sent + Owed(cmd, pred, ids[k], Resolve(s, ids[k]).value)) + Effects(s, ids, cmd, pred, k + 1)
         == base + Effects(s, ids, cmd, pred, 0)
  {
    YieldStep(s, ids, cmd, pred, from, k);
    assert visited + Selected(s, ids, AnyName, from) == (visited + [k]) + Selected(s, ids, AnyName, k + 1);
    var owed := Owed(cmd, pred, ids[k], Resolve(s, ids[k]).value);
    assert sent + Effects(s, ids, cmd, pred, from) == (sent + owed) + Effects(s, ids, cmd, pred, k + 1);
  }

  /** The command loop's bookkeeping once the iterator is exhausted: everything was visited and sent. */
  lemma VisitDone(s: Server, ids: seq<u64>, cmd: Opt, pred: string -> bool, from: nat,
                  visited: seq<nat>, sent: seq<Request>, base: seq<Request>)
    requires from <= |ids|
    requires forall j :: from <= j < |ids| ==> Resolve(s, ids[j]).None?
    requires visited + Selected(s, ids, AnyName, from) == Selected(s, ids, AnyName, 0)
    requires sent + Effects(s, ids, cmd, pred, from) == base + Effects(s, ids, cmd, pred, 0)
    ensures visited == Selected(s, ids, AnyName, 0)
    ensures sent == base + Effects(s, ids, cmd, pred, 0)
  {
    ExhaustedStep(s, ids, cmd, pred, from);
    assert visited + [] == visited && sent + [] == sent;
  }

  /** When no slot from `from` on resolves, nothing is visited and nothing is owed. */
  lemma ExhaustedStep(s: Server, ids: seq<u64>, cmd: Opt, pred: string -> bool, from: nat)
    requires from <= |ids|
    requires forall j :: from <= j < |ids| ==> Resolve(s, ids[j]).None?
    ensures Selected(s, ids, AnyName, from) == []
    ensures Effects(s, ids, cmd, pred, from) == []
  {
    SelectedSkip(s, ids, AnyName, from, |ids|);
    EffectsSkip(s, ids, cmd, pred, from, |ids|);
  }

  /**
   * The requests owed to the windows at the indices `sel`, one each, in that
   * order: an independent description of what the command loop issues.
   */
  function RequestsFor(s: Server, ids: seq<u64>, cmd: Opt, sel: seq<nat>): seq<Request>
    requires forall k :: 0 <= k < |sel| ==> sel[k] < |ids| && Resolve(s, ids[sel[k]]).Some?
  {
    seq(|sel|, k requires 0 <= k < |sel| => Command(cmd, ids[sel[k]], Resolve(s, ids[sel[k]]).value.attr))
  }

  /**
   * The loop issues exactly one request per selected window, in child-list
   * order, built from that window's resolved attributes, and nothing else.
   */
  lemma {:induction false} EffectsOfSelected(s: Server, ids: seq<u64>, cmd: Opt, pred: string -> bool, from: nat)
    requires from <= |ids|
    ensures var sel := Selected(s, ids, pred, from);
      && (forall k :: 0 <= k < |sel| ==> sel[k] < |ids| && Resolve(s, ids[sel[k]]).Some?)
      && Effects(s, ids, cmd, pred, from) == RequestsFor(s, ids, cmd, sel)
    decreases |ids| - from
  {
    SelectedExactly(s, ids, pred, from);
    if from < |ids| {
      EffectsOfSelected(s, ids, cmd, pred, from + 1);
      var sel' := Selected(s, ids, pred, from + 1);
      var eff' := Effects(s, ids, cmd, pred, from + 1);
      if Matches(s, ids[from], pred) {
        var c := Command(cmd, ids[from], Resolve(s, ids[from]).value.attr);
        assert Effects(s, ids, cmd, pred, from) == [c] + eff';
        assert Selected(s, ids, pred, from) == [from] + sel';
        SelectedExactly(s, ids, pred, from + 1);
        RequestsForCons(s, ids, cmd, from, sel');
      }
    }
  }

  /** Prepending one index prepends its one request. */
  lemma RequestsForCons(s: Server, ids: seq<u64>, cmd: Opt, i: nat, sel: seq<nat>)
    requires i < |ids| && Resolve(s, ids[i]).Some?
    requires forall k :: 0 <= k < |sel| ==> sel[k] < |ids| && Resolve(s, ids[sel[k]]).Some?
    ensures RequestsFor(s, ids, cmd, [i] + sel)
         == [Command(cmd, ids[i], Resolve(s, ids[i]).value.attr)] + RequestsFor(s, ids, cmd, sel)
  {
  }
}
