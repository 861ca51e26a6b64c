/** A worked instance of the selection rules on three windows, the middle one unreadable. */
module SelectionExample {
  import opened Wrappers
  import opened Xlib
  import opened Selection

  function Geometry(id: u64): Attributes
  {
    Attributes(10, 20, 100, 50, [])
  }

  /** Window 1 is "term1", window 2 has no readable name, window 3 is "xterm". */
  function NameOf(id: u64): Option<TextProperty>
  {
    if id == 1 then Some(TextProperty("term1", 8))
    else if id == 3 then Some(TextProperty("xterm", 8))
    else None
  }

  function SomeGeometry(id: u64): Option<Attributes>
  {
    Some(Geometry(id))
  }

  function NoChildren(id: u64): Option<seq<u64>>
  {
    None
  }

  /** Stands for the pattern `^term`. */
  function StartsWithTerm(name: string): bool
  {
    |name| >= 4 && name[..4] == "term"
  }

  /**
   * The unreadable window is skipped without stopping the walk, both readable
   * windows are visited, and only the one whose name starts with "term" is
   * resized, at its cached position.
   */
  lemma {:induction false} ThreeWindows()
    ensures var s := Server(NameOf, SomeGeometry, NoChildren);
      && Selected(s, [1, 2, 3], AnyName, 0) == [0, 2]
      && Effects(s, [1, 2, 3], Resize(200, 80), StartsWithTerm, 0) == [MoveResize(1, 10, 20, 200, 80)]
  {
    var s := Server(NameOf, SomeGeometry, NoChildren);
    var ids: seq<u64> := [1, 2, 3];
    assert Resolve(s, 3) == Some(Resolved("xterm", Geometry(3)));
    assert Resolve(s, 2) == None;
    assert Resolve(s, 1) == Some(Resolved("term1", Geometry(1)));
    assert "xterm"[..4] == "xter";
    assert Selected(s, ids, AnyName, 2) == [2];
    assert Selected(s, ids, AnyName, 1) == [2];
    assert Effects(s, ids, Resize(200, 80), StartsWithTerm, 2) == [];
    assert Effects(s, ids, Resize(200, 80), StartsWithTerm, 1) == [];
  }
}
