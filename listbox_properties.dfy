/** What the list box promises, proved about the functions of module
    ListboxSpec (and so, through the methods' contracts, about the class in
    module Listbox): the highlight always stays inside the window with the
    selector on its row, the highlight wraps around while scrolling is off,
    a window boundary moves the window by one without leaving the list, and
    Enter hands the highlighted node back. */
module ListboxProperties {
  import opened Keys
  import opened ItemList
  import opened ListboxSpec

  /** The window of an interaction over `n` nodes: `displayLimit` rows from
      `currentListIndex`, inside the list while scrolling, the whole list
      otherwise. */
  predicate WindowOk(s: ScrollState, n: nat)
  {
    s.listLength == n && 1 <= s.displayLimit &&
    (if s.scrollActive then s.currentListIndex + s.displayLimit <= n
     else s.currentListIndex == 0 && s.displayLimit == n)
  }

  /** The node at `aux` is in the window and the selector is on its row. */
  predicate Highlight(s: ScrollState, n: nat, aux: nat)
  {
    WindowOk(s, n) && s.currentListIndex <= aux < s.currentListIndex + s.displayLimit &&
    s.selector == s.wherey + aux - s.currentListIndex
  }

  /** SCROLLDATA holds the data of node `it`. */
  predicate HoldsItem(s: ScrollState, it: Item)
  {
    s.item == it.item && s.path == it.path && s.isDirectory == it.isDirectory && s.itemIndex == it.index
  }

  /** The last row a move down may reach without a boundary, and the first
      row a move up may reach, as `move_selector` computes them. */
  function Ceiling(s: ScrollState): int
  {
    if s.scrollActive then s.currentListIndex + s.displayLimit - 1 else s.listLength - 1
  }

  function Floor(s: ScrollState): nat
  {
    if s.scrollActive then s.currentListIndex else 0
  }

  /** While scrolling is off, moving down from the last node highlights the
      first one on the top row, and moving up from the first node highlights
      the last one on the bottom row; the old node is unselected first. */
  lemma WrapAround(s: ScrollState, n: nat, i: nat)
    requires i < n && s.listLength == n && !s.scrollActive
    ensures s.scrollDirection == Down && i == n - 1 ==>
      var m := MoveSelectorSpec(s, n, i);
      m.aux == 0 && m.s.selector == s.wherey && !m.continueScroll &&
      m.s.log == s.log + [Draw(i, s.selector, false), Draw(0, s.wherey, true)]
    ensures s.scrollDirection == Up && i == 0 ==>
      var m := MoveSelectorSpec(s, n, i);
      m.aux == n - 1 && m.s.selector == s.wherey + n - 1 && !m.continueScroll &&
      m.s.log == s.log + [Draw(0, s.selector, false), Draw(n - 1, s.wherey + n - 1, true)]
  {
  }

  /** A move down goes to the next node exactly when there is one and it is
      not past the ceiling; a move up goes to the previous node exactly when
      there is one and it is not before the floor (wrap-around aside). The
      highlight then moves one row. */
  lemma StepToNeighbour(s: ScrollState, n: nat, i: nat)
    requires i < n && s.listLength == n
    ensures s.scrollDirection == Down && !(i == n - 1 && !s.scrollActive) ==>
      var m := MoveSelectorSpec(s, n, i);
      (m.aux == i + 1 <==> i + 1 < n && i + 1 <= Ceiling(s)) &&
      (m.aux == i + 1 ==>
        m.s.selector == s.selector + 1 &&
        m.s.log == s.log + [Draw(i, s.selector, false), Draw(i + 1, s.selector + 1, true)])
    ensures s.scrollDirection == Up && !(i == 0 && !s.scrollActive) ==>
      var m := MoveSelectorSpec(s, n, i);
      (m.aux + 1 == i <==> i > 0 && i - 1 >= Floor(s)) &&
      (m.aux + 1 == i ==>
        m.s.selector == s.selector - 1 &&
        m.s.log == s.log + [Draw(i, s.selector, false), Draw(i - 1, s.selector - 1, true)])
  {
  }

  /** `move_selector` reports a boundary exactly when scrolling is active
      and the next node in the direction exists but lies outside the window;
      the highlight then stays, unselected and reselected on its row. */
  lemma Boundary(s: ScrollState, n: nat, i: nat)
    requires i < n && s.listLength == n
    ensures var m := MoveSelectorSpec(s, n, i);
      m.continueScroll <==>
        s.scrollActive &&
        ((s.scrollDirection == Down && i + 1 < n && i + 1 > Ceiling(s)) ||
         (s.scrollDirection == Up && i > 0 && i - 1 < Floor(s)))
    ensures var m := MoveSelectorSpec(s, n, i);
      m.continueScroll ==>
        m.aux == i && m.s.selector == s.selector &&
        m.s.log == s.log + [Draw(i, s.selector, false), Draw(i, s.selector, true)]
  {
  }

  /** With no node beyond the highlighted one in the direction of the move
      (and no wrap-around), nothing changes and nothing is drawn. */
  lemma NoNodeBeyond(s: ScrollState, n: nat, i: nat)
    requires i < n && s.listLength == n && s.scrollActive
    requires (s.scrollDirection == Down && i == n - 1) || (s.scrollDirection == Up && i == 0)
    ensures MoveSelectorSpec(s, n, i) == Moved(s, i, false)
  {
  }

  /** `move_selector` keeps the highlight in the window and the selector on
      its row. */
  lemma MoveKeepsHighlight(s: ScrollState, n: nat, i: nat)
    requires Highlight(s, n, i)
    ensures var m := MoveSelectorSpec(s, n, i);
      Highlight(m.s, n, m.aux) && SameWindow(m.s, s)
  {
  }

  /** Up to `n` moves down while scrolling is off walk round the list: the
      highlight ends `k` nodes further on, counted round from the first node
      after the last, on its row; `n` moves come back to the start. */
  lemma {:induction false} Circularity(s: ScrollState, n: nat, i: nat, k: nat)
    requires Highlight(s, n, i) && !s.scrollActive && k <= n
    ensures var r := DownMoves(s, n, i, k);
      r.aux == (if i + k < n then i + k else i + k - n) && Highlight(r.s, n, r.aux)
    ensures DownMoves(s, n, i, k).aux == i <==> k == 0 || k == n
    decreases k
  {
    if k > 0 {
      var m := MoveSelectorSpec(s.(scrollDirection := Down), n, i);
      MoveKeepsHighlight(s.(scrollDirection := Down), n, i);
      Circularity(m.s, n, m.aux, k - 1);
    }
  }

  /** `k` moves down while scrolling stop at the last row of the window. */
  lemma {:induction false} DownMovesInWindow(s: ScrollState, n: nat, aux: nat, k: nat)
    requires Highlight(s, n, aux) && s.scrollActive
    ensures var r := DownMoves(s, n, aux, k);
      var last := s.currentListIndex + s.displayLimit - 1;
      r.aux == (if aux + k <= last then aux + k else last) && Highlight(r.s, n, r.aux)
    decreases k
  {
    if k > 0 {
      var m := MoveSelectorSpec(s.(scrollDirection := Down), n, aux);
      MoveKeepsHighlight(s.(scrollDirection := Down), n, aux);
      DownMovesInWindow(m.s, n, m.aux, k - 1);
    }
  }

  /** Where `selectorMenu` starts its key loop once `loadlist` has put the
      selector on the top row: on the first node of the window, or, after a
      downward reload, on its last node and its last row. */
  lemma StartHighlight(s: ScrollState, n: nat)
    requires WindowOk(s, n) && s.selector == s.wherey
    ensures var a := MenuStart(s, n);
      Highlight(a.s, n, a.aux) &&
      (if s.scrollDirection == Down && s.currentListIndex != 0
       then a.aux == s.currentListIndex + s.displayLimit - 1 &&
            a.s.selector == s.wherey + s.displayLimit - 1
       else a.aux == s.currentListIndex && a.s.selector == s.wherey)
  {
    var s1 := DrawItem(s, s.currentListIndex, true);
    if s.scrollDirection == Down && s.currentListIndex != 0 {
      DownMovesInWindow(s1, n, s.currentListIndex, s.displayLimit);
    }
  }

  /** One pass of the key loop keeps the highlight; a pass that reaches a
      window boundary leaves a window that still fits in the list, moved by
      one, with the selector on the top row and the highlighted node's index
      recorded. */
  lemma StepKeeps(s: ScrollState, items: seq<Item>, aux: nat, keys: seq<byte>, pos: nat)
    requires Highlight(s, |items|, aux) && pos <= |keys|
    ensures var st := MenuStep(s, items, aux, keys, pos);
      (!(st.done && st.key == ContinueScroll) ==> Highlight(st.s, |items|, st.aux)) &&
      (st.done && st.key == ContinueScroll ==>
        st.s.scrollActive && WindowOk(st.s, |items|) && st.s.selector == st.s.wherey &&
        st.s.itemIndex == items[st.aux].index)
  {
    var rd := NextKey(keys, pos);
    match rd.key
    case EndOfKeys =>
    case EnterKey =>
    case OtherKey =>
    case UpArrow =>
      MoveKeepsHighlight(s.(scrollDirection := Up), |items|, aux);
    case DownArrow =>
      MoveKeepsHighlight(s.(scrollDirection := Down), |items|, aux);
  }

  /** The key loop of `selectorMenu` keeps the highlight in the window;
      Enter hands back the data of the highlighted node; a window boundary
      leaves a window that fits in the list. */
  lemma {:induction false} MenuLoopKeeps(s: ScrollState, items: seq<Item>, aux: nat, keys: seq<byte>, pos: nat)
    requires Highlight(s, |items|, aux) && pos <= |keys|
    ensures var r := MenuLoop(s, items, aux, keys, pos);
      (r.key != ContinueScroll ==> Highlight(r.s, |items|, r.aux)) &&
      (r.key == Enter ==> HoldsItem(r.s, items[r.aux])) &&
      (r.key == ContinueScroll ==>
        r.s.scrollActive && WindowOk(r.s, |items|) && r.s.selector == r.s.wherey &&
        r.s.itemIndex == items[r.aux].index)
    decreases |keys| - pos
  {
    StepKeeps(s, items, aux, keys, pos);
    var st := MenuStep(s, items, aux, keys, pos);
    if !st.done {
      MenuLoopKeeps(st.s, items, st.aux, keys, st.pos);
    }
  }

  /** The scroll loop of `listBox` ends with the highlight in a window that
      fits in the list and, on Enter, with the highlighted node's data. */
  lemma {:induction false} SessionKeeps(s: ScrollState, items: seq<Item>, keys: seq<byte>, pos: nat)
    requires WindowOk(s, |items|) && s.scrollActive && pos <= |keys|
    ensures var r := ScrollLoop(s, items, keys, pos);
      Highlight(r.s, |items|, r.aux) && r.s.scrollActive &&
      r.s.displayLimit == s.displayLimit && r.s.wherey == s.wherey &&
      (r.key == Enter ==> HoldsItem(r.s, items[r.aux]))
    decreases |keys| - pos
  {
    var cli := s.currentListIndex;
    var s1 := DrawItem(LoadListSpec(s, cli), cli, true);
    StartHighlight(s1, |items|);
    var a := MenuStart(s1, |items|);
    MenuLoopKeeps(a.s, items, a.aux, keys, pos);
    var r := SelectorMenuSpec(s1, items, keys, pos);
    if r.key == ContinueScroll {
      SessionKeeps(r.s, items, keys, r.pos);
    }
  }

  /** The setup of `listBox` stores the list length, the geometry, the
      colours and `scrollLimit` as C's unsigned conversion of the length
      less the window size, and puts the selector on the top row. */
  lemma SetupStores(s: ScrollState, n: nat, whereX: nat, whereY: nat,
                    bColor0: nat, fColor0: nat, bColor1: nat, fColor1: nat, limit: nat)
    ensures var r := ListBoxSetup(s, n, whereX, whereY, bColor0, fColor0, bColor1, fColor1, limit);
      r.listLength == n && r.wherex == whereX && r.wherey == whereY && r.selector == whereY &&
      r.backColor0 == bColor0 && r.foreColor0 == fColor0 &&
      r.backColor1 == bColor1 && r.foreColor1 == fColor1 &&
      (limit <= n < limit + 0x1_0000_0000 ==> r.scrollLimit == n - limit) &&
      (n < limit <= n + 0x1_0000_0000 ==> r.scrollLimit == 0x1_0000_0000 + n - limit)
  {
  }

  /** `listBox` turns scrolling on exactly when the list is longer than a
      non-zero window, shows the whole list otherwise, and ends with the
      highlight in the window and, on Enter, with the data of the chosen
      node (whose index is its position when the indices are contiguous). */
  lemma {:induction false} ListBoxOutcome(s: ScrollState, items: seq<Item>, whereX: nat, whereY: nat,
                       bColor0: nat, fColor0: nat, bColor1: nat, fColor1: nat,
                       limit: nat, keys: seq<byte>)
    requires items != []
    ensures var r := ListBoxSpec(s, items, whereX, whereY, bColor0, fColor0, bColor1, fColor1, limit, keys);
      r.s.listLength == |items| && r.s.wherey == whereY &&
      (r.s.scrollActive <==> |items| > limit && limit > 0) &&
      r.s.displayLimit == (if r.s.scrollActive then limit else |items|) &&
      Highlight(r.s, |items|, r.aux) &&
      (r.key == Enter ==> HoldsItem(r.s, items[r.aux])) &&
      (r.key == Enter && Contiguous(items) ==> r.s.itemIndex == r.aux)
  {
    var n := |items|;
    var s1 := ListBoxSetup(s, n, whereX, whereY, bColor0, fColor0, bColor1, fColor1, limit);
    if ScrollPossible(n, limit) {
      SessionKeeps(s1.(scrollActive := true, currentListIndex := 0), items, keys, 0);
    } else {
      var s2 := LoadListSpec(s1.(scrollActive := false, currentListIndex := 0, displayLimit := n), 0);
      StartHighlight(s2, n);
      var a := MenuStart(s2, n);
      MenuLoopKeeps(a.s, items, a.aux, keys, 0);
    }
  }

  /** ESC, any byte, then a byte that names no arrow: the bytes are read
      and nothing else happens. */
  lemma IgnoredSequence(s: ScrollState, items: seq<Item>, aux: nat, keys: seq<byte>, pos: nat)
    requires aux < |items| && s.listLength == |items| && pos + 3 <= |keys|
    requires keys[pos] == K_ESCAPE && keys[pos + 2] != K_UP_ARROW && keys[pos + 2] != K_DOWN_ARROW
    ensures MenuStep(s, items, aux, keys, pos) == Step(s, aux, false, EndOfInput, pos + 3)
    ensures MenuLoop(s, items, aux, keys, pos) == MenuLoop(s, items, aux, keys, pos + 3)
  {
  }

  /** A byte that is neither Enter nor ESC is read and ignored. */
  lemma IgnoredByte(s: ScrollState, items: seq<Item>, aux: nat, keys: seq<byte>, pos: nat)
    requires aux < |items| && s.listLength == |items| && pos < |keys|
    requires keys[pos] != K_ENTER && keys[pos] != K_ESCAPE
    ensures MenuLoop(s, items, aux, keys, pos) == MenuLoop(s, items, aux, keys, pos + 1)
  {
  }

  /** While scrolling is off an arrow key is exactly one `move_selector` in
      its direction, and the loop goes on. */
  lemma ArrowWithoutScroll(s: ScrollState, items: seq<Item>, aux: nat, dir: Direction)
    requires aux < |items| && s.listLength == |items| && !s.scrollActive
    ensures ArrowKeySpec(s, items, aux, dir) == MoveSelectorSpec(s.(scrollDirection := dir), |items|, aux)
  {
  }

  /** Enter, wherever it comes, ends the key loop at once and copies the
      highlighted node into SCROLLDATA. */
  lemma EnterEndsLoop(s: ScrollState, items: seq<Item>, aux: nat, keys: seq<byte>, pos: nat)
    requires aux < |items| && s.listLength == |items| && pos < |keys| && keys[pos] == K_ENTER
    ensures MenuLoop(s, items, aux, keys, pos) == MenuResult(Chosen(s, items[aux]), aux, Enter, pos + 1)
  {
  }

  /** Skipped keys in front of the Enter of a key loop: when every byte
      from `pos` to `q` is neither Enter nor ESC, the loop ends on the Enter
      at `q` with the same highlighted node. */
  lemma {:induction false} EnterAfterIgnored(s: ScrollState, items: seq<Item>, aux: nat, keys: seq<byte>, pos: nat, q: nat)
    requires aux < |items| && s.listLength == |items| && pos <= q < |keys| && keys[q] == K_ENTER
    requires forall j :: pos <= j < q ==> keys[j] != K_ENTER && keys[j] != K_ESCAPE
    ensures MenuLoop(s, items, aux, keys, pos) == MenuResult(Chosen(s, items[aux]), aux, Enter, q + 1)
    decreases q - pos
  {
    if pos < q {
      IgnoredByte(s, items, aux, keys, pos);
      EnterAfterIgnored(s, items, aux, keys, pos + 1, q);
    }
  }

  /** A pass of the key loop that ends on a boundary has moved the window
      origin by one in the direction of the arrow that reached it: up for the
      up arrow, down for the down arrow. Going up, the highlight sat on the
      window's first row below the first node; going down, on its last row
      with a node beyond it. */
  lemma BoundaryDirection(s: ScrollState, items: seq<Item>, aux: nat, keys: seq<byte>, pos: nat)
    requires Highlight(s, |items|, aux) && pos <= |keys|
    ensures var st := MenuStep(s, items, aux, keys, pos);
      st.done && st.key == ContinueScroll && NextKey(keys, pos).key == UpArrow ==>
        st.s.currentListIndex + 1 == s.currentListIndex && st.s.scrollDirection == Up &&
        aux == s.currentListIndex && aux > 0
    ensures var st := MenuStep(s, items, aux, keys, pos);
      st.done && st.key == ContinueScroll && NextKey(keys, pos).key == DownArrow ==>
        st.s.currentListIndex == s.currentListIndex + 1 && st.s.scrollDirection == Down &&
        aux == s.currentListIndex + s.displayLimit - 1 && aux + 1 < |items|
  {
    var rd := NextKey(keys, pos);
    if rd.key == DownArrow {
      Boundary(s.(scrollDirection := Down), |items|, aux);
    } else if rd.key == UpArrow {
      Boundary(s.(scrollDirection := Up), |items|, aux);
    }
  }

  /** Enter as the first key of a session chooses the first node. */
  lemma ImmediateEnter(s: ScrollState, items: seq<Item>, whereX: nat, whereY: nat,
                       bColor0: nat, fColor0: nat, bColor1: nat, fColor1: nat,
                       limit: nat, keys: seq<byte>)
    requires items != [] && keys != [] && keys[0] == K_ENTER
    ensures var r := ListBoxSpec(s, items, whereX, whereY, bColor0, fColor0, bColor1, fColor1, limit, keys);
      r.key == Enter && r.aux == 0 && r.pos == 1 && HoldsItem(r.s, items[0])
  {
    var n := |items|;
    var s1 := ListBoxSetup(s, n, whereX, whereY, bColor0, fColor0, bColor1, fColor1, limit);
    if ScrollPossible(n, limit) {
      var s2 := s1.(scrollActive := true, currentListIndex := 0);
      var s3 := DrawItem(LoadListSpec(s2, 0), 0, true);
      assert SelectorMenuSpec(s3, items, keys, 0).key == Enter;
    }
  }

  /** Three presses of the down arrow. */
  function ThreeDowns(): seq<byte>
  {
    [K_ESCAPE, 91, K_DOWN_ARROW, K_ESCAPE, 91, K_DOWN_ARROW, K_ESCAPE, 91, K_DOWN_ARROW]
  }

  /** The first window of five nodes in three rows: two presses of the
      down arrow walk the highlight to the third node, the third reaches the
      boundary and moves the window down by one. */
  lemma FirstWindow(s: ScrollState, items: seq<Item>)
    requires |items| == 5 && s.listLength == 5 && s.scrollActive
    requires s.currentListIndex == 0 && s.displayLimit == 3 && s.selector == s.wherey
    ensures var r := SelectorMenuSpec(s, items, ThreeDowns(), 0);
      r.key == ContinueScroll && r.aux == 2 && r.pos == 9 &&
      r.s.currentListIndex == 1 && r.s.scrollDirection == Down && r.s.selector == r.s.wherey
  {
    var keys := ThreeDowns();
    var a := MenuStart(s, 5);
    assert a.aux == 0 && a.s.selector == s.wherey;
    var st1 := MenuStep(a.s, items, 0, keys, 0);
    assert st1.aux == 1 && !st1.done && st1.pos == 3;
    var st2 := MenuStep(st1.s, items, 1, keys, 3);
    assert st2.aux == 2 && !st2.done && st2.pos == 6;
    var st3 := MenuStep(st2.s, items, 2, keys, 6);
    assert st3.aux == 2 && st3.done && st3.key == ContinueScroll && st3.pos == 9;
  }

  /** Five nodes in a window of three: the three presses move the window
      down by one, and the reload highlights the window's last node, the
      fourth, on the last row. */
  lemma FiveInThree(s: ScrollState, items: seq<Item>, whereX: nat, whereY: nat,
                    bColor0: nat, fColor0: nat, bColor1: nat, fColor1: nat)
    requires |items| == 5
    ensures var r := ListBoxSpec(s, items, whereX, whereY, bColor0, fColor0, bColor1, fColor1, 3, ThreeDowns());
      r.key == EndOfInput && r.aux == 3 && r.s.currentListIndex == 1 && r.s.scrollActive &&
      r.s.selector == whereY + 2
  {
    var keys := ThreeDowns();
    var s1 := ListBoxSetup(s, 5, whereX, whereY, bColor0, fColor0, bColor1, fColor1, 3);
    assert ScrollPossible(5, 3);
    var s2 := s1.(scrollActive := true, currentListIndex := 0);
    var s3 := DrawItem(LoadListSpec(s2, 0), 0, true);
    FirstWindow(s3, items);
    var r1 := SelectorMenuSpec(s3, items, keys, 0);
    var s4 := DrawItem(LoadListSpec(r1.s, 1), 1, true);
    StartHighlight(s4, 5);
    var b := MenuStart(s4, 5);
    assert MenuLoop(b.s, items, 3, keys, 9).key == EndOfInput;
  }
}
