/** The list box routines of fbrowser.c (lines 265-609) over the SCROLLDATA
    record, which they update field by field. The list itself is the
    sequence of nodes `listBox1` heads; a node pointer is a position in it.
    Every method is proved to compute the function of the same name in
    module ListboxSpec on the record's value. */
module Listbox {
  import opened Keys
  import opened ItemList
  import opened ListboxSpec

  class ScrollData {
    var scrollActive: bool
    var scrollLimit: nat
    var listLength: nat
    var currentListIndex: nat
    var displayLimit: nat
    var scrollDirection: Direction
    var selector: int
    var wherex: nat
    var wherey: nat
    var backColor0: nat
    var foreColor0: nat
    var backColor1: nat
    var foreColor1: nat
    var isDirectory: bool
    var item: string
    var path: string
    var itemIndex: nat
    /** The draws sent to the terminal so far. */
    var log: seq<Draw>

    /** The value of the record. */
    ghost function State(): ScrollState
      reads this
    {
      ScrollState(scrollActive, scrollLimit, listLength, currentListIndex, displayLimit,
                  scrollDirection, selector, wherex, wherey,
                  backColor0, foreColor0, backColor1, foreColor1,
                  isDirectory, item, path, itemIndex, log)
    }

    /** The record as `main` clears it: every number 0, no item, nothing
        drawn. */
    constructor ()
      ensures State() == ScrollState(false, 0, 0, 0, 0, Up, 0, 0, 0, 0, 0, 0, 0, false, "", "", 0, [])
    {
      scrollActive, scrollLimit, listLength, currentListIndex, displayLimit := false, 0, 0, 0, 0;
      scrollDirection, selector, wherex, wherey := Up, 0, 0, 0;
      backColor0, foreColor0, backColor1, foreColor1 := 0, 0, 0, 0;
      isDirectory, item, path, itemIndex := false, "", "", 0;
      log := [];
    }

    /** `displayItem`: paints the node at `aux` on the selector's row. */
    method DisplayItem(aux: nat, select: bool)
      modifies this
      ensures State() == DrawItem(old(State()), aux, select)
    {
      log := log + [Draw(aux, selector, select)];
    }

    /** `gotoIndex`: walks `indexAt` links from the head and highlights the
        node reached. */
    method GotoIndex(items: seq<Item>, indexAt: nat) returns (aux: nat)
      requires indexAt < |items|
      modifies this
      ensures aux == indexAt
      ensures State() == DrawItem(old(State()), indexAt, true)
    {
      var aux2 := 0;
      var counter := 0;
      while counter != indexAt
        invariant counter <= indexAt && aux2 == counter
      {
        aux2 := aux2 + 1;
        counter := counter + 1;
      }
      DisplayItem(aux2, true);
      aux := aux2;
    }

    /** `loadlist`: highlights the node at `indexAt`, then paints the
        `displayLimit` nodes from there unselected on consecutive rows, and
        puts the selector back on row `wherey`. The do-while of the source
        runs at least once, which the loop below matches because
        `displayLimit` is at least 1. */
    method LoadList(items: seq<Item>, indexAt: nat)
      requires 1 <= displayLimit && indexAt + displayLimit <= |items|
      modifies this
      ensures State() == LoadListSpec(old(State()), indexAt)
    {
      var aux := GotoIndex(items, indexAt);
      var savedWherey := wherey;
      ghost var s1 := State();
      ghost var row := selector;
      var counter := 0;
      while counter != displayLimit
        invariant counter <= displayLimit && aux == indexAt + counter
        invariant State() == s1.(selector := row + counter, log := s1.log + WindowDraws(indexAt, row, counter))
      {
        DisplayItem(aux, false);
        aux := aux + 1;
        counter := counter + 1;
        selector := selector + 1;
      }
      selector := savedWherey;
    }

    /** `move_selector`: one step of the highlight in `scrollDirection`.
        While scrolling is off the highlight wraps around at both ends;
        otherwise `MoveWithin` moves it. */
    method MoveSelector(items: seq<Item>, aux: nat) returns (newAux: nat, continueScroll: bool)
      requires aux < |items| && listLength == |items|
      modifies this
      ensures var m := MoveSelectorSpec(old(State()), |items|, aux);
        State() == m.s && newAux == m.aux && continueScroll == m.continueScroll
    {
      ghost var s0 := State();
      var cur := aux;
      continueScroll := false;
      var circular := false;
      if cur == listLength - 1 && !scrollActive && scrollDirection == Down {
        // after the last item, go back to the top
        DisplayItem(cur, false);
        ghost var s1 := State();
        selector := wherey;
        assert State() == s1.(selector := s0.wherey);
        cur := GotoIndex(items, 0);
        circular := true;
      }
      if cur == 0 && !scrollActive && scrollDirection == Up {
        // before the first item, go round to the bottom
        DisplayItem(cur, false);
        ghost var s1 := State();
        selector := wherey + listLength - 1;
        assert State() == s1.(selector := s0.wherey + s0.listLength - 1);
        cur := GotoIndex(items, listLength - 1);
        circular := true;
      }
      if !circular {
        cur, continueScroll := MoveWithin(items, cur);
      }
      newAux := cur;
    }

    /** The block of `move_selector` run when the highlight has not wrapped
        around: if there is a node beyond the highlighted one, unselect it,
        then either move one node (when that stays inside the window) or
        report the boundary (when scrolling is active), and highlight the
        node now current. */
    method MoveWithin(items: seq<Item>, aux: nat) returns (newAux: nat, continueScroll: bool)
      requires aux < |items| && listLength == |items|
      modifies this
      ensures var m := NormalMove(old(State()), |items|, aux);
        State() == m.s && newAux == m.aux && continueScroll == m.continueScroll
    {
      var cur := aux;
      continueScroll := false;
      if (cur + 1 < |items| && scrollDirection == Down) || (cur > 0 && scrollDirection == Up) {
        DisplayItem(cur, false);
        ghost var s1 := State();
        var scrollControl: int;
        match scrollDirection {
          case Up =>
            scrollControl := if scrollActive then currentListIndex else 0;
            if cur - 1 >= scrollControl {
              selector := selector - 1;
              assert State() == s1.(selector := s1.selector - 1);
              cur := cur - 1;
            } else {
              continueScroll := scrollActive;
            }
          case Down =>
            scrollControl := if scrollActive then currentListIndex + (displayLimit - 1) else listLength - 1;
            if cur + 1 <= scrollControl {
              cur := cur + 1;
              selector := selector + 1;
              assert State() == s1.(selector := s1.selector + 1);
            } else {
              continueScroll := scrollActive;
            }
        }
        DisplayItem(cur, true);
      }
      newAux := cur;
    }

    /** One arrow key in the switch of `selectorMenu` (the two cases of the
        source differ only in the direction): moves the highlight and, when
        `move_selector` reports a window boundary, moves the window origin
        one position, puts the selector on the top row and records the
        highlighted node's index. */
    method ArrowKey(items: seq<Item>, aux: nat, dir: Direction) returns (newAux: nat, scrolled: bool)
      requires aux < |items| && listLength == |items|
      modifies this
      ensures var m := ArrowKeySpec(old(State()), items, aux, dir);
        State() == m.s && newAux == m.aux && scrolled == m.continueScroll
    {
      var continueScroll;
      newAux, continueScroll := Steer(items, aux, dir);
      scrolled := false;
      if scrollActive && continueScroll {
        ShiftWindow(items[newAux], dir);
        scrolled := true;
      }
    }

    /** Sets `scrollDirection` and calls `move_selector`, as both arrow keys
        and the walk down at the start of `selectorMenu` do. */
    method Steer(items: seq<Item>, aux: nat, dir: Direction) returns (newAux: nat, continueScroll: bool)
      requires aux < |items| && listLength == |items|
      modifies this
      ensures var m := MoveSelectorSpec(old(State()).(scrollDirection := dir), |items|, aux);
        State() == m.s && newAux == m.aux && continueScroll == m.continueScroll
    {
      scrollDirection := dir;
      newAux, continueScroll := MoveSelector(items, aux);
    }

    /** What an arrow key does at a window boundary while scrolling: the
        window origin moves one position, the selector returns to the top
        row and the highlighted node's index is recorded. */
    method ShiftWindow(it: Item, dir: Direction)
      requires dir == Up ==> currentListIndex >= 1
      modifies this
      ensures State() == Shift(old(State()), it, dir)
    {
      match dir {
        case Up =>
          currentListIndex := currentListIndex - 1;
          selector := wherey;
          itemIndex := it.index;
        case Down =>
          currentListIndex := currentListIndex + 1;
          selector := wherey;
          itemIndex := it.index;
          scrollDirection := Down;
      }
    }

    /** Enter in `selectorMenu`: passes on the data of the item selected. */
    method PassOn(it: Item)
      modifies this
      ensures State() == Chosen(old(State()), it)
    {
      item := it.item;
      itemIndex := it.index;
      path := it.path;
      isDirectory := it.isDirectory;
    }

    /** One pass of the do-while loop of `selectorMenu`: reads one key
        (ESC is followed by two more bytes, the last naming the arrow) and
        acts on it. */
    method KeyStep(items: seq<Item>, keys: seq<byte>, aux: nat, pos: nat)
      returns (done: bool, ch: Exit, newAux: nat, newPos: nat)
      requires aux < |items| && listLength == |items| && pos <= |keys|
      modifies this
      ensures var st := MenuStep(old(State()), items, aux, keys, pos);
        State() == st.s && done == st.done && ch == st.key && newAux == st.aux && newPos == st.pos
    {
      var rd := NextKey(keys, pos);
      newPos := rd.next;
      newAux := aux;
      done := false;
      ch := EndOfInput;
      match rd.key {
        case EndOfKeys =>
          done := true;
        case EnterKey =>
          ch := Enter;
          done := true;
        case OtherKey =>
        case UpArrow =>
          ch := ContinueScroll;
          newAux, done := ArrowKey(items, aux, Up);
        case DownArrow =>
          ch := ContinueScroll;
          newAux, done := ArrowKey(items, aux, Down);
      }
    }

    /** The start of `selectorMenu`: highlights the window's first node
        and, after a downward reload, moves down `displayLimit` times. */
    method StartMenu(items: seq<Item>) returns (aux: nat)
      requires currentListIndex < |items| && listLength == |items|
      modifies this
      ensures var a := MenuStart(old(State()), |items|);
        State() == a.s && aux == a.aux
    {
      ghost var s0 := State();
      aux := GotoIndex(items, currentListIndex);
      if scrollDirection == Down && currentListIndex != 0 {
        // going down: end on the window's last item
        ghost var s1 := State();
        var counter := 0;
        while counter < displayLimit
          invariant counter <= displayLimit == s0.displayLimit
          invariant aux < |items| && listLength == |items|
          invariant DownMoves(State(), |items|, aux, displayLimit - counter) ==
            DownMoves(s1, |items|, s0.currentListIndex, displayLimit)
        {
          ghost var m := MoveSelectorSpec(State().(scrollDirection := Down), |items|, aux);
          assert DownMoves(State(), |items|, aux, displayLimit - counter) ==
            DownMoves(m.s, |items|, m.aux, displayLimit - counter - 1);
          var signal;
          aux, signal := Steer(items, aux, Down);
          counter := counter + 1;
        }
      }
    }

    /** `selectorMenu`: highlights the window's first node (and, after a
        downward reload, moves down through the window), then reads keys
        until Enter or a window boundary. `pos` is the first key byte not
        read. */
    method SelectorMenu(items: seq<Item>, keys: seq<byte>, start: nat) returns (ch: Exit, aux: nat, pos: nat)
      requires currentListIndex < |items| && listLength == |items| && start <= |keys|
      modifies this
      ensures var r := SelectorMenuSpec(old(State()), items, keys, start);
        State() == r.s && ch == r.key && aux == r.aux && pos == r.pos
    {
      ghost var target := SelectorMenuSpec(State(), items, keys, start);
      aux := StartMenu(items);
      pos := start;
      ch := EndOfInput;
      var done := false;
      while !done
        invariant pos <= |keys| && aux < |items| && listLength == |items|
        invariant !done ==> MenuLoop(State(), items, aux, keys, pos) == target
        invariant done ==> target == Finish(Step(State(), aux, true, ch, pos), items)
        decreases |keys| - pos, if done then 0 else 1
      {
        done, ch, aux, pos := KeyStep(items, keys, aux, pos);
      }
      if ch == Enter {
        PassOn(items[aux]);
      }
    }

    /** The first half of `listBox`: sizes the window, then stores the
        geometry and the colours. */
    method Configure(listLen: nat, whereX: nat, whereY: nat,
                     bColor0: nat, fColor0: nat, bColor1: nat, fColor1: nat,
                     limit: nat) returns (sLimit: int)
      modifies this
      ensures sLimit == listLen - limit
      ensures State() == ListBoxSetup(old(State()), listLen, whereX, whereY, bColor0, fColor0, bColor1, fColor1, limit)
    {
      sLimit := SizeWindow(listLen, limit);
      Place(whereX, whereY);
      Paint(bColor0, fColor0, bColor1, fColor1);
    }

    /** The window of `listBox`: `limit` rows, or the whole list when the
        list is shorter; the signed difference is kept, as unsigned. */
    method SizeWindow(listLen: nat, limit: nat) returns (sLimit: int)
      modifies this
      ensures sLimit == listLen - limit
      ensures State() == old(State()).(displayLimit := if sLimit < 0 then listLen else limit,
                                       scrollLimit := ToUnsigned(sLimit), listLength := listLen)
    {
      displayLimit := limit;
      sLimit := listLen - displayLimit;
      if sLimit < 0 {
        displayLimit := listLen;
      }
      scrollLimit := ToUnsigned(sLimit);
      listLength := listLen;
    }

    /** Stores the list box's column and first row, and puts the selector
        on that row. */
    method Place(whereX: nat, whereY: nat)
      modifies this
      ensures State() == old(State()).(wherex := whereX, wherey := whereY, selector := whereY)
    {
      wherex := whereX;
      wherey := whereY;
      selector := whereY;
    }

    /** Stores the unselected (0) and selected (1) colours. */
    method Paint(bColor0: nat, fColor0: nat, bColor1: nat, fColor1: nat)
      modifies this
      ensures State() == old(State()).(backColor0 := bColor0, backColor1 := bColor1,
                                       foreColor0 := fColor0, foreColor1 := fColor1)
    {
      backColor0 := bColor0;
      backColor1 := bColor1;
      foreColor0 := fColor0;
      foreColor1 := fColor1;
    }

    /** `listBox`: sets up the record for a non-empty list, decides whether
        to scroll, and runs the selector until Enter (or the end of the key
        input). */
    method ListBox(items: seq<Item>, whereX: nat, whereY: nat,
                   bColor0: nat, fColor0: nat, bColor1: nat, fColor1: nat,
                   limit: nat, keys: seq<byte>) returns (ch: Exit, pos: nat)
      requires items != []
      modifies this
      ensures var r := ListBoxSpec(old(State()), items, whereX, whereY, bColor0, fColor0, bColor1, fColor1, limit, keys);
        State() == r.s && ch == r.key && pos == r.pos
    {
      ghost var target := ListBoxSpec(State(), items, whereX, whereY, bColor0, fColor0, bColor1, fColor1, limit, keys);
      var links := QueryLength(items);
      var listLen := links + 1;
      var sLimit := Configure(listLen, whereX, whereY, bColor0, fColor0, bColor1, fColor1, limit);
      if listLen > displayLimit && sLimit > 0 && limit > 0 {
        // scrolling is possible: start at the top of the list
        ScrollOn();
        ch, pos := ScrollSession(items, keys);
      } else {
        // scrolling is not possible: show the whole list
        ScrollOff(listLen);
        ch, pos := WholeList(items, keys);
      }
    }

    /** Turns scrolling on, with the window at the top of the list. */
    method ScrollOn()
      modifies this
      ensures State() == old(State()).(scrollActive := true, currentListIndex := 0)
    {
      scrollActive := true;
      currentListIndex := 0;
    }

    /** Turns scrolling off; the window is then the whole list. */
    method ScrollOff(listLen: nat)
      modifies this
      ensures State() == old(State()).(scrollActive := false, currentListIndex := 0, displayLimit := listLen)
    {
      scrollActive := false;
      currentListIndex := 0;
      displayLimit := listLen;
    }

    /** The branch of `listBox` without scrolling: paints every node and
        runs `selectorMenu` once. */
    method WholeList(items: seq<Item>, keys: seq<byte>) returns (ch: Exit, pos: nat)
      requires listLength == |items| && 1 <= displayLimit == |items| && currentListIndex == 0
      modifies this
      ensures var r := SelectorMenuSpec(LoadListSpec(old(State()), 0), items, keys, 0);
        State() == r.s && ch == r.key && pos == r.pos
    {
      LoadList(items, 0);
      var aux;
      ch, aux, pos := SelectorMenu(items, keys, 0);
    }

    /** The scroll loop of `listBox`: paints the window at
        `currentListIndex`, highlights its first node and runs
        `selectorMenu`, again after every window boundary. */
    method ScrollSession(items: seq<Item>, keys: seq<byte>) returns (ch: Exit, pos: nat)
      requires Loadable(State(), |items|)
      modifies this
      ensures var r := ScrollLoop(old(State()), items, keys, 0);
        State() == r.s && ch == r.key && pos == r.pos
    {
      ghost var target := ScrollLoop(State(), items, keys, 0);
      ch := ContinueScroll;
      pos := 0;
      var aux: nat := 0;
      while ch == ContinueScroll
        invariant pos <= |keys| && aux < |items|
        invariant ch == ContinueScroll ==>
          Loadable(State(), |items|) && ScrollLoop(State(), items, keys, pos) == target
        invariant ch != ContinueScroll ==> MenuResult(State(), aux, ch, pos) == target
        decreases |keys| - pos + (if ch == ContinueScroll then 1 else 0)
      {
        ghost var before := State();
        var cli := currentListIndex;
        LoadList(items, cli);
        aux := GotoIndex(items, cli);
        assert State() == DrawItem(LoadListSpec(before, cli), cli, true);
        ch, aux, pos := SelectorMenu(items, keys, pos);
      }
    }
  }
}
