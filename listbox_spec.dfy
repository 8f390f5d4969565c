/** The list box's scroll and selection engine as functions on values
    (fbrowser.c, lines 269-609). A value of ScrollState is what SCROLLDATA
    holds at one moment, together with the list of draws sent to the
    terminal so far; the class in module Listbox is proved to compute
    exactly these functions. The highlighted node is given by its position in
    the list. */
module ListboxSpec {
  import opened Keys
  import opened ItemList

  /** UP_SCROLL and DOWN_SCROLL. */
  datatype Direction = Up | Down

  /** One call of `displayItem`: the item at `index` painted on screen row
      `row`, in the selected or the unselected colours. */
  datatype Draw = Draw(index: nat, row: int, selected: bool)

  /** The fields of SCROLLDATA, plus the draws the terminal has received. */
  datatype ScrollState = ScrollState(
    scrollActive: bool,
    scrollLimit: nat,
    listLength: nat,
    currentListIndex: nat,
    displayLimit: nat,
    scrollDirection: Direction,
    selector: int,
    wherex: nat,
    wherey: nat,
    backColor0: nat, foreColor0: nat, backColor1: nat, foreColor1: nat,
    isDirectory: bool,
    item: string,
    path: string,
    itemIndex: nat,
    log: seq<Draw>)

  /** What `listBox`, `selectorMenu` and the scroll loop end with: the state,
      the highlighted node, the key that ended the loop and the position of
      the first key byte not read. */
  datatype Exit = Enter | ContinueScroll | EndOfInput
  datatype MenuResult = MenuResult(s: ScrollState, aux: nat, key: Exit, pos: nat)

  /** The outcome of one `move_selector` call. */
  datatype Moved = Moved(s: ScrollState, aux: nat, continueScroll: bool)

  /** A state and the highlighted node. */
  datatype At = At(s: ScrollState, aux: nat)

  /** The fields that describe the window; only `selectorMenu` changes them,
      when a boundary is reached. */
  predicate SameWindow(a: ScrollState, b: ScrollState)
  {
    a.scrollActive == b.scrollActive && a.listLength == b.listLength &&
    a.currentListIndex == b.currentListIndex && a.displayLimit == b.displayLimit &&
    a.wherey == b.wherey
  }

  /** `displayItem`: paints one item at the selector's row. */
  function DrawItem(s: ScrollState, aux: nat, select: bool): ScrollState
  {
    s.(log := s.log + [Draw(aux, s.selector, select)])
  }

  /** The unselected draws `loadlist` makes: `count` items from `from`, on
      consecutive rows from `row`. */
  function WindowDraws(from: nat, row: int, count: nat): (r: seq<Draw>)
    ensures |r| == count
    ensures forall j :: 0 <= j < count ==> r[j] == Draw(from + j, row + j, false)
  {
    if count == 0 then []
    else WindowDraws(from, row, count - 1) + [Draw(from + count - 1, row + count - 1, false)]
  }

  /** `loadlist`: highlights the item at `indexAt`, paints the window starting
      there unselected, and puts the selector back on the window's first
      row. */
  function LoadListSpec(s: ScrollState, indexAt: nat): ScrollState
  {
    s.(selector := s.wherey,
       log := s.log + [Draw(indexAt, s.selector, true)] + WindowDraws(indexAt, s.selector, s.displayLimit))
  }

  /** The part of `move_selector` that runs when the highlight does not wrap
      around: one node further in `s.scrollDirection`, unless that would
      leave the window, which is then reported as a boundary when scrolling
      is active. */
  function NormalMove(s: ScrollState, n: nat, i: nat): (r: Moved)
    requires i < n && s.listLength == n
    ensures r.aux < n
    ensures r.s == s.(selector := r.s.selector, log := r.s.log)
    ensures |r.s.log| == |s.log| || |r.s.log| == |s.log| + 2
    ensures r.continueScroll ==> s.scrollActive && r.aux == i
    ensures r.continueScroll && s.scrollDirection == Up ==> 0 < i <= s.currentListIndex
    ensures r.continueScroll && s.scrollDirection == Down ==>
      i + 1 < n && s.currentListIndex + s.displayLimit <= i + 1
  {
    if s.scrollDirection == Down && i + 1 < n then
      var s1 := DrawItem(s, i, false);
      var scrollControl: int :=
        if s.scrollActive then s.currentListIndex + (s.displayLimit - 1) else s.listLength - 1;
      if i + 1 <= scrollControl then
        var s2 := s1.(selector := s1.selector + 1);
        Moved(DrawItem(s2, i + 1, true), i + 1, false)
      else
        Moved(DrawItem(s1, i, true), i, s.scrollActive)
    else if s.scrollDirection == Up && i > 0 then
      var s1 := DrawItem(s, i, false);
      var scrollControl := if s.scrollActive then s.currentListIndex else 0;
      if i - 1 >= scrollControl then
        var s2 := s1.(selector := s1.selector - 1);
        Moved(DrawItem(s2, i - 1, true), i - 1, false)
      else
        Moved(DrawItem(s1, i, true), i, s.scrollActive)
    else
      // no node beyond the highlighted one in this direction
      Moved(s, i, false)
  }

  /** `move_selector` on a list of `n` nodes with the node at position `i`
      highlighted, in the direction `s.scrollDirection`. */
  function MoveSelectorSpec(s: ScrollState, n: nat, i: nat): (r: Moved)
    requires i < n && s.listLength == n
    ensures r.aux < n
    ensures r.s == s.(selector := r.s.selector, log := r.s.log)
    ensures |r.s.log| == |s.log| || |r.s.log| == |s.log| + 2
    ensures r.continueScroll ==> s.scrollActive && r.aux == i
    ensures r.continueScroll && s.scrollDirection == Up ==> 0 < i <= s.currentListIndex
    ensures r.continueScroll && s.scrollDirection == Down ==>
      i + 1 < n && s.currentListIndex + s.displayLimit <= i + 1
  {
    if i == s.listLength - 1 && !s.scrollActive && s.scrollDirection == Down then
      // after the last item, back to the top
      var s1 := DrawItem(s, i, false).(selector := s.wherey);
      Moved(DrawItem(s1, 0, true), 0, false)
    else if i == 0 && !s.scrollActive && s.scrollDirection == Up then
      // before the first item, round to the bottom
      var s1 := DrawItem(s, i, false).(selector := s.wherey + s.listLength - 1);
      Moved(DrawItem(s1, s.listLength - 1, true), s.listLength - 1, false)
    else NormalMove(s, n, i)
  }

  /** `k` calls of `move_selector` downwards, as `selectorMenu` makes after a
      downward reload; their boundary signals are ignored. */
  function DownMoves(s: ScrollState, n: nat, aux: nat, k: nat): (r: At)
    requires aux < n && s.listLength == n
    ensures r.aux < n && SameWindow(r.s, s)
    decreases k
  {
    if k == 0 then At(s, aux)
    else
      var m := MoveSelectorSpec(s.(scrollDirection := Down), n, aux);
      DownMoves(m.s, n, m.aux, k - 1)
  }

  /** Enter copies the highlighted node into SCROLLDATA. */
  function Chosen(s: ScrollState, it: Item): ScrollState
  {
    s.(item := it.item, itemIndex := it.index, path := it.path, isDirectory := it.isDirectory)
  }

  /** What `selectorMenu` does when `move_selector` reports a boundary: the
      window origin moves one position and the selector returns to the top
      row. */
  function Shift(s: ScrollState, it: Item, dir: Direction): ScrollState
    requires dir == Up ==> s.currentListIndex >= 1
  {
    match dir
    case Up =>
      s.(currentListIndex := s.currentListIndex - 1, selector := s.wherey, itemIndex := it.index)
    case Down =>
      s.(currentListIndex := s.currentListIndex + 1, selector := s.wherey, itemIndex := it.index,
         scrollDirection := Down)
  }

  /** One arrow key in the switch of `selectorMenu`: set the direction,
      move, and on a window boundary shift the window. */
  function ArrowKeySpec(s: ScrollState, items: seq<Item>, aux: nat, dir: Direction): (r: Moved)
    requires aux < |items| && s.listLength == |items|
    ensures r.aux < |items|
    ensures r.s.listLength == s.listLength && r.s.displayLimit == s.displayLimit
    ensures r.s.scrollActive == s.scrollActive && r.s.wherey == s.wherey
    ensures !r.continueScroll ==> r.s.currentListIndex == s.currentListIndex
    ensures r.continueScroll ==>
      s.scrollActive &&
      (r.s.currentListIndex + 1 == s.currentListIndex ||
       (r.s.currentListIndex == s.currentListIndex + 1 &&
        r.s.currentListIndex + s.displayLimit <= |items|))
    ensures r.continueScroll ==>
      r.s.currentListIndex == if dir == Up then s.currentListIndex - 1 else s.currentListIndex + 1
  {
    var m := MoveSelectorSpec(s.(scrollDirection := dir), |items|, aux);
    if m.s.scrollActive && m.continueScroll then Moved(Shift(m.s, items[m.aux], dir), m.aux, true)
    else Moved(m.s, m.aux, false)
  }

  /** One pass of the key loop of `selectorMenu`: the state and highlight
      after it, whether the loop ends there and with which key, and the
      position of the first key byte not read. Enter copies the item only
      once the loop has ended. */
  datatype Step = Step(s: ScrollState, aux: nat, done: bool, key: Exit, pos: nat)

  /** One pass of the do-while loop of `selectorMenu`: read a key and act on
      it. */
  function MenuStep(s: ScrollState, items: seq<Item>, aux: nat, keys: seq<byte>, pos: nat): (r: Step)
    requires aux < |items| && s.listLength == |items| && pos <= |keys|
    ensures pos <= r.pos <= |keys| && r.aux < |items|
    ensures !r.done ==> pos < r.pos
    ensures r.done && r.key == ContinueScroll ==> pos < r.pos
    ensures r.s.listLength == s.listLength && r.s.displayLimit == s.displayLimit
    ensures r.s.scrollActive == s.scrollActive && r.s.wherey == s.wherey
    ensures !(r.done && r.key == ContinueScroll) ==> r.s.currentListIndex == s.currentListIndex
    ensures r.done && r.key == ContinueScroll ==>
      s.scrollActive &&
      (r.s.currentListIndex + 1 == s.currentListIndex ||
       (r.s.currentListIndex == s.currentListIndex + 1 &&
        r.s.currentListIndex + s.displayLimit <= |items|))
    ensures r.done && r.key == ContinueScroll ==>
      (NextKey(keys, pos).key == UpArrow && r.s.currentListIndex + 1 == s.currentListIndex) ||
      (NextKey(keys, pos).key == DownArrow && r.s.currentListIndex == s.currentListIndex + 1)
    ensures r.key == Enter <==> pos < |keys| && keys[pos] == K_ENTER
    ensures r.key == Enter ==> r == Step(s, aux, true, Enter, pos + 1)
    ensures r.done && r.key == EndOfInput ==> r.pos == |keys|
  {
    var rd := NextKey(keys, pos);
    match rd.key
    case EndOfKeys => Step(s, aux, true, EndOfInput, rd.next)
    case EnterKey => Step(s, aux, true, Enter, rd.next)
    case OtherKey => Step(s, aux, false, EndOfInput, rd.next)
    case UpArrow =>
      var m := ArrowKeySpec(s, items, aux, Up);
      Step(m.s, m.aux, m.continueScroll, ContinueScroll, rd.next)
    case DownArrow =>
      var m := ArrowKeySpec(s, items, aux, Down);
      Step(m.s, m.aux, m.continueScroll, ContinueScroll, rd.next)
  }

  /** How the key loop of `selectorMenu` ends after a pass that ended it. */
  function Finish(st: Step, items: seq<Item>): MenuResult
    requires st.aux < |items|
  {
    MenuResult(if st.key == Enter then Chosen(st.s, items[st.aux]) else st.s, st.aux, st.key, st.pos)
  }

  /** The key loop of `selectorMenu`, from key position `pos`, until Enter, a
      window boundary, or the end of the key input. */
  function MenuLoop(s: ScrollState, items: seq<Item>, aux: nat, keys: seq<byte>, pos: nat): (r: MenuResult)
    requires aux < |items| && s.listLength == |items| && pos <= |keys|
    ensures pos <= r.pos <= |keys| && r.aux < |items|
    ensures r.key == ContinueScroll ==> pos < r.pos
    ensures r.s.listLength == s.listLength && r.s.displayLimit == s.displayLimit
    ensures r.s.scrollActive == s.scrollActive && r.s.wherey == s.wherey
    ensures r.key != ContinueScroll ==> r.s.currentListIndex == s.currentListIndex
    ensures r.key == ContinueScroll ==>
      s.scrollActive &&
      (r.s.currentListIndex + 1 == s.currentListIndex ||
       (r.s.currentListIndex == s.currentListIndex + 1 &&
        r.s.currentListIndex + s.displayLimit <= |items|))
    ensures r.key == EndOfInput ==> r.pos == |keys|
    ensures r.key == Enter ==> 0 < r.pos && keys[r.pos - 1] == K_ENTER
    decreases |keys| - pos
  {
    var st := MenuStep(s, items, aux, keys, pos);
    if st.done then Finish(st, items)
    else MenuLoop(st.s, items, st.aux, keys, st.pos)
  }

  /** Where `selectorMenu` starts its key loop: the window's first item
      highlighted, then, after a downward reload, `displayLimit` moves
      down. */
  function MenuStart(s: ScrollState, n: nat): (r: At)
    requires s.currentListIndex < n && s.listLength == n
    ensures r.aux < n && SameWindow(r.s, s)
  {
    var s1 := DrawItem(s, s.currentListIndex, true);
    if s.scrollDirection == Down && s.currentListIndex != 0 then
      DownMoves(s1, n, s.currentListIndex, s.displayLimit)
    else At(s1, s.currentListIndex)
  }

  /** `selectorMenu`. */
  function SelectorMenuSpec(s: ScrollState, items: seq<Item>, keys: seq<byte>, pos: nat): (r: MenuResult)
    requires s.currentListIndex < |items| && s.listLength == |items| && pos <= |keys|
    ensures pos <= r.pos <= |keys| && r.aux < |items|
    ensures r.key == ContinueScroll ==> pos < r.pos
    ensures r.s.listLength == s.listLength && r.s.displayLimit == s.displayLimit
    ensures r.s.scrollActive == s.scrollActive && r.s.wherey == s.wherey
    ensures r.key != ContinueScroll ==> r.s.currentListIndex == s.currentListIndex
    ensures r.key == ContinueScroll ==>
      s.scrollActive &&
      (r.s.currentListIndex + 1 == s.currentListIndex ||
       (r.s.currentListIndex == s.currentListIndex + 1 &&
        r.s.currentListIndex + s.displayLimit <= |items|))
    ensures r.key == EndOfInput ==> r.pos == |keys|
    ensures r.key == Enter ==> 0 < r.pos && keys[r.pos - 1] == K_ENTER
  {
    var a := MenuStart(s, |items|);
    MenuLoop(a.s, items, a.aux, keys, pos)
  }

  /** The window fits in the list, as `loadlist` needs. */
  predicate Loadable(s: ScrollState, n: nat)
  {
    s.listLength == n && 1 <= s.displayLimit && s.currentListIndex + s.displayLimit <= n
  }

  /** The reload loop of `listBox` while scrolling is active: paint the
      window, highlight its first item, run `selectorMenu`; again after every
      boundary. */
  function ScrollLoop(s: ScrollState, items: seq<Item>, keys: seq<byte>, pos: nat): (r: MenuResult)
    requires Loadable(s, |items|) && pos <= |keys|
    ensures pos <= r.pos <= |keys| && r.aux < |items|
    ensures r.key != ContinueScroll
    ensures r.key == EndOfInput ==> r.pos == |keys|
    ensures r.key == Enter ==> 0 < r.pos && keys[r.pos - 1] == K_ENTER
    decreases |keys| - pos
  {
    var cli := s.currentListIndex;
    var s1 := DrawItem(LoadListSpec(s, cli), cli, true);
    var r := SelectorMenuSpec(s1, items, keys, pos);
    if r.key == ContinueScroll then ScrollLoop(r.s, items, keys, r.pos) else r
  }

  /** C's conversion of an int to unsigned (32 bits). */
  function ToUnsigned(x: int): nat
  {
    x % 0x1_0000_0000
  }

  /** The setup of `listBox`, before it decides whether to scroll. */
  function ListBoxSetup(s: ScrollState, n: nat, whereX: nat, whereY: nat,
                        bColor0: nat, fColor0: nat, bColor1: nat, fColor1: nat,
                        limit: nat): ScrollState
  {
    var scrollLimit := n - limit;
    s.(displayLimit := if scrollLimit < 0 then n else limit,
       scrollLimit := ToUnsigned(scrollLimit),
       listLength := n, wherex := whereX, wherey := whereY, selector := whereY,
       backColor0 := bColor0, backColor1 := bColor1, foreColor0 := fColor0, foreColor1 := fColor1)
  }

  /** The condition under which `listBox` turns scrolling on. */
  predicate ScrollPossible(n: nat, limit: nat)
  {
    var scrollLimit := n - limit;
    var shown := if scrollLimit < 0 then n else limit;
    n > shown && scrollLimit > 0 && limit > 0
  }

  /** `listBox`: one whole interaction over a non-empty list. */
  function ListBoxSpec(s: ScrollState, items: seq<Item>, whereX: nat, whereY: nat,
                       bColor0: nat, fColor0: nat, bColor1: nat, fColor1: nat,
                       limit: nat, keys: seq<byte>): (r: MenuResult)
    requires items != []
    ensures r.pos <= |keys| && r.aux < |items| && r.key != ContinueScroll
    ensures r.key == EndOfInput ==> r.pos == |keys|
    ensures r.key == Enter ==> 0 < r.pos && keys[r.pos - 1] == K_ENTER
  {
    var n := |items|;
    var s1 := ListBoxSetup(s, n, whereX, whereY, bColor0, fColor0, bColor1, fColor1, limit);
    if ScrollPossible(n, limit) then
      ScrollLoop(s1.(scrollActive := true, currentListIndex := 0), items, keys, 0)
    else
      var s2 := s1.(scrollActive := false, currentListIndex := 0, displayLimit := n);
      SelectorMenuSpec(LoadListSpec(s2, 0), items, keys, 0)
  }
}
