# fbrowser list box: a verified model

`fbrowser.c` is a small terminal file browser. It reads a directory into a
doubly linked list of choices. Each choice has a fixed-width label, and the
order is `.`, `..`, the sub-directories, then the regular files. It shows the
list in a box where the arrow keys move a highlighted selector and Enter
picks an entry.

- When the list fits, the selector wraps around at both ends.
- When it does not fit, the box shows a window of `displayLimit` rows. It
  reloads that window one position further each time the selector pushes
  against the window's top or bottom edge.

This project models the list routines, the `SCROLLDATA` record and its
list-box routines, and the construction of the directory list. It proves
what they promise.

Modules:

- `Keys` (`keys.dfy`): the key bytes the menu reads, and how they decode into
  Enter, the up and down arrows (ESC, any byte, then `A` or `B`), and other keys.
- `ItemList` (`item_list.dfy`): the list of `LISTCHOICE` nodes as a sequence.
  - A node pointer is a position in that sequence, and `next`/`back` are the
    neighbouring positions.
  - `addend`, `query_length` and `deleteList` are loops over positions.
- `DirectoryListing` (`list_files.dfy`):
  - the label builders `addSpaces`, `cleanString` (on an `array<char>`) and
    the two label layouts;
  - the two passes of `listFiles` over a given stream of directory entries.
- `ListboxSpec` (`listbox_spec.dfy`): the list-box routines as functions on a
  value `ScrollState`, which holds the record's fields and the list of draws
  sent to the terminal.
- `Listbox` (`listbox.dfy`): the class `ScrollData`, which has the record's
  fields and one `log` field for the draws.
  - Each method is the source routine's loop or sequence of field updates.
  - Each is proved to leave the record in the state that the matching
    `ListboxSpec` function computes.
  - The source routines `move_selector`, `selectorMenu` and `listBox` are
    split into several methods. This keeps each proof small, and the methods
    together run the same statements in the same order.
- `ListboxProperties` (`listbox_properties.dfy`): what those functions, and
  so the class, promise. It covers:
  - the wrap-around;
  - the normal move, the boundary signal and the refused move;
  - the highlight staying in the window on its row;
  - the reload after a downward shift;
  - Enter handing back the node's data;
  - how `listBox` decides whether to scroll.

## Model

| member | source | states |
|---|---|---|
| Keys.NextKey | fbrowser.c:484-496 | a key read is Enter exactly when the byte is 10; it is the up (down) arrow exactly when ESC is followed by any byte and `A` (`B`); every other byte is read alone and ignored; ESC reads three bytes |
| ItemList.NewElement | fbrowser.c:213-224 | a new node carries the given label, path and kind; `addend` gives it its index |
| ItemList.AddEnd | fbrowser.c:250-263 | the old nodes are kept in order and one node is added at the end; its index is 0 on an empty list and otherwise the last node's index plus one; indices equal to positions stay so |
| ItemList.QueryLength | fbrowser.c:312-326 | counts the links after the head: one less than the number of nodes |
| ItemList.DeleteList | fbrowser.c:228-246 | the list is empty afterwards |
| DirectoryListing.AddSpaces | fbrowser.c:615-621 | a string shorter than 15 characters is padded with spaces to 15; a longer one is unchanged |
| DirectoryListing.CleanString | fbrowser.c:623-628 | the first `max` cells of the buffer become spaces and no other cell changes |
| DirectoryListing.DirectoryTextLayout | fbrowser.c:653-675 | a directory label is 15 characters: `[`, the name cut to 13 characters, `]`, then spaces |
| DirectoryListing.FileTextLayout | fbrowser.c:692-700 | a file label is 15 characters: the name cut to 15 characters, then spaces |
| DirectoryListing.DirectoryLabel | fbrowser.c:653-675 | builds the bracketed directory label in a 15-cell buffer; the result is the directory layout and is 15 characters long |
| DirectoryListing.FileLabel | fbrowser.c:692-700 | builds a file label; the result is the file layout and is 15 characters long |
| DirectoryListing.AddDots | fbrowser.c:636-644 | keeps the list and appends `.` and `..`, each a directory with its name padded to 15 characters; indices stay contiguous |
| DirectoryListing.AddDirectory | fbrowser.c:651-681 | for one entry: a directory other than `.` and `..` is appended under its bracketed label, anything else is skipped; the list is kept and indices stay contiguous |
| DirectoryListing.AddFile | fbrowser.c:690-703 | for one entry: a regular file is appended under its label, anything else is skipped; the list is kept and indices stay contiguous |
| DirectoryListing.AppendDirectories | fbrowser.c:647-684 | the first pass keeps the list and appends, in stream order, a choice for every directory entry other than `.` and `..`; indices stay contiguous |
| DirectoryListing.AppendFiles | fbrowser.c:686-706 | the second pass keeps the list and appends, in stream order, a choice for every regular file; indices stay contiguous |
| DirectoryListing.ListFiles | fbrowser.c:629-708 | keeps the list and appends `.`, `..`, the directory choices and the file choices; indices stay contiguous |
| DirectoryListing.DirectoryChoicesAreDirectories | fbrowser.c:651-680 | every directory choice is a directory other than `.` and `..`, with a 15-character bracketed label, from a directory entry |
| DirectoryListing.FileChoicesAreFiles | fbrowser.c:690-702 | every file choice is a non-directory with a 15-character label, from a regular-file entry |
| DirectoryListing.EveryEntryListed | fbrowser.c:647-706 | every directory entry other than `.` and `..` has a directory choice, and every regular file has a file choice |
| DirectoryListing.ListingOrder | fbrowser.c:636-706 | the listing starts with `.` and `..`; every label is 15 characters; no file comes before a directory; neither `.` nor `..` is listed again as a directory |
| ListboxSpec.WindowDraws | fbrowser.c:303-308 | `loadlist` draws `displayLimit` items: draw `j` is node `from + j`, unselected, on row `row + j` |
| ListboxSpec.NormalMove | fbrowser.c:382-451 | the move that does not wrap around keeps the highlight in the list and changes only the selector and the draws; it draws nothing or two items; a boundary is reported only while scrolling, at the window's first row going up or at its last row going down with a node beyond |
| ListboxSpec.MoveSelectorSpec | fbrowser.c:346-457 | the same facts for the whole of `move_selector`, wrap-around included |
| ListboxSpec.DownMoves | fbrowser.c:470-477 | repeated downward moves keep the window and the highlight in the list |
| ListboxSpec.ArrowKeySpec | fbrowser.c:496-531 | an arrow key keeps the list length, the window size, the scrolling flag and the top row; the window origin changes only on a boundary: minus one for the up arrow, plus one for the down arrow, staying inside the list going down |
| ListboxSpec.MenuStep | fbrowser.c:484-532 | one pass of the key loop reads at least one byte unless it ends the loop; it ends with Enter exactly when the byte read is 10, consuming that byte and changing nothing; it ends the loop at the end of the key input only once every byte is read; only a boundary moves the window origin, up by one for the up arrow and down by one for the down arrow |
| ListboxSpec.MenuLoop | fbrowser.c:484-542 | the key loop ends on Enter, on a boundary or at the end of the key input, and at the end of the key input only once every byte is read; on Enter the last byte read is 10; the window origin moves at most once, on a boundary |
| ListboxSpec.MenuStart | fbrowser.c:467-480 | the start of `selectorMenu` keeps the window and highlights a node of the list |
| ListboxSpec.SelectorMenuSpec | fbrowser.c:459-543 | the facts of the key loop for the whole of `selectorMenu`, including that it reports the end of the key input only once every byte is read and Enter only after reading a 10 |
| ListboxSpec.ScrollLoop | fbrowser.c:592-597 | the reload loop ends only on Enter, after reading a 10, or at the end of the key input, once every byte is read, with a node of the list highlighted |
| ListboxSpec.ListBoxSpec | fbrowser.c:545-609 | `listBox` ends with a node of the list highlighted and never with a bare boundary signal; it reports the end of the key input only once every byte is read and Enter only after reading a 10 |
| Listbox.ScrollData.constructor | fbrowser.c:766-782 | the record starts as `main` clears it |
| Listbox.ScrollData.DisplayItem | fbrowser.c:328-345 | draws the node on the selector's row, selected or not, and changes nothing else |
| Listbox.ScrollData.GotoIndex | fbrowser.c:269-287 | walks `indexAt` links from the head and highlights that node on the selector's row |
| Listbox.ScrollData.LoadList | fbrowser.c:289-310 | highlights the node at `indexAt`, draws the window's nodes unselected on consecutive rows, and puts the selector back on the top row |
| Listbox.ScrollData.MoveSelector | fbrowser.c:346-457 | the record after `move_selector` is the one `MoveSelectorSpec` gives, with the same new highlight and boundary signal |
| Listbox.ScrollData.MoveWithin | fbrowser.c:382-454 | the block that runs without wrap-around computes `NormalMove` |
| Listbox.ScrollData.ArrowKey | fbrowser.c:496-531 | one arrow key computes `ArrowKeySpec` |
| Listbox.ScrollData.Steer | fbrowser.c:498-499 | sets the direction, then moves as `MoveSelectorSpec` |
| Listbox.ScrollData.ShiftWindow | fbrowser.c:501-527 | on a boundary the window origin moves by one, the selector returns to the top row and the node's index is recorded |
| Listbox.ScrollData.PassOn | fbrowser.c:534-540 | Enter copies the highlighted node's label, index, path and kind into the record |
| Listbox.ScrollData.KeyStep | fbrowser.c:484-532 | one pass of the key loop computes `MenuStep` |
| Listbox.ScrollData.StartMenu | fbrowser.c:467-480 | the start of `selectorMenu` computes `MenuStart` |
| Listbox.ScrollData.SelectorMenu | fbrowser.c:459-543 | `selectorMenu` computes `SelectorMenuSpec` |
| Listbox.ScrollData.Configure | fbrowser.c:562-576 | the setup of `listBox` computes `ListBoxSetup` and returns the signed length less the window size |
| Listbox.ScrollData.SizeWindow | fbrowser.c:562-569 | the window is `limit` rows, or the whole list when `limit` is larger; `scrollLimit` is the unsigned conversion of the difference |
| Listbox.ScrollData.Place | fbrowser.c:570-572 | stores the column and the top row, and puts the selector on the top row |
| Listbox.ScrollData.Paint | fbrowser.c:573-576 | stores the four colours |
| Listbox.ScrollData.ListBox | fbrowser.c:545-609 | `listBox` computes `ListBoxSpec` and returns its key and the position of the first key byte not read |
| Listbox.ScrollData.ScrollOn | fbrowser.c:585-589 | turns scrolling on with the window at the top |
| Listbox.ScrollData.ScrollOff | fbrowser.c:602-604 | turns scrolling off with the whole list as the window |
| Listbox.ScrollData.WholeList | fbrowser.c:605-606 | the branch without scrolling computes `loadlist` then `SelectorMenuSpec` |
| Listbox.ScrollData.ScrollSession | fbrowser.c:592-597 | the reload loop computes `ScrollLoop` |
| ListboxProperties.WrapAround | fbrowser.c:359-378 | while not scrolling, down from the last node highlights the first on the top row, and up from the first highlights the last on the bottom row; the old node is unselected first and no boundary is reported |
| ListboxProperties.StepToNeighbour | fbrowser.c:382-452 | apart from wrap-around, a move goes to the neighbouring node exactly when it exists and is not past the window's last row (down) or before its first row (up); the selector then moves one row and two items are drawn |
| ListboxProperties.Boundary | fbrowser.c:382-456 | a boundary is reported exactly when scrolling is on and the next node exists but is outside the window; the highlight then stays and its node is drawn unselected and selected on its row |
| ListboxProperties.NoNodeBeyond | fbrowser.c:382-386 | while scrolling, a move past either end of the list changes nothing and draws nothing |
| ListboxProperties.MoveKeepsHighlight | fbrowser.c:346-457 | every move keeps the highlighted node in the window with the selector on its row, i.e. `selector == wherey + index - currentListIndex`, and keeps the window |
| ListboxProperties.Circularity | fbrowser.c:359-368 | while not scrolling, `k <= n` moves down from node `i` highlight node `i + k`, counted round from the first node after the last; `n` moves come back to the start, and fewer never do |
| ListboxProperties.DownMovesInWindow | fbrowser.c:414-435 | while scrolling, `k` moves down reach `k` nodes further on but stop at the window's last row |
| ListboxProperties.StartHighlight | fbrowser.c:467-480 | after `loadlist`, `selectorMenu` starts on the window's first node on the top row or, after a downward reload, on its last node on its last row |
| ListboxProperties.StepKeeps | fbrowser.c:484-532 | one pass of the key loop keeps the highlight; on a boundary the new window still fits in the list, the selector is on the top row and the node's index is recorded |
| ListboxProperties.MenuLoopKeeps | fbrowser.c:484-542 | the key loop keeps the highlight; on Enter the record holds the highlighted node's label, index, path and kind; on a boundary the new window fits in the list |
| ListboxProperties.SessionKeeps | fbrowser.c:592-597 | the reload loop ends with the highlight in a window that fits in the list and, on Enter, with the highlighted node's data |
| ListboxProperties.SetupStores | fbrowser.c:559-576 | the setup stores the length, the column, the row and the colours; `scrollLimit` is the length less the window size, wrapped to 32 bits when that is negative |
| ListboxProperties.ListBoxOutcome | fbrowser.c:545-609 | scrolling is on exactly when the list is longer than a non-zero window; the window is then `limit` rows and otherwise the whole list; the result has the highlight in the window and, on Enter, the node's data, whose index is its position when indices are contiguous |
| ListboxProperties.IgnoredSequence | fbrowser.c:492-531 | ESC, any byte and a byte other than `A` or `B` are consumed and change nothing |
| ListboxProperties.IgnoredByte | fbrowser.c:485-492 | a byte other than Enter and ESC is consumed and changes nothing |
| ListboxProperties.ArrowWithoutScroll | fbrowser.c:496-531 | while not scrolling, an arrow key is exactly one `move_selector` in its direction |
| ListboxProperties.EnterEndsLoop | fbrowser.c:485-542 | an Enter byte ends the key loop at once, wherever it comes, with the highlighted node's data copied into the record |
| ListboxProperties.EnterAfterIgnored | fbrowser.c:484-542 | bytes that are neither Enter nor ESC before an Enter change nothing, and the loop ends on that Enter with the same node chosen |
| ListboxProperties.BoundaryDirection | fbrowser.c:496-527 | a pass ending on a boundary moved the origin up by one for the up arrow, from the window's first row, and down by one for the down arrow, from its last row with a node beyond |
| ListboxProperties.ImmediateEnter | fbrowser.c:459-543 | Enter as the first key chooses the first node |
| ListboxProperties.FiveInThree | fbrowser.c:545-609 | for five nodes in a window of three, three down arrows move the highlight to the third node, shift the window to start at the second node, and the reload highlights the fourth node on the window's last row |

## Left out

- Terminal output is left out. Cursor moves, colour codes, clearing and the
  status lines that `move_selector` prints are not modelled. A draw is logged
  as the node, the row and whether it is selected.
- Key input is a given byte sequence. `getch` blocks when no key comes; the
  model ends the interaction there with the outcome `EndOfInput`. The real
  `listBox` loop runs until Enter.
- `listFiles` does not read the file system. The stream of entries that
  `readdir` would return is a parameter, and a directory that cannot be
  opened is the empty stream. The order of entries is whatever the stream
  gives. `listFiles` opens and reads the directory twice, once for the
  directories and once for the files; the model gives both passes the same
  stream, so a directory that changes between the two passes is not
  modelled.
- `changeDir`, `main`'s browse loop and the terminal routines
  (`initTermios`, `resetTermios`, `gotoxy`, `outputcolor`, `draw_window`,
  `cleanLine`) are not part of this model.
- Memory is left out. `malloc` and `free` are not modelled; a list is a
  value, so aliasing of nodes is not modelled; `newelement` becomes the
  value `NewElement`.
- Indices are positions. The source compares `aux->index` where the model
  uses the node's position. The two agree on every list built by `addend`
  from an empty list (`AddEnd` keeps `Contiguous`). `gotoIndex` walks from
  the global head `listBox1`, and the model walks from the list it is given.
  These are the same in the program.
- Label buffers: the 15-character labels are built in a 15-byte buffer, so
  the terminating NUL does not fit. A long file name is copied without one.
  The model takes the label to be the 15 characters the code evidently
  intends.
- Empty lists: `QueryLength` and `ListBox` require a non-empty list,
  because `query_length` dereferences the head (fbrowser.c:318-319). The
  program never passes an empty one: `listFiles` always adds `.` and `..`,
  so every listing has at least two nodes (`ListingOrder`).
- Names and labels are Dafny strings. One `char` stands for one C byte, so
  `strlen`, cropping and padding count bytes as the source does.
- Unsigned arithmetic is not modelled, except for `scrollLimit`, where the
  conversion to unsigned is explicit (`ToUnsigned`). The other fields are
  unbounded naturals (the selector row is an integer). No value reachable
  from `listBox` goes below zero, as `MoveKeepsHighlight` shows.
- Counting the list: `query_length` counts the `next` links, one fewer
  than the nodes, and `listBox` adds one back, so `listLength` is the node
  count. `QueryLength` is `n - 1`; no extra slot is modelled.
- Ending the menu loop: the source signals a boundary by returning
  `CONTINUE_SCROLL` as a `char`. After any down arrow it overwrites `ch`,
  which is harmless. The model returns the outcome `ContinueScroll` in a
  datatype instead.
