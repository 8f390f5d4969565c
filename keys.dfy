/** Key input of the list box: the bytes `getch` delivers, and how the
    selector menu decodes them (fbrowser.c, lines 43-46 and 484-496). */
module Keys {

  /** One byte read from the terminal. */
  newtype byte = b: int | 0 <= b < 256

  const K_ENTER: byte := 10
  const K_ESCAPE: byte := 27
  /** ESC, any byte, then 'A' is the up arrow. */
  const K_UP_ARROW: byte := 65
  /** ESC, any byte, then 'B' is the down arrow. */
  const K_DOWN_ARROW: byte := 66

  /** What one pass of the menu loop makes of the bytes it reads.
      EndOfKeys stands for a read the terminal would block on forever. */
  datatype Key = EnterKey | UpArrow | DownArrow | OtherKey | EndOfKeys

  /** A decoded key and the position of the first byte not yet read. */
  datatype Read = Read(key: Key, next: nat)

  /** Decodes the key starting at `pos`: a first byte; when it is ESC, one
      byte that is skipped and one byte that selects the arrow. */
  function NextKey(keys: seq<byte>, pos: nat): (r: Read)
    requires pos <= |keys|
    ensures pos <= r.next <= |keys|
    ensures r.key == EnterKey <==> pos < |keys| && keys[pos] == K_ENTER
    ensures r.key == UpArrow <==>
      pos + 3 <= |keys| && keys[pos] == K_ESCAPE && keys[pos + 2] == K_UP_ARROW
    ensures r.key == DownArrow <==>
      pos + 3 <= |keys| && keys[pos] == K_ESCAPE && keys[pos + 2] == K_DOWN_ARROW
    ensures r.key == EndOfKeys <==>
      pos == |keys| || (keys[pos] == K_ESCAPE && |keys| < pos + 3)
    ensures r.key == EndOfKeys ==> r.next == |keys|
    ensures r.key != EndOfKeys ==>
      r.next == pos + (if keys[pos] == K_ESCAPE then 3 else 1)
  {
    if pos == |keys| then Read(EndOfKeys, |keys|)
    else if keys[pos] == K_ENTER then Read(EnterKey, pos + 1)
    else if keys[pos] == K_ESCAPE then
      if |keys| < pos + 3 then Read(EndOfKeys, |keys|)
      else if keys[pos + 2] == K_UP_ARROW then Read(UpArrow, pos + 3)
      else if keys[pos + 2] == K_DOWN_ARROW then Read(DownArrow, pos + 3)
      else Read(OtherKey, pos + 3)
    else Read(OtherKey, pos + 1)
  }
}
