/** Building the list of a directory (fbrowser.c, lines 611-708): fixed-width
    labels, directories in brackets, and the order ".", "..", directories,
    regular files. The directory stream is given as the sequence of entries
    `readdir` would return. */
module DirectoryListing {
  import opened ItemList

  const MAX_ITEM_LENGTH: nat := 15
  const CURRENTDIR: string := "."
  const CHANGEDIR: string := ".."

  /** The `d_type` of a directory entry: DT_DIR, DT_REG or anything else. */
  datatype EntryKind = DirectoryEntry | RegularFile | OtherEntry

  datatype DirEntry = DirEntry(name: string, kind: EntryKind)

  function Spaces(k: nat): (r: string)
    ensures |r| == k
  {
    if k == 0 then "" else Spaces(k - 1) + " "
  }

  lemma {:induction false} SpacesAt(k: nat, j: nat)
    requires j < k
    ensures Spaces(k)[j] == ' '
  {
    if j < k - 1 {
      SpacesAt(k - 1, j);
    }
  }

  /** The label of a directory: "[name]" padded with spaces to 15 characters,
      or "[" and the first 13 characters and "]" when the name is longer. */
  function DirectoryText(name: string): string
  {
    if |name| > MAX_ITEM_LENGTH - 2 then "[" + name[..MAX_ITEM_LENGTH - 2] + "]"
    else "[" + name + "]" + Spaces(MAX_ITEM_LENGTH - 2 - |name|)
  }

  /** The label of a regular file: the name padded to 15 characters, or its
      first 15 characters. */
  function FileText(name: string): string
  {
    if |name| > MAX_ITEM_LENGTH then name[..MAX_ITEM_LENGTH]
    else name + Spaces(MAX_ITEM_LENGTH - |name|)
  }

  /** A directory label is 15 characters: "[", the name cut to 13
      characters, "]", then spaces. */
  lemma DirectoryTextLayout(name: string)
    ensures var t := DirectoryText(name);
      var k := if |name| > MAX_ITEM_LENGTH - 2 then MAX_ITEM_LENGTH - 2 else |name|;
      |t| == MAX_ITEM_LENGTH && t[0] == '[' && t[1..k + 1] == name[..k] && t[k + 1] == ']' &&
      forall j :: k + 2 <= j < MAX_ITEM_LENGTH ==> t[j] == ' '
  {
    if |name| <= MAX_ITEM_LENGTH - 2 {
      var pad := MAX_ITEM_LENGTH - 2 - |name|;
      forall j | |name| + 2 <= j < MAX_ITEM_LENGTH
        ensures DirectoryText(name)[j] == ' '
      {
        SpacesAt(pad, j - |name| - 2);
      }
    }
  }

  /** A file label is 15 characters: the name cut to 15 characters, then
      spaces. */
  lemma FileTextLayout(name: string)
    ensures var t := FileText(name);
      var k := if |name| > MAX_ITEM_LENGTH then MAX_ITEM_LENGTH else |name|;
      |t| == MAX_ITEM_LENGTH && t[..k] == name[..k] &&
      forall j :: k <= j < MAX_ITEM_LENGTH ==> t[j] == ' '
  {
    if |name| <= MAX_ITEM_LENGTH {
      forall j | |name| <= j < MAX_ITEM_LENGTH
        ensures FileText(name)[j] == ' '
      {
        SpacesAt(MAX_ITEM_LENGTH - |name|, j - |name|);
      }
    }
  }

  /** Appends spaces to a string until it is 15 characters long. */
  method AddSpaces(temp: string) returns (r: string)
    ensures |temp| < MAX_ITEM_LENGTH ==> r == temp + Spaces(MAX_ITEM_LENGTH - |temp|)
    ensures |temp| >= MAX_ITEM_LENGTH ==> r == temp
  {
    r := temp;
    var i := |temp|;
    while i < MAX_ITEM_LENGTH
      invariant |temp| <= i
      invariant |temp| < MAX_ITEM_LENGTH ==> i <= MAX_ITEM_LENGTH
      invariant r == temp + Spaces(i - |temp|)
      invariant |temp| >= MAX_ITEM_LENGTH ==> i == |temp| && r == temp
    {
      r := r + " ";
      i := i + 1;
    }
  }

  /** Overwrites the first `max` cells of a buffer with spaces. */
  method CleanString(s: array<char>, max: nat)
    requires max <= s.Length
    modifies s
    ensures forall i :: 0 <= i < max ==> s[i] == ' '
    ensures forall i :: max <= i < s.Length ==> s[i] == old(s[i])
  {
    var i := 0;
    while i < max
      invariant i <= max
      invariant forall j :: 0 <= j < i ==> s[j] == ' '
      invariant forall j :: max <= j < s.Length ==> s[j] == old(s[j])
    {
      s[i] := ' ';
      i := i + 1;
    }
  }

  /** Builds a directory label in a 15-character buffer: spaces, "[", the
      (cropped) name and "]". */
  method DirectoryLabel(name: string) returns (text: string)
    ensures text == DirectoryText(name)
    ensures |text| == MAX_ITEM_LENGTH
  {
    var temp := new char[MAX_ITEM_LENGTH];
    CleanString(temp, MAX_ITEM_LENGTH);
    temp[0] := '[';
    var lenDir := |name|;
    if lenDir > MAX_ITEM_LENGTH - 2 {
      var i := 1;
      while i < MAX_ITEM_LENGTH - 1
        invariant 1 <= i <= MAX_ITEM_LENGTH - 1
        invariant temp[0] == '['
        invariant forall j :: 1 <= j < i ==> temp[j] == name[j - 1]
      {
        temp[i] := name[i - 1];
        i := i + 1;
      }
      temp[MAX_ITEM_LENGTH - 1] := ']';
      text := temp[..];
      assert text == "[" + name[..MAX_ITEM_LENGTH - 2] + "]";
    } else {
      var i := 1;
      while i < lenDir + 1
        invariant 1 <= i <= lenDir + 1
        invariant temp[0] == '['
        invariant forall j :: 1 <= j < i ==> temp[j] == name[j - 1]
        invariant forall j :: lenDir + 1 <= j < MAX_ITEM_LENGTH ==> temp[j] == ' '
      {
        temp[i] := name[i - 1];
        i := i + 1;
      }
      temp[lenDir + 1] := ']';
      assert temp[..lenDir + 2] == "[" + name + "]";
      text := AddSpaces(temp[..lenDir + 2]);
    }
  }

  /** Builds a file label: the first 15 characters of a long name, or the
      name padded with spaces. */
  method FileLabel(name: string) returns (text: string)
    ensures text == FileText(name)
    ensures |text| == MAX_ITEM_LENGTH
  {
    if |name| > MAX_ITEM_LENGTH {
      var temp := new char[MAX_ITEM_LENGTH];
      var i := 0;
      while i < MAX_ITEM_LENGTH
        invariant i <= MAX_ITEM_LENGTH
        invariant forall j :: 0 <= j < i ==> temp[j] == name[j]
      {
        temp[i] := name[i];
        i := i + 1;
      }
      text := temp[..];
    } else {
      text := AddSpaces(name);
    }
  }

  /** What the first pass appends for one entry: a DT_DIR entry other
      than "." and "..", under its bracketed label. */
  function DirectoryChoice(e: DirEntry): seq<Item>
  {
    if e.kind == DirectoryEntry && e.name != CURRENTDIR && e.name != CHANGEDIR
    then [NewElement(DirectoryText(e.name), e.name, true)] else []
  }

  /** What the second pass appends for one entry: a regular file, under its
      label. */
  function FileChoice(e: DirEntry): seq<Item>
  {
    if e.kind == RegularFile then [NewElement(FileText(e.name), e.name, false)] else []
  }

  /** The directories `addend` receives from the first pass over the
      entries, in stream order. */
  function DirectoryChoices(entries: seq<DirEntry>): seq<Item>
  {
    if entries == [] then []
    else DirectoryChoices(entries[..|entries| - 1]) + DirectoryChoice(entries[|entries| - 1])
  }

  /** The regular files the second pass appends, in stream order. */
  function FileChoices(entries: seq<DirEntry>): seq<Item>
  {
    if entries == [] then []
    else FileChoices(entries[..|entries| - 1]) + FileChoice(entries[|entries| - 1])
  }

  lemma DirectoryChoicesStep(entries: seq<DirEntry>, k: nat)
    requires k < |entries|
    ensures DirectoryChoices(entries[..k + 1]) == DirectoryChoices(entries[..k]) + DirectoryChoice(entries[k])
  {
    assert entries[..k + 1][..k] == entries[..k];
  }

  lemma FileChoicesStep(entries: seq<DirEntry>, k: nat)
    requires k < |entries|
    ensures FileChoices(entries[..k + 1]) == FileChoices(entries[..k]) + FileChoice(entries[k])
  {
    assert entries[..k + 1][..k] == entries[..k];
  }

  /** The two entries `listFiles` starts with, before `addend` numbers
      them. */
  function Dots(): seq<Item>
  {
    [NewElement(CURRENTDIR + Spaces(MAX_ITEM_LENGTH - 1), CURRENTDIR, true),
     NewElement(CHANGEDIR + Spaces(MAX_ITEM_LENGTH - 2), CHANGEDIR, true)]
  }

  /** Everything `listFiles` appends, before `addend` numbers it. */
  function Listing(entries: seq<DirEntry>): seq<Item>
  {
    Dots() + DirectoryChoices(entries) + FileChoices(entries)
  }

  /** A list with the indices set aside, for comparing payloads. */
  function Unnumbered(s: seq<Item>): (r: seq<Item>)
    ensures |r| == |s|
  {
    if s == [] then [] else Unnumbered(s[..|s| - 1]) + [s[|s| - 1].(index := 0)]
  }

  /** Appending one node after `prev` keeps the first `h` nodes and extends
      the unnumbered view of the rest by that node. */
  lemma AppendUnnumbered(head: seq<Item>, prev: seq<Item>, r: seq<Item>, e: Item)
    requires |head| <= |prev| && prev[..|head|] == head
    requires |r| == |prev| + 1 && r[..|prev|] == prev
    requires r[|prev|].(index := 0) == e.(index := 0)
    ensures r[..|head|] == head
    ensures Unnumbered(r[|head|..]) == Unnumbered(prev[|head|..]) + [e.(index := 0)]
  {
    var h := |head|;
    assert r[..h] == prev[..h];
    assert r[h..][..|r[h..]| - 1] == prev[h..];
  }

  /** The body of the first pass for one entry: a directory other than "."
      and ".." is labelled and appended; anything else is skipped. */
  method AddDirectory(head: seq<Item>, prev: seq<Item>, e: DirEntry) returns (r: seq<Item>)
    requires |head| <= |prev| && prev[..|head|] == head
    ensures |r| >= |head| && r[..|head|] == head
    ensures Unnumbered(r[|head|..]) == Unnumbered(prev[|head|..]) + DirectoryChoice(e)
    ensures Contiguous(prev) ==> Contiguous(r)
  {
    r := prev;
    if e.kind == DirectoryEntry {
      var text := DirectoryLabel(e.name);
      if e.name != CURRENTDIR && e.name != CHANGEDIR {
        r := AddEnd(prev, NewElement(text, e.name, true));
        AppendUnnumbered(head, prev, r, NewElement(text, e.name, true));
      }
    }
  }

  /** The first pass over the directory stream: appends every directory
      except "." and "..", under its bracketed label. */
  method AppendDirectories(head: seq<Item>, entries: seq<DirEntry>) returns (r: seq<Item>)
    ensures |r| >= |head| && r[..|head|] == head
    ensures Unnumbered(r[|head|..]) == DirectoryChoices(entries)
    ensures Contiguous(head) ==> Contiguous(r)
  {
    r := head;
    assert r[|head|..] == [];
    var k := 0;
    while k < |entries|
      invariant k <= |entries|
      invariant |r| >= |head| && r[..|head|] == head
      invariant Unnumbered(r[|head|..]) == DirectoryChoices(entries[..k])
      invariant Contiguous(head) ==> Contiguous(r)
    {
      r := AddDirectory(head, r, entries[k]);
      DirectoryChoicesStep(entries, k);
      k := k + 1;
    }
    assert entries[..k] == entries;
  }

  /** The body of the second pass for one entry: a regular file is
      labelled and appended; anything else is skipped. */
  method AddFile(head: seq<Item>, prev: seq<Item>, e: DirEntry) returns (r: seq<Item>)
    requires |head| <= |prev| && prev[..|head|] == head
    ensures |r| >= |head| && r[..|head|] == head
    ensures Unnumbered(r[|head|..]) == Unnumbered(prev[|head|..]) + FileChoice(e)
    ensures Contiguous(prev) ==> Contiguous(r)
  {
    r := prev;
    if e.kind == RegularFile {
      var text := FileLabel(e.name);
      r := AddEnd(prev, NewElement(text, e.name, false));
      AppendUnnumbered(head, prev, r, NewElement(text, e.name, false));
    }
  }

  /** The second pass over the directory stream: appends every regular file
      under its label. */
  method AppendFiles(head: seq<Item>, entries: seq<DirEntry>) returns (r: seq<Item>)
    ensures |r| >= |head| && r[..|head|] == head
    ensures Unnumbered(r[|head|..]) == FileChoices(entries)
    ensures Contiguous(head) ==> Contiguous(r)
  {
    r := head;
    assert r[|head|..] == [];
    var k := 0;
    while k < |entries|
      invariant k <= |entries|
      invariant |r| >= |head| && r[..|head|] == head
      invariant Unnumbered(r[|head|..]) == FileChoices(entries[..k])
      invariant Contiguous(head) ==> Contiguous(r)
    {
      r := AddFile(head, r, entries[k]);
      FileChoicesStep(entries, k);
      k := k + 1;
    }
    assert entries[..k] == entries;
  }

  /** The unnumbered view of a list split in two is the two views joined. */
  lemma {:induction false} UnnumberedSplit(s: seq<Item>, k: nat)
    requires k <= |s|
    ensures Unnumbered(s) == Unnumbered(s[..k]) + Unnumbered(s[k..])
    decreases |s|
  {
    if k < |s| {
      UnnumberedSplit(s[..|s| - 1], k);
      assert s[..|s| - 1][..k] == s[..k];
      assert s[..|s| - 1][k..] == s[k..][..|s[k..]| - 1];
    } else {
      assert s[k..] == [];
      assert s[..k] == s;
    }
  }

  /** Two successive extensions of `head` join their unnumbered views. */
  lemma JoinViews(head: seq<Item>, a: seq<Item>, b: seq<Item>)
    requires |head| <= |a| <= |b|
    requires a[..|head|] == head && b[..|a|] == a
    ensures b[..|head|] == head
    ensures Unnumbered(b[|head|..]) == Unnumbered(a[|head|..]) + Unnumbered(b[|a|..])
  {
    assert b[..|head|] == b[..|a|][..|head|];
    UnnumberedSplit(b[|head|..], |a| - |head|);
    assert b[|head|..][..|a| - |head|] == a[|head|..];
    assert b[|head|..][|a| - |head|..] == b[|a|..];
  }

  /** Appends "." and "..", each under its padded label. */
  method AddDots(head: seq<Item>) returns (r: seq<Item>)
    ensures |r| >= |head| && r[..|head|] == head
    ensures Unnumbered(r[|head|..]) == Dots()
    ensures Contiguous(head) ==> Contiguous(r)
  {
    var temp := AddSpaces(CURRENTDIR);
    var prev := head;
    r := AddEnd(prev, NewElement(temp, CURRENTDIR, true));
    AppendUnnumbered(head, prev, r, NewElement(temp, CURRENTDIR, true));
    temp := AddSpaces(CHANGEDIR);
    prev := r;
    r := AddEnd(prev, NewElement(temp, CHANGEDIR, true));
    AppendUnnumbered(head, prev, r, NewElement(temp, CHANGEDIR, true));
  }

  /** Appends ".", "..", then the directories and then the regular files of
      the entry stream to `head`, numbering them on. A directory that cannot
      be opened is the empty stream. */
  method ListFiles(head: seq<Item>, entries: seq<DirEntry>) returns (r: seq<Item>)
    ensures |r| >= |head| && r[..|head|] == head
    ensures Unnumbered(r[|head|..]) == Listing(entries)
    ensures Contiguous(head) ==> Contiguous(r)
  {
    var withDots := AddDots(head);
    var withDirs := AppendDirectories(withDots, entries);
    r := AppendFiles(withDirs, entries);
    JoinViews(head, withDots, withDirs);
    JoinViews(head, withDirs, r);
  }

  /** Every directory choice is a directory other than "." and "..", with a
      15-character label, taken from a DT_DIR entry. */
  lemma {:induction false} DirectoryChoicesAreDirectories(entries: seq<DirEntry>)
    ensures forall p :: 0 <= p < |DirectoryChoices(entries)| ==>
      var c := DirectoryChoices(entries)[p];
      c.isDirectory && c.path != CURRENTDIR && c.path != CHANGEDIR &&
      c.item == DirectoryText(c.path) && |c.item| == MAX_ITEM_LENGTH &&
      DirEntry(c.path, DirectoryEntry) in entries
  {
    if entries != [] {
      var init := entries[..|entries| - 1];
      DirectoryChoicesAreDirectories(init);
      assert forall e :: e in init ==> e in entries;
    }
  }

  /** Every file choice is a non-directory with a 15-character label, taken
      from a DT_REG entry. */
  lemma {:induction false} FileChoicesAreFiles(entries: seq<DirEntry>)
    ensures forall p :: 0 <= p < |FileChoices(entries)| ==>
      var c := FileChoices(entries)[p];
      !c.isDirectory && c.item == FileText(c.path) && |c.item| == MAX_ITEM_LENGTH &&
      DirEntry(c.path, RegularFile) in entries
  {
    if entries != [] {
      var init := entries[..|entries| - 1];
      FileChoicesAreFiles(init);
      assert forall e :: e in init ==> e in entries;
    }
  }

  /** Every DT_DIR entry other than "." and ".." has a directory choice, and
      every DT_REG entry a file choice. */
  lemma {:induction false} EveryEntryListed(entries: seq<DirEntry>)
    ensures forall e :: (e in entries && e.kind == DirectoryEntry &&
      e.name != CURRENTDIR && e.name != CHANGEDIR) ==>
      NewElement(DirectoryText(e.name), e.name, true) in DirectoryChoices(entries)
    ensures forall e :: e in entries && e.kind == RegularFile ==>
      NewElement(FileText(e.name), e.name, false) in FileChoices(entries)
  {
    if entries != [] {
      var init := entries[..|entries| - 1];
      EveryEntryListed(init);
      assert entries == init + [entries[|entries| - 1]];
    }
  }

  /** The listing starts with "." and "..", every label is 15 characters
      wide, and no file comes before a directory. */
  lemma ListingOrder(entries: seq<DirEntry>)
    ensures |Listing(entries)| >= 2
    ensures Listing(entries)[0].path == CURRENTDIR && Listing(entries)[0].isDirectory
    ensures Listing(entries)[1].path == CHANGEDIR && Listing(entries)[1].isDirectory
    ensures forall p :: 0 <= p < |Listing(entries)| ==> |Listing(entries)[p].item| == MAX_ITEM_LENGTH
    ensures forall p, q :: 0 <= p < q < |Listing(entries)| && Listing(entries)[q].isDirectory ==>
      Listing(entries)[p].isDirectory
    ensures forall p :: 2 <= p < |Listing(entries)| ==>
      !(Listing(entries)[p].isDirectory &&
        (Listing(entries)[p].path == CURRENTDIR || Listing(entries)[p].path == CHANGEDIR))
  {
    DirectoryChoicesAreDirectories(entries);
    FileChoicesAreFiles(entries);
    var l := Listing(entries);
    var d := DirectoryChoices(entries);
    forall p, q | 0 <= p < q < |l| && l[q].isDirectory
      ensures l[p].isDirectory
    {
      assert q < 2 + |d|;
    }
    forall p | 2 <= p < |l|
      ensures !(l[p].isDirectory && (l[p].path == CURRENTDIR || l[p].path == CHANGEDIR))
    {
      if p < 2 + |d| {
        assert l[p] == d[p - 2];
      }
    }
  }
}
