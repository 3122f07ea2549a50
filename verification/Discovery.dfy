/** Instruction files found on the way from a directory up to the root, under a size budget. */
module Discovery {
  import opened Bytes
  import opened Ordering

  /** A clean absolute path, by its components; the root has none. */
  type Path = seq<string>

  datatype InstructionFile = InstructionFile(path: Path, content: seq<byte>)

  const MAX_FILE: nat := 4000
  const MAX_TOTAL: nat := 12000
  const GHOSTFIN := "GHOSTFIN.md"
  const LOCAL := "GHOSTFIN.local.md"
  const FOLDER := ".ghostfin"

  /** The marker "[truncated]" on a line of its own. */
  const TRUNCATED: seq<byte> := [10, 91, 116, 114, 117, 110, 99, 97, 116, 101, 100, 93]

  /** The files that can be read, by their paths. */
  type Disk = map<Path, seq<byte>>

  function Clip(content: seq<byte>): (clipped: seq<byte>)
    ensures |clipped| <= MAX_FILE + 12
  {
    if |content| > MAX_FILE then content[..MAX_FILE] + TRUNCATED else content
  }

  function Size(files: seq<InstructionFile>): nat {
    if files == [] then 0 else |files[0].content| + Size(files[1..])
  }

  lemma {:induction false} SizeOfConcat(a: seq<InstructionFile>, b: seq<InstructionFile>)
    ensures Size(a + b) == Size(a) + Size(b)
    decreases |a|
  {
    if a == [] {
      assert a + b == b;
    } else {
      assert (a + b)[1..] == a[1..] + b;
      SizeOfConcat(a[1..], b);
    }
  }

  // ---------------------------------------------------------------- which files are candidates

  /** The directory k levels above the start. */
  function Ancestor(start: Path, k: nat): Path
    requires k <= |start|
  {
    start[..|start| - k]
  }

  /** Did the walk come up from the directory's own .ghostfin folder? */
  predicate FromFolder(start: Path, k: nat)
    requires k <= |start|
  {
    k > 0 && start[|start| - k] == FOLDER
  }

  /** The places to look at in that directory, in order.  The file in its .ghostfin folder has been looked at
      already when the walk comes from there. */
  function Places(start: Path, k: nat): seq<Path>
    requires k <= |start|
  {
    var dir := Ancestor(start, k);
    [dir + [GHOSTFIN]] + (if FromFolder(start, k) then [] else [dir + [FOLDER, GHOSTFIN]]) + [dir + [LOCAL]]
  }

  /** All places from level k on, the nearest directory first. */
  function AllPlaces(start: Path, k: nat): seq<Path>
    requires k <= |start|
    decreases |start| - k
  {
    Places(start, k) + if k == |start| then [] else AllPlaces(start, k + 1)
  }

  // ---------------------------------------------------------------- what is selected

  /** Readable files are taken in order until one does not fit any more. */
  function Take(disk: Disk, places: seq<Path>, room: nat): seq<InstructionFile>
    decreases |places|
  {
    if places == [] then []
    else if places[0] !in disk then Take(disk, places[1..], room)
    else
      var content := Clip(disk[places[0]]);
      if |content| > room then []
      else [InstructionFile(places[0], content)] + Take(disk, places[1..], room - |content|)
  }

  lemma {:induction false} TakeFits(disk: Disk, places: seq<Path>, room: nat)
    ensures Size(Take(disk, places, room)) <= room
    decreases |places|
  {
    if places != [] {
      if places[0] !in disk {
        TakeFits(disk, places[1..], room);
      } else if |Clip(disk[places[0]])| <= room {
        TakeFits(disk, places[1..], room - |Clip(disk[places[0]])|);
      }
    }
  }

  function Left(disk: Disk, places: seq<Path>, room: nat): nat {
    TakeFits(disk, places, room);
    room - Size(Take(disk, places, room))
  }

  /** A file that does not fit ends its directory, not the walk; the walk ends at the root, or when the budget
      is used up exactly. */
  function Walk(disk: Disk, start: Path, k: nat, room: nat): seq<InstructionFile>
    requires k <= |start|
    decreases |start| - k
  {
    var left := Left(disk, Places(start, k), room);
    Take(disk, Places(start, k), room) +
    if left == 0 || k == |start| then [] else Walk(disk, start, k + 1, left)
  }

  function Discovered(disk: Disk, start: Path): seq<InstructionFile> { Walk(disk, start, 0, MAX_TOTAL) }

  // ---------------------------------------------------------------- what a selection looks like

  lemma {:induction false} WalkFits(disk: Disk, start: Path, k: nat, room: nat)
    requires k <= |start|
    ensures Size(Walk(disk, start, k, room)) <= room
    decreases |start| - k
  {
    var here := Take(disk, Places(start, k), room);
    var left := Left(disk, Places(start, k), room);
    TakeFits(disk, Places(start, k), room);
    if left == 0 || k == |start| {
      assert here + [] == here;
    } else {
      WalkFits(disk, start, k + 1, left);
      SizeOfConcat(here, Walk(disk, start, k + 1, left));
    }
  }

  /** Each file is one that can be read, with its content or the cut of it. */
  ghost predicate Genuine(disk: Disk, files: seq<InstructionFile>) {
    forall i :: 0 <= i < |files| ==> files[i].path in disk && files[i].content == Clip(disk[files[i].path])
  }

  /** A file of up to 4000 bytes is taken whole, a longer one is its first 4000 bytes and "[truncated]" on a line
      of its own. */
  lemma ClipMeans(content: seq<byte>)
    ensures |content| <= 4000 ==> Clip(content) == content
    ensures |content| > 4000 ==>
              Clip(content) == content[..4000] + [10, 91, 116, 114, 117, 110, 99, 97, 116, 101, 100, 93]
  {
  }

  lemma {:induction false} TakeIsGenuine(disk: Disk, places: seq<Path>, room: nat)
    ensures Genuine(disk, Take(disk, places, room))
    decreases |places|
  {
    if places != [] {
      if places[0] !in disk {
        TakeIsGenuine(disk, places[1..], room);
      } else if |Clip(disk[places[0]])| <= room {
        TakeIsGenuine(disk, places[1..], room - |Clip(disk[places[0]])|);
      }
    }
  }

  lemma {:induction false} WalkIsGenuine(disk: Disk, start: Path, k: nat, room: nat)
    requires k <= |start|
    ensures Genuine(disk, Walk(disk, start, k, room))
    decreases |start| - k
  {
    var left := Left(disk, Places(start, k), room);
    TakeIsGenuine(disk, Places(start, k), room);
    if left != 0 && k < |start| { WalkIsGenuine(disk, start, k + 1, left); }
  }

  predicate Subsequence(a: seq<Path>, b: seq<Path>)
    decreases |b|
  {
    a == [] || (b != [] && (Subsequence(a, b[1..]) || (a[0] == b[0] && Subsequence(a[1..], b[1..]))))
  }

  lemma NothingIsSubsequence(b: seq<Path>)
    ensures Subsequence([], b)
  {
  }

  function Paths(files: seq<InstructionFile>): (paths: seq<Path>)
    ensures |paths| == |files|
  {
    seq(|files|, i requires 0 <= i < |files| => files[i].path)
  }

  lemma {:induction false} SubsequenceOfConcat(a: seq<Path>, b: seq<Path>, c: seq<Path>, d: seq<Path>)
    requires Subsequence(a, b) && Subsequence(c, d)
    ensures Subsequence(a + c, b + d)
    decreases |b|
  {
    if a == [] {
      assert a + c == c;
      SubsequenceOfMore(c, b, d);
    } else {
      assert (b + d)[1..] == b[1..] + d;
      if Subsequence(a, b[1..]) {
        SubsequenceOfConcat(a, b[1..], c, d);
      } else {
        assert (a + c)[1..] == a[1..] + c;
        SubsequenceOfConcat(a[1..], b[1..], c, d);
      }
    }
  }

  lemma {:induction false} SubsequenceOfMore(c: seq<Path>, b: seq<Path>, d: seq<Path>)
    requires Subsequence(c, d)
    ensures Subsequence(c, b + d)
    decreases |b|
  {
    if b == [] {
      assert b + d == d;
    } else {
      assert (b + d)[1..] == b[1..] + d;
      SubsequenceOfMore(c, b[1..], d);
    }
  }

  lemma {:induction false} TakeIsInOrder(disk: Disk, places: seq<Path>, room: nat)
    ensures Subsequence(Paths(Take(disk, places, room)), places)
    decreases |places|
  {
    hide Clip;
    if places != [] {
      if places[0] !in disk {
        TakeIsInOrder(disk, places[1..], room);
      } else if |Clip(disk[places[0]])| <= room {
        var rest := Take(disk, places[1..], room - |Clip(disk[places[0]])|);
        TakeIsInOrder(disk, places[1..], room - |Clip(disk[places[0]])|);
        var all := Take(disk, places, room);
        assert all == [InstructionFile(places[0], Clip(disk[places[0]]))] + rest;
        hide Take;
        assert Paths(all)[1..] == Paths(rest) && Paths(all)[0] == places[0];
      }
    }
  }

  /** The files come in the order of the places: nearest directory first. */
  lemma {:induction false} WalkIsInOrder(disk: Disk, start: Path, k: nat, room: nat)
    requires k <= |start|
    ensures Subsequence(Paths(Walk(disk, start, k, room)), AllPlaces(start, k))
    decreases |start| - k
  {
    hide Take, Places, Left, Subsequence;
    var here := Take(disk, Places(start, k), room);
    var left := Left(disk, Places(start, k), room);
    TakeIsInOrder(disk, Places(start, k), room);
    var rest := if left == 0 || k == |start| then [] else Walk(disk, start, k + 1, left);
    var above := if k == |start| then [] else AllPlaces(start, k + 1);
    if left != 0 && k < |start| {
      WalkIsInOrder(disk, start, k + 1, left);
    } else {
      NothingIsSubsequence(above);
    }
    SubsequenceOfConcat(Paths(here), Places(start, k), Paths(rest), above);
    assert Paths(here + rest) == Paths(here) + Paths(rest);
  }

  // ---------------------------------------------------------------- no place is looked at twice

  /** Places above a level are too short for that level, but for the file of a .ghostfin folder. */
  lemma {:induction false} PlacesAbove(start: Path, k: nat, p: Path)
    requires k < |start| && p in AllPlaces(start, k + 1)
    ensures |p| <= |start| - k + 1
    ensures |p| == |start| - k + 1 ==> !FromFolder(start, k + 1) && p == Ancestor(start, k + 1) + [FOLDER, GHOSTFIN]
    decreases |start| - k
  {
    if k + 1 < |start| && p !in Places(start, k + 1) { PlacesAbove(start, k + 1, p); }
  }

  lemma PlaceIsNotAbove(start: Path, k: nat, p: Path)
    requires k < |start| && p in Places(start, k)
    ensures p !in AllPlaces(start, k + 1)
  {
    var above := Ancestor(start, k + 1);
    assert Ancestor(start, k) == above + [start[|start| - k - 1]];
    assert p[|above|] == start[|start| - k - 1];
    if p in AllPlaces(start, k + 1) { PlacesAbove(start, k, p); }
  }

  lemma {:induction false} PlacesAreDistinct(start: Path, k: nat)
    requires k <= |start|
    ensures Distinct(AllPlaces(start, k))
    decreases |start| - k
  {
    var here := Places(start, k);
    HereDistinct(start, k);
    if k < |start| {
      PlacesAreDistinct(start, k + 1);
      forall p | p in here ensures p !in AllPlaces(start, k + 1) { PlaceIsNotAbove(start, k, p); }
      DistinctConcat(here, AllPlaces(start, k + 1));
    } else {
      assert here + [] == here;
    }
  }

  lemma HereDistinct(start: Path, k: nat)
    requires k <= |start|
    ensures Distinct(Places(start, k))
  {
    var n := |start| - k;
    forall i, j | 0 <= i < j < |Places(start, k)| ensures Places(start, k)[i] != Places(start, k)[j] {
      assert Places(start, k)[0][n] == GHOSTFIN;
      assert Places(start, k)[|Places(start, k)| - 1][n] == LOCAL;
      assert GHOSTFIN != LOCAL by { assert |GHOSTFIN| != |LOCAL|; }
    }
  }

  lemma DistinctConcat(a: seq<Path>, b: seq<Path>)
    requires Distinct(a) && Distinct(b) && forall x :: x in a ==> x !in b
    ensures Distinct(a + b)
  {
    forall i, j | 0 <= i < j < |a + b| ensures (a + b)[i] != (a + b)[j] {
      if i < |a| <= j { assert a[i] in a && b[j - |a|] in b; }
    }
  }

  lemma {:induction false} SubsequenceIsDistinct(a: seq<Path>, b: seq<Path>)
    requires Subsequence(a, b) && Distinct(b)
    ensures Distinct(a) && forall x :: x in a ==> x in b
    decreases |b|
  {
    if a != [] {
      assert Distinct(b[1..]);
      if Subsequence(a, b[1..]) {
        SubsequenceIsDistinct(a, b[1..]);
      } else {
        SubsequenceIsDistinct(a[1..], b[1..]);
        assert a == [a[0]] + a[1..] && b == [b[0]] + b[1..];
        assert b[0] !in b[1..];
        DistinctConcat([a[0]], a[1..]);
      }
    }
  }

  /** What is found: different files that can be read, nearest directory first, none longer than 4012 bytes,
      all together no longer than 12000. */
  lemma DiscoveredIs(disk: Disk, start: Path)
    ensures var files := Discovered(disk, start);
            && Size(files) <= 12000
            && (forall i :: 0 <= i < |files| ==>
                  && files[i].path in disk && |files[i].content| <= 4012
                  && var content := disk[files[i].path];
                     files[i].content ==
                     if |content| <= 4000 then content
                     else content[..4000] + [10, 91, 116, 114, 117, 110, 99, 97, 116, 101, 100, 93])
            && Subsequence(Paths(files), AllPlaces(start, 0))
            && (forall i, j :: 0 <= i < j < |files| ==> files[i].path != files[j].path)
  {
    var files := Discovered(disk, start);
    WalkFits(disk, start, 0, MAX_TOTAL);
    WalkIsGenuine(disk, start, 0, MAX_TOTAL);
    WalkIsInOrder(disk, start, 0, MAX_TOTAL);
    PlacesAreDistinct(start, 0);
    SubsequenceIsDistinct(Paths(files), AllPlaces(start, 0));
    assert forall i :: 0 <= i < |files| ==> Paths(files)[i] == files[i].path;
    forall i | 0 <= i < |files| { ClipMeans(disk[files[i].path]); }
  }

  /** The places by name.  From level k they are the directory's three candidates in this order, the second left
      out when the walk comes from the folder it is in, and then the places of the parent directory. */
  lemma PlacesAre(start: Path, k: nat)
    requires k <= |start|
    ensures var dir := start[..|start| - k];
            var here := if k > 0 && start[|start| - k] == ".ghostfin"
                        then [dir + ["GHOSTFIN.md"], dir + ["GHOSTFIN.local.md"]]
                        else [dir + ["GHOSTFIN.md"], dir + [".ghostfin", "GHOSTFIN.md"], dir + ["GHOSTFIN.local.md"]];
            AllPlaces(start, k) == here + if k == |start| then [] else AllPlaces(start, k + 1)
  {
  }

  /** One of the three names in the directory n levels above the start. */
  predicate IsCandidate(start: Path, n: nat, p: Path) {
    && n <= |start|
    && var dir := start[..|start| - n];
       p == dir + ["GHOSTFIN.md"] || p == dir + [".ghostfin", "GHOSTFIN.md"] || p == dir + ["GHOSTFIN.local.md"]
  }

  lemma {:induction false} PlaceIsCandidate(start: Path, k: nat, p: Path) returns (n: nat)
    requires k <= |start| && p in AllPlaces(start, k)
    ensures k <= n && IsCandidate(start, n, p)
    decreases |start| - k
  {
    PlacesAre(start, k);
    if p in Places(start, k) {
      n := k;
    } else {
      n := PlaceIsCandidate(start, k + 1, p);
    }
  }

  lemma {:induction false} CandidateIsPlace(start: Path, k: nat, n: nat, p: Path)
    requires k <= n && IsCandidate(start, n, p)
    requires n == k && FromFolder(start, k) ==> p != start[..|start| - k] + [".ghostfin", "GHOSTFIN.md"]
    ensures p in AllPlaces(start, k)
    decreases n - k
  {
    if n > k {
      var dir, parent := start[..|start| - k], start[..|start| - (k + 1)];
      assert dir == parent + [start[|start| - k - 1]];
      if n == k + 1 && FromFolder(start, n) && p == parent + [".ghostfin", "GHOSTFIN.md"] {
        assert p == dir + ["GHOSTFIN.md"];
        assert p == Places(start, k)[0];
      } else {
        CandidateIsPlace(start, k + 1, n, p);
      }
    }
  }

  /** All in all the places are the three names in each directory from the start up to the root. */
  lemma PlaceIff(start: Path, p: Path)
    ensures p in AllPlaces(start, 0) <==> exists n :: IsCandidate(start, n, p)
  {
    if p in AllPlaces(start, 0) { var n := PlaceIsCandidate(start, 0, p); }
    if n :| IsCandidate(start, n, p) { CandidateIsPlace(start, 0, n, p); }
  }

  // ---------------------------------------------------------------- exactly when nothing is left out

  /** Everything that can be read at those places. */
  function Readable(disk: Disk, places: seq<Path>): seq<InstructionFile>
    decreases |places|
  {
    if places == [] then []
    else if places[0] !in disk then Readable(disk, places[1..])
    else [InstructionFile(places[0], Clip(disk[places[0]]))] + Readable(disk, places[1..])
  }

  /** A directory is read up to the first file that does not fit: no file is skipped before it, and none is
      taken behind it. */
  lemma {:induction false} TakeIsPrefix(disk: Disk, places: seq<Path>, room: nat) returns (n: nat)
    ensures n <= |places| && Take(disk, places, room) == Readable(disk, places[..n])
    ensures n < |places| ==>
              places[n] in disk && Size(Readable(disk, places[..n])) + |Clip(disk[places[n]])| > room
    decreases |places|
  {
    if places == [] || (places[0] in disk && |Clip(disk[places[0]])| > room) {
      return 0;
    }
    var left := if places[0] in disk then room - |Clip(disk[places[0]])| else room;
    var m := TakeIsPrefix(disk, places[1..], left);
    n := m + 1;
    assert places[..n][1..] == places[1..][..m] && places[..n][0] == places[0];
  }

  lemma {:induction false} TakeAllIff(disk: Disk, places: seq<Path>, room: nat)
    ensures Size(Readable(disk, places)) <= room ==> Take(disk, places, room) == Readable(disk, places)
    ensures Size(Readable(disk, places)) > room ==> |Take(disk, places, room)| < |Readable(disk, places)|
    decreases |places|
  {
    if places != [] {
      if places[0] !in disk {
        TakeAllIff(disk, places[1..], room);
      } else if |Clip(disk[places[0]])| <= room {
        TakeAllIff(disk, places[1..], room - |Clip(disk[places[0]])|);
      }
    }
  }

  /** Everything that can be read in one directory; and in the directories from level k up to level n. */
  function Level(disk: Disk, start: Path, k: nat): seq<InstructionFile>
    requires k <= |start|
  {
    Readable(disk, Places(start, k))
  }

  function Levels(disk: Disk, start: Path, k: nat, n: nat): seq<InstructionFile>
    requires n <= |start| + 1
    decreases n - k
  {
    if k >= n then [] else Level(disk, start, k) + Levels(disk, start, k + 1, n)
  }

  function FromLevel(disk: Disk, start: Path, k: nat): seq<InstructionFile> {
    Levels(disk, start, k, |start| + 1)
  }

  /** All files fit; and if some directory uses up the room exactly, there is no file above it. */
  ghost predicate EnoughRoom(disk: Disk, start: Path, k: nat, room: nat) {
    && Size(FromLevel(disk, start, k)) <= room
    && forall n :: k < n <= |start| + 1 && Size(Levels(disk, start, k, n)) == room ==>
         Levels(disk, start, k, n) == FromLevel(disk, start, k)
  }

  lemma {:induction false} WalkIsNoLonger(disk: Disk, start: Path, k: nat, room: nat)
    requires k <= |start|
    ensures |Walk(disk, start, k, room)| <= |FromLevel(disk, start, k)|
    decreases |start| - k
  {
    TakeAllIff(disk, Places(start, k), room);
    var left := Left(disk, Places(start, k), room);
    if left != 0 && k < |start| { WalkIsNoLonger(disk, start, k + 1, left); }
  }

  lemma {:induction false} LevelsEmpty(disk: Disk, start: Path, k: nat, n: nat)
    requires n <= |start| + 1 && FromLevel(disk, start, k) == []
    ensures Levels(disk, start, k, n) == []
    decreases n - k
  {
    if k < n { LevelsEmpty(disk, start, k + 1, n); }
  }

  /** The first directory does not fit. */
  lemma TooLittleRoom(disk: Disk, start: Path, k: nat, room: nat)
    requires k <= |start| && Size(Level(disk, start, k)) > room
    ensures Walk(disk, start, k, room) != FromLevel(disk, start, k) && !EnoughRoom(disk, start, k, room)
  {
    var left := Left(disk, Places(start, k), room);
    TakeAllIff(disk, Places(start, k), room);
    if left != 0 && k < |start| { WalkIsNoLonger(disk, start, k + 1, left); }
    SizeOfConcat(Level(disk, start, k), FromLevel(disk, start, k + 1));
  }

  /** The first directory uses up the room. */
  lemma RoomUsedUp(disk: Disk, start: Path, k: nat, room: nat)
    requires k <= |start| && Size(Level(disk, start, k)) == room
    ensures Walk(disk, start, k, room) == FromLevel(disk, start, k) <==> EnoughRoom(disk, start, k, room)
  {
    var here, above := Level(disk, start, k), FromLevel(disk, start, k + 1);
    TakeAllIff(disk, Places(start, k), room);
    SizeOfConcat(here, above);
    assert Levels(disk, start, k, k + 1) == here + [] == here;
    assert Walk(disk, start, k, room) == here + [] == here;
    if above == [] {
      forall n | k < n <= |start| + 1 ensures Levels(disk, start, k, n) == FromLevel(disk, start, k) {
        LevelsEmpty(disk, start, k + 1, n);
      }
    } else {
      assert |here + above| > |here|;
    }
  }

  /** The first directory leaves room for the ones above it. */
  lemma RoomLeft(disk: Disk, start: Path, k: nat, room: nat)
    requires k < |start| && Size(Level(disk, start, k)) < room
    requires Walk(disk, start, k + 1, room - Size(Level(disk, start, k))) == FromLevel(disk, start, k + 1)
             <==> EnoughRoom(disk, start, k + 1, room - Size(Level(disk, start, k)))
    ensures Walk(disk, start, k, room) == FromLevel(disk, start, k) <==> EnoughRoom(disk, start, k, room)
  {
    var here, above := Level(disk, start, k), FromLevel(disk, start, k + 1);
    var left := room - Size(here);
    TakeAllIff(disk, Places(start, k), room);
    SizeOfConcat(here, above);
    var rest := Walk(disk, start, k + 1, left);
    assert Walk(disk, start, k, room) == here + rest && FromLevel(disk, start, k) == here + above;
    SameRest(here, rest, above);
    hide Walk, Level;
    assert Size(Levels(disk, start, k + 1, k + 1)) == 0;
    forall n | k < n <= |start| + 1
      ensures Size(Levels(disk, start, k, n)) == room <==> Size(Levels(disk, start, k + 1, n)) == left
      ensures Levels(disk, start, k, n) == FromLevel(disk, start, k) <==> Levels(disk, start, k + 1, n) == above {
      SizeOfConcat(here, Levels(disk, start, k + 1, n));
      SameRest(here, Levels(disk, start, k + 1, n), above);
    }
    if EnoughRoom(disk, start, k, room) {
      var up := k + 1;
      forall n | up < n <= |start| + 1 && Size(Levels(disk, start, up, n)) == left
        ensures Levels(disk, start, up, n) == above {
        assert Size(Levels(disk, start, k, n)) == room;
      }
    }
    if EnoughRoom(disk, start, k + 1, left) {
      forall n | k < n <= |start| + 1 && Size(Levels(disk, start, k, n)) == room
        ensures Levels(disk, start, k, n) == FromLevel(disk, start, k) {
        assert Size(Levels(disk, start, k + 1, n)) == left && n != k + 1;
      }
    }
  }

  lemma SameRest(here: seq<InstructionFile>, a: seq<InstructionFile>, b: seq<InstructionFile>)
    ensures here + a == here + b <==> a == b
  {
    assert a == (here + a)[|here|..] && b == (here + b)[|here|..];
  }

  lemma {:induction false} WalkIsCompleteIff(disk: Disk, start: Path, k: nat, room: nat)
    requires k <= |start|
    ensures Walk(disk, start, k, room) == FromLevel(disk, start, k) <==> EnoughRoom(disk, start, k, room)
    decreases |start| - k
  {
    var size := Size(Level(disk, start, k));
    if size > room {
      TooLittleRoom(disk, start, k, room);
    } else if size == room {
      RoomUsedUp(disk, start, k, room);
    } else if k < |start| {
      WalkIsCompleteIff(disk, start, k + 1, room - size);
      RoomLeft(disk, start, k, room);
    } else {
      TakeAllIff(disk, Places(start, k), room);
      assert Levels(disk, start, k + 1, k + 1) == [];
      assert FromLevel(disk, start, k) == Level(disk, start, k) + [] == Level(disk, start, k);
      assert Walk(disk, start, k, room) == Level(disk, start, k) + [] == Level(disk, start, k);
    }
  }

  /** Every readable file on the way up is found if and only if all of them fit the budget, and no directory
      that uses it up exactly has a file above it. */
  lemma DiscoveredIsCompleteIff(disk: Disk, start: Path)
    ensures Discovered(disk, start) == FromLevel(disk, start, 0) <==> EnoughRoom(disk, start, 0, 12000)
  {
    WalkIsCompleteIff(disk, start, 0, MAX_TOTAL);
  }

  // ---------------------------------------------------------------- the loops

  const CANDIDATES: seq<Path> := [[GHOSTFIN], [FOLDER, GHOSTFIN], [LOCAL]]

  function Join(dir: Path, i: nat): Path
    requires i < 3
  {
    dir + CANDIDATES[i]
  }

  /** The places of one directory that are still to come at the i-th candidate. */
  function Coming(start: Path, k: nat, i: nat): seq<Path>
    requires k <= |start|
  {
    var dir := Ancestor(start, k);
    if i == 0 then Places(start, k)
    else if i == 1 then (if FromFolder(start, k) then [] else [dir + [FOLDER, GHOSTFIN]]) + [dir + [LOCAL]]
    else if i == 2 then [dir + [LOCAL]]
    else []
  }

  /** What has been seen when the walk comes to a directory: nothing of it, but for the file of the .ghostfin
      folder the walk comes from. */
  ghost predicate SeenBelow(disk: Disk, start: Path, k: nat, seen: set<Path>)
    requires k <= |start|
  {
    && (forall p :: p in seen ==> |p| >= |start| - k + 2)
    && var twice := Ancestor(start, k) + [FOLDER, GHOSTFIN];
       twice in seen <==> FromFolder(start, k) && twice in disk
  }

  /** What has been seen while the directory is scanned. */
  ghost predicate SeenHere(disk: Disk, start: Path, k: nat, i: nat, below: set<Path>, seen: set<Path>)
    requires k <= |start|
  {
    && below <= seen
    && (forall p :: p in seen ==> p in below || exists j :: 0 <= j < i && j < 3 && p == Join(Ancestor(start, k), j))
    && (i > 0 && Ancestor(start, k) + [GHOSTFIN] in disk ==> Ancestor(start, k) + [GHOSTFIN] in seen)
  }

  lemma NextCandidate(disk: Disk, start: Path, k: nat, i: nat, below: set<Path>, seen: set<Path>)
    requires k <= |start| && i < 3
    requires SeenBelow(disk, start, k, below) && SeenHere(disk, start, k, i, below, seen)
    ensures var place := Join(Ancestor(start, k), i);
            if place in seen then i == 1 && FromFolder(start, k) && Coming(start, k, i) == Coming(start, k, i + 1)
            else if place !in disk then
              Coming(start, k, i) == Coming(start, k, i + 1) || Coming(start, k, i) == [place] + Coming(start, k, i + 1)
            else Coming(start, k, i) == [place] + Coming(start, k, i + 1)
  {
    var dir := Ancestor(start, k);
    var place := Join(dir, i);
    assert place[|dir|..] == CANDIDATES[i];
    CandidatesDiffer();
    forall j | 0 <= j < i ensures place != Join(dir, j) {
      assert (Join(dir, j))[|dir|..] == CANDIDATES[j];
    }
  }

  lemma CandidatesDiffer()
    ensures Distinct(CANDIDATES)
  {
    assert GHOSTFIN != LOCAL by { assert |GHOSTFIN| != |LOCAL|; }
    assert CANDIDATES[0][0] == GHOSTFIN && CANDIDATES[2][0] == LOCAL;
  }

  lemma SeenNext(disk: Disk, start: Path, k: nat, i: nat, below: set<Path>, seen: set<Path>)
    requires k < |start| && i > 0
    requires SeenBelow(disk, start, k, below) && SeenHere(disk, start, k, i, below, seen)
    requires forall p :: p in seen - below ==> p in disk
    ensures SeenBelow(disk, start, k + 1, seen)
  {
    var dir, parent := Ancestor(start, k), Ancestor(start, k + 1);
    var name := start[|start| - k - 1];
    assert dir == parent + [name];
    var twice := parent + [FOLDER, GHOSTFIN];
    assert FromFolder(start, k + 1) <==> name == FOLDER;
    assert name == FOLDER ==> twice == dir + [GHOSTFIN];
    if twice in seen {
      assert twice !in below;
      var j :| 0 <= j < i && j < 3 && twice == Join(dir, j);
      assert twice[|parent|] == name;
    }
  }

  lemma TakeStep(disk: Disk, place: Path, rest: seq<Path>, room: nat)
    ensures Take(disk, [place] + rest, room) ==
            if place !in disk then Take(disk, rest, room)
            else if |Clip(disk[place])| > room then []
            else [InstructionFile(place, Clip(disk[place]))] + Take(disk, rest, room - |Clip(disk[place])|)
  {
    assert ([place] + rest)[1..] == rest;
  }

  /** Passing a candidate, or adding it to what has been seen. */
  lemma SeenMore(disk: Disk, start: Path, k: nat, i: nat, below: set<Path>, seen: set<Path>)
    requires k <= |start| && i < 3
    requires SeenBelow(disk, start, k, below) && SeenHere(disk, start, k, i, below, seen)
    ensures var place := Join(Ancestor(start, k), i);
            && SeenHere(disk, start, k, i + 1, below, seen + {place})
            && (place in seen || place !in disk ==> SeenHere(disk, start, k, i + 1, below, seen))
  {
  }

  /** What is taken from the i-th candidate on. */
  lemma TakeNext(disk: Disk, start: Path, k: nat, i: nat, below: set<Path>, seen: set<Path>, room: nat)
    requires k <= |start| && i < 3
    requires SeenBelow(disk, start, k, below) && SeenHere(disk, start, k, i, below, seen)
    ensures var place := Join(Ancestor(start, k), i);
            Take(disk, Coming(start, k, i), room) ==
            if place in seen || place !in disk then Take(disk, Coming(start, k, i + 1), room)
            else if |Clip(disk[place])| > room then []
            else [InstructionFile(place, Clip(disk[place]))] +
                 Take(disk, Coming(start, k, i + 1), room - |Clip(disk[place])|)
  {
    var place := Join(Ancestor(start, k), i);
    NextCandidate(disk, start, k, i, below, seen);
    TakeStep(disk, place, Coming(start, k, i + 1), room);
    hide Take, Coming, SeenHere, SeenBelow, Places, Clip;
  }

  /** The walk has come to level k: what is found so far and what the rest of the walk adds make up the whole. */
  ghost predicate Walking(disk: Disk, start: Path, k: nat, files: seq<InstructionFile>, seen: set<Path>, total: nat) {
    && k <= |start| && total == Size(files) <= MAX_TOTAL && SeenBelow(disk, start, k, seen)
    && Discovered(disk, start) == files + Walk(disk, start, k, MAX_TOTAL - total)
  }

  /** The scan of level k has come to the i-th candidate; found and below are what the level started with. */
  ghost predicate Scanning(disk: Disk, start: Path, k: nat, i: nat, found: seq<InstructionFile>, below: set<Path>,
                           files: seq<InstructionFile>, seen: set<Path>, total: nat)
  {
    && Walking(disk, start, k, found, below, Size(found)) && total == Size(files) <= MAX_TOTAL
    && SeenHere(disk, start, k, i, below, seen) && (forall p :: p in seen - below ==> p in disk)
    && found + Take(disk, Places(start, k), MAX_TOTAL - Size(found)) ==
       files + Take(disk, Coming(start, k, i), MAX_TOTAL - total)
  }

  ghost predicate Scanned(disk: Disk, start: Path, k: nat, found: seq<InstructionFile>, below: set<Path>,
                          files: seq<InstructionFile>, seen: set<Path>, total: nat)
  {
    && Walking(disk, start, k, found, below, Size(found)) && total == Size(files) <= MAX_TOTAL
    && files == found + Take(disk, Places(start, k), MAX_TOTAL - Size(found))
    && (k < |start| ==> SeenBelow(disk, start, k + 1, seen))
  }

  lemma WalkStarts(disk: Disk, start: Path)
    ensures Walking(disk, start, 0, [], {}, 0)
  {
    assert [] + Walk(disk, start, 0, MAX_TOTAL) == Walk(disk, start, 0, MAX_TOTAL);
  }

  lemma NothingSeenHere(disk: Disk, start: Path, k: nat, seen: set<Path>)
    requires k <= |start|
    ensures SeenHere(disk, start, k, 0, seen, seen)
  {
  }

  lemma ScanStarts(disk: Disk, start: Path, k: nat, files: seq<InstructionFile>, seen: set<Path>, total: nat)
    requires Walking(disk, start, k, files, seen, total)
    ensures Scanning(disk, start, k, 0, files, seen, files, seen, total)
  {
    NothingSeenHere(disk, start, k, seen);
    hide Take, Walk, Size, SeenBelow, SeenHere, Places, Discovered;
  }

  lemma ScanSkips(disk: Disk, start: Path, k: nat, i: nat, found: seq<InstructionFile>, below: set<Path>,
                  files: seq<InstructionFile>, seen: set<Path>, total: nat)
    requires Scanning(disk, start, k, i, found, below, files, seen, total) && i < 3
    requires var place := Join(Ancestor(start, k), i); place in seen || place !in disk
    ensures Scanning(disk, start, k, i + 1, found, below, files, seen, total)
  {
    hide Take, Walk, Size, Coming, SeenHere, SeenBelow, Places, Discovered, Join, Ancestor, Clip;
    TakeNext(disk, start, k, i, below, seen, MAX_TOTAL - total);
    SeenMore(disk, start, k, i, below, seen);
  }

  lemma SizeOfOneMore(files: seq<InstructionFile>, file: InstructionFile)
    ensures Size(files + [file]) == Size(files) + |file.content|
  {
    SizeOfConcat(files, [file]);
    assert Size([file]) == |file.content| + Size([]);
  }

  lemma ScanTakes(disk: Disk, start: Path, k: nat, i: nat, found: seq<InstructionFile>, below: set<Path>,
                  files: seq<InstructionFile>, seen: set<Path>, total: nat)
    requires Scanning(disk, start, k, i, found, below, files, seen, total) && i < 3
    requires var place := Join(Ancestor(start, k), i);
             place !in seen && place in disk && total + |Clip(disk[place])| <= MAX_TOTAL
    ensures var place := Join(Ancestor(start, k), i);
            var content := Clip(disk[place]);
            Scanning(disk, start, k, i + 1, found, below, files + [InstructionFile(place, content)], seen + {place},
                     total + |content|)
  {
    hide Take, Walk, Size, Coming, SeenHere, SeenBelow, Places, Discovered, Join, Ancestor, Clip;
    var place := Join(Ancestor(start, k), i);
    var file := InstructionFile(place, Clip(disk[place]));
    TakeNext(disk, start, k, i, below, seen, MAX_TOTAL - total);
    SeenMore(disk, start, k, i, below, seen);
    SizeOfOneMore(files, file);
    Regroup(files, [file], Take(disk, Coming(start, k, i + 1), MAX_TOTAL - total - |file.content|));
  }

  lemma ScanStops(disk: Disk, start: Path, k: nat, i: nat, found: seq<InstructionFile>, below: set<Path>,
                  files: seq<InstructionFile>, seen: set<Path>, total: nat)
    requires Scanning(disk, start, k, i, found, below, files, seen, total) && i < 3
    requires var place := Join(Ancestor(start, k), i);
             place !in seen && place in disk && total + |Clip(disk[place])| > MAX_TOTAL
    ensures Scanned(disk, start, k, found, below, files, seen + {Join(Ancestor(start, k), i)}, total)
  {
    hide Take, Walk, Size, Coming, SeenHere, SeenBelow, Places, Discovered, Join, Ancestor, Clip;
    var place := Join(Ancestor(start, k), i);
    TakeNext(disk, start, k, i, below, seen, MAX_TOTAL - total);
    SeenMore(disk, start, k, i, below, seen);
    Regroup(files, [], []);
    if k < |start| { SeenNext(disk, start, k, i + 1, below, seen + {place}); }
  }

  lemma ScanEnds(disk: Disk, start: Path, k: nat, found: seq<InstructionFile>, below: set<Path>,
                 files: seq<InstructionFile>, seen: set<Path>, total: nat)
    requires Scanning(disk, start, k, 3, found, below, files, seen, total)
    ensures Scanned(disk, start, k, found, below, files, seen, total)
  {
    assert Take(disk, Coming(start, k, 3), MAX_TOTAL - total) == [];
    hide Take, Walk, Size, Coming, SeenHere, SeenBelow, Places;
    Regroup(files, [], []);
    if k < |start| { SeenNext(disk, start, k, 3, below, seen); }
  }

  /** After a scan: one directory up, or the end. */
  lemma ScannedThen(disk: Disk, start: Path, k: nat, found: seq<InstructionFile>, below: set<Path>,
                    files: seq<InstructionFile>, seen: set<Path>, total: nat)
    requires Scanned(disk, start, k, found, below, files, seen, total)
    ensures k < |start| && total < MAX_TOTAL ==> Walking(disk, start, k + 1, files, seen, total)
    ensures k == |start| || total >= MAX_TOTAL ==> files == Discovered(disk, start)
  {
    hide Take, Walk, Size, Places, SeenBelow, Discovered, Ancestor;
    var here := Take(disk, Places(start, k), MAX_TOTAL - Size(found));
    SizeOfConcat(found, here);
    WalkStep(disk, start, k, MAX_TOTAL - Size(found), here);
    if k < |start| && total < MAX_TOTAL {
      Regroup(found, here, Walk(disk, start, k + 1, MAX_TOTAL - total));
    }
  }

  lemma Regroup(a: seq<InstructionFile>, b: seq<InstructionFile>, c: seq<InstructionFile>)
    ensures a + (b + c) == a + b + c && a + [] == a && [] + c == c
  {
  }

  lemma WalkStep(disk: Disk, start: Path, k: nat, room: nat, here: seq<InstructionFile>)
    requires k <= |start| && here == Take(disk, Places(start, k), room)
    ensures Size(here) <= room
    ensures Walk(disk, start, k, room) ==
            if Size(here) == room || k == |start| then here else here + Walk(disk, start, k + 1, room - Size(here))
  {
    TakeFits(disk, Places(start, k), room);
    assert here + [] == here;
  }

  /** Up the directories, until the budget is used up or the root is done; in each, over the candidates, until
      a file does not fit. */
  method DiscoverInstructionFiles(disk: Disk, start: Path) returns (files: seq<InstructionFile>)
    ensures files == Discovered(disk, start)
  {
    hide Walking, Scanning, Scanned, Discovered, Clip, Join;
    files := [];
    var seen: set<Path> := {};
    var total: nat := 0;
    var dir := start;
    ghost var k: nat := 0;
    WalkStarts(disk, start);
    while true
      invariant k <= |start| && dir == Ancestor(start, k)
      invariant Walking(disk, start, k, files, seen, total)
      decreases |dir|
    {
      ghost var found, below, stopped := files, seen, false;
      ScanStarts(disk, start, k, files, seen, total);
      for i := 0 to 3
        invariant !stopped && Scanning(disk, start, k, i, found, below, files, seen, total)
      {
        var path := Join(dir, i);
        if path in seen {
          ScanSkips(disk, start, k, i, found, below, files, seen, total);
          continue;
        }
        if path !in disk {
          ScanSkips(disk, start, k, i, found, below, files, seen, total);
          continue;
        }
        ghost var before := seen;
        seen := seen + {path};
        var content := Clip(disk[path]);
        if total + |content| > MAX_TOTAL {
          ScanStops(disk, start, k, i, found, below, files, before, total);
          stopped := true;
          break;
        }
        ScanTakes(disk, start, k, i, found, below, files, before, total);
        total := total + |content|;
        files := files + [InstructionFile(path, content)];
      }
      if !stopped { ScanEnds(disk, start, k, found, below, files, seen, total); }
      ScannedThen(disk, start, k, found, below, files, seen, total);
      if total >= MAX_TOTAL {
        break;
      }
      if dir == [] {
        break;
      }
      dir := dir[..|dir| - 1];
      k := k + 1;
    }
  }
}
